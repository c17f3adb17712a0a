// First stage of the allocation engine (backend/routes/admin.js:212-228):
// every student profile is paired with every Active internship for which
// the student has a preference row.

module EngineCandidates {
  import opened Common
  import opened Database

  /** One entry of `potential`: `{ student, internship, pref }`. */
  datatype Candidate = Candidate(student: ProfileRow, internship: InternshipRow, pref: PrefRow)

  predicate Matches(p: PrefRow, uid: int, iid: int) {
    p.userId == uid && p.internshipId == iid
  }

  /** `prefs.find(p => p.internship_id === iid)` on the student's rows after
      the stable sort by rank: the matching row of least rank, the earliest
      one among equal ranks. */
  function FindPref(rows: seq<PrefRow>, uid: int, iid: int): (r: Option<PrefRow>)
    ensures r.Some? ==> r.value in rows && Matches(r.value, uid, iid)
    ensures r.Some? ==> forall q :: q in rows && Matches(q, uid, iid) ==> r.value.rank <= q.rank
    ensures r.None? <==> forall q :: q in rows ==> !Matches(q, uid, iid)
    decreases |rows|
  {
    if rows == [] then None
    else
      var rest := FindPref(rows[1..], uid, iid);
      if Matches(rows[0], uid, iid) && (rest.None? || rows[0].rank <= rest.value.rank) then Some(rows[0])
      else rest
  }

  /** The found row is the first matching row of least rank: a row `k`
      that matches, has no matching row of smaller rank anywhere, and no
      matching row of the same or smaller rank before it, is the one found. */
  lemma {:induction false} FindPrefEarliestLeast(rows: seq<PrefRow>, uid: int, iid: int, k: nat)
    requires k < |rows| && Matches(rows[k], uid, iid)
    requires forall j :: 0 <= j < |rows| && Matches(rows[j], uid, iid) ==> rows[k].rank <= rows[j].rank
    requires forall j :: 0 <= j < k && Matches(rows[j], uid, iid) ==> rows[j].rank > rows[k].rank
    ensures FindPref(rows, uid, iid) == Some(rows[k])
    decreases k
  {
    if k > 0 {
      var tail := rows[1..];
      assert forall j :: 0 <= j < |tail| ==> tail[j] == rows[j + 1];
      FindPrefEarliestLeast(tail, uid, iid, k - 1);
    }
  }

  /** Restricting the rows to the student's own first (the `filter` at
      line 221) does not change what is found. */
  lemma {:induction false} FindPrefOwnRows(rows: seq<PrefRow>, uid: int, iid: int)
    ensures FindPref(Filter(rows, (p: PrefRow) => p.userId == uid), uid, iid) == FindPref(rows, uid, iid)
    decreases |rows|
  {
    if rows != [] {
      FindPrefOwnRows(rows[1..], uid, iid);
      var own := (p: PrefRow) => p.userId == uid;
      if own(rows[0]) {
        assert Filter(rows, own) == [rows[0]] + Filter(rows[1..], own);
        assert Filter(rows, own)[1..] == Filter(rows[1..], own);
      } else {
        assert Filter(rows, own) == Filter(rows[1..], own);
      }
    }
  }

  /** The candidate for one (student, internship) pair, if any. */
  function Hit(student: ProfileRow, prefs: seq<PrefRow>, internship: InternshipRow): seq<Candidate> {
    match FindPref(prefs, student.userId, internship.id)
    case None => []
    case Some(p) => [Candidate(student, internship, p)]
  }

  /** The inner loop over internships, in internship order. */
  function CandidatesFor(student: ProfileRow, prefs: seq<PrefRow>, internships: seq<InternshipRow>): seq<Candidate>
    decreases |internships|
  {
    if internships == [] then []
    else CandidatesFor(student, prefs, internships[..|internships| - 1]) +
         Hit(student, prefs, internships[|internships| - 1])
  }

  /** The outer loop over students: student order, then internship order. */
  function Candidates(students: seq<ProfileRow>, prefs: seq<PrefRow>, internships: seq<InternshipRow>): seq<Candidate>
    decreases |students|
  {
    if students == [] then []
    else Candidates(students[..|students| - 1], prefs, internships) +
         CandidatesFor(students[|students| - 1], prefs, internships)
  }

  function ActiveOnly(internships: seq<InternshipRow>): seq<InternshipRow> {
    Filter(internships, (i: InternshipRow) => i.status == "Active")
  }

  /** `potential` as built from the three tables read at lines 212-214. */
  function PotentialMatches(profiles: seq<ProfileRow>, prefs: seq<PrefRow>, internships: seq<InternshipRow>): seq<Candidate> {
    Candidates(profiles, prefs, ActiveOnly(internships))
  }

  lemma {:induction false} CandidatesForMembership(student: ProfileRow, prefs: seq<PrefRow>, internships: seq<InternshipRow>, c: Candidate)
    ensures c in CandidatesFor(student, prefs, internships) <==>
      c.student == student && c.internship in internships &&
      FindPref(prefs, student.userId, c.internship.id) == Some(c.pref)
    decreases |internships|
  {
    if internships != [] {
      var init := internships[..|internships| - 1];
      CandidatesForMembership(student, prefs, init, c);
      assert internships == init + [internships[|internships| - 1]];
    }
  }

  lemma {:induction false} CandidatesMembership(students: seq<ProfileRow>, prefs: seq<PrefRow>, internships: seq<InternshipRow>, c: Candidate)
    ensures c in Candidates(students, prefs, internships) <==>
      c.student in students && c.internship in internships &&
      FindPref(prefs, c.student.userId, c.internship.id) == Some(c.pref)
    decreases |students|
  {
    if students != [] {
      var init := students[..|students| - 1];
      CandidatesMembership(init, prefs, internships, c);
      CandidatesForMembership(students[|students| - 1], prefs, internships, c);
      assert students == init + [students[|students| - 1]];
    }
  }

  /** A candidate is exactly a student, an Active internship and the row
      `find` returns for the pair. */
  lemma PotentialMatchesExactly(profiles: seq<ProfileRow>, prefs: seq<PrefRow>, internships: seq<InternshipRow>, c: Candidate)
    ensures c in PotentialMatches(profiles, prefs, internships) <==>
      c.student in profiles && c.internship in internships && c.internship.status == "Active" &&
      FindPref(prefs, c.student.userId, c.internship.id) == Some(c.pref)
  {
    CandidatesMembership(profiles, prefs, ActiveOnly(internships), c);
    if c.internship in internships && c.internship.status == "Active" {
      var k :| 0 <= k < |internships| && internships[k] == c.internship;
    }
  }

  /** A pair of a student and an internship yields a candidate iff the
      internship is Active and the student ranked it: students without
      preferences and Closed internships contribute nothing. */
  lemma PairHasCandidate(profiles: seq<ProfileRow>, prefs: seq<PrefRow>, internships: seq<InternshipRow>,
                         s: ProfileRow, i: InternshipRow)
    ensures (exists c :: c in PotentialMatches(profiles, prefs, internships) && c.student == s && c.internship == i) <==>
      s in profiles && i in internships && i.status == "Active" &&
      exists q :: q in prefs && Matches(q, s.userId, i.id)
  {
    var r := FindPref(prefs, s.userId, i.id);
    if exists c :: c in PotentialMatches(profiles, prefs, internships) && c.student == s && c.internship == i {
      var c :| c in PotentialMatches(profiles, prefs, internships) && c.student == s && c.internship == i;
      PotentialMatchesExactly(profiles, prefs, internships, c);
      assert r.value in prefs && Matches(r.value, s.userId, i.id);
    }
    if s in profiles && i in internships && i.status == "Active" && exists q :: q in prefs && Matches(q, s.userId, i.id) {
      PotentialMatchesExactly(profiles, prefs, internships, Candidate(s, i, r.value));
    }
  }

  /** Under the schema's unique (user_id, internship_id), the pref of a
      candidate is simply the student's row for that internship. */
  lemma UniquePrefIsFound(prefs: seq<PrefRow>, q: PrefRow)
    requires PrefKeysUnique(prefs)
    requires q in prefs
    ensures FindPref(prefs, q.userId, q.internshipId) == Some(q)
  {
    var r := FindPref(prefs, q.userId, q.internshipId);
    var a :| 0 <= a < |prefs| && prefs[a] == r.value;
    var b :| 0 <= b < |prefs| && prefs[b] == q;
  }

  /** The two nested `for` loops that push into `potential`. */
  method BuildCandidates(students: seq<ProfileRow>, preferences: seq<PrefRow>, internships: seq<InternshipRow>)
    returns (potential: seq<Candidate>)
    ensures potential == Candidates(students, preferences, internships)
  {
    potential := [];
    var s := 0;
    while s < |students|
      invariant 0 <= s <= |students|
      invariant potential == Candidates(students[..s], preferences, internships)
    {
      var student := students[s];
      var prefs := Filter(preferences, (p: PrefRow) => p.userId == student.userId);
      var k := 0;
      while k < |internships|
        invariant 0 <= k <= |internships|
        invariant potential == Candidates(students[..s], preferences, internships) +
                               CandidatesFor(student, preferences, internships[..k])
      {
        var internship := internships[k];
        var pref := FindPref(prefs, student.userId, internship.id);
        FindPrefOwnRows(preferences, student.userId, internship.id);
        if pref.Some? {
          potential := potential + [Candidate(student, internship, pref.value)];
        }
        assert internships[..k + 1][..k] == internships[..k];
        k := k + 1;
      }
      assert internships[..k] == internships;
      assert students[..s + 1][..s] == students[..s];
      s := s + 1;
    }
    assert students[..s] == students;
  }
}
