// The allocations one engine run computes from the tables it reads
// (backend/routes/admin.js:212-268), and what is proved about them.

module EnginePlan {
  import opened Common
  import opened Database
  import opened EngineCandidates
  import opened EngineScoring
  import opened EngineSort
  import opened EngineGreedy

  /** Build, score, sort and assign. */
  function Plan(profiles: seq<ProfileRow>, prefs: seq<PrefRow>, internships: seq<InternshipRow>,
                w: Weights, ai: nat -> AiReply): seq<Scored> {
    Assign(SortDesc(ScoreAll(PotentialMatches(profiles, prefs, internships), w, ai)))
  }

  function PlannedAllocations(profiles: seq<ProfileRow>, prefs: seq<PrefRow>, internships: seq<InternshipRow>,
                              w: Weights, ai: nat -> AiReply): seq<AllocationRow> {
    Allocations(Plan(profiles, prefs, internships, w, ai))
  }

  /** Every taken candidate is one of the potential matches. */
  lemma PlanFromCandidates(profiles: seq<ProfileRow>, prefs: seq<PrefRow>, internships: seq<InternshipRow>,
                           w: Weights, ai: nat -> AiReply, i: nat)
    requires i < |Plan(profiles, prefs, internships, w, ai)|
    ensures Plan(profiles, prefs, internships, w, ai)[i].candidate in PotentialMatches(profiles, prefs, internships)
  {
    var potential := PotentialMatches(profiles, prefs, internships);
    var scored := ScoreAll(potential, w, ai);
    var sorted := SortDesc(scored);
    var plan := Assign(sorted);
    AssignSubsequence(sorted);
    SubsequenceMembers(plan, sorted);
    SortDescPermutation(scored);
    assert plan[i] in multiset(scored);
    var k :| 0 <= k < |scored| && scored[k] == plan[i];
  }

  /** No student and no internship appears in two allocations of a run. */
  lemma PlanOneToOne(profiles: seq<ProfileRow>, prefs: seq<PrefRow>, internships: seq<InternshipRow>,
                     w: Weights, ai: nat -> AiReply)
    ensures var rows := PlannedAllocations(profiles, prefs, internships, w, ai);
      forall i, j :: 0 <= i < j < |rows| ==>
        rows[i].studentId != rows[j].studentId && rows[i].internshipId != rows[j].internshipId
  {
    AssignOneToOne(SortDesc(ScoreAll(PotentialMatches(profiles, prefs, internships), w, ai)));
  }

  /** Every allocation has status "Matched" and comes from a candidate: its
      internship is Active and its student has a preference row for it. */
  lemma PlanRowsAreCandidates(profiles: seq<ProfileRow>, prefs: seq<PrefRow>, internships: seq<InternshipRow>,
                              w: Weights, ai: nat -> AiReply, i: nat)
    requires i < |PlannedAllocations(profiles, prefs, internships, w, ai)|
    ensures var row := PlannedAllocations(profiles, prefs, internships, w, ai)[i];
      row.status == "Matched" &&
      exists c :: c in PotentialMatches(profiles, prefs, internships) &&
        c.student.userId == row.studentId && c.internship.id == row.internshipId &&
        c.internship.status == "Active" && c.pref in prefs && Matches(c.pref, row.studentId, row.internshipId)
  {
    PlanFromCandidates(profiles, prefs, internships, w, ai, i);
    var c := Plan(profiles, prefs, internships, w, ai)[i].candidate;
    PotentialMatchesExactly(profiles, prefs, internships, c);
  }

  /** Allocations come out by non-increasing score. */
  lemma PlanOrdered(profiles: seq<ProfileRow>, prefs: seq<PrefRow>, internships: seq<InternshipRow>,
                    w: Weights, ai: nat -> AiReply)
    ensures var rows := PlannedAllocations(profiles, prefs, internships, w, ai);
      forall i, j :: 0 <= i < j < |rows| ==> rows[i].score100 >= rows[j].score100
  {
    var scored := ScoreAll(PotentialMatches(profiles, prefs, internships), w, ai);
    SortDescSorted(scored);
    AssignSorted(SortDesc(scored));
  }

  /** Maximality: every candidate's student or internship is allocated, so
      no candidate could be added to the run's allocations. */
  lemma PlanMaximal(profiles: seq<ProfileRow>, prefs: seq<PrefRow>, internships: seq<InternshipRow>,
                    w: Weights, ai: nat -> AiReply, c: Candidate)
    requires c in PotentialMatches(profiles, prefs, internships)
    ensures var rows := PlannedAllocations(profiles, prefs, internships, w, ai);
      (exists i :: 0 <= i < |rows| && rows[i].studentId == c.student.userId) ||
      (exists i :: 0 <= i < |rows| && rows[i].internshipId == c.internship.id)
  {
    var potential := PotentialMatches(profiles, prefs, internships);
    var scored := ScoreAll(potential, w, ai);
    var sorted := SortDesc(scored);
    assert PlannedAllocations(profiles, prefs, internships, w, ai) == Allocations(Assign(sorted));
    var k :| 0 <= k < |potential| && potential[k] == c;
    var x := scored[k];
    assert StudentOf(x) == c.student.userId && InternshipOf(x) == c.internship.id;
    SortDescPermutation(scored);
    assert x in multiset(sorted);
    AllocationsCover(sorted, x);
  }
}
