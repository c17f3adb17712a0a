// Fourth stage of the allocation engine (backend/routes/admin.js:249-268):
// the sorted candidates are visited in order and a candidate is taken
// unless its student or its internship is already in the "used" sets.

module EngineGreedy {
  import opened Common
  import opened Database
  import opened EngineCandidates
  import opened EngineScoring
  import opened EngineSort

  function StudentOf(m: Scored): int {
    m.candidate.student.userId
  }

  function InternshipOf(m: Scored): int {
    m.candidate.internship.id
  }

  function UsedStudents(chosen: seq<Scored>): set<int> {
    set m | m in chosen :: StudentOf(m)
  }

  function UsedInternships(chosen: seq<Scored>): set<int> {
    set m | m in chosen :: InternshipOf(m)
  }

  /** `m` shares its student or its internship with a chosen candidate. */
  predicate Blocked(m: Scored, chosen: seq<Scored>) {
    StudentOf(m) in UsedStudents(chosen) || InternshipOf(m) in UsedInternships(chosen)
  }

  /** The candidates the pass takes, in the order it takes them. */
  function Assign(s: seq<Scored>): seq<Scored>
    decreases |s|
  {
    if s == [] then []
    else
      var prev := Assign(s[..|s| - 1]);
      if Blocked(s[|s| - 1], prev) then prev else prev + [s[|s| - 1]]
  }

  /** The row pushed to `finalAllocations` for a taken candidate. */
  function AllocationOf(m: Scored): AllocationRow {
    AllocationRow(StudentOf(m), InternshipOf(m), m.total, "Matched")
  }

  function Allocations(chosen: seq<Scored>): (r: seq<AllocationRow>)
    ensures |r| == |chosen|
    ensures forall i :: 0 <= i < |r| ==> r[i] == AllocationOf(chosen[i])
  {
    seq(|chosen|, i requires 0 <= i < |chosen| => AllocationOf(chosen[i]))
  }

  predicate OneToOne(chosen: seq<Scored>) {
    forall i, j :: 0 <= i < j < |chosen| ==>
      StudentOf(chosen[i]) != StudentOf(chosen[j]) && InternshipOf(chosen[i]) != InternshipOf(chosen[j])
  }

  lemma UsedAppend(prev: seq<Scored>, m: Scored)
    ensures UsedStudents(prev + [m]) == UsedStudents(prev) + {StudentOf(m)}
    ensures UsedInternships(prev + [m]) == UsedInternships(prev) + {InternshipOf(m)}
  {
    assert forall x :: x in prev + [m] <==> x in prev || x == m;
  }

  /** No student and no internship is taken twice. */
  lemma {:induction false} AssignOneToOne(s: seq<Scored>)
    ensures OneToOne(Assign(s))
    decreases |s|
  {
    if s != [] {
      var prev, m := Assign(s[..|s| - 1]), s[|s| - 1];
      AssignOneToOne(s[..|s| - 1]);
      if !Blocked(m, prev) {
        var r := prev + [m];
        forall i, j | 0 <= i < j < |r|
          ensures StudentOf(r[i]) != StudentOf(r[j]) && InternshipOf(r[i]) != InternshipOf(r[j])
        {
          if j == |prev| {
            assert r[i] in prev;
          }
        }
      }
    }
  }

  /** The taken candidates are the candidates with some left out, in the
      same order. */
  lemma {:induction false} AssignSubsequence(s: seq<Scored>)
    ensures IsSubsequence(Assign(s), s)
    decreases |s|
  {
    if s == [] {
    } else {
      var init, m := s[..|s| - 1], s[|s| - 1];
      AssignSubsequence(init);
      SubsequenceExtend(Assign(init), init, m);
      assert init + [m] == s;
    }
  }

  /** Processing more candidates only appends to what was taken. */
  lemma {:induction false} AssignPrefix(s: seq<Scored>, k: nat)
    requires k <= |s|
    ensures Assign(s[..k]) <= Assign(s)
    decreases |s| - k
  {
    if k < |s| {
      AssignPrefix(s, k + 1);
      assert s[..k + 1][..k] == s[..k];
    } else {
      assert s[..k] == s;
    }
  }

  /** Greedy maximality: every candidate shares its student or its
      internship with a taken candidate that comes no later than itself, so
      a candidate is skipped only when an earlier one took its student or
      its internship. */
  lemma AssignMaximal(s: seq<Scored>, k: nat)
    requires k < |s|
    ensures Blocked(s[k], Assign(s[..k + 1]))
    ensures Assign(s[..k + 1]) <= Assign(s)
    ensures Blocked(s[k], Assign(s))
  {
    var prev := Assign(s[..k + 1][..k + 1 - 1]);
    assert s[..k + 1][..k] == s[..k];
    assert s[..k + 1][k] == s[k];
    if !Blocked(s[k], prev) {
      UsedAppend(prev, s[k]);
    }
    AssignPrefix(s, k + 1);
    var a, b := Assign(s[..k + 1]), Assign(s);
    assert forall x :: x in a ==> x in b;
  }

  /** Every candidate of `s` has its student or its internship among the
      taken ones. */
  lemma AssignCovers(s: seq<Scored>, x: Scored)
    requires x in s
    ensures (exists i :: 0 <= i < |Assign(s)| && StudentOf(Assign(s)[i]) == StudentOf(x)) ||
            (exists i :: 0 <= i < |Assign(s)| && InternshipOf(Assign(s)[i]) == InternshipOf(x))
  {
    var n :| 0 <= n < |s| && s[n] == x;
    AssignMaximal(s, n);
    var plan := Assign(s);
    if StudentOf(x) in UsedStudents(plan) {
      var m :| m in plan && StudentOf(m) == StudentOf(x);
      var i :| 0 <= i < |plan| && plan[i] == m;
    } else {
      var m :| m in plan && InternshipOf(m) == InternshipOf(x);
      var i :| 0 <= i < |plan| && plan[i] == m;
    }
  }

  /** The same, read on the allocation rows. */
  lemma AllocationsCover(s: seq<Scored>, x: Scored)
    requires x in s
    ensures var rows := Allocations(Assign(s));
      (exists i :: 0 <= i < |rows| && rows[i].studentId == StudentOf(x)) ||
      (exists i :: 0 <= i < |rows| && rows[i].internshipId == InternshipOf(x))
  {
    AssignCovers(s, x);
  }

  /** Over candidates sorted by non-increasing total, the allocations come
      out by non-increasing total too. */
  lemma {:induction false} AssignSorted(s: seq<Scored>)
    requires SortedDesc(s)
    ensures SortedDesc(Assign(s))
    decreases |s|
  {
    if s != [] {
      var init, m := s[..|s| - 1], s[|s| - 1];
      AssignSorted(init);
      AssignSubsequence(init);
      SubsequenceMembers(Assign(init), init);
      var prev := Assign(init);
      forall i | 0 <= i < |prev|
        ensures prev[i].total >= m.total
      {
        var k :| 0 <= k < |init| && init[k] == prev[i];
      }
    }
  }

  /** The allocation loop with its two "used" sets. */
  method AssignGreedy(potential: array<Scored>) returns (finalAllocations: seq<AllocationRow>)
    ensures finalAllocations == Allocations(Assign(potential[..]))
  {
    var usedStudents: set<int> := {};
    var usedInternships: set<int> := {};
    finalAllocations := [];
    ghost var chosen: seq<Scored> := [];
    var i := 0;
    while i < potential.Length
      invariant 0 <= i <= potential.Length
      invariant chosen == Assign(potential[..i])
      invariant usedStudents == UsedStudents(chosen)
      invariant usedInternships == UsedInternships(chosen)
      invariant finalAllocations == Allocations(chosen)
    {
      var m := potential[i];
      assert potential[..i + 1][..i] == potential[..i];
      if m.candidate.student.userId !in usedStudents && m.candidate.internship.id !in usedInternships {
        finalAllocations := finalAllocations + [AllocationRow(m.candidate.student.userId, m.candidate.internship.id, m.total, "Matched")];
        UsedAppend(chosen, m);
        chosen := chosen + [m];
        usedStudents := usedStudents + {m.candidate.student.userId};
        usedInternships := usedInternships + {m.candidate.internship.id};
      }
      i := i + 1;
    }
    assert potential[..potential.Length] == potential[..];
  }
}
