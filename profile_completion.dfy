// components/ProfileCompletion.tsx: the five-item checklist shown on the
// student dashboard, the completion percentage and the next steps.

module ProfileCompletion {
  import opened Common

  /** The profile fields the checklist reads; None is a missing field. */
  datatype ProfileView = ProfileView(
    name: Option<string>,
    phone: Option<string>,
    university: Option<string>,
    degree: Option<string>,
    branch: Option<string>,
    cgpa: Option<string>,
    resumeUrl: Option<string>,
    skills: Option<seq<string>>)

  datatype Step = Step(name: string, complete: bool, link: Option<string>)

  const SetPreferences := "Set Preferences"

  /** `checklist` (:12-18). */
  function Checklist(p: ProfileView): (r: seq<Step>)
    ensures |r| == 5
    ensures r[0].complete <==> Truthy(p.name) && Truthy(p.phone) && Truthy(p.university)
    ensures r[1].complete <==> Truthy(p.degree) && Truthy(p.branch) && Truthy(p.cgpa)
    ensures r[2].complete <==> Truthy(p.resumeUrl)
    ensures r[3].complete <==> p.skills.Some? && |p.skills.value| > 5
    ensures r[4].name == SetPreferences && !r[4].complete
  {
    [Step("Basic Information", Truthy(p.name) && Truthy(p.phone) && Truthy(p.university), None),
     Step("Academic Details", Truthy(p.degree) && Truthy(p.branch) && Truthy(p.cgpa), None),
     Step("Upload Resume", Truthy(p.resumeUrl), Some("/student/documents")),
     Step("Add Skills", p.skills.Some? && |p.skills.value| > 5, Some("/student/profile#skills")),
     Step(SetPreferences, false, Some("/student/preferences"))]
  }

  function IsComplete(): Step -> bool {
    (s: Step) => s.complete
  }

  function IsIncomplete(): Step -> bool {
    (s: Step) => !s.complete
  }

  /** `completedCount` (:20). */
  function CompletedCount(p: ProfileView): nat {
    |Filter(Checklist(p), IsComplete())|
  }

  /** "Set Preferences" is never complete, so at most four items count. */
  lemma CompletedAtMostFour(p: ProfileView)
    ensures CompletedCount(p) <= 4
  {
    var c := Checklist(p);
    FilterCount(c, IsComplete(), IsIncomplete());
    assert c[4] in Filter(c, IsIncomplete());
  }

  /** `completionPercentage` (:21): a multiple of 20, never above 80. */
  function Percentage(p: ProfileView): (r: int)
    ensures r == 20 * CompletedCount(p)
    ensures r % 20 == 0 && 0 <= r <= 80
  {
    CompletedAtMostFour(p);
    RoundPercent(CompletedCount(p), |Checklist(p)|)
  }

  /** `nextSteps` (:23): the first two incomplete items. */
  function NextSteps(p: ProfileView): (r: seq<Step>)
    ensures 1 <= |r| <= 2
    ensures forall i :: 0 <= i < |r| ==> !r[i].complete && r[i] in Checklist(p)
  {
    var todo := Filter(Checklist(p), IsIncomplete());
    assert Checklist(p)[4] in todo;
    todo[..if |todo| < 2 then |todo| else 2]
  }

  /** The first next step is the earliest incomplete checklist item. */
  lemma NextStepIsFirstIncomplete(p: ProfileView, k: nat)
    requires k < 5 && !Checklist(p)[k].complete
    requires forall j :: 0 <= j < k ==> Checklist(p)[j].complete
    ensures NextSteps(p)[0] == Checklist(p)[k]
  {
    FilterFirst(Checklist(p), IsIncomplete(), k);
  }

  /** With two incomplete items `k1 < k2` and every other item before `k2`
      complete, the next steps are exactly those two, in checklist order. */
  lemma NextStepsAreFirstTwoIncomplete(p: ProfileView, k1: nat, k2: nat)
    requires k1 < k2 < 5 && !Checklist(p)[k1].complete && !Checklist(p)[k2].complete
    requires forall j :: 0 <= j < k1 ==> Checklist(p)[j].complete
    requires forall j :: k1 < j < k2 ==> Checklist(p)[j].complete
    ensures NextSteps(p) == [Checklist(p)[k1], Checklist(p)[k2]]
  {
    var c := Checklist(p);
    FilterFirst(c, IsIncomplete(), k1);
    FilterSecond(c, IsIncomplete(), k1, k2);
    ShownPair(Filter(c, IsIncomplete()), c[k1], c[k2]);
  }

  lemma ShownPair(todo: seq<Step>, a: Step, b: Step)
    requires |todo| >= 2 && todo[0] == a && todo[1] == b
    ensures todo[..if |todo| < 2 then |todo| else 2] == [a, b]
  {
  }

  /** A single next step is shown exactly when the first four items are
      complete; it is then "Set Preferences". */
  lemma OneNextStepIff(p: ProfileView)
    ensures |NextSteps(p)| == 1 <==> forall j :: 0 <= j < 4 ==> Checklist(p)[j].complete
    ensures |NextSteps(p)| == 1 ==> NextSteps(p)[0].name == SetPreferences
  {
    var c := Checklist(p);
    var front := c[..4];
    assert c == front + [c[4]];
    FilterAppend(front, [c[4]], IsIncomplete());
    assert Filter([c[4]], IsIncomplete()) == [c[4]];
    var todo := Filter(c, IsIncomplete());
    assert todo == Filter(front, IsIncomplete()) + [c[4]];
    if forall j :: 0 <= j < 4 ==> c[j].complete {
      FilterNone(front, IsIncomplete());
    } else {
      var j :| 0 <= j < 4 && !c[j].complete;
      assert front[j] == c[j];
      assert front[j] in Filter(front, IsIncomplete());
    }
  }

  /** The Next Steps panel (:35) is shown whenever the percentage is below
      100, which is always. */
  predicate ShowsNextSteps(p: ProfileView) {
    Percentage(p) < 100
  }

  lemma NextStepsAlwaysShown(p: ProfileView)
    ensures ShowsNextSteps(p)
  {
  }
}
