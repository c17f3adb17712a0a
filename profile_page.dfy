// pages/student/StudentProfilePage.tsx: the skills editor, the merge of
// skills extracted from a resume, the save-status state machine of the
// page, typing into the form and the avatar's initial.

module ProfilePage {
  import opened Common

  // ---------------------------------------------------------------------
  // SkillsModal (:13-35)
  // ---------------------------------------------------------------------

  /** `handleAddSkill` (:21-26): the skills and the input box afterwards. */
  function AddSkill(skills: seq<string>, newSkill: string): (r: (seq<string>, string))
    ensures newSkill != "" && newSkill !in skills ==> r == (skills + [newSkill], "")
    ensures !(newSkill != "" && newSkill !in skills) ==> r == (skills, newSkill)
  {
    if newSkill != "" && newSkill !in skills then (skills + [newSkill], "") else (skills, newSkill)
  }

  /** Adding never lets a skill in twice. */
  lemma AddSkillKeepsNoDup(skills: seq<string>, newSkill: string)
    requires NoDup(skills)
    ensures NoDup(AddSkill(skills, newSkill).0)
  {
  }

  function Unequal(x: string): string -> bool {
    (s: string) => s != x
  }

  /** `handleRemoveSkill` (:28-30). */
  function RemoveSkill(skills: seq<string>, x: string): (r: seq<string>)
    ensures x !in r
    ensures forall s :: s in skills && s != x ==> s in r
    ensures IsSubsequence(r, skills)
    ensures forall s :: s != x ==> multiset(r)[s] == multiset(skills)[s]
  {
    FilterIsSubsequence(skills, Unequal(x));
    FilterMultiplicities(skills, Unequal(x));
    Filter(skills, Unequal(x))
  }

  /** Removing a skill just added gives back the list it was added to. */
  lemma AddThenRemove(skills: seq<string>, newSkill: string)
    requires newSkill != "" && newSkill !in skills
    ensures RemoveSkill(AddSkill(skills, newSkill).0, newSkill) == skills
  {
    FilterAppend(skills, [newSkill], Unequal(newSkill));
    FilterKeepsAll(skills, Unequal(newSkill));
    assert Filter([newSkill], Unequal(newSkill)) == [];
    assert skills + [] == skills;
  }

  // ---------------------------------------------------------------------
  // The resume merge (:122-123): [...new Set([...currentSkills, ...extracted])]
  // ---------------------------------------------------------------------

  /** The elements of `s` in the order a Set first receives them. */
  function Dedupe(s: seq<string>): (r: seq<string>)
    ensures NoDup(r)
    ensures forall x :: x in r <==> x in s
    decreases |s|
  {
    if s == [] then []
    else
      var d := Dedupe(s[..|s| - 1]);
      if s[|s| - 1] in d then d else d + [s[|s| - 1]]
  }

  /** A list without repeats passes through unchanged. */
  lemma {:induction false} DedupeNoDup(s: seq<string>)
    requires NoDup(s)
    ensures Dedupe(s) == s
    decreases |s|
  {
    if s != [] {
      DedupeNoDup(s[..|s| - 1]);
    }
  }

  /** What the set received first stays first. */
  lemma {:induction false} DedupePrefix(a: seq<string>, b: seq<string>)
    ensures |Dedupe(a)| <= |Dedupe(a + b)| && Dedupe(a + b)[..|Dedupe(a)|] == Dedupe(a)
    decreases |b|
  {
    if b == [] {
      assert a + b == a;
    } else {
      var b' := b[..|b| - 1];
      DedupePrefix(a, b');
      assert (a + b)[..|a + b| - 1] == a + b';
    }
  }

  function MergeSkills(current: Option<seq<string>>, extracted: seq<string>): seq<string> {
    var base := if current.Some? then current.value else [];
    Dedupe(base + extracted)
  }

  /** The merged skills are the current ones, in their order, followed by
      the extracted ones not already present, each once. */
  lemma MergeKeepsCurrentFirst(current: seq<string>, extracted: seq<string>)
    requires NoDup(current)
    ensures var m := MergeSkills(Some(current), extracted);
      NoDup(m) && |current| <= |m| && m[..|current|] == current &&
      (forall x :: x in m <==> x in current || x in extracted)
  {
    DedupeNoDup(current);
    DedupePrefix(current, extracted);
  }

  // ---------------------------------------------------------------------
  // The page's save status and profile (:84-88, 112-138, 177-221)
  // ---------------------------------------------------------------------

  datatype SaveStatus = Idle | Saving | Success | Error

  /** The profile as the form holds it: the text inputs by name, and the
      skills list. */
  datatype Profile = Profile(fields: map<string, string>, skills: Option<seq<string>>)

  datatype Variant = Primary | Danger | SuccessVariant

  /** `getSaveButtonVariant` (:201-205). */
  function SaveButtonVariant(s: SaveStatus): (r: Variant)
    ensures r == SuccessVariant <==> s == Success
    ensures r == Danger <==> s == Error
    ensures r == Primary <==> (s.Idle? || s.Saving?)
  {
    if s == Success then SuccessVariant else if s == Error then Danger else Primary
  }

  class ProfileState {
    var profile: Option<Profile>
    var saveStatus: SaveStatus

    constructor (p: Option<Profile>)
      ensures profile == p && saveStatus == Idle
    {
      profile := p;
      saveStatus := Idle;
    }

    /** The synchronous part of `handleSaveProfile`, up to the request:
        nothing without a profile, else 'saving'. */
    method BeginSave()
      modifies this`saveStatus
      ensures saveStatus == if profile.None? then old(saveStatus) else Saving
    {
      if profile.None? {
        return;
      }
      saveStatus := Saving;
    }

    /** The rest, once the request settles. */
    method FinishSave(requestOk: bool)
      requires saveStatus == Saving
      modifies this`saveStatus
      ensures saveStatus == if requestOk then Success else Error
    {
      if requestOk {
        saveStatus := Success;
      } else {
        saveStatus := Error;
      }
    }

    /** A whole save: from any state, a profile ends in 'success' or
        'error' after passing through 'saving'. */
    method SaveProfile(requestOk: bool)
      modifies this`saveStatus
      ensures profile.None? ==> saveStatus == old(saveStatus)
      ensures profile.Some? ==> saveStatus == if requestOk then Success else Error
    {
      BeginSave();
      if profile.Some? {
        FinishSave(requestOk);
      }
    }

    /** The timer set after a successful save puts the status back to
        'idle', whatever it is by then. */
    method SaveTimerFires()
      modifies this`saveStatus
      ensures saveStatus == Idle
    {
      saveStatus := Idle;
    }

    /** `handleInputChange` (:207-213): an error clears back to 'idle', and
        only the named field takes the typed value. */
    method InputChange(name: string, value: string)
      modifies this
      ensures saveStatus == if old(saveStatus) == Error then Idle else old(saveStatus)
      ensures old(profile).None? ==> profile.None?
      ensures old(profile).Some? ==>
        profile == Some(old(profile).value.(fields := old(profile).value.fields[name := value]))
    {
      if saveStatus == Error {
        saveStatus := Idle;
      }
      if profile.Some? {
        profile := Some(profile.value.(fields := profile.value.fields[name := value]));
      }
    }

    /** `handleSaveSkills` (:215-221): the skills are replaced and saved. */
    method SaveSkills(newSkills: seq<string>, requestOk: bool)
      modifies this
      ensures old(profile).None? ==> profile.None? && saveStatus == old(saveStatus)
      ensures old(profile).Some? ==>
        profile == Some(old(profile).value.(skills := Some(newSkills))) &&
        saveStatus == if requestOk then Success else Error
    {
      if profile.Some? {
        profile := Some(profile.value.(skills := Some(newSkills)));
        SaveProfile(requestOk);
      }
    }

    /** `handleFileChange` (:112-138) once the resume is read: the status
        resets to 'idle'; a failed extraction ends in 'error' with the
        profile unchanged; else the merged skills are shown and saved.
        `extracted` is None when the extraction fails. */
    method ResumeAnalyzed(extracted: Option<seq<string>>, requestOk: bool)
      modifies this
      ensures old(profile).None? ==> profile == old(profile) && saveStatus == old(saveStatus)
      ensures old(profile).Some? && extracted.None? ==> profile == old(profile) && saveStatus == Error
      ensures old(profile).Some? && extracted.Some? ==>
        profile == Some(old(profile).value.(skills := Some(MergeSkills(old(profile).value.skills, extracted.value)))) &&
        saveStatus == if requestOk then Success else Error
    {
      if profile.None? {
        return;
      }
      saveStatus := Idle;
      if extracted.None? {
        saveStatus := Error;
        return;
      }
      var updated := MergeSkills(profile.value.skills, extracted.value);
      profile := Some(profile.value.(skills := Some(updated)));
      SaveProfile(requestOk);
    }
  }

  // ---------------------------------------------------------------------
  // AvatarPlaceholder (:73-80)
  // ---------------------------------------------------------------------

  /** `name?.charAt(0).toUpperCase() || '?'` */
  function AvatarInitial(name: Option<string>): (r: string)
    ensures |r| == 1
    ensures Truthy(name) ==> r[0] == UpperChar(name.value[0])
    ensures !Truthy(name) ==> r == "?"
  {
    if Truthy(name) then [UpperChar(name.value[0])] else "?"
  }

  /** The initial is never a lower-case letter. */
  lemma AvatarInitialNotLower(name: Option<string>)
    ensures !('a' <= AvatarInitial(name)[0] <= 'z')
  {
  }
}
