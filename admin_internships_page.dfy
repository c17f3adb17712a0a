// pages/admin/AdminManageInternshipsPage.tsx: the status toggle, the
// comma-separated skills of a new internship, the search and the badge.

module AdminInternshipsPage {
  import opened Common
  import opened InternshipRoutes

  /** `handleStatusChange` (:87). */
  function ToggleStatus(current: string): (r: string)
    ensures current == "Active" ==> r == "Closed"
    ensures current != "Active" ==> r == "Active"
    ensures StatusAccepted(Some(r))
  {
    if current == "Active" then "Closed" else "Active"
  }

  /** On the two statuses the server accepts, toggling twice is the
      identity. */
  lemma ToggleInvolution(s: string)
    requires StatusAccepted(Some(s))
    ensures ToggleStatus(ToggleStatus(s)) == s
  {
  }

  function TrimAll(pieces: seq<string>): (r: seq<string>)
    ensures |r| == |pieces|
    ensures forall i :: 0 <= i < |r| ==> r[i] == Trim(pieces[i])
  {
    seq(|pieces|, i requires 0 <= i < |pieces| => Trim(pieces[i]))
  }

  /** `newInternship.skills.split(',').map(s => s.trim())` (:29). */
  function SkillsArray(text: string): (r: seq<string>)
    ensures |r| == multiset(text)[','] + 1
    ensures forall i :: 0 <= i < |r| ==> ',' !in r[i]
  {
    var pieces := Split(text, ',');
    SplitCount(text, ',');
    SplitPiecesHaveNoSep(text, ',');
    forall i | 0 <= i < |pieces|
      ensures ',' !in Trim(pieces[i])
    {
      TrimKeepsOut(pieces[i], ',');
    }
    TrimAll(pieces)
  }

  /** Trimming never brings in a character. */
  lemma TrimKeepsOut(s: string, c: char)
    requires c !in s
    ensures c !in Trim(s)
  {
    var a := TrimStart(s);
    SliceKeepsOut(s, |s| - |a|, |s|, c);
    SliceKeepsOut(a, 0, |TrimEnd(a)|, c);
  }

  lemma SliceKeepsOut(s: string, i: nat, j: nat, c: char)
    requires i <= j <= |s| && c !in s
    ensures c !in s[i..j]
  {
    forall k | 0 <= k < j - i
      ensures s[i..j][k] != c
    {
      assert s[i..j][k] == s[i + k];
    }
  }

  /** An empty box gives one empty skill, not none. */
  lemma EmptySkills()
    ensures SkillsArray("") == [""]
  {
    assert Trim("") == "";
  }

  /** Each piece is the text between two commas with its surrounding white
      space removed. */
  lemma SkillsArrayPieces(text: string)
    ensures SkillsArray(text) == TrimAll(Split(text, ','))
    ensures Join(Split(text, ','), ',') == text
  {
    SplitJoin(text, ',');
  }

  /** The fields of an internship the search reads. */
  datatype InternshipCard = InternshipCard(id: int, title: string, organization: string, status: string)

  function KeptBy(term: string): InternshipCard -> bool {
    (i: InternshipCard) => ContainsCI(i.title, term) || ContainsCI(i.organization, term)
  }

  /** `filteredInternships` (:96-99). */
  function FilteredInternships(all: seq<InternshipCard>, term: string): (r: seq<InternshipCard>)
    ensures IsSubsequence(r, all)
    ensures forall i :: i in r <==> i in all && (ContainsCI(i.title, term) || ContainsCI(i.organization, term))
  {
    FilterIsSubsequence(all, KeptBy(term));
    Filter(all, KeptBy(term))
  }

  datatype Badge = Green | Gray

  /** `StatusBadge` (:9-16): `styles[status] || styles.Closed`. */
  function StatusBadge(status: string): (r: Badge)
    ensures r == Green <==> status == "Active"
  {
    if status == "Active" then Green else Gray
  }
}
