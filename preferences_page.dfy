// pages/student/StudentPreferencesPage.tsx: the ranked-list editor whose
// order becomes the stored ranks. `ranked` is a sequence of internships;
// adding, removing and the list of available internships are pure, and a
// move copies the list and splices it twice.

module PreferencesPage {
  import opened Common
  import opened Database
  import opened EngineCandidates
  import opened StudentRoutes

  /** The fields of an internship the page reads. */
  datatype Listing = Listing(id: int, title: string, organization: string, location: string)

  const MaxRanked: nat := 5
  const AllLocations := "All Locations"

  /** `ranked.map(i => i.id)`, the `rankedIds` sent on save. */
  function Ids(ranked: seq<Listing>): (r: seq<int>)
    ensures |r| == |ranked|
    ensures forall i :: 0 <= i < |r| ==> r[i] == ranked[i].id
  {
    seq(|ranked|, i requires 0 <= i < |ranked| => ranked[i].id)
  }

  /** `ranked.find(r => r.id === id)` is truthy. */
  predicate IsRanked(ranked: seq<Listing>, id: int) {
    exists i :: 0 <= i < |ranked| && ranked[i].id == id
  }

  /** What the editor keeps true: at most five entries, no id twice. */
  predicate ValidRanking(ranked: seq<Listing>) {
    |ranked| <= MaxRanked && NoDup(Ids(ranked))
  }

  /** `addPreference` (:54-58). */
  function AddPreference(ranked: seq<Listing>, x: Listing): (r: seq<Listing>)
    ensures |r| == |ranked| || |r| == |ranked| + 1
    ensures r[..|ranked|] == ranked
    ensures |r| == |ranked| + 1 <==> |ranked| < MaxRanked && !IsRanked(ranked, x.id)
    ensures |r| == |ranked| + 1 ==> r[|ranked|] == x
  {
    if |ranked| < MaxRanked && !IsRanked(ranked, x.id) then ranked + [x] else ranked
  }

  lemma AddKeepsValid(ranked: seq<Listing>, x: Listing)
    requires ValidRanking(ranked)
    ensures ValidRanking(AddPreference(ranked, x))
  {
    var r := AddPreference(ranked, x);
    if |r| == |ranked| + 1 {
      assert Ids(r) == Ids(ranked) + [x.id];
    }
  }

  function OtherId(id: int): Listing -> bool {
    (l: Listing) => l.id != id
  }

  /** `removePreference` (:60-62): `ranked.filter(i => i.id !== internship.id)`. */
  function RemovePreference(ranked: seq<Listing>, x: Listing): (r: seq<Listing>)
    ensures !IsRanked(r, x.id)
    ensures forall y :: y in ranked && y.id != x.id ==> y in r
    ensures IsSubsequence(r, ranked)
  {
    FilterIsSubsequence(ranked, OtherId(x.id));
    Filter(ranked, OtherId(x.id))
  }

  /** Removing an internship that is not ranked changes nothing. */
  lemma RemoveAbsent(ranked: seq<Listing>, x: Listing)
    requires !IsRanked(ranked, x.id)
    ensures RemovePreference(ranked, x) == ranked
  {
    FilterKeepsAll(ranked, OtherId(x.id));
  }

  lemma RemoveKeepsValid(ranked: seq<Listing>, x: Listing)
    requires ValidRanking(ranked)
    ensures ValidRanking(RemovePreference(ranked, x))
  {
    var rel := (a: Listing, b: Listing) => a.id != b.id;
    assert forall i, j :: 0 <= i < j < |ranked| ==> rel(ranked[i], ranked[j]) by {
      forall i, j | 0 <= i < j < |ranked| ensures rel(ranked[i], ranked[j]) {
        assert Ids(ranked)[i] != Ids(ranked)[j];
      }
    }
    FilterPairwise(ranked, OtherId(x.id), rel);
  }

  /** `s` with the entries at `i` and `j` exchanged. */
  function Swapped(s: seq<Listing>, i: nat, j: nat): (r: seq<Listing>)
    requires i < |s| && j < |s|
    ensures |r| == |s| && r[i] == s[j] && r[j] == s[i]
    ensures forall k :: 0 <= k < |s| && k != i && k != j ==> r[k] == s[k]
  {
    s[i := s[j]][j := s[i]]
  }

  /** `movePreference` (:64-73): no change for "up" at the top or "down" at
      the bottom; otherwise the entry trades places with its neighbour. */
  method MovePreference(ranked: seq<Listing>, index: nat, up: bool) returns (r: seq<Listing>)
    requires index < |ranked|
    ensures (up && index == 0) || (!up && index == |ranked| - 1) ==> r == ranked
    ensures !((up && index == 0) || (!up && index == |ranked| - 1)) ==>
      r == Swapped(ranked, index, if up then index - 1 else index + 1)
  {
    if (up && index == 0) || (!up && index == |ranked| - 1) {
      return ranked;
    }
    var newRanked := ranked;
    var item := newRanked[index];
    newRanked := newRanked[..index] + newRanked[index + 1..];
    var newIndex := if up then index - 1 else index + 1;
    newRanked := newRanked[..newIndex] + [item] + newRanked[newIndex..];
    r := newRanked;
    assert |r| == |ranked|;
    forall k | 0 <= k < |r|
      ensures r[k] == Swapped(ranked, index, newIndex)[k]
    {
      if up {
        if k < newIndex {
        } else if k == newIndex {
        } else if k == index {
        } else {
          assert r[k] == ranked[k];
        }
      } else {
        if k < index {
        } else if k == index {
          assert r[k] == ranked[newIndex];
        } else if k == newIndex {
        } else {
          assert r[k] == ranked[k];
        }
      }
    }
  }

  /** A move keeps the same entries and the editor's invariant. */
  lemma SwapKeepsValid(ranked: seq<Listing>, i: nat, j: nat)
    requires ValidRanking(ranked) && i < |ranked| && j < |ranked|
    ensures multiset(Swapped(ranked, i, j)) == multiset(ranked)
    ensures ValidRanking(Swapped(ranked, i, j))
  {
    var r := Swapped(ranked, i, j);
    if i != j {
      assert r == ranked[i := ranked[j]][j := ranked[i]];
    } else {
      assert r == ranked;
    }
    forall a, b | 0 <= a < b < |r|
      ensures Ids(r)[a] != Ids(r)[b]
    {
      var a' := if a == i then j else if a == j then i else a;
      var b' := if b == i then j else if b == j then i else b;
      assert r[a] == ranked[a'] && r[b] == ranked[b'];
      if a' < b' {
        assert Ids(ranked)[a'] != Ids(ranked)[b'];
      } else {
        assert Ids(ranked)[b'] != Ids(ranked)[a'];
      }
    }
  }

  /** Moving an entry down and then back up restores the list. */
  lemma SwapTwice(s: seq<Listing>, i: nat, j: nat)
    requires i < |s| && j < |s|
    ensures Swapped(Swapped(s, i, j), j, i) == s
  {
  }

  /** The second filter of `available` (:48-51). */
  function MatchesSearch(term: string, location: string): Listing -> bool {
    (l: Listing) => (ContainsCI(l.title, term) || ContainsCI(l.organization, term)) &&
         (location == AllLocations || l.location == location)
  }

  function Unranked(ranked: seq<Listing>): Listing -> bool {
    (l: Listing) => !IsRanked(ranked, l.id)
  }

  /** `available` (:46-52). */
  function Available(all: seq<Listing>, ranked: seq<Listing>, term: string, location: string): seq<Listing> {
    Filter(Filter(all, Unranked(ranked)), MatchesSearch(term, location))
  }

  /** An internship is offered exactly when it is not ranked and matches
      the search and the location filter. */
  lemma AvailableIff(all: seq<Listing>, ranked: seq<Listing>, term: string, location: string, x: Listing)
    ensures x in Available(all, ranked, term, location) <==>
      x in all && !IsRanked(ranked, x.id) &&
      (ContainsCI(x.title, term) || ContainsCI(x.organization, term)) &&
      (location == AllLocations || x.location == location)
  {
    var u := Filter(all, Unranked(ranked));
    if x in all && !IsRanked(ranked, x.id) {
      var i :| 0 <= i < |all| && all[i] == x;
      assert x in u;
      var k :| 0 <= k < |u| && u[k] == x;
    }
  }

  /** Saving sends the ids in display order, so the internship shown at
      position `i + 1` is stored with rank `i + 1` and found at that rank. */
  lemma SaveOrderIsRank(prefs: seq<PrefRow>, userId: int, ranked: seq<Listing>, i: nat)
    requires PrefKeysUnique(prefs) && PrefRanksUnique(prefs)
    requires ValidRanking(ranked) && i < |ranked|
    ensures FindPref(ReplacePrefs(prefs, userId, Ids(ranked)), userId, ranked[i].id) ==
            Some(PrefRow(userId, ranked[i].id, i + 1))
  {
    SavedPrefIsFound(prefs, userId, Ids(ranked), i);
  }
}
