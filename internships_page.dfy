// pages/student/StudentInternshipsPage.tsx: the optimistic saved-set and
// application-status updates, the search and filter over the listing, the
// status button's text and saving / applying a search. The API calls behind
// the optimistic updates are the handlers of StudentRoutes.

module InternshipsPage {
  import opened Common
  import opened Json
  import opened Database
  import opened StudentRoutes

  /** The fields of an internship the page reads. */
  datatype Listing = Listing(id: int, title: string, organization: string, location: string,
                             kind: string, experienceLevel: string, skills: seq<string>)

  const AllTypes := "All Types"
  const AllLevels := "All Levels"
  const AllLocations := "All Locations"

  // ---------------------------------------------------------------------
  // handleToggleSave (:197-205) and handleStatusChange (:219-226)
  // ---------------------------------------------------------------------

  /** The saved set after one toggle, given whether the card showed the
      internship as saved. */
  function Toggled(saved: set<int>, id: int, isCurrentlySaved: bool): set<int> {
    if isCurrentlySaved then saved - {id} else saved + {id}
  }

  /** Copies the set, then deletes or adds the id. */
  method ToggleSave(saved: set<int>, id: int, isCurrentlySaved: bool) returns (r: set<int>)
    ensures r == Toggled(saved, id, isCurrentlySaved)
    ensures id in r <==> !isCurrentlySaved
    ensures forall x :: x != id ==> (x in r <==> x in saved)
  {
    var newSavedIds := saved;
    if isCurrentlySaved {
      newSavedIds := newSavedIds - {id};
    } else {
      newSavedIds := newSavedIds + {id};
    }
    r := newSavedIds;
  }

  /** Two toggles of the same card, each with the flag the card then
      shows, give back the saved set. */
  lemma ToggleTwice(saved: set<int>, id: int)
    ensures Toggled(Toggled(saved, id, id in saved), id, id in Toggled(saved, id, id in saved)) == saved
  {
    var once := Toggled(saved, id, id in saved);
    assert id in once <==> id !in saved;
    assert Toggled(once, id, id in once) == saved;
  }

  /** The status map after one change: set for a status, delete for null. */
  function StatusChanged(statuses: map<int, string>, id: int, status: Option<string>): map<int, string> {
    if Truthy(status) then statuses[id := status.value] else statuses - {id}
  }

  /** Copies the map, then sets or deletes the entry. */
  method ChangeStatus(statuses: map<int, string>, id: int, status: Option<string>) returns (r: map<int, string>)
    ensures r == StatusChanged(statuses, id, status)
    ensures id in r <==> Truthy(status)
    ensures Truthy(status) ==> r[id] == status.value
    ensures forall x :: x != id ==> (x in r <==> x in statuses) && (x in r ==> r[x] == statuses[x])
  {
    var optimisticStatus := statuses;
    if Truthy(status) {
      optimisticStatus := optimisticStatus[id := status.value];
    } else {
      optimisticStatus := optimisticStatus - {id};
    }
    r := optimisticStatus;
  }

  /** The optimistic map is what the server then reports: when the page's
      map is the user's applications, changing it as the page does gives
      the user's applications after POST /applications with the same
      status (one of the three the menu offers, or null). */
  lemma StatusChangeMatchesServer(apps: map<(int, int), string>, userId: int, id: int, status: Option<string>)
    requires status.None? || ApplicationStatusOk(status.value)
    ensures StatusChanged(ApplicationsOf(apps, userId), id, status) ==
      ApplicationsOf(if Truthy(status) then apps[(userId, id) := status.value] else apps - {(userId, id)}, userId)
  {
    if Truthy(status) {
      ApplicationsAfterSet(apps, userId, id, status.value, userId);
    } else {
      ApplicationsAfterClear(apps, userId, id, userId);
    }
  }

  // ---------------------------------------------------------------------
  // getStatusButtonText (:83-88)
  // ---------------------------------------------------------------------

  const StatusPrefix := "Status: "

  function StatusButtonText(status: Option<string>): (r: string)
    ensures StartsWith(r, StatusPrefix) <==> Truthy(status)
    ensures Truthy(status) ==> r[|StatusPrefix|..] == status.value
    ensures !Truthy(status) ==> r == "Update Status"
  {
    if Truthy(status) then StatusPrefix + status.value
    else
      assert "Update Status"[..|StatusPrefix|][0] != StatusPrefix[0];
      "Update Status"
  }

  // ---------------------------------------------------------------------
  // filteredInternships (:255-262)
  // ---------------------------------------------------------------------

  predicate AnySkillMatches(skills: seq<string>, term: string) {
    exists i :: 0 <= i < |skills| && ContainsCI(skills[i], term)
  }

  predicate Listed(l: Listing, term: string, f: Filters) {
    (ContainsCI(l.title, term) || ContainsCI(l.organization, term) || AnySkillMatches(l.skills, term)) &&
    (f.location == AllLocations || l.location == f.location) &&
    (f.kind == AllTypes || l.kind == f.kind) &&
    (f.experience == AllLevels || l.experienceLevel == f.experience)
  }

  function ListedBy(term: string, f: Filters): Listing -> bool {
    (l: Listing) => Listed(l, term, f)
  }

  /** The listing shown: the internships that pass the search and all
      three filters, in the fetched order. */
  function FilteredInternships(all: seq<Listing>, term: string, f: Filters): (r: seq<Listing>)
    ensures IsSubsequence(r, all)
    ensures forall l :: l in r <==> l in all && Listed(l, term, f)
  {
    FilterIsSubsequence(all, ListedBy(term, f));
    Filter(all, ListedBy(term, f))
  }

  /** An empty search with every filter on its "All" value lists
      everything. */
  lemma NoFilterKeepsAll(all: seq<Listing>)
    ensures FilteredInternships(all, "", Filters(AllTypes, AllLevels, AllLocations)) == all
  {
    forall i | 0 <= i < |all|
      ensures ListedBy("", Filters(AllTypes, AllLevels, AllLocations))(all[i])
    {
      ContainsCIEmpty(all[i].title);
    }
    FilterKeepsAll(all, ListedBy("", Filters(AllTypes, AllLevels, AllLocations)));
  }

  // ---------------------------------------------------------------------
  // handleSaveSearch (:236-247) and applySavedSearch (:249-253)
  // ---------------------------------------------------------------------

  /** The `params` string a saved search stores. */
  function SavedParams(term: string, f: Filters): string {
    StringifySearch(SearchParams(term, f))
  }

  /** The search term and filters after applying a saved search; when its
      parameters do not parse the handler throws and nothing changes. */
  function ApplySavedSearch(term: string, f: Filters, params: string): (r: (string, Filters))
    ensures ParseSearch(params).None? ==> r == (term, f)
  {
    match ParseSearch(params)
    case None => (term, f)
    case Some(p) => (p.searchTerm, p.filters)
  }

  /** Applying a saved search restores exactly the term and filters it was
      saved with, whatever the page showed before. */
  lemma SaveThenApply(term: string, f: Filters, term0: string, f0: Filters)
    ensures ApplySavedSearch(term0, f0, SavedParams(term, f)) == (term, f)
  {
    SearchRoundTrip(SearchParams(term, f));
  }
}
