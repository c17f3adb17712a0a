// pages/student/StudentCoursesPage.tsx: the optimistic saved-course set and
// the search over the courses offered to explore.

module CoursesPage {
  import opened Common
  import InternshipsPage

  /** The fields of a course the search reads. */
  datatype CourseCard = CourseCard(id: int, title: string, provider: string)

  /** `handleToggleSave` (:109-116): copies the set, then deletes the id
      when the card showed it as saved and adds it otherwise, as the
      internships page does (so `InternshipsPage.ToggleTwice` applies). */
  method ToggleSave(saved: set<int>, courseId: int, isCurrentlySaved: bool) returns (r: set<int>)
    ensures r == InternshipsPage.Toggled(saved, courseId, isCurrentlySaved)
    ensures courseId in r <==> !isCurrentlySaved
    ensures forall x :: x != courseId ==> (x in r <==> x in saved)
  {
    var optimisticIds := saved;
    if isCurrentlySaved {
      optimisticIds := optimisticIds - {courseId};
    } else {
      optimisticIds := optimisticIds + {courseId};
    }
    r := optimisticIds;
  }

  function SearchMatches(term: string): CourseCard -> bool {
    (c: CourseCard) => ContainsCI(c.title, term) || ContainsCI(c.provider, term)
  }

  /** `filteredExplore` (:145-148). */
  function FilteredExplore(explore: seq<CourseCard>, term: string): (r: seq<CourseCard>)
    ensures IsSubsequence(r, explore)
    ensures forall c :: c in r <==> c in explore && (ContainsCI(c.title, term) || ContainsCI(c.provider, term))
  {
    FilterIsSubsequence(explore, SearchMatches(term));
    Filter(explore, SearchMatches(term))
  }

  /** An empty search shows every course. */
  lemma EmptySearchKeepsAll(explore: seq<CourseCard>)
    ensures FilteredExplore(explore, "") == explore
  {
    forall i | 0 <= i < |explore|
      ensures SearchMatches("")(explore[i])
    {
      ContainsCIEmpty(explore[i].title);
    }
    FilterKeepsAll(explore, SearchMatches(""));
  }
}
