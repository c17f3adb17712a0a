// pages/admin/AdminManageCoursesPage.tsx: the three-state status cycle, the
// search over courses and the status badge.

module AdminCoursesPage {
  import opened Common
  import opened AdminRoutes

  /** `handleStatusChange` (:103-105): the status requested for a course. */
  function NextStatus(current: string): (r: string)
    ensures current == "Active" ==> r == "Inactive"
    ensures current == "Inactive" ==> r == "Blocked"
    ensures current != "Active" && current != "Inactive" ==> r == "Active"
    ensures CourseStatusAccepted(Some(r))
  {
    if current == "Active" then "Inactive"
    else if current == "Inactive" then "Blocked"
    else "Active"
  }

  /** Three clicks bring each of the three statuses back to itself. */
  lemma CycleOfThree(s: string)
    requires CourseStatusAccepted(Some(s))
    ensures NextStatus(NextStatus(NextStatus(s))) == s
  {
  }

  /** The fields of a course the search reads; a title or provider may be
      missing. */
  datatype CourseRow = CourseRow(id: int, title: Option<string>, provider: Option<string>, status: string)

  predicate Kept(c: CourseRow, term: string) {
    (c.title.Some? && ContainsCI(c.title.value, term)) || (c.provider.Some? && ContainsCI(c.provider.value, term))
  }

  function KeptBy(term: string): CourseRow -> bool {
    (c: CourseRow) => Kept(c, term)
  }

  /** `filteredCourses` (:115-118). */
  function FilteredCourses(courses: seq<CourseRow>, term: string): (r: seq<CourseRow>)
    ensures IsSubsequence(r, courses)
    ensures forall c :: c in r <==> c in courses && Kept(c, term)
  {
    FilterIsSubsequence(courses, KeptBy(term));
    Filter(courses, KeptBy(term))
  }

  /** An empty search keeps exactly the courses that have a title or a
      provider. */
  lemma EmptySearch(courses: seq<CourseRow>, c: CourseRow)
    ensures c in FilteredCourses(courses, "") <==> c in courses && (c.title.Some? || c.provider.Some?)
  {
    if c.title.Some? {
      ContainsCIEmpty(c.title.value);
    }
    if c.provider.Some? {
      ContainsCIEmpty(c.provider.value);
    }
  }

  datatype Badge = Green | Gray | Red

  /** `StatusBadge` (:9-17): `styles[status] || styles.Inactive`. */
  function StatusBadge(status: string): (r: Badge)
    ensures r == Green <==> status == "Active"
    ensures r == Red <==> status == "Blocked"
    ensures r == Gray <==> status != "Active" && status != "Blocked"
  {
    if status == "Active" then Green
    else if status == "Blocked" then Red
    else Gray
  }
}
