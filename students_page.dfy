// pages/admin/AdminManageStudentsPage.tsx: the search over students by name
// or email. The debounce timer only delays the term and is not modelled.

module StudentsPage {
  import opened Common

  datatype StudentRow = StudentRow(userId: int, name: string, email: string)

  function KeptBy(term: string): StudentRow -> bool {
    (s: StudentRow) => ContainsCI(s.name, term) || ContainsCI(s.email, term)
  }

  /** `filteredStudents` (:80-83). */
  function FilteredStudents(students: seq<StudentRow>, term: string): (r: seq<StudentRow>)
    ensures IsSubsequence(r, students)
    ensures forall s :: s in r <==> s in students && (ContainsCI(s.name, term) || ContainsCI(s.email, term))
  {
    FilterIsSubsequence(students, KeptBy(term));
    Filter(students, KeptBy(term))
  }

  /** An empty term keeps every student. */
  lemma EmptyTermKeepsAll(students: seq<StudentRow>)
    ensures FilteredStudents(students, "") == students
  {
    forall i | 0 <= i < |students|
      ensures KeptBy("")(students[i])
    {
      ContainsCIEmpty(students[i].name);
    }
    FilterKeepsAll(students, KeptBy(""));
  }

  /** Searching the result again with the same term changes nothing. */
  lemma FilterAgain(students: seq<StudentRow>, term: string)
    ensures FilteredStudents(FilteredStudents(students, term), term) == FilteredStudents(students, term)
  {
    FilterIdempotent(students, KeptBy(term));
  }
}
