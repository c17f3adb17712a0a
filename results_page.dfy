// pages/admin/AdminResultsDashboardPage.tsx: the search over allocation
// results and the status badge.

module ResultsPage {
  import opened Common

  datatype ResultRow = ResultRow(studentName: string, studentEmail: string, internshipTitle: string,
                                 internshipOrganization: string, status: string)

  predicate Kept(r: ResultRow, term: string) {
    ContainsCI(r.studentName, term) || ContainsCI(r.internshipTitle, term) ||
    ContainsCI(r.internshipOrganization, term)
  }

  function KeptBy(term: string): ResultRow -> bool {
    (r: ResultRow) => Kept(r, term)
  }

  /** `filteredResults` (:52-56): the student's email is not searched. */
  function FilteredResults(results: seq<ResultRow>, term: string): (r: seq<ResultRow>)
    ensures IsSubsequence(r, results)
    ensures forall x :: x in r <==> x in results && Kept(x, term)
  {
    FilterIsSubsequence(results, KeptBy(term));
    Filter(results, KeptBy(term))
  }

  /** An empty term keeps every row. */
  lemma EmptyTermKeepsAll(results: seq<ResultRow>)
    ensures FilteredResults(results, "") == results
  {
    forall i | 0 <= i < |results|
      ensures KeptBy("")(results[i])
    {
      ContainsCIEmpty(results[i].studentName);
    }
    FilterKeepsAll(results, KeptBy(""));
  }

  datatype Badge = Green | Red | Yellow

  /** The status badge (:105-108). */
  function StatusBadge(status: string): (r: Badge)
    ensures r == Green <==> status == "Accepted"
    ensures r == Red <==> status == "Declined"
    ensures r == Yellow <==> status != "Accepted" && status != "Declined"
  {
    if status == "Accepted" then Green else if status == "Declined" then Red else Yellow
  }
}
