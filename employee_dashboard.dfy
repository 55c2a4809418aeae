/** The employee's read-only roster page: two lists kept by effects, `employees` and `filtered`. */
module EmployeeDashboard {
  import opened Wrappers
  import opened Text
  import opened EmployeeSearch

  datatype View = View(employees: seq<Employee>, filtered: seq<Employee>)

  /** What the page shows is always an order-preserving selection of what it loaded. */
  predicate Consistent(v: View) {
    Sublist(v.filtered, v.employees)
  }

  /**
    The fetch effect: both lists become the records with role 'employee'
    of the reply, or both become empty when the request failed (None).
  */
  function AfterFetch(reply: Option<seq<Employee>>): (v: View)
    ensures v.employees == v.filtered
    ensures reply.None? ==> v.employees == []
    ensures reply.Some? ==> forall e :: e in v.employees <==> e in reply.value && e.role == "employee"
    ensures reply.Some? ==> forall e :: multiset(v.employees)[e] == if e.role == "employee" then multiset(reply.value)[e] else 0
    ensures reply.Some? ==> Sublist(v.employees, reply.value)
    ensures Consistent(v)
  {
    match reply
    case None => View([], [])
    case Some(data) =>
      var emps := OnlyEmployees(data);
      SublistOfItself(emps);
      View(emps, emps)
  }

  /**
    The search effect, run when `search` or `employees` changes: a blank
    search shows everything, otherwise the matching entries.
  */
  function AfterSearch(v: View, search: string): (w: View)
    ensures w.employees == v.employees
    ensures IsBlank(search) ==> w.filtered == v.employees
    ensures !IsBlank(search) ==> forall e :: e in w.filtered <==> e in v.employees && MatchesSearch(e, search)
    ensures !IsBlank(search) ==> forall e :: multiset(w.filtered)[e] == if MatchesSearch(e, search) then multiset(v.employees)[e] else 0
    ensures Consistent(w)
  {
    View(v.employees, Search(v.employees, search))
  }
}
