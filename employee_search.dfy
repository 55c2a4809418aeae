/**
  The roster logic both dashboards share: keeping the records whose role
  is `'employee'` (`res.data.filter((emp) => emp.role === 'employee')`) and
  the case-insensitive search over name, email and department. Both are
  `Array.prototype.filter`, modelled by `Keep`.
*/
module EmployeeSearch {
  import opened Text

  /** A roster entry as the client receives it. */
  datatype Employee = Employee(id: string, name: string, email: string, department: string, role: string)

  /** `a` is `b` with some elements dropped and the rest kept in order. */
  predicate Sublist(a: seq<Employee>, b: seq<Employee>)
    decreases |b|
  {
    if a == [] then true
    else if b == [] then false
    else (a[0] == b[0] && Sublist(a[1..], b[1..])) || Sublist(a, b[1..])
  }

  lemma {:induction false} SublistOfItself(s: seq<Employee>)
    ensures Sublist(s, s)
  {
    if s != [] {
      SublistOfItself(s[1..]);
    }
  }

  /** `s.filter(p)`: every entry `p` accepts, as often as it occurs in `s`, and nothing else. */
  function Keep(s: seq<Employee>, p: Employee -> bool): (r: seq<Employee>)
    ensures forall x :: x in r <==> x in s && p(x)
    ensures forall x :: multiset(r)[x] == if p(x) then multiset(s)[x] else 0
  {
    if s == [] then []
    else
      assert s == [s[0]] + s[1..];
      if p(s[0]) then [s[0]] + Keep(s[1..], p)
      else Keep(s[1..], p)
  }

  /** Filtering keeps the order of what it keeps. */
  lemma {:induction false} KeepIsSublist(s: seq<Employee>, p: Employee -> bool)
    ensures Sublist(Keep(s, p), s)
  {
    if s != [] {
      KeepIsSublist(s[1..], p);
      if p(s[0]) {
        assert ([s[0]] + Keep(s[1..], p))[1..] == Keep(s[1..], p);
      }
    }
  }

  /** The role filter applied to a fetched list. */
  function OnlyEmployees(list: seq<Employee>): (r: seq<Employee>)
    ensures forall e :: e in r <==> e in list && e.role == "employee"
    ensures forall e :: multiset(r)[e] == if e.role == "employee" then multiset(list)[e] else 0
    ensures Sublist(r, list)
  {
    KeepIsSublist(list, (e: Employee) => e.role == "employee");
    Keep(list, (e: Employee) => e.role == "employee")
  }

  /**
    The search predicate: the lower-cased search text (not trimmed) occurs
    in the lower-cased name or email, or in a non-empty department.
  */
  predicate MatchesSearch(e: Employee, search: string) {
    var q := Lower(search);
    || Contains(Lower(e.name), q)
    || Contains(Lower(e.email), q)
    || (e.department != "" && Contains(Lower(e.department), q))
  }

  /** The `filtered` list: everything for a blank search, otherwise the matching entries. */
  function Search(list: seq<Employee>, search: string): (r: seq<Employee>)
    ensures IsBlank(search) ==> r == list
    ensures !IsBlank(search) ==> forall e :: e in r <==> e in list && MatchesSearch(e, search)
    ensures !IsBlank(search) ==> forall e :: multiset(r)[e] == if MatchesSearch(e, search) then multiset(list)[e] else 0
    ensures Sublist(r, list)
  {
    if IsBlank(search) then
      SublistOfItself(list);
      list
    else
      KeepIsSublist(list, (e: Employee) => MatchesSearch(e, search));
      Keep(list, (e: Employee) => MatchesSearch(e, search))
  }
}
