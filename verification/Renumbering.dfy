/** Giving every employee a code of its society's series (scripts/renumber_employee_codes.py, build_changes),
    the societies in a fixed order, the employees of each by name. */
module Renumbering {
  import opened Wrappers
  import opened Ordering
  import opened EmployeeCodes

  /** `society` is the society's normalised name, the names are trimmed capitals. */
  datatype Employee = Employee(id: nat, society: string, last: string, first: string, code: string)

  datatype Change = Change(employee: Employee, code: string)

  const SECURITE := "IRON GLOBAL SECURITE"
  const SOLUTION := "IRON GLOBAL SOLUTION"
  const CORPORATION := "SWORD CORPORATION"
  const CONSTRUCTION := "SWORD CONSTRUCTION"

  function Priority(key: string): nat {
    if key == SECURITE then 0
    else if key == SOLUTION then 1
    else if key == CORPORATION then 2
    else if key == CONSTRUCTION then 3
    else 99
  }

  function SeriesOf(priority: nat): seq<char> {
    match priority
    case 0 => ['A', 'B', 'C']
    case 1 => ['K', 'W']
    case 2 => ['S']
    case 3 => ['T']
    case _ => ALPHABET
  }

  function Series(key: string): seq<char> { SeriesOf(Priority(key)) }

  predicate SocietyLe(a: string, b: string) {
    Priority(a) < Priority(b) || (Priority(a) == Priority(b) && StrLe(a, b))
  }

  /** By name, then by number; the rest never matters, since numbers are unique. */
  predicate EmployeeLe(a: Employee, b: Employee) {
    if a.last != b.last then StrLe(a.last, b.last)
    else if a.first != b.first then StrLe(a.first, b.first)
    else if a.id != b.id then a.id < b.id
    else if a.society != b.society then StrLe(a.society, b.society)
    else StrLe(a.code, b.code)
  }

  /** The societies, in the order they are met. */
  function Societies(es: seq<Employee>): seq<string> {
    if es == [] then []
    else
      var before, last := Societies(es[..|es| - 1]), es[|es| - 1].society;
      if last in before then before else before + [last]
  }

  function Group(es: seq<Employee>, key: string): seq<Employee> {
    if es == [] then []
    else
      var before, last := Group(es[..|es| - 1], key), es[|es| - 1];
      if last.society == key then before + [last] else before
  }

  function Zip(rows: seq<Employee>, codes: seq<string>): seq<Change> {
    seq(if |rows| < |codes| then |rows| else |codes|,
        k requires 0 <= k < |rows| && k < |codes| => Change(rows[k], codes[k]))
  }

  function CodesOf(changes: seq<Change>): set<string> { set k | 0 <= k < |changes| :: changes[k].code }

  predicate Clash(codes: seq<string>, used: set<string>) {
    exists k :: 0 <= k < |codes| && (codes[k] in used || codes[k] in codes[..k])
  }

  function Rows(es: seq<Employee>, key: string): seq<Employee> { Sort(Group(es, key), EmployeeLe) }

  /** The changes for the first societies. */
  function Build(keys: seq<string>, es: seq<Employee>): Result<seq<Change>, Failure> {
    if keys == [] then Ok([])
    else
      var key := keys[|keys| - 1];
      match Build(keys[..|keys| - 1], es)
      case Err(e) => Err(e)
      case Ok(before) =>
        var rows := Rows(es, key);
        match Generate(Series(key), |rows|, CodesOf(before))
        case Err(e) => Err(e)
        case Ok(codes) =>
          if Clash(Zipped(rows, codes), CodesOf(before)) then Err(Duplicate) else Ok(before + Zip(rows, codes))
  }

  /** The codes that are really given out. */
  function Zipped(rows: seq<Employee>, codes: seq<string>): seq<string> {
    if |rows| < |codes| then codes[..|rows|] else codes
  }

  function BuildChanges(es: seq<Employee>): Result<seq<Change>, Failure> {
    Build(Sort(Societies(es), SocietyLe), es)
  }

  // ---- The program ----

  method BuildAll(es: seq<Employee>) returns (r: Result<seq<Change>, Failure>)
    ensures r == BuildChanges(es)
  {
    hide Generate, Clash, Series, Sort;
    var groups: map<string, seq<Employee>>, order: seq<string> := map[], [];
    var k := 0;
    while k < |es|
      invariant 0 <= k <= |es| && order == Societies(es[..k])
      invariant forall key :: key in groups <==> key in order
      invariant forall key | key in groups :: groups[key] == Group(es[..k], key)
      invariant forall key | key !in groups :: Group(es[..k], key) == []
    {
      var e := es[k];
      assert es[..k + 1][..k] == es[..k];
      if e.society !in groups {
        groups := groups[e.society := []];
        order := order + [e.society];
      }
      groups := groups[e.society := groups[e.society] + [e]];
      k := k + 1;
    }
    assert es[..k] == es;
    SortedKeys(order);
    r := BuildGroups(Sort(order, SocietyLe), groups, es);
  }

  method BuildGroups(keys: seq<string>, groups: map<string, seq<Employee>>, ghost es: seq<Employee>)
    returns (r: Result<seq<Change>, Failure>)
    requires forall k | 0 <= k < |keys| :: keys[k] in groups && groups[keys[k]] == Group(es, keys[k])
    ensures r == Build(keys, es)
  {
    hide Generate, Clash, Series, Group, Sort;
    var changes: seq<Change>, used: set<string> := [], {};
    var k := 0;
    assert keys[..0] == [];
    while k < |keys|
      invariant 0 <= k <= |keys|
      invariant Build(keys[..k], es) == Ok(changes) && used == CodesOf(changes)
    {
      var key := keys[k];
      assert keys[..k + 1][..k] == keys[..k];
      var rows := Sort(groups[key], EmployeeLe);
      var generated := GenerateCodes(Series(key), |rows|, used);
      if generated.Err? {
        BuildFails(keys, es, k + 1, generated.error);
        return Err(generated.error);
      }
      var clash;
      clash, changes, used := Assign(rows, generated.value, changes);
      if clash {
        BuildFails(keys, es, k + 1, Duplicate);
        return Err(Duplicate);
      }
      k := k + 1;
    }
    assert keys[..k] == keys;
    r := Ok(changes);
  }

  method Assign(rows: seq<Employee>, codes: seq<string>, before: seq<Change>)
    returns (clash: bool, changes: seq<Change>, used: set<string>)
    ensures clash <==> Clash(Zipped(rows, codes), CodesOf(before))
    ensures !clash ==> changes == before + Zip(rows, codes) && used == CodesOf(changes)
  {
    var given := Zipped(rows, codes);
    changes, used := before, CodesOf(before);
    var k := 0;
    while k < |given|
      invariant 0 <= k <= |given| && changes == before + Zip(rows, codes)[..k]
      invariant forall c :: c in used <==> c in CodesOf(before) || c in given[..k]
      invariant used == CodesOf(changes)
      invariant forall j | 0 <= j < k :: given[j] !in CodesOf(before) && given[j] !in given[..j]
    {
      if given[k] in used { return true, changes, used; }
      AddCode(changes, Change(rows[k], given[k]));
      used := used + {given[k]};
      changes := changes + [Change(rows[k], given[k])];
      k := k + 1;
    }
    clash := false;
    assert Zip(rows, codes)[..k] == Zip(rows, codes);
  }

  lemma AddCode(changes: seq<Change>, change: Change)
    ensures CodesOf(changes + [change]) == CodesOf(changes) + {change.code}
  {
    var after := changes + [change];
    assert after[|changes|] == change;
    forall c | c in CodesOf(changes) ensures c in CodesOf(after) {
      var k :| 0 <= k < |changes| && changes[k].code == c;
      assert after[k] == changes[k];
    }
  }

  lemma {:induction false} BuildFails(keys: seq<string>, es: seq<Employee>, k: nat, e: Failure)
    requires k <= |keys| && Build(keys[..k], es) == Err(e)
    ensures Build(keys, es) == Err(e)
    decreases |keys| - k
  {
    if k == |keys| {
      assert keys[..k] == keys;
    } else {
      assert keys[..k + 1][..k] == keys[..k];
      BuildFails(keys, es, k + 1, e);
    }
  }

  // ---- Orders ----

  lemma EmployeeOrder()
    ensures TotalOrder(EmployeeLe)
  {
    forall a, b ensures (EmployeeLe(a, b) || EmployeeLe(b, a)) && (EmployeeLe(a, b) && EmployeeLe(b, a) ==> a == b) {
      StrLeTotal(a.last, b.last);
      StrLeTotal(a.first, b.first);
      StrLeTotal(a.society, b.society);
      StrLeTotal(a.code, b.code);
    }
    forall a, b, c | EmployeeLe(a, b) && EmployeeLe(b, c) ensures EmployeeLe(a, c) { EmployeeLeTransitive(a, b, c); }
  }

  lemma EmployeeLeTransitive(a: Employee, b: Employee, c: Employee)
    requires EmployeeLe(a, b) && EmployeeLe(b, c)
    ensures EmployeeLe(a, c)
  {
    FieldTransitive(a.last, b.last, c.last);
    FieldTransitive(a.first, b.first, c.first);
    FieldTransitive(a.society, b.society, c.society);
    FieldTransitive(a.code, b.code, c.code);
    hide StrLe;
  }

  lemma FieldTransitive(a: string, b: string, c: string)
    ensures StrLe(a, b) && StrLe(b, c) ==> StrLe(a, c)
    ensures StrLe(a, b) && StrLe(b, a) ==> a == b
  {
    if StrLe(a, b) && StrLe(b, c) { StrLeTransitive(a, b, c); }
    StrLeTotal(a, b);
  }

  lemma SocietyOrder()
    ensures TotalOrder(SocietyLe)
  {
    hide Priority;
    forall a, b ensures (SocietyLe(a, b) || SocietyLe(b, a)) && (SocietyLe(a, b) && SocietyLe(b, a) ==> a == b) {
      StrLeTotal(a, b);
    }
    forall a, b, c | SocietyLe(a, b) && SocietyLe(b, c) ensures SocietyLe(a, c) { FieldTransitive(a, b, c); }
  }

  lemma SortedKeys(order: seq<string>)
    ensures forall k | 0 <= k < |Sort(order, SocietyLe)| :: Sort(order, SocietyLe)[k] in order
  {
    SocietyOrder();
    SortSorts(order, SocietyLe);
    forall k | 0 <= k < |Sort(order, SocietyLe)| ensures Sort(order, SocietyLe)[k] in order {
      assert Sort(order, SocietyLe)[k] in multiset(Sort(order, SocietyLe));
    }
  }
}
