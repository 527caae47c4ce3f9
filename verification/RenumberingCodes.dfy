/** The codes an employee can be given, spelled out (scripts/renumber_employee_codes.py,
    app/modules/drh/service.py): a letter of the society and a number, the lowest ones for the known societies. */
module RenumberingCodes {
  import opened Wrappers
  import opened Ordering
  import opened EmployeeCodes
  import opened Renumbering
  import opened RenumberingFacts

  // ---- How a code is written ----

  /** The number that digits spell. */
  function Reads(s: string): int {
    if s == "" then 0 else Reads(s[..|s| - 1]) * 10 + (s[|s| - 1] as int - '0' as int)
  }

  lemma DigitReads(d: nat)
    requires d < 10
    ensures Digit(d) as int == '0' as int + d
  {
  }

  lemma TwoRead(a: char, b: char)
    ensures Reads([a, b]) == (a as int - '0' as int) * 10 + (b as int - '0' as int)
  {
    assert [a, b][..1] == [a] && [a][..0] == "";
    assert Reads([a]) == a as int - '0' as int;
  }

  lemma ThreeRead(a: char, b: char, c: char)
    ensures Reads([a, b, c])
         == ((a as int - '0' as int) * 10 + (b as int - '0' as int)) * 10 + (c as int - '0' as int)
  {
    assert [a, b, c][..2] == [a, b];
    TwoRead(a, b);
  }

  /** A number below a thousand is written with two digits, three from a hundred on, and reads back. */
  lemma NumberReads(n: nat)
    requires n < 1000
    ensures Reads(Number(n)) == n && |Number(n)| == (if n < 100 then 2 else 3)
    ensures forall k | 0 <= k < |Number(n)| :: '0' <= Number(n)[k] <= '9'
  {
    DigitReads(n / 10 % 10);
    DigitReads(n % 10);
    Tens(n);
    Tens(n / 10);
    Hundreds(n);
    hide Digit, Reads;
    if n < 100 {
      DigitReads(n / 10);
      TwoRead(Digit(n / 10), Digit(n % 10));
    } else {
      DigitReads(n / 100);
      ThreeRead(Digit(n / 100), Digit(n / 10 % 10), Digit(n % 10));
    }
  }

  /** The letters of a society. */
  function Letters(society: string): string {
    if society == "IRON GLOBAL SECURITE" then "ABC"
    else if society == "IRON GLOBAL SOLUTION" then "KW"
    else if society == "SWORD CORPORATION" then "S"
    else if society == "SWORD CONSTRUCTION" then "T"
    else "ABCDEFGHIJKLMNOPQRSTUVWXYZ"
  }

  lemma SeriesIsLetters(society: string)
    ensures Series(society) == Letters(society)
  {
  }

  /** A letter of the society, then a number from 01 to 200. */
  predicate Spelled(code: string, society: string) {
    && code != "" && code[0] in Letters(society) && 1 <= Reads(code[1..]) <= 200
    && code[1..] == Number(Reads(code[1..]))
  }

  lemma CodeSpelled(society: string, p: nat, n: nat)
    requires p < |Letters(society)| && 1 <= n <= 200
    ensures var c := Code(Letters(society)[p], n);
            Spelled(c, society) && c[0] == Letters(society)[p] && Reads(c[1..]) == n
  {
    hide Letters, Reads, Number;
    NumberReads(n);
    assert Code(Letters(society)[p], n)[1..] == Number(n);
  }

  lemma AllSpelled(society: string, i: nat)
    requires i < |AllCodes(Series(society))|
    ensures var c := AllCodes(Series(society))[i];
            Spelled(c, society) && c[0] == Letters(society)[i / 200] && Reads(c[1..]) == i % 200 + 1
  {
    SeriesIsLetters(society);
    hide Series, Letters, Reads, Code, Spelled;
    CodeSpelled(society, i / 200, i % 200 + 1);
  }

  lemma InSeriesSpelled(society: string, c: string)
    requires c in AllCodes(Series(society))
    ensures Spelled(c, society)
  {
    var i :| 0 <= i < |AllCodes(Series(society))| && AllCodes(Series(society))[i] == c;
    AllSpelled(society, i);
  }

  /** Every code given out is spelled with a letter of its society and a number from 01 to 200. */
  lemma CodesSpelled(es: seq<Employee>, k: nat)
    requires BuildChanges(es).Ok? && k < |BuildChanges(es).value|
    ensures Spelled(BuildChanges(es).value[k].code, BuildChanges(es).value[k].employee.society)
  {
    ChangesAreSound(es);
    var changes := BuildChanges(es).value;
    assert changes[k].code in AllCodes(Series(changes[k].employee.society));
    hide BuildChanges, Sound, AllCodes, Series, Spelled;
    InSeriesSpelled(changes[k].employee.society, changes[k].code);
  }

  /** The order of the codes: by the place of the letter in its series, then by number. */
  predicate CodeBefore(a: string, b: string, society: string) {
    a != "" && b != ""
    && exists i, j :: 0 <= i <= j < |Letters(society)| && a[0] == Letters(society)[i] && b[0] == Letters(society)[j]
                      && (i < j || Reads(a[1..]) < Reads(b[1..]))
  }

  lemma BeforeSpelled(society: string, a: string, b: string)
    requires Before(AllCodes(Series(society)), a, b)
    ensures CodeBefore(a, b, society)
  {
    var all := AllCodes(Series(society));
    SeriesIsLetters(society);
    var i, j :| 0 <= i < j < |all| && all[i] == a && all[j] == b;
    AllSpelled(society, i);
    AllSpelled(society, j);
    assert |all| == |Letters(society)| * 200;
    hide AllCodes, Series, Letters, Reads;
    PlacesInOrder(i, j);
    assert 0 <= i / 200 <= j / 200 < |Letters(society)|;
  }

  lemma PlacesInOrder(i: nat, j: nat)
    requires i < j
    ensures i / 200 < j / 200 || (i / 200 == j / 200 && i % 200 < j % 200)
  {
  }

  /** Of two employees of a society, the one with the lower last name, then first name, then number has the lower
      code. */
  lemma NamesDecide(es: seq<Employee>, j: nat, k: nat)
    requires BuildChanges(es).Ok? && j < |BuildChanges(es).value| && k < |BuildChanges(es).value|
    requires BuildChanges(es).value[j].employee.society == BuildChanges(es).value[k].employee.society
    requires var a, b := BuildChanges(es).value[j].employee, BuildChanges(es).value[k].employee;
             if a.last != b.last then StrLe(a.last, b.last)
             else if a.first != b.first then StrLe(a.first, b.first) else a.id < b.id
    ensures var changes := BuildChanges(es).value;
            CodeBefore(changes[j].code, changes[k].code, changes[j].employee.society)
  {
    var changes := BuildChanges(es).value;
    assert EmployeeLe(changes[j].employee, changes[k].employee);
    CodesRiseWithNames(es, j, k);
    hide BuildChanges, AllCodes, Series, CodeBefore, Before;
    BeforeSpelled(changes[j].employee.society, changes[j].code, changes[k].code);
  }

  // ---- The lowest codes first ----

  /** A free code of the series that stands before one given out is given out too. */
  lemma GeneratedFirst(prefixes: seq<char>, count: nat, used: set<string>, c: string, j: nat)
    requires Distinct(prefixes) && count > 0 && Generate(prefixes, count, used).Ok?
    requires j < |Generate(prefixes, count, used).value|
    requires c !in used && Before(AllCodes(prefixes), c, Generate(prefixes, count, used).value[j])
    ensures c in Generate(prefixes, count, used).value
  {
    var all := AllCodes(prefixes);
    var free := Free(all, used);
    AllCodesDistinct(prefixes);
    FreeAre(all, used);
    assert c in all;
    var m :| 0 <= m < |free| && free[m] == c;
    BeforeOneWay(all, c, free[j]);
    if m > j {
      FreeInOrder(all, used, j, m);
    } else {
      assert free[..count][m] == c;
    }
  }

  lemma BeforeOneWay<T>(xs: seq<T>, a: T, b: T)
    requires Distinct(xs) && Before(xs, a, b)
    ensures !Before(xs, b, a)
  {
  }

  /** Nothing of a series is used: its free codes are all its codes. */
  lemma {:induction false} NoneUsed<T>(codes: seq<T>, used: set<T>)
    requires forall k | 0 <= k < |codes| :: codes[k] !in used
    ensures Free(codes, used) == codes
  {
    if codes == [] {
    } else {
      NoneUsed(codes[..|codes| - 1], used);
    }
  }

  /** The employees of a known society have the lowest codes of their series. */
  ghost predicate Lowest(changes: seq<Change>, es: seq<Employee>) {
    forall k | 0 <= k < |changes| && Known(changes[k].employee.society) ::
      exists i :: 0 <= i < |Group(es, changes[k].employee.society)|
                  && i < |AllCodes(Series(changes[k].employee.society))|
                  && AllCodes(Series(changes[k].employee.society))[i] == changes[k].code
  }

  lemma LowestAdded(keys: seq<string>, es: seq<Employee>, before: seq<Change>, codes: seq<string>)
    requires keys != [] && Distinct(keys) && SortedBy(keys, SocietyLe) && Group(es, keys[|keys| - 1]) != []
    requires Covers(before, keys[..|keys| - 1], es) && Known(keys[|keys| - 1])
    requires Generate(Series(keys[|keys| - 1]), |Rows(es, keys[|keys| - 1])|, CodesOf(before)) == Ok(codes)
    ensures codes == AllCodes(Series(keys[|keys| - 1]))[..|codes|]
    ensures |codes| == |Group(es, keys[|keys| - 1])| <= |AllCodes(Series(keys[|keys| - 1]))|
  {
    var n := |keys| - 1;
    var all, used := AllCodes(Series(keys[n])), CodesOf(before);
    UsedBefore(keys, es, before, n);
    AllCodesStart(Series(keys[n]));
    RowsAre(es, keys[n]);
    forall k | 0 <= k < |all| ensures all[k] !in used {
      assert all[k] in all;
      NotUsed(Series(keys[n]), used, all[k]);
    }
    NoneUsed(all, used);
    hide AllCodes, Series, CodesOf, Rows, Group, Covers;
  }

  lemma NotUsed(prefixes: seq<char>, used: set<string>, c: string)
    requires |UsedIn(prefixes, used)| == 0 && c != "" && c[0] in prefixes
    ensures c !in used
  {
    assert c !in UsedIn(prefixes, used);
  }

  lemma LowestJoined(keys: seq<string>, es: seq<Employee>, before: seq<Change>, codes: seq<string>)
    requires keys != [] && Distinct(keys) && SortedBy(keys, SocietyLe) && Group(es, keys[|keys| - 1]) != []
    requires Covers(before, keys[..|keys| - 1], es) && Lowest(before, es)
    requires Generate(Series(keys[|keys| - 1]), |Rows(es, keys[|keys| - 1])|, CodesOf(before)) == Ok(codes)
    ensures Lowest(before + Zip(Rows(es, keys[|keys| - 1]), codes), es)
  {
    var key := keys[|keys| - 1];
    var rows := Rows(es, key);
    RowsAre(es, key);
    AddedIsSound(before, es, key, codes);
    hide Generate, Covers, Sound, Rows, Series, Group, CodesOf, AllCodes, SortedBy;
    ZippedRows(rows, codes);
    if Known(key) { LowestAdded(keys, es, before, codes); }
    var all := before + Zip(rows, codes);
    hide Known, Zip;
    forall k | 0 <= k < |all| && Known(all[k].employee.society)
      ensures exists i :: 0 <= i < |Group(es, all[k].employee.society)|
                          && i < |AllCodes(Series(all[k].employee.society))|
                          && AllCodes(Series(all[k].employee.society))[i] == all[k].code
    {
      if k < |before| {
        assert all[k] == before[k];
      } else {
        var i := k - |before|;
        assert all[k] == Zip(rows, codes)[i];
        assert AllCodes(Series(key))[i] == AllCodes(Series(key))[..|codes|][i];
      }
    }
  }

  lemma {:induction false} LowestUpTo(keys: seq<string>, es: seq<Employee>)
    requires Distinct(keys) && SortedBy(keys, SocietyLe) && (forall key | key in keys :: Group(es, key) != [])
    requires Build(keys, es).Ok?
    ensures Lowest(Build(keys, es).value, es)
  {
    if keys == [] {
    } else {
      var n := |keys| - 1;
      LowestUpTo(keys[..n], es);
      BuiltUpTo(keys[..n], es);
      var before := Build(keys[..n], es).value;
      var codes := Generate(Series(keys[n]), |Rows(es, keys[n])|, CodesOf(before)).value;
      hide Lowest, Covers, Generate, Series, Rows, CodesOf, Clash, Zip;
      LowestJoined(keys, es, before, codes);
    }
  }

  /** The employees of a known society have the lowest codes of their series, as many as they are, whatever the other
      societies have. */
  lemma KnownGetLowest(es: seq<Employee>)
    requires BuildChanges(es).Ok?
    ensures Lowest(BuildChanges(es).value, es)
  {
    var keys := Sort(Societies(es), SocietyLe);
    Keys(es);
    forall key | key in keys ensures Group(es, key) != [] { GroupsExist(es, key); }
    hide Build, Sort, Societies, Lowest;
    LowestUpTo(keys, es);
  }
}
