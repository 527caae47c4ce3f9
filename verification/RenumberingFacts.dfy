/** What the renumbering guarantees, and exactly when it succeeds. */
module RenumberingFacts {
  import opened Wrappers
  import opened Ordering
  import opened EmployeeCodes
  import opened Renumbering

  function Employees(changes: seq<Change>): seq<Employee> {
    seq(|changes|, k requires 0 <= k < |changes| => changes[k].employee)
  }

  /** The employees of the given societies, society by society. */
  function Gathered(keys: seq<string>, es: seq<Employee>): seq<Employee> {
    if keys == [] then [] else Gathered(keys[..|keys| - 1], es) + Group(es, keys[|keys| - 1])
  }

  // ---- Groups ----

  lemma {:induction false} GroupIs(es: seq<Employee>, key: string)
    ensures forall e :: e in Group(es, key) <==> e in es && e.society == key
  {
    if es == [] {
    } else {
      GroupIs(es[..|es| - 1], key);
      assert es == es[..|es| - 1] + [es[|es| - 1]];
    }
  }

  function Others(es: seq<Employee>, key: string): seq<Employee> {
    if es == [] then []
    else
      var before, last := Others(es[..|es| - 1], key), es[|es| - 1];
      if last.society == key then before else before + [last]
  }

  lemma AppendMultiset<T>(xs: seq<T>, x: T)
    ensures multiset(xs + [x]) == multiset(xs) + multiset{x}
  {
  }

  lemma {:induction false} GroupAndOthers(es: seq<Employee>, key: string)
    ensures multiset(Group(es, key)) + multiset(Others(es, key)) == multiset(es)
    ensures |Group(es, key)| + |Others(es, key)| == |es|
  {
    if es == [] {
    } else {
      var before, last := es[..|es| - 1], es[|es| - 1];
      GroupAndOthers(before, key);
      assert es == before + [last];
      AppendMultiset(before, last);
      AppendMultiset(Group(before, key), last);
      AppendMultiset(Others(before, key), last);
    }
  }

  lemma {:induction false} OthersKeep(es: seq<Employee>, key: string, other: string)
    requires key != other
    ensures Group(Others(es, key), other) == Group(es, other)
  {
    if es == [] {
    } else {
      OthersKeep(es[..|es| - 1], key, other);
      var before, last := Others(es[..|es| - 1], key), es[|es| - 1];
      if last.society != key { assert (before + [last])[..|before|] == before; }
    }
  }

  lemma {:induction false} OthersGathered(keys: seq<string>, es: seq<Employee>, key: string)
    requires key !in keys
    ensures Gathered(keys, Others(es, key)) == Gathered(keys, es)
  {
    if keys == [] {
    } else {
      OthersGathered(keys[..|keys| - 1], es, key);
      OthersKeep(es, key, keys[|keys| - 1]);
    }
  }

  lemma {:induction false} OthersAre(es: seq<Employee>, key: string)
    ensures forall e :: e in Others(es, key) <==> e in es && e.society != key
  {
    if es == [] {
    } else {
      OthersAre(es[..|es| - 1], key);
      assert es == es[..|es| - 1] + [es[|es| - 1]];
    }
  }

  lemma FirstIn<T>(xs: seq<T>)
    ensures xs != [] ==> xs[0] in xs
  {
  }

  lemma LastNotBefore(keys: seq<string>)
    requires Distinct(keys) && keys != []
    ensures keys[|keys| - 1] !in keys[..|keys| - 1] && Distinct(keys[..|keys| - 1])
  {
  }

  /** Gathering by society loses and repeats nobody. */
  lemma {:induction false} GatheredAll(keys: seq<string>, es: seq<Employee>)
    requires Distinct(keys) && forall e <- es :: e.society in keys
    ensures multiset(Gathered(keys, es)) == multiset(es)
    decreases |keys|
  {
    if keys == [] {
      FirstIn(es);
    } else {
      var n := |keys| - 1;
      var rest := Others(es, keys[n]);
      OthersAre(es, keys[n]);
      assert keys == keys[..n] + [keys[n]];
      LastNotBefore(keys);
      GatheredAll(keys[..n], rest);
      OthersGathered(keys[..n], es, keys[n]);
      GroupAndOthers(es, keys[n]);
    }
  }

  lemma {:induction false} SocietiesAre(es: seq<Employee>)
    ensures Distinct(Societies(es))
    ensures forall key :: key in Societies(es) <==> exists e :: e in es && e.society == key
  {
    if es == [] {
    } else {
      var n := |es| - 1;
      SocietiesAre(es[..n]);
      assert es == es[..n] + [es[n]];
      forall key ensures key in Societies(es) <==> exists e :: e in es && e.society == key {
        if key in Societies(es[..n]) {
          var e :| e in es[..n] && e.society == key;
          assert e in es;
        }
        if e :| e in es && e.society == key { assert e in es[..n] || e == es[n]; }
      }
    }
  }

  lemma SameMembers<T(!new)>(xs: seq<T>, ys: seq<T>)
    requires multiset(xs) == multiset(ys)
    ensures forall x :: x in xs <==> x in ys
  {
    assert forall x :: x in xs <==> x in multiset(xs);
    assert forall x :: x in ys <==> x in multiset(ys);
  }

  lemma DistinctFromMultiset<T(!new)>(xs: seq<T>, ys: seq<T>)
    requires Distinct(xs) && multiset(xs) == multiset(ys)
    ensures Distinct(ys)
  {
    forall j, k | 0 <= j < k < |ys| ensures ys[j] != ys[k] {
      if ys[j] == ys[k] {
        TwiceInMultiset(ys, j, k);
        OnceInMultiset(xs, ys[j]);
      }
    }
  }

  lemma TwiceInMultiset<T>(ys: seq<T>, j: nat, k: nat)
    requires j < k < |ys| && ys[j] == ys[k]
    ensures multiset(ys)[ys[j]] >= 2
  {
    assert ys == ys[..k] + ys[k..];
    assert ys[j] in ys[..k] && ys[k] in ys[k..];
  }

  lemma {:induction false} OnceInMultiset<T>(xs: seq<T>, x: T)
    requires Distinct(xs)
    ensures multiset(xs)[x] <= 1
  {
    if xs == [] {
    } else {
      var n := |xs| - 1;
      OnceInMultiset(xs[..n], x);
      assert xs == xs[..n] + [xs[n]];
      if x == xs[n] { assert x !in xs[..n]; }
    }
  }

  /** The societies in the order they are treated: each once, all of them, by priority. */
  lemma Keys(es: seq<Employee>)
    ensures var keys := Sort(Societies(es), SocietyLe);
            && Distinct(keys) && SortedBy(keys, SocietyLe)
            && (forall e <- es :: e.society in keys) && (forall key <- keys :: exists e :: e in es && e.society == key)
  {
    SocietyOrder();
    SortSorts(Societies(es), SocietyLe);
    SocietiesAre(es);
    hide Societies, SocietyLe, Sort, SortedBy, Distinct;
    var keys := Sort(Societies(es), SocietyLe);
    SameMembers(Societies(es), keys);
    DistinctFromMultiset(Societies(es), keys);
  }

  // ---- The changes ----

  /** Distinct codes, each of its employee's series; within a society, codes rise with the names. */
  ghost predicate Sound(changes: seq<Change>) {
    && (forall j, k | 0 <= j < k < |changes| :: changes[j].code != changes[k].code)
    && (forall k | 0 <= k < |changes| :: changes[k].code in AllCodes(Series(changes[k].employee.society)))
    && (forall j, k | 0 <= j < k < |changes| && changes[j].employee.society == changes[k].employee.society ::
          && EmployeeLe(changes[j].employee, changes[k].employee)
          && Before(AllCodes(Series(changes[j].employee.society)), changes[j].code, changes[k].code))
  }

  lemma AlphabetInOrder()
    ensures forall i | 0 <= i < |ALPHABET| :: ALPHABET[i] as int == 'A' as int + i
  {
  }

  lemma SeriesDistinct(key: string)
    ensures Distinct(Series(key))
  {
    if Priority(key) == 99 {
      AlphabetInOrder();
      hide ALPHABET;
    }
  }

  lemma RowsAre(es: seq<Employee>, key: string)
    ensures multiset(Rows(es, key)) == multiset(Group(es, key)) && |Rows(es, key)| == |Group(es, key)|
    ensures SortedBy(Rows(es, key), EmployeeLe)
    ensures forall k | 0 <= k < |Rows(es, key)| :: Rows(es, key)[k].society == key
  {
    EmployeeOrder();
    SortSorts(Group(es, key), EmployeeLe);
    assert |multiset(Rows(es, key))| == |multiset(Group(es, key))|;
    GroupIs(es, key);
    forall k | 0 <= k < |Rows(es, key)| ensures Rows(es, key)[k].society == key {
      assert Rows(es, key)[k] in multiset(Rows(es, key));
    }
  }

  /** What one society adds: as many codes as employees, or nothing at all. */
  lemma OneSociety(es: seq<Employee>, key: string, before: seq<Change>)
    requires Group(es, key) != []
    ensures var rows, used := Rows(es, key), CodesOf(before);
            var codes := Generate(Series(key), |rows|, used);
            && (codes.Ok? <==> Capacity(Series(key), |rows|, used))
            && (codes.Ok? ==> |codes.value| == |rows| && Zipped(rows, codes.value) == codes.value
                              && !Clash(codes.value, used))
  {
    RowsAre(es, key);
    SeriesDistinct(key);
    GeneratedAre(Series(key), |Rows(es, key)|, CodesOf(before));
    hide Generate, Rows, Series, Capacity, CodesOf;
  }

  lemma JoinedIsSound(before: seq<Change>, es: seq<Employee>, key: string, codes: seq<string>)
    requires Sound(before) && Group(es, key) != []
    requires forall k | 0 <= k < |before| :: before[k].employee.society != key
    requires Generate(Series(key), |Rows(es, key)|, CodesOf(before)) == Ok(codes)
    ensures Sound(before + Zip(Rows(es, key), codes))
    ensures multiset(Employees(before + Zip(Rows(es, key), codes)))
         == multiset(Employees(before)) + multiset(Group(es, key))
  {
    var rows := Rows(es, key);
    var added := Zip(rows, codes);
    AddedIsSound(before, es, key, codes);
    hide Sound, Generate, Rows, Series, Zip, Group;
    JoinedEmployees(before, added);
    CodesAmong(before);
    hide CodesOf, Employees;
    SoundTogether(before, added, key);
    RowsAre(es, key);
  }

  lemma JoinedEmployees(before: seq<Change>, added: seq<Change>)
    ensures Employees(before + added) == Employees(before) + Employees(added)
  {
  }

  lemma CodesAmong(changes: seq<Change>)
    ensures forall j | 0 <= j < |changes| :: changes[j].code in CodesOf(changes)
  {
  }

  lemma AddedIsSound(before: seq<Change>, es: seq<Employee>, key: string, codes: seq<string>)
    requires Group(es, key) != [] && Generate(Series(key), |Rows(es, key)|, CodesOf(before)) == Ok(codes)
    ensures Sound(Zip(Rows(es, key), codes)) && |codes| == |Rows(es, key)|
    ensures Employees(Zip(Rows(es, key), codes)) == Rows(es, key)
    ensures forall k | 0 <= k < |codes| :: Zip(Rows(es, key), codes)[k].employee.society == key
    ensures forall k | 0 <= k < |codes| :: Zip(Rows(es, key), codes)[k].code !in CodesOf(before)
  {
    RowsAre(es, key);
    SeriesDistinct(key);
    GeneratedAre(Series(key), |Rows(es, key)|, CodesOf(before));
    hide Generate, Rows, Series, Capacity, EmployeeLe, CodesOf, Group, AllCodes, Before, Sound, SortedBy, Distinct,
         Zip, Employees;
    ZippedRows(Rows(es, key), codes);
    ZipIsSound(Rows(es, key), codes, key);
  }

  lemma ZipIsSound(rows: seq<Employee>, codes: seq<string>, key: string)
    requires |rows| == |codes| && SortedBy(rows, EmployeeLe) && Distinct(codes)
    requires forall k | 0 <= k < |rows| :: rows[k].society == key && codes[k] in AllCodes(Series(key))
    requires forall j, k | 0 <= j < k < |codes| :: Before(AllCodes(Series(key)), codes[j], codes[k])
    ensures Sound(Zip(rows, codes))
  {
    ZippedRows(rows, codes);
    hide EmployeeLe, Series, AllCodes, Before, Zip;
  }

  lemma ZippedRows(rows: seq<Employee>, codes: seq<string>)
    requires |rows| == |codes|
    ensures |Zip(rows, codes)| == |rows| && Employees(Zip(rows, codes)) == rows
    ensures forall k | 0 <= k < |rows| ::
              Zip(rows, codes)[k].employee == rows[k] && Zip(rows, codes)[k].code == codes[k]
  {
  }

  lemma SoundTogether(before: seq<Change>, added: seq<Change>, key: string)
    requires Sound(before) && Sound(added)
    requires forall j, k | 0 <= j < |before| && 0 <= k < |added| :: before[j].code != added[k].code
    requires forall k | 0 <= k < |before| :: before[k].employee.society != key
    requires forall k | 0 <= k < |added| :: added[k].employee.society == key
    ensures Sound(before + added)
  {
    hide EmployeeLe, Series, AllCodes, Before;
  }

  /** The changes so far cover the given societies. */
  ghost predicate Covers(changes: seq<Change>, keys: seq<string>, es: seq<Employee>) {
    && Sound(changes) && |changes| == |Gathered(keys, es)|
    && multiset(Employees(changes)) == multiset(Gathered(keys, es))
    && forall k | 0 <= k < |changes| :: changes[k].employee.society in keys
  }

  lemma CoversOneMore(keys: seq<string>, es: seq<Employee>, before: seq<Change>, codes: seq<string>)
    requires keys != [] && Distinct(keys) && Group(es, keys[|keys| - 1]) != []
    requires Covers(before, keys[..|keys| - 1], es)
    requires Generate(Series(keys[|keys| - 1]), |Rows(es, keys[|keys| - 1])|, CodesOf(before)) == Ok(codes)
    ensures Covers(before + Zip(Rows(es, keys[|keys| - 1]), codes), keys, es)
  {
    var n := |keys| - 1;
    assert keys[n] !in keys[..n];
    JoinedIsSound(before, es, keys[n], codes);
    AddedIsSound(before, es, keys[n], codes);
    RowsAre(es, keys[n]);
    hide Sound, Generate, Rows, Series, Group, CodesOf, Distinct, AllCodes;
    var added := Zip(Rows(es, keys[n]), codes);
    assert |Gathered(keys, es)| == |Gathered(keys[..n], es)| + |Group(es, keys[n])|;
    forall k | 0 <= k < |before + added| ensures (before + added)[k].employee.society in keys {
      if k < |before| { assert before[k].employee.society in keys[..n]; }
    }
  }

  lemma {:induction false} BuiltUpTo(keys: seq<string>, es: seq<Employee>)
    requires Distinct(keys) && (forall key <- keys :: Group(es, key) != []) && Build(keys, es).Ok?
    ensures Covers(Build(keys, es).value, keys, es)
    decreases |keys|
  {
    if keys == [] {
      assert Employees([]) == [];
    } else {
      var n := |keys| - 1;
      BuiltUpTo(keys[..n], es);
      var before := Build(keys[..n], es).value;
      hide Covers, Generate, Rows, Series, Group, CodesOf, Distinct, Clash, Zip;
      assert keys[n] in keys;
      CoversOneMore(keys, es, before, Generate(Series(keys[n]), |Rows(es, keys[n])|, CodesOf(before)).value);
    }
  }

  lemma GroupsExist(es: seq<Employee>, key: string)
    requires exists e :: e in es && e.society == key
    ensures Group(es, key) != []
  {
    GroupIs(es, key);
    var e :| e in es && e.society == key;
    assert e in Group(es, key);
  }

  /** Every employee gets exactly one code of its society's series, all codes differ even between societies
      that share letters, and within a society they follow the names. */
  lemma ChangesAreSound(es: seq<Employee>)
    requires BuildChanges(es).Ok?
    ensures Sound(BuildChanges(es).value)
    ensures multiset(Employees(BuildChanges(es).value)) == multiset(es)
  {
    var keys := Sort(Societies(es), SocietyLe);
    Keys(es);
    forall key | key in keys ensures Group(es, key) != [] { GroupsExist(es, key); }
    BuiltUpTo(keys, es);
    GatheredAll(keys, es);
  }

  lemma SoundInOrder(changes: seq<Change>, j: nat, k: nat)
    requires Sound(changes) && j < k < |changes| && changes[j].employee.society == changes[k].employee.society
    ensures EmployeeLe(changes[j].employee, changes[k].employee)
    ensures Before(AllCodes(Series(changes[j].employee.society)), changes[j].code, changes[k].code)
  {
    hide EmployeeLe, Series, AllCodes, Before;
  }

  lemma CodesRise(changes: seq<Change>, j: nat, k: nat)
    requires Sound(changes) && TotalOrder(EmployeeLe) && j < |changes| && k < |changes|
    requires changes[j].employee.society == changes[k].employee.society && changes[j].employee != changes[k].employee
    requires EmployeeLe(changes[j].employee, changes[k].employee)
    ensures Before(AllCodes(Series(changes[j].employee.society)), changes[j].code, changes[k].code)
  {
    hide Sound, EmployeeLe, Series, AllCodes, Before;
    if j < k {
      SoundInOrder(changes, j, k);
    } else if k < j {
      SoundInOrder(changes, k, j);
    }
  }

  /** Of two employees of one society, the first by name has the lower code of the series. */
  lemma CodesRiseWithNames(es: seq<Employee>, j: nat, k: nat)
    requires BuildChanges(es).Ok? && j < |BuildChanges(es).value| && k < |BuildChanges(es).value|
    requires var changes := BuildChanges(es).value;
             changes[j].employee.society == changes[k].employee.society && changes[j].employee != changes[k].employee
    ensures var changes := BuildChanges(es).value;
            EmployeeLe(changes[j].employee, changes[k].employee) ==>
              Before(AllCodes(Series(changes[j].employee.society)), changes[j].code, changes[k].code)
  {
    ChangesAreSound(es);
    EmployeeOrder();
    hide BuildChanges, EmployeeLe, Sound;
    var changes := BuildChanges(es).value;
    if EmployeeLe(changes[j].employee, changes[k].employee) { CodesRise(changes, j, k); }
  }

  // ---- When it succeeds ----

  predicate Known(key: string) { Priority(key) < 99 }

  /** The room left when the society is reached. */
  predicate Fits(keys: seq<string>, es: seq<Employee>, k: nat)
    requires k < |keys|
  {
    if Known(keys[k]) then |Group(es, keys[k])| <= |Series(keys[k])| * SERIE_LIMIT
    else |Gathered(keys[..k + 1], es)| <= |ALPHABET| * SERIE_LIMIT
  }

  function ToSet<T(==)>(xs: seq<T>): set<T> { set x | x in xs }

  lemma {:induction false} DistinctSize<T(!new)>(xs: seq<T>)
    requires Distinct(xs)
    ensures |ToSet(xs)| == |xs|
  {
    if xs == [] {
      assert ToSet(xs) == {};
    } else {
      var n := |xs| - 1;
      DistinctSize(xs[..n]);
      assert xs == xs[..n] + [xs[n]] && xs[n] !in xs[..n];
      assert ToSet(xs) == ToSet(xs[..n]) + {xs[n]};
    }
  }

  lemma CodesSize(changes: seq<Change>)
    requires Sound(changes)
    ensures |CodesOf(changes)| == |changes|
  {
    var codes := seq(|changes|, k requires 0 <= k < |changes| => changes[k].code);
    DistinctSize(codes);
    forall c | c in CodesOf(changes) ensures c in ToSet(codes) {
      var k :| 0 <= k < |changes| && changes[k].code == c;
      assert codes[k] == c;
    }
    assert CodesOf(changes) == ToSet(codes);
  }

  lemma SeriesInAlphabet(key: string)
    ensures forall c <- Series(key) :: c in ALPHABET
    ensures !Known(key) ==> Series(key) == ALPHABET
  {
    assert ALPHABET[0] == 'A' && ALPHABET[1] == 'B' && ALPHABET[2] == 'C' && ALPHABET[10] == 'K' && ALPHABET[22] == 'W';
    assert ALPHABET[18] == 'S' && ALPHABET[19] == 'T';
  }

  lemma KnownSeriesApart(a: string, b: string)
    requires Known(a) && Known(b) && a != b
    ensures forall c <- Series(a) :: c !in Series(b)
  {
  }

  /** How much of a series earlier societies used: nothing for a known society, everything they gave for the others. */
  lemma UsedBefore(keys: seq<string>, es: seq<Employee>, before: seq<Change>, n: nat)
    requires Distinct(keys) && SortedBy(keys, SocietyLe) && n < |keys| && Sound(before)
    requires forall k | 0 <= k < |before| :: before[k].employee.society in keys[..n]
    ensures |UsedIn(Series(keys[n]), CodesOf(before))| == if Known(keys[n]) then 0 else |before|
  {
    var used := CodesOf(before);
    CodesSize(before);
    if Known(keys[n]) {
      forall k | 0 <= k < |before| ensures before[k].code != "" && before[k].code[0] !in Series(keys[n]) {
        var d := before[k].employee.society;
        var i :| 0 <= i < n && keys[i] == d;
        assert SocietyLe(keys[i], keys[n]);
        KnownSeriesApart(d, keys[n]);
        AllCodesStart(Series(d));
      }
      assert UsedIn(Series(keys[n]), used) == {};
    } else {
      SeriesInAlphabet(keys[n]);
      forall k | 0 <= k < |before| ensures before[k].code != "" && before[k].code[0] in ALPHABET {
        SeriesInAlphabet(before[k].employee.society);
        AllCodesStart(Series(before[k].employee.society));
      }
      assert UsedIn(Series(keys[n]), used) == used;
    }
  }

  predicate AllFit(keys: seq<string>, es: seq<Employee>, n: nat)
    requires n <= |keys|
  {
    forall k | 0 <= k < n :: Fits(keys, es, k)
  }

  lemma {:induction false} BuildFits(keys: seq<string>, es: seq<Employee>)
    requires Distinct(keys) && SortedBy(keys, SocietyLe) && forall key <- keys :: Group(es, key) != []
    ensures Build(keys, es).Ok? <==> AllFit(keys, es, |keys|)
    decreases |keys|
  {
    if keys == [] {
    } else {
      var n := |keys| - 1;
      BuildFits(keys[..n], es);
      EarlierFits(keys, es);
      if Build(keys[..n], es).Ok? { LastFits(keys, es); }
    }
    hide Fits, Generate, Clash, Zip, Rows, Series, SocietyLe, Group;
  }

  lemma EarlierFits(keys: seq<string>, es: seq<Employee>)
    requires keys != []
    ensures AllFit(keys[..|keys| - 1], es, |keys| - 1) <==> AllFit(keys, es, |keys| - 1)
  {
    var n := |keys| - 1;
    forall k | 0 <= k < n ensures Fits(keys[..n], es, k) == Fits(keys, es, k) {
      assert keys[..n][..k + 1] == keys[..k + 1];
    }
    hide Fits;
    if AllFit(keys[..n], es, n) {
      forall k | 0 <= k < n ensures Fits(keys, es, k) { assert Fits(keys[..n], es, k); }
    }
  }

  lemma LastFits(keys: seq<string>, es: seq<Employee>)
    requires keys != [] && Distinct(keys) && SortedBy(keys, SocietyLe) && forall key <- keys :: Group(es, key) != []
    requires Build(keys[..|keys| - 1], es).Ok?
    ensures Build(keys, es).Ok? <==> Fits(keys, es, |keys| - 1)
  {
    var n := |keys| - 1;
    var before := Build(keys[..n], es).value;
    BuiltUpTo(keys[..n], es);
    assert Group(es, keys[n]) != [];
    OneSociety(es, keys[n], before);
    LastCapacity(keys, es, before);
    hide Generate, Rows, Sound, UsedIn, Priority, Group, Fits, Capacity, Series;
  }

  lemma LastCapacity(keys: seq<string>, es: seq<Employee>, before: seq<Change>)
    requires keys != [] && Distinct(keys) && SortedBy(keys, SocietyLe) && Sound(before)
    requires forall k | 0 <= k < |before| :: before[k].employee.society in keys[..|keys| - 1]
    requires |before| == |Gathered(keys[..|keys| - 1], es)|
    ensures var n := |keys| - 1;
            Capacity(Series(keys[n]), |Rows(es, keys[n])|, CodesOf(before)) <==> Fits(keys, es, n)
  {
    var n := |keys| - 1;
    UsedBefore(keys, es, before, n);
    RowsAre(es, keys[n]);
    SeriesInAlphabet(keys[n]);
    assert keys[..n + 1] == keys;
    hide Series, Rows, Sound, UsedIn, Priority, Group, CodesOf, SocietyLe, ALPHABET;
  }

  /** The four known societies fit their own letters, and everybody fits the alphabet. */
  predicate Limits(es: seq<Employee>) {
    && |Group(es, SECURITE)| <= 600 && |Group(es, SOLUTION)| <= 400
    && |Group(es, CORPORATION)| <= 200 && |Group(es, CONSTRUCTION)| <= 200
    && |es| <= 5200
  }

  lemma {:induction false} GatheredGrows(keys: seq<string>, es: seq<Employee>, k: nat)
    requires k <= |keys|
    ensures |Gathered(keys[..k], es)| <= |Gathered(keys, es)|
    decreases |keys|
  {
    if k < |keys| {
      var n := |keys| - 1;
      GatheredGrows(keys[..n], es, k);
      assert keys[..n][..k] == keys[..k];
    } else {
      assert keys[..k] == keys;
    }
  }

  lemma {:induction false} FourGroups(es: seq<Employee>)
    requires forall k | 0 <= k < |es| :: Known(es[k].society)
    ensures |es| == |Group(es, SECURITE)| + |Group(es, SOLUTION)| + |Group(es, CORPORATION)| + |Group(es, CONSTRUCTION)|
  {
    if es == [] {
    } else {
      FourGroups(es[..|es| - 1]);
    }
  }

  /** The room of a known society. */
  lemma Room(key: string)
    requires Known(key)
    ensures key in {SECURITE, SOLUTION, CORPORATION, CONSTRUCTION}
    ensures |Series(key)| * SERIE_LIMIT ==
            if key == SECURITE then 600 else if key == SOLUTION then 400 else 200
  {
  }

  lemma GroupLimit(keys: seq<string>, es: seq<Employee>, key: string)
    requires Known(key) && (forall e <- es :: e.society in keys)
    requires forall k | 0 <= k < |keys| :: Fits(keys, es, k)
    ensures |Group(es, key)| <= |Series(key)| * SERIE_LIMIT
  {
    GroupIs(es, key);
    if Group(es, key) != [] {
      assert Group(es, key)[0] in Group(es, key);
      var k :| 0 <= k < |keys| && keys[k] == key;
      assert Fits(keys, es, k);
    }
  }

  /** The renumbering succeeds exactly when the four known societies fit their own letters and everybody
      fits the alphabet. */
  lemma BuildSucceeds(es: seq<Employee>)
    ensures BuildChanges(es).Ok? <==> Limits(es)
  {
    var keys := Sort(Societies(es), SocietyLe);
    Keys(es);
    forall key | key in keys ensures Group(es, key) != [] { GroupsExist(es, key); }
    BuildFits(keys, es);
    GatheredAll(keys, es);
    assert |multiset(Gathered(keys, es))| == |multiset(es)|;
    Room(SECURITE);
    Room(SOLUTION);
    Room(CORPORATION);
    Room(CONSTRUCTION);
    if AllFit(keys, es, |keys|) {
      GroupLimit(keys, es, SECURITE);
      GroupLimit(keys, es, SOLUTION);
      GroupLimit(keys, es, CORPORATION);
      GroupLimit(keys, es, CONSTRUCTION);
      EverybodyFits(keys, es);
    }
    if Limits(es) {
      forall k | 0 <= k < |keys| ensures Fits(keys, es, k) {
        GatheredGrows(keys, es, k + 1);
        if Known(keys[k]) { Room(keys[k]); }
      }
    }
  }

  lemma EverybodyFits(keys: seq<string>, es: seq<Employee>)
    requires (forall e <- es :: e.society in keys) && SortedBy(keys, SocietyLe)
    requires |Gathered(keys, es)| == |es| && forall k | 0 <= k < |keys| :: Fits(keys, es, k)
    requires |Group(es, SECURITE)| <= 600 && |Group(es, SOLUTION)| <= 400
    requires |Group(es, CORPORATION)| <= 200 && |Group(es, CONSTRUCTION)| <= 200
    ensures |es| <= 5200
  {
    if keys != [] && !Known(keys[|keys| - 1]) {
      assert Fits(keys, es, |keys| - 1);
      assert keys[..|keys|] == keys;
    } else {
      forall k | 0 <= k < |es| ensures Known(es[k].society) {
        assert es[k] in es;
        var i :| 0 <= i < |keys| && keys[i] == es[k].society;
        if i < |keys| - 1 { assert SocietyLe(keys[i], keys[|keys| - 1]); }
      }
      FourGroups(es);
    }
  }
}
