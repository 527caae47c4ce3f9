/** Writing the new codes (scripts/renumber_employee_codes.py, apply_changes): a temporary code for everybody
    first, so that no write ever meets a code still held, then the new ones. */
module CodeUpdate {
  import opened EmployeeCodes
  import opened Renumbering
  import opened RenumberingFacts

  function Decimals(n: nat): string {
    if n < 10 then [Digit(n)] else Decimals(n / 10) + [Digit(n % 10)]
  }

  /** The temporary code of an employee. */
  function Temporary(id: nat): string { "TMP-" + Decimals(id) }

  lemma {:induction false} DecimalsInjective(n: nat, m: nat)
    requires Decimals(n) == Decimals(m)
    ensures n == m
    decreases n
  {
    hide Digit;
    var a, b := Decimals(n), Decimals(m);
    DecimalsLength(n);
    DecimalsLength(m);
    assert a[|a| - 1] == b[|b| - 1];
    DigitInjective(n % 10, m % 10);
    if n >= 10 && m >= 10 {
      assert a[..|a| - 1] == Decimals(n / 10) && b[..|b| - 1] == Decimals(m / 10);
      DecimalsInjective(n / 10, m / 10);
    }
  }

  lemma DecimalsLength(n: nat)
    ensures |Decimals(n)| >= 1 && (|Decimals(n)| == 1 <==> n < 10)
    ensures Decimals(n)[|Decimals(n)| - 1] == Digit(n % 10)
  {
    if n >= 10 { DecimalsPositive(n / 10); }
  }

  lemma DecimalsPositive(n: nat)
    ensures |Decimals(n)| >= 1
  {
  }

  lemma TemporaryInjective(id: nat, id': nat)
    requires Temporary(id) == Temporary(id')
    ensures id == id'
  {
    assert Temporary(id)[4..] == Decimals(id) && Temporary(id')[4..] == Decimals(id');
    DecimalsInjective(id, id');
  }

  // ---- The two passes ----

  class EmployeeRow {
    const id: nat
    var code: string

    constructor (id: nat, code: string)
      ensures this.id == id && this.code == code
    {
      this.id, this.code := id, code;
    }
  }

  /** The codes once the first `n` rows were given their temporary code. */
  function FirstPass(ids: seq<nat>, olds: seq<string>, news: map<nat, string>, n: nat): seq<string>
    requires |ids| == |olds|
  {
    seq(|ids|, k requires 0 <= k < |ids| => if k < n && ids[k] in news then Temporary(ids[k]) else olds[k])
  }

  /** The codes once the first `n` rows were given their new code. */
  function SecondPass(ids: seq<nat>, olds: seq<string>, news: map<nat, string>, n: nat): seq<string>
    requires |ids| == |olds|
  {
    seq(|ids|, k requires 0 <= k < |ids| =>
      if ids[k] !in news then olds[k] else if k < n then news[ids[k]] else Temporary(ids[k]))
  }

  function Ids(rows: seq<EmployeeRow>): seq<nat> { seq(|rows|, k requires 0 <= k < |rows| => rows[k].id) }

  function Codes(rows: seq<EmployeeRow>): seq<string>
    reads rows
  {
    seq(|rows|, k requires 0 <= k < |rows| reads rows => rows[k].code)
  }

  // ---- Codes stay unique after every write ----

  /** No code is ever held twice, whatever write was the last one. */
  predicate NeverTwice(ids: seq<nat>, olds: seq<string>, news: map<nat, string>)
    requires |ids| == |olds|
  {
    && (forall n | 0 <= n <= |ids| :: Distinct(FirstPass(ids, olds, news, n)))
    && (forall n | 0 <= n <= |ids| :: Distinct(SecondPass(ids, olds, news, n)))
  }

  /** Nobody holds the temporary code of another employee when it is written, and nobody who keeps a code
      keeps one that is given out. */
  predicate Clear(ids: seq<nat>, olds: seq<string>, news: map<nat, string>)
    requires |ids| == |olds|
  {
    && (forall i, j | 0 <= i < |ids| && 0 <= j < |ids| && i != j && ids[i] in news && olds[j] == Temporary(ids[i]) ::
          ids[j] in news && j < i)
    && (forall i, j | 0 <= i < |ids| && 0 <= j < |ids| && ids[i] in news && ids[j] !in news :: olds[j] != news[ids[i]])
  }

  /** New codes differ from one another and from every temporary one. */
  predicate Proper(news: map<nat, string>) {
    && (forall a, b | a in news && b in news && a != b :: news[a] != news[b])
    && (forall a | a in news :: |news[a]| >= 2 && news[a][1] != 'M')
  }

  lemma ClearFirst(ids: seq<nat>, olds: seq<string>, news: map<nat, string>, n: nat)
    requires |ids| == |olds| && Distinct(ids) && Distinct(olds) && Clear(ids, olds, news)
    ensures Distinct(FirstPass(ids, olds, news, n))
  {
    var codes := FirstPass(ids, olds, news, n);
    forall i, j | 0 <= i < j < |codes| ensures codes[i] != codes[j] {
      if codes[i] == codes[j] && i < n && j < n && ids[i] in news && ids[j] in news {
        TemporaryInjective(ids[i], ids[j]);
      }
    }
  }

  lemma ClearSecond(ids: seq<nat>, olds: seq<string>, news: map<nat, string>, n: nat)
    requires |ids| == |olds| && Distinct(ids) && Distinct(olds) && Clear(ids, olds, news) && Proper(news)
    ensures Distinct(SecondPass(ids, olds, news, n))
  {
    hide Decimals;
    var codes := SecondPass(ids, olds, news, n);
    forall i, j | 0 <= i < j < |codes| ensures codes[i] != codes[j] {
      if ids[i] in news && ids[j] in news && codes[i] == codes[j] && n <= i { TemporaryInjective(ids[i], ids[j]); }
    }
  }

  /** Codes stay unique after every single write exactly when the table is clear of the codes to be written. */
  lemma UniqueThroughout(ids: seq<nat>, olds: seq<string>, news: map<nat, string>)
    requires |ids| == |olds| && Distinct(ids) && Distinct(olds) && Proper(news)
    ensures NeverTwice(ids, olds, news) <==> Clear(ids, olds, news)
  {
    if Clear(ids, olds, news) {
      forall n | 0 <= n <= |ids| ensures Distinct(FirstPass(ids, olds, news, n)) { ClearFirst(ids, olds, news, n); }
      forall n | 0 <= n <= |ids| ensures Distinct(SecondPass(ids, olds, news, n)) { ClearSecond(ids, olds, news, n); }
    }
    if NeverTwice(ids, olds, news) {
      forall i, j | 0 <= i < |ids| && 0 <= j < |ids| && i != j && ids[i] in news && olds[j] == Temporary(ids[i])
        ensures ids[j] in news && j < i
      {
        DifferentAt(FirstPass(ids, olds, news, i + 1), i, j);
      }
      forall i, j | 0 <= i < |ids| && 0 <= j < |ids| && ids[i] in news && ids[j] !in news
        ensures olds[j] != news[ids[i]]
      {
        DifferentAt(SecondPass(ids, olds, news, |ids|), i, j);
      }
    }
  }

  lemma DifferentAt(codes: seq<string>, i: nat, j: nat)
    requires Distinct(codes) && i < |codes| && j < |codes| && i != j
    ensures codes[i] != codes[j]
  {
  }

  /** `states` records the codes of the table after every write. When the table is clear of the codes to be
      written, no write ever leaves a code held twice. */
  method ApplyChanges(rows: seq<EmployeeRow>, news: map<nat, string>) returns (ghost states: seq<seq<string>>)
    requires forall j, k | 0 <= j < k < |rows| :: rows[j] != rows[k]
    modifies rows
    ensures Codes(rows) == SecondPass(Ids(rows), old(Codes(rows)), news, |rows|)
    ensures forall k | 0 <= k < |rows| ::
              rows[k].code == if rows[k].id in news then news[rows[k].id] else old(rows[k].code)
    ensures |states| == 2 * |Changed(Ids(rows), news)|
    ensures Writable(Ids(rows), old(Codes(rows)), news) ==>
              Distinct(Codes(rows)) && forall s | 0 <= s < |states| :: Distinct(states[s])
  {
    hide Temporary, Writable, Distinct;
    ghost var olds := Codes(rows);
    ghost var first, second;
    first := WriteTemporary(rows, news, olds);
    assert Codes(rows) == SecondPass(Ids(rows), olds, news, 0);
    second := WriteNew(rows, news, olds);
    states := first + second;
    assert forall k | 0 <= k < |rows| :: Codes(rows)[k] == rows[k].code && olds[k] == old(rows[k].code);
    if Writable(Ids(rows), olds, news) { WritableSecond(Ids(rows), olds, news, |rows|); }
  }

  method WriteTemporary(rows: seq<EmployeeRow>, news: map<nat, string>, ghost olds: seq<string>)
    returns (ghost states: seq<seq<string>>)
    requires forall j, k | 0 <= j < k < |rows| :: rows[j] != rows[k]
    requires olds == Codes(rows)
    modifies rows
    ensures Codes(rows) == FirstPass(Ids(rows), olds, news, |rows|)
    ensures |states| == |Changed(Ids(rows), news)|
    ensures Writable(Ids(rows), olds, news) ==> forall s | 0 <= s < |states| :: Distinct(states[s])
  {
    hide Temporary, Writable, Distinct;
    ghost var ids := Ids(rows);
    states := [];
    var k := 0;
    assert Codes(rows) == FirstPass(ids, olds, news, 0);
    while k < |rows|
      invariant 0 <= k <= |rows| && Codes(rows) == FirstPass(ids, olds, news, k)
      invariant Writable(ids, olds, news) ==> forall s | 0 <= s < |states| :: Distinct(states[s])
      invariant |states| == |Changed(ids[..k], news)|
    {
      ghost var before := Codes(rows);
      assert ids[..k + 1][..k] == ids[..k];
      if rows[k].id in news { rows[k].code := Temporary(rows[k].id); }
      assert Codes(rows) == before[k := rows[k].code];
      k := k + 1;
      if Writable(ids, olds, news) { WritableFirst(ids, olds, news, k); }
      if rows[k - 1].id in news { states := states + [Codes(rows)]; }
    }
    assert ids[..k] == ids;
  }

  method WriteNew(rows: seq<EmployeeRow>, news: map<nat, string>, ghost olds: seq<string>)
    returns (ghost states: seq<seq<string>>)
    requires forall j, k | 0 <= j < k < |rows| :: rows[j] != rows[k]
    requires |olds| == |rows| && Codes(rows) == SecondPass(Ids(rows), olds, news, 0)
    modifies rows
    ensures Codes(rows) == SecondPass(Ids(rows), olds, news, |rows|)
    ensures |states| == |Changed(Ids(rows), news)|
    ensures Writable(Ids(rows), olds, news) ==> forall s | 0 <= s < |states| :: Distinct(states[s])
  {
    hide Temporary, Writable, Distinct;
    ghost var ids := Ids(rows);
    states := [];
    var k := 0;
    while k < |rows|
      invariant 0 <= k <= |rows| && Codes(rows) == SecondPass(ids, olds, news, k)
      invariant Writable(ids, olds, news) ==> forall s | 0 <= s < |states| :: Distinct(states[s])
      invariant |states| == |Changed(ids[..k], news)|
    {
      ghost var before := Codes(rows);
      assert ids[..k + 1][..k] == ids[..k];
      if rows[k].id in news { rows[k].code := news[rows[k].id]; }
      assert Codes(rows) == before[k := rows[k].code];
      k := k + 1;
      if Writable(ids, olds, news) { WritableSecond(ids, olds, news, k); }
      if rows[k - 1].id in news { states := states + [Codes(rows)]; }
    }
    assert ids[..k] == ids;
  }

  /** The rows that are written. */
  ghost function Changed(ids: seq<nat>, news: map<nat, string>): seq<nat> {
    if ids == [] then []
    else
      var before := Changed(ids[..|ids| - 1], news);
      if ids[|ids| - 1] in news then before + [ids[|ids| - 1]] else before
  }

  /** A table with unique numbers and codes, clear of proper new codes. */
  ghost predicate Writable(ids: seq<nat>, olds: seq<string>, news: map<nat, string>)
    requires |ids| == |olds|
  {
    Distinct(ids) && Distinct(olds) && Proper(news) && Clear(ids, olds, news)
  }

  lemma WritableFirst(ids: seq<nat>, olds: seq<string>, news: map<nat, string>, n: nat)
    requires |ids| == |olds| && Writable(ids, olds, news)
    ensures Distinct(FirstPass(ids, olds, news, n))
  {
    ClearFirst(ids, olds, news, n);
  }

  lemma WritableSecond(ids: seq<nat>, olds: seq<string>, news: map<nat, string>, n: nat)
    requires |ids| == |olds| && Writable(ids, olds, news)
    ensures Distinct(SecondPass(ids, olds, news, n))
  {
    ClearSecond(ids, olds, news, n);
  }

  // ---- With the changes that were built ----

  /** The changes by employee number. */
  function ById(changes: seq<Change>): map<nat, string> {
    if changes == [] then map[]
    else
      var last := changes[|changes| - 1];
      ById(changes[..|changes| - 1])[last.employee.id := last.code]
  }

  lemma {:induction false} ByIdIs(changes: seq<Change>)
    ensures forall id :: id in ById(changes) ==>
              exists k :: 0 <= k < |changes| && changes[k].employee.id == id && changes[k].code == ById(changes)[id]
  {
    if changes == [] {
    } else {
      var n := |changes| - 1;
      ByIdIs(changes[..n]);
      forall id | id in ById(changes)
        ensures exists k :: 0 <= k < |changes| && changes[k].employee.id == id && changes[k].code == ById(changes)[id]
      {
        if id != changes[n].employee.id {
          assert id in ById(changes[..n]) && ById(changes)[id] == ById(changes[..n])[id];
          var k :| 0 <= k < |changes[..n]| && changes[..n][k].employee.id == id
                   && changes[..n][k].code == ById(changes[..n])[id];
          assert changes[k] == changes[..n][k];
        }
      }
    }
  }

  lemma NotTemporary(key: string, code: string)
    requires code in AllCodes(Series(key))
    ensures |code| >= 2 && code[1] != 'M'
  {
    var prefixes := Series(key);
    var i :| 0 <= i < |AllCodes(prefixes)| && AllCodes(prefixes)[i] == code;
    assert code[1] == Number(i % SERIE_LIMIT + 1)[0];
  }

  /** What the renumbering builds can be written whenever the table is clear. */
  lemma BuiltAreProper(es: seq<Employee>)
    requires BuildChanges(es).Ok?
    ensures Proper(ById(BuildChanges(es).value))
  {
    var changes := BuildChanges(es).value;
    ChangesAreSound(es);
    ByIdIs(changes);
    var news := ById(changes);
    forall a | a in news ensures |news[a]| >= 2 && news[a][1] != 'M' {
      var k :| 0 <= k < |changes| && changes[k].employee.id == a && changes[k].code == news[a];
      NotTemporary(changes[k].employee.society, news[a]);
    }
    forall a, b | a in news && b in news && a != b ensures news[a] != news[b] {
      var j :| 0 <= j < |changes| && changes[j].employee.id == a && changes[j].code == news[a];
      var k :| 0 <= k < |changes| && changes[k].employee.id == b && changes[k].code == news[b];
      assert j < k || k < j;
    }
  }

  /** Every change that was built is the one that is written, employees having different numbers. */
  lemma {:induction false} ByIdHas(changes: seq<Change>)
    requires forall j, k | 0 <= j < k < |changes| :: changes[j].employee.id != changes[k].employee.id
    ensures forall k | 0 <= k < |changes| ::
              changes[k].employee.id in ById(changes) && ById(changes)[changes[k].employee.id] == changes[k].code
  {
    if changes == [] {
    } else {
      var n := |changes| - 1;
      ByIdHas(changes[..n]);
      assert forall k | 0 <= k < n :: changes[..n][k] == changes[k];
    }
  }
}
