/** Employee codes (scripts/renumber_employee_codes.py): a letter of the society's series and a number from
    01 to 200; series may be shared, codes may not. */
module EmployeeCodes {
  import opened Wrappers

  const SERIE_LIMIT := 200
  const DIGITS := "0123456789"
  const ALPHABET := "ABCDEFGHIJKLMNOPQRSTUVWXYZ"

  function Digit(d: nat): char
    requires d < 10
  {
    DIGITS[d]
  }

  /** The number as two digits at least. */
  function Number(n: nat): string
    requires n < 1000
  {
    if n < 100 then [Digit(n / 10), Digit(n % 10)] else [Digit(n / 100), Digit(n / 10 % 10), Digit(n % 10)]
  }

  function Code(prefix: char, n: nat): string
    requires n < 1000
  {
    [prefix] + Number(n)
  }

  lemma DigitInjective(i: nat, j: nat)
    requires i < 10 && j < 10 && Digit(i) == Digit(j)
    ensures i == j
  {
  }

  lemma Tens(n: nat)
    ensures n == n / 10 * 10 + n % 10
  {
  }

  lemma Hundreds(n: nat)
    ensures n / 10 / 10 == n / 100
  {
  }

  lemma NumberInjective(n: nat, m: nat)
    requires n < 1000 && m < 1000 && Number(n) == Number(m)
    ensures n == m
  {
    hide Digit;
    assert |Number(n)| == |Number(m)| && Number(n)[0] == Number(m)[0] && Number(n)[1] == Number(m)[1];
    Tens(n);
    Tens(m);
    if n < 100 {
      DigitInjective(n / 10, m / 10);
      DigitInjective(n % 10, m % 10);
    } else {
      assert Number(n)[2] == Number(m)[2];
      hide Number;
      Tens(n / 10);
      Tens(m / 10);
      Hundreds(n);
      Hundreds(m);
      DigitInjective(n / 100, m / 100);
      DigitInjective(n / 10 % 10, m / 10 % 10);
      DigitInjective(n % 10, m % 10);
    }
  }

  /** A code is written in one way only. */
  lemma CodeInjective(p: char, n: nat, q: char, m: nat)
    requires n < 1000 && m < 1000 && Code(p, n) == Code(q, m)
    ensures p == q && n == m
  {
    hide Number;
    assert Code(p, n)[0] == p && Code(q, m)[0] == q;
    assert Code(p, n)[1..] == Number(n) && Code(q, m)[1..] == Number(m);
    NumberInjective(n, m);
  }

  // ---- Generating codes ----

  predicate Distinct<T(==)>(xs: seq<T>) { forall j, k | 0 <= j < k < |xs| :: xs[j] != xs[k] }

  /** Every code of the series, in the order they are given out. */
  function AllCodes(prefixes: seq<char>): seq<string> {
    seq(|prefixes| * SERIE_LIMIT, i requires 0 <= i < |prefixes| * SERIE_LIMIT =>
      Code(prefixes[i / SERIE_LIMIT], i % SERIE_LIMIT + 1))
  }

  function Free<T(==)>(codes: seq<T>, used: set<T>): seq<T> {
    if codes == [] then []
    else
      var before, last := Free(codes[..|codes| - 1], used), codes[|codes| - 1];
      if last in used then before else before + [last]
  }

  /** Used codes that start with a letter of the series. */
  function UsedIn(prefixes: seq<char>, used: set<string>): set<string> {
    set code | code in used && code != "" && code[0] in prefixes
  }

  predicate Capacity(prefixes: seq<char>, count: nat, used: set<string>) {
    count + |UsedIn(prefixes, used)| <= |prefixes| * SERIE_LIMIT
  }

  datatype Failure = NoCapacity | NoCapacityAfterExclusions | Duplicate

  /** Asked for none, it returns every free code. */
  function Generate(prefixes: seq<char>, count: nat, used: set<string>): Result<seq<string>, Failure> {
    var free := Free(AllCodes(prefixes), used);
    if !Capacity(prefixes, count, used) then Err(NoCapacity)
    else if count == 0 then Ok(free)
    else if |free| < count then Err(NoCapacityAfterExclusions)
    else Ok(free[..count])
  }

  lemma FreeStep<T>(codes: seq<T>, used: set<T>, k: nat)
    requires k < |codes|
    ensures Free(codes[..k + 1], used) ==
            if codes[k] in used then Free(codes[..k], used) else Free(codes[..k], used) + [codes[k]]
  {
    assert codes[..k + 1][..k] == codes[..k];
  }

  lemma {:induction false} FreePrefix<T>(codes: seq<T>, used: set<T>, k: nat)
    requires k <= |codes|
    ensures Free(codes[..k], used) <= Free(codes, used)
    decreases |codes|
  {
    if k < |codes| {
      var n := |codes| - 1;
      FreePrefix(codes[..n], used, k);
      assert codes[..n][..k] == codes[..k];
    } else {
      assert codes[..k] == codes;
    }
  }

  /** The first `count` free codes, once they are found. */
  lemma Found(prefixes: seq<char>, count: nat, used: set<string>, i: nat)
    requires Capacity(prefixes, count, used) && count > 0 && i <= |AllCodes(prefixes)|
    requires |Free(AllCodes(prefixes)[..i], used)| == count
    ensures Generate(prefixes, count, used) == Ok(Free(AllCodes(prefixes)[..i], used))
  {
    FreePrefix(AllCodes(prefixes), used, i);
    hide AllCodes, Free, Capacity;
    var found, free := Free(AllCodes(prefixes)[..i], used), Free(AllCodes(prefixes), used);
    assert found == free[..|found|];
  }

  method GenerateCodes(prefixes: seq<char>, count: nat, used: set<string>) returns (r: Result<seq<string>, Failure>)
    ensures r == Generate(prefixes, count, used)
  {
    hide AllCodes, Free, UsedIn, Code, Generate;
    var capacity := |prefixes| * SERIE_LIMIT;
    if count > capacity - |UsedIn(prefixes, used)| {
      Exhausted(prefixes, count, used);
      return Err(NoCapacity);
    }
    ghost var all := AllCodes(prefixes);
    var codes: seq<string> := [];
    var p := 0;
    EmptyStart(prefixes, used);
    while p < |prefixes|
      invariant 0 <= p <= |prefixes|
      invariant codes == Free(all[..p * SERIE_LIMIT], used) && (count > 0 ==> |codes| < count)
    {
      var n := 1;
      while n <= SERIE_LIMIT
        invariant 1 <= n <= SERIE_LIMIT + 1 && p * SERIE_LIMIT + n - 1 <= |all|
        invariant codes == Free(all[..p * SERIE_LIMIT + n - 1], used) && (count > 0 ==> |codes| < count)
      {
        var code := Code(prefixes[p], n);
        ghost var i := p * SERIE_LIMIT + n - 1;
        PlaceOf(prefixes, p, n);
        FreeStep(all, used, i);
        if code !in used {
          codes := codes + [code];
          if |codes| == count {
            Found(prefixes, count, used, i + 1);
            return Ok(codes);
          }
        }
        n := n + 1;
      }
      p := p + 1;
    }
    Exhausted(prefixes, count, used);
    if |codes| < count { return Err(NoCapacityAfterExclusions); }
    return Ok(codes);
  }

  lemma EmptyStart(prefixes: seq<char>, used: set<string>)
    ensures |AllCodes(prefixes)| == |prefixes| * SERIE_LIMIT && Free(AllCodes(prefixes)[..0], used) == []
  {
  }

  /** The end of the enumeration. */
  lemma Exhausted(prefixes: seq<char>, count: nat, used: set<string>)
    ensures !Capacity(prefixes, count, used) ==> Generate(prefixes, count, used) == Err(NoCapacity)
    ensures var free := Free(AllCodes(prefixes)[..|prefixes| * SERIE_LIMIT], used);
            Capacity(prefixes, count, used) && (count == 0 || |free| < count) ==>
              Generate(prefixes, count, used) == if |free| < count then Err(NoCapacityAfterExclusions) else Ok(free)
  {
    var all := AllCodes(prefixes);
    assert all[..|all|] == all;
    hide AllCodes, Free, Capacity;
  }

  lemma PlaceOf(prefixes: seq<char>, p: nat, n: nat)
    requires p < |prefixes| && 1 <= n <= SERIE_LIMIT
    ensures p * SERIE_LIMIT + n - 1 < |prefixes| * SERIE_LIMIT
    ensures AllCodes(prefixes)[p * SERIE_LIMIT + n - 1] == Code(prefixes[p], n)
  {
    var i := p * SERIE_LIMIT + n - 1;
    assert i / SERIE_LIMIT == p && i % SERIE_LIMIT == n - 1;
  }

  // ---- What is generated ----

  lemma AllCodesDistinct(prefixes: seq<char>)
    requires Distinct(prefixes)
    ensures Distinct(AllCodes(prefixes))
  {
    hide Code;
    var all := AllCodes(prefixes);
    forall j, k | 0 <= j < k < |all| ensures all[j] != all[k] {
      DifferentPlaces(j, k);
      if all[j] == all[k] {
        CodeInjective(prefixes[j / SERIE_LIMIT], j % SERIE_LIMIT + 1, prefixes[k / SERIE_LIMIT], k % SERIE_LIMIT + 1);
      }
    }
  }

  lemma DifferentPlaces(j: nat, k: nat)
    requires j < k
    ensures j / SERIE_LIMIT < k / SERIE_LIMIT
         || (j / SERIE_LIMIT == k / SERIE_LIMIT && j % SERIE_LIMIT < k % SERIE_LIMIT)
  {
  }

  lemma {:induction false} FreeAre<T(!new)>(codes: seq<T>, used: set<T>)
    requires Distinct(codes)
    ensures Distinct(Free(codes, used))
    ensures forall c :: c in Free(codes, used) <==> c in codes && c !in used
  {
    if codes == [] {
    } else {
      var n := |codes| - 1;
      FreeAre(codes[..n], used);
      assert forall c :: c in codes <==> c in codes[..n] || c == codes[n];
      assert codes[n] !in codes[..n];
    }
  }

  /** `a` stands before `b`. */
  ghost predicate Before<T>(codes: seq<T>, a: T, b: T) {
    exists i, j :: 0 <= i < j < |codes| && codes[i] == a && codes[j] == b
  }

  /** Free codes keep the order of the series. */
  lemma {:induction false} FreeInOrder<T(!new)>(codes: seq<T>, used: set<T>, j: nat, k: nat)
    requires j < k < |Free(codes, used)|
    ensures Before(codes, Free(codes, used)[j], Free(codes, used)[k])
  {
    var n := |codes| - 1;
    var before := Free(codes[..n], used);
    if k < |before| {
      FreeInOrder(codes[..n], used, j, k);
      var a, b :| 0 <= a < b < n && codes[..n][a] == before[j] && codes[..n][b] == before[k];
      assert codes[a] == before[j] && codes[b] == before[k];
    } else {
      FreeFrom(codes[..n], used, before[j]);
      var a :| 0 <= a < n && codes[..n][a] == before[j];
      assert codes[a] == before[j];
    }
  }

  lemma {:induction false} FreeFrom<T(!new)>(codes: seq<T>, used: set<T>, c: T)
    requires c in Free(codes, used)
    ensures c in codes
  {
    var n := |codes| - 1;
    if c != codes[n] { FreeFrom(codes[..n], used, c); }
  }

  function Taken<T(==)>(codes: seq<T>, used: set<T>): set<T> { set c | c in codes && c in used }

  lemma {:induction false} FreeCount<T(!new)>(codes: seq<T>, used: set<T>)
    requires Distinct(codes)
    ensures |Free(codes, used)| + |Taken(codes, used)| == |codes|
  {
    if codes == [] {
      assert Taken(codes, used) == {};
    } else {
      var n := |codes| - 1;
      FreeCount(codes[..n], used);
      TakenStep(codes, used);
      hide Taken;
    }
  }

  lemma TakenStep<T(!new)>(codes: seq<T>, used: set<T>)
    requires Distinct(codes) && codes != []
    ensures var n := |codes| - 1;
            && Taken(codes, used) == Taken(codes[..n], used) + (if codes[n] in used then {codes[n]} else {})
            && codes[n] !in Taken(codes[..n], used)
  {
    var n := |codes| - 1;
    assert codes[n] !in codes[..n];
    assert codes == codes[..n] + [codes[n]];
  }

  lemma SubsetSize<T>(a: set<T>, b: set<T>)
    requires a <= b
    ensures |a| <= |b|
  {
    assert b == a + (b - a);
    assert |b| == |a| + |b - a|;
  }

  /** The second error never happens: the first test leaves enough free codes. */
  lemma EnoughFree(prefixes: seq<char>, count: nat, used: set<string>)
    requires Distinct(prefixes) && Capacity(prefixes, count, used)
    ensures |Free(AllCodes(prefixes), used)| >= count
    ensures Generate(prefixes, count, used).Ok?
  {
    var all := AllCodes(prefixes);
    AllCodesDistinct(prefixes);
    FreeCount(all, used);
    AllCodesStart(prefixes);
    SubsetSize(Taken(all, used), UsedIn(prefixes, used));
  }

  /** For one employee or more: as many distinct unused codes of the series. */
  lemma GeneratedAre(prefixes: seq<char>, count: nat, used: set<string>)
    requires Distinct(prefixes) && count > 0
    ensures Generate(prefixes, count, used).Ok? <==> Capacity(prefixes, count, used)
    ensures Generate(prefixes, count, used).Ok? ==>
              var codes := Generate(prefixes, count, used).value;
              && |codes| == count && Distinct(codes)
              && (forall k | 0 <= k < count :: codes[k] !in used && codes[k] in AllCodes(prefixes))
              && (forall j, k | 0 <= j < k < count :: Before(AllCodes(prefixes), codes[j], codes[k]))
  {
    if Capacity(prefixes, count, used) {
      EnoughFree(prefixes, count, used);
      var all := AllCodes(prefixes);
      AllCodesDistinct(prefixes);
      FreeAre(all, used);
      hide AllCodes, Free, Capacity, Before;
      var free := Free(all, used);
      forall j, k | 0 <= j < k < count ensures Before(all, free[..count][j], free[..count][k]) {
        FreeInOrder(all, used, j, k);
      }
      assert forall k | 0 <= k < count :: free[k] in free && free[..count][k] == free[k];
    }
  }

  lemma AllCodesStart(prefixes: seq<char>)
    ensures forall c <- AllCodes(prefixes) :: c != "" && c[0] in prefixes
  {
    forall c | c in AllCodes(prefixes) ensures c != "" && c[0] in prefixes {
      var i :| 0 <= i < |AllCodes(prefixes)| && AllCodes(prefixes)[i] == c;
      assert c[0] == prefixes[i / SERIE_LIMIT];
    }
  }

  /** Asked for no code at all, it returns every free one. */
  lemma NoneAskedAllReturned(prefixes: seq<char>, used: set<string>)
    requires Distinct(prefixes)
    ensures Generate(prefixes, 0, used).Ok? ==> Generate(prefixes, 0, used).value == Free(AllCodes(prefixes), used)
    ensures used == {} ==>
              Generate(prefixes, 0, used).Ok? && |Generate(prefixes, 0, used).value| == |prefixes| * SERIE_LIMIT
  {
    if used == {} {
      assert UsedIn(prefixes, used) == {};
      AllCodesDistinct(prefixes);
      FreeCount(AllCodes(prefixes), used);
      assert Taken(AllCodes(prefixes), used) == {};
    }
  }
}
