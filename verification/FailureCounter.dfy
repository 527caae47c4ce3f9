/** The in-memory limiter of failed attempts (app/core/rate_limit.py): a table of dates per key, cleaned as it
    is read. The clock does not go back; a lock makes each call one step. */
module FailureCounter {
  const MAX_KEYS := 10000

  type Time = int

  /** Keys are only compared. */
  datatype Key = Key(id: nat)

  type Table = map<Key, seq<Time>>

  /** The dates younger than the window. */
  function Kept(ts: seq<Time>, now: Time, window: Time): (kept: seq<Time>)
    ensures |kept| <= |ts|
  {
    if ts == [] then []
    else
      var last := ts[|ts| - 1];
      var before := Kept(ts[..|ts| - 1], now, window);
      if now - last < window then before + [last] else before
  }

  function Get(m: Table, key: Key): seq<Time> { if key in m then m[key] else [] }

  function Put(m: Table, key: Key, ts: seq<Time>): Table { if ts == [] then m - {key} else m[key := ts] }

  function Pruned(m: Table, now: Time, window: Time): Table {
    if |m| <= MAX_KEYS then m
    else map key | key in m && Kept(m[key], now, window) != [] :: Kept(m[key], now, window)
  }

  function Counted(m: Table, key: Key, now: Time, window: Time): (Table, nat) {
    var kept := Kept(Get(m, key), now, window);
    (Put(m, key, kept), |kept|)
  }

  function Recorded(m: Table, key: Key, now: Time, window: Time): (Table, nat) {
    var kept := Kept(Get(m, key), now, window) + [now];
    (Pruned(m[key := kept], now, window), |kept|)
  }

  // ---- The module as it runs ----

  class Limiter {
    var failures: Table

    constructor ()
      ensures failures == map[]
    {
      failures := map[];
    }

    method Filter(ts: seq<Time>, now: Time, window: Time) returns (kept: seq<Time>)
      ensures kept == Kept(ts, now, window)
    {
      kept := [];
      var k := 0;
      while k < |ts|
        invariant 0 <= k <= |ts| && kept == Kept(ts[..k], now, window)
      {
        assert ts[..k + 1][..k] == ts[..k];
        if now - ts[k] < window { kept := kept + [ts[k]]; }
        k := k + 1;
      }
      assert ts[..k] == ts;
    }

    method Prune(now: Time, window: Time)
      modifies this
      ensures failures == Pruned(old(failures), now, window)
    {
      if |failures| <= MAX_KEYS { return; }
      var rest := failures.Keys;
      while rest != {}
        invariant rest <= old(failures).Keys
        invariant forall key :: key in failures <==>
                    key in old(failures) && (key in rest || Kept(old(failures)[key], now, window) != [])
        invariant forall key | key in failures ::
                    failures[key] == if key in rest then old(failures)[key] else Kept(old(failures)[key], now, window)
        decreases rest
      {
        var key :| key in rest;
        var kept := Filter(failures[key], now, window);
        if kept != [] { failures := failures[key := kept]; } else { failures := failures - {key}; }
        rest := rest - {key};
      }
    }

    method FailureCount(key: Key, now: Time, window: Time) returns (count: nat)
      modifies this
      ensures (failures, count) == Counted(old(failures), key, now, window)
    {
      var kept := Filter(Get(failures, key), now, window);
      if kept != [] { failures := failures[key := kept]; } else { failures := failures - {key}; }
      count := |kept|;
    }

    method RecordFailure(key: Key, now: Time, window: Time) returns (count: nat)
      modifies this
      ensures (failures, count) == Recorded(old(failures), key, now, window)
    {
      var kept := Filter(Get(failures, key), now, window);
      kept := kept + [now];
      failures := failures[key := kept];
      Prune(now, window);
      count := |kept|;
    }

    method Clear(key: Key)
      modifies this
      ensures failures == old(failures) - {key}
    {
      failures := failures - {key};
    }
  }

  // ---- Runs: every call brings its own window ----

  datatype Event = Failure(key: Key, at: Time, window: Time) | Look(key: Key, at: Time, window: Time) | Forget(key: Key)

  function Step(m: Table, e: Event): (Table, nat) {
    match e
    case Failure(key, at, window) => Recorded(m, key, at, window)
    case Look(key, at, window) => Counted(m, key, at, window)
    case Forget(key) => (m - {key}, 0)
  }

  function Run(es: seq<Event>): Table {
    if es == [] then map[] else Step(Run(es[..|es| - 1]), es[|es| - 1]).0
  }

  /** The clock does not go back. */
  predicate InOrder(es: seq<Event>) {
    forall j, k | 0 <= j < k < |es| && !es[j].Forget? && !es[k].Forget? :: es[j].at <= es[k].at
  }

  // ---- What they should count ----

  /** The failures of a key since it was last cleared, as positions in the run. */
  function Indices(es: seq<Event>, key: Key): seq<nat> {
    if es == [] then []
    else
      var n := |es| - 1;
      var before := Indices(es[..n], key);
      if es[n].key != key then before
      else match es[n]
        case Failure(_, _, _) => before + [n]
        case Look(_, _, _) => before
        case Forget(_) => []
  }

  function At(es: seq<Event>, i: nat): Time { if i < |es| && !es[i].Forget? then es[i].at else 0 }

  function Dates(es: seq<Event>, indices: seq<nat>): seq<Time> {
    seq(|indices|, k requires 0 <= k < |indices| => At(es, indices[k]))
  }

  /** The dates of the failures of a key since it was last cleared. */
  function Since(es: seq<Event>, key: Key): seq<Time> { Dates(es, Indices(es, key)) }

  /** The recording that finds too many keys, and cleans them all with its own window. */
  predicate PrunesAt(es: seq<Event>, j: nat)
    requires j < |es|
  {
    es[j].Failure? && |Run(es[..j]).Keys + {es[j].key}| > MAX_KEYS
  }

  /** Call `j` cleans the dates of the key, the one recorded at `i` among them. */
  predicate Cleans(es: seq<Event>, key: Key, i: nat, j: nat)
    requires j < |es|
  {
    (j > i && es[j].key == key && !es[j].Forget?) || PrunesAt(es, j)
  }

  /** Call `j` leaves the failure recorded at `i`, or has nothing to do with it. */
  predicate Leaves(es: seq<Event>, key: Key, i: nat, j: nat)
    requires j < |es|
  {
    Cleans(es, key, i, j) ==> At(es, j) - At(es, i) < es[j].window
  }

  /** The failure recorded at `i` was young enough for every call that cleaned its key since. */
  predicate Survives(es: seq<Event>, key: Key, i: nat) { forall j | i <= j < |es| :: Leaves(es, key, i, j) }

  function Surviving(es: seq<Event>, key: Key, indices: seq<nat>): seq<nat> {
    if indices == [] then []
    else
      var before, last := Surviving(es, key, indices[..|indices| - 1]), indices[|indices| - 1];
      if Survives(es, key, last) then before + [last] else before
  }

  /** No failure that the call should count was too old for an earlier call. */
  predicate NothingDropped(es: seq<Event>, e: Event)
    requires !e.Forget?
  {
    forall i <- Indices(es, e.key) :: e.at - At(es, i) < e.window ==> Survives(es, e.key, i)
  }

  // ---- Young failures ----

  function Young(es: seq<Event>, indices: seq<nat>, now: Time, window: Time): seq<nat> {
    if indices == [] then []
    else
      var before, last := Young(es, indices[..|indices| - 1], now, window), indices[|indices| - 1];
      if now - At(es, last) < window then before + [last] else before
  }

  lemma {:induction false} KeptDates(es: seq<Event>, indices: seq<nat>, now: Time, window: Time)
    ensures Kept(Dates(es, indices), now, window) == Dates(es, Young(es, indices, now, window))
  {
    if indices == [] {
    } else {
      var n := |indices| - 1;
      KeptDates(es, indices[..n], now, window);
      assert Dates(es, indices)[..n] == Dates(es, indices[..n]);
    }
  }

  lemma YoungAppend(es: seq<Event>, indices: seq<nat>, i: nat, now: Time, window: Time)
    ensures Young(es, indices + [i], now, window) ==
            if now - At(es, i) < window then Young(es, indices, now, window) + [i] else Young(es, indices, now, window)
  {
    assert (indices + [i])[..|indices|] == indices;
  }

  /** Dropping failures loses young ones, unless every young one survives. */
  lemma {:induction false} YoungSurviving(es: seq<Event>, key: Key, indices: seq<nat>, now: Time, window: Time)
    ensures |Young(es, Surviving(es, key, indices), now, window)| <= |Young(es, indices, now, window)|
    ensures |Young(es, Surviving(es, key, indices), now, window)| == |Young(es, indices, now, window)| <==>
              forall k | 0 <= k < |indices| :: now - At(es, indices[k]) < window ==> Survives(es, key, indices[k])
  {
    hide Survives, At;
    if indices == [] {
    } else {
      var n := |indices| - 1;
      YoungSurviving(es, key, indices[..n], now, window);
      YoungAppend(es, Surviving(es, key, indices[..n]), indices[n], now, window);
    }
  }

  // ---- What the table holds ----

  lemma {:induction false} IndicesBound(es: seq<Event>, key: Key)
    ensures forall k | 0 <= k < |Indices(es, key)| :: Indices(es, key)[k] < |es|
  {
    if es == [] {
    } else {
      IndicesBound(es[..|es| - 1], key);
    }
  }

  lemma SamePrefix(es: seq<Event>, indices: seq<nat>)
    requires es != [] && forall k | 0 <= k < |indices| :: indices[k] < |es| - 1
    ensures Dates(es, indices) == Dates(es[..|es| - 1], indices)
  {
  }

  lemma LeavesBefore(es: seq<Event>, key: Key, i: nat, j: nat)
    requires es != [] && i < |es| - 1 && j < |es| - 1
    ensures Leaves(es, key, i, j) == Leaves(es[..|es| - 1], key, i, j)
  {
    assert es[..|es| - 1][..j] == es[..j];
  }

  lemma SurvivesOneMore(es: seq<Event>, key: Key, i: nat)
    requires es != [] && i < |es| - 1
    ensures Survives(es, key, i) <==> Survives(es[..|es| - 1], key, i) && Leaves(es, key, i, |es| - 1)
  {
    hide Leaves;
    var n := |es| - 1;
    forall j | 0 <= j < n ensures Leaves(es, key, i, j) == Leaves(es[..n], key, i, j) { LeavesBefore(es, key, i, j); }
    if Survives(es, key, i) {
      forall j | i <= j < n ensures Leaves(es[..n], key, i, j) { assert Leaves(es, key, i, j); }
    }
    if Survives(es[..n], key, i) && Leaves(es, key, i, n) {
      forall j | i <= j <= n ensures Leaves(es, key, i, j) {
        if j < n { assert Leaves(es[..n], key, i, j); }
      }
    }
  }

  /** Whether the last call cleans the key's earlier failures. */
  predicate LastCleans(es: seq<Event>, key: Key)
    requires es != []
  {
    !es[|es| - 1].Forget? && (es[|es| - 1].key == key || PrunesAt(es, |es| - 1))
  }

  lemma LastLeaves(es: seq<Event>, key: Key, i: nat)
    requires es != [] && i < |es| - 1
    ensures Leaves(es, key, i, |es| - 1) <==>
              (LastCleans(es, key) ==> es[|es| - 1].at - At(es, i) < es[|es| - 1].window)
  {
  }

  /** The earlier failures after one more call. */
  lemma {:induction false} OldSurviving(es: seq<Event>, key: Key, indices: seq<nat>)
    requires es != [] && forall k | 0 <= k < |indices| :: indices[k] < |es| - 1
    ensures var held := Surviving(es[..|es| - 1], key, indices);
            Surviving(es, key, indices) ==
            if LastCleans(es, key) then Young(es, held, es[|es| - 1].at, es[|es| - 1].window) else held
  {
    if indices == [] {
    } else {
      var n := |indices| - 1;
      OldSurviving(es, key, indices[..n]);
      SurvivesOneMore(es, key, indices[n]);
      LastLeaves(es, key, indices[n]);
      hide Survives, Leaves, LastCleans, At;
      if LastCleans(es, key) {
        YoungAppend(es, Surviving(es[..|es| - 1], key, indices[..n]), indices[n], es[|es| - 1].at, es[|es| - 1].window);
      }
    }
  }

  /** What the last call leaves of a key's dates. */
  function LastStep(es: seq<Event>, key: Key, dates: seq<Time>): seq<Time>
    requires es != []
  {
    var n := |es| - 1;
    var e := es[n];
    var own := if e.key != key then dates
               else match e
                 case Failure(_, at, window) => Kept(dates, at, window) + [at]
                 case Look(_, at, window) => Kept(dates, at, window)
                 case Forget(_) => [];
    if PrunesAt(es, n) then Kept(own, e.at, e.window) else own
  }

  lemma PrunedAt(m: Table, now: Time, window: Time, key: Key)
    ensures Get(Pruned(m, now, window), key) == if |m| <= MAX_KEYS then Get(m, key) else Kept(Get(m, key), now, window)
  {
    NoneYoung([], now, window);
    hide Kept;
  }

  lemma RecordedAt(m: Table, k: Key, now: Time, window: Time, key: Key)
    ensures var own := if key == k then Kept(Get(m, k), now, window) + [now] else Get(m, key);
            Get(Recorded(m, k, now, window).0, key) ==
            if |m.Keys + {k}| > MAX_KEYS then Kept(own, now, window) else own
  {
    hide Kept, Pruned;
    var dates := Kept(Get(m, k), now, window) + [now];
    RecordingSize(m, k, dates);
    PrunedAt(m[k := dates], now, window, key);
  }

  /** A key's dates after one call. */
  function DatesAfter(m: Table, e: Event, key: Key): seq<Time> {
    var dates := Get(m, key);
    var own := if e.key != key then dates
               else match e
                 case Failure(_, at, window) => Kept(dates, at, window) + [at]
                 case Look(_, at, window) => Kept(dates, at, window)
                 case Forget(_) => [];
    if e.Failure? && |m.Keys + {e.key}| > MAX_KEYS then Kept(own, e.at, e.window) else own
  }

  lemma StepDates(m: Table, e: Event, key: Key)
    ensures Get(Step(m, e).0, key) == DatesAfter(m, e, key)
  {
    hide Kept, Recorded, Pruned;
    if e.Failure? { RecordedAt(m, e.key, e.at, e.window, key); }
  }

  lemma LastStepIs(es: seq<Event>, key: Key)
    requires es != []
    ensures Get(Run(es), key) == LastStep(es, key, Get(Run(es[..|es| - 1]), key))
  {
    var n := |es| - 1;
    var m := Run(es[..n]);
    assert Run(es) == Step(m, es[n]).0;
    hide Kept, Step, Run, Get;
    StepDates(m, es[n], key);
  }

  lemma RecordingSize(m: Table, key: Key, dates: seq<Time>)
    ensures |m[key := dates]| == |m.Keys + {key}|
  {
    assert m[key := dates].Keys == m.Keys + {key};
  }

  lemma {:induction false} SurvivingBound(es: seq<Event>, key: Key, indices: seq<nat>, n: nat)
    requires forall k | 0 <= k < |indices| :: indices[k] < n
    ensures forall k | 0 <= k < |Surviving(es, key, indices)| :: Surviving(es, key, indices)[k] < n
  {
    hide Survives;
    if indices == [] {
    } else {
      SurvivingBound(es, key, indices[..|indices| - 1], n);
    }
  }

  /** The dates of the earlier failures after one more call. */
  lemma OldDates(es: seq<Event>, key: Key)
    requires es != []
    ensures var n, indices := |es| - 1, Indices(es[..|es| - 1], key);
            Dates(es, Surviving(es, key, indices)) ==
            if LastCleans(es, key)
            then Kept(Dates(es[..n], Surviving(es[..n], key, indices)), es[n].at, es[n].window)
            else Dates(es[..n], Surviving(es[..n], key, indices))
  {
    var n, pre := |es| - 1, es[..|es| - 1];
    var indices := Indices(pre, key);
    IndicesBound(pre, key);
    SurvivingBound(pre, key, indices, n);
    OldSurviving(es, key, indices);
    SamePrefix(es, Surviving(pre, key, indices));
    hide Surviving, Indices, Dates, LastCleans, Young;
    if LastCleans(es, key) { KeptDates(es, Surviving(pre, key, indices), es[n].at, es[n].window); }
  }

  /** The failure just recorded stays, unless the recording cleans it with an empty window. */
  lemma NewSurvives(es: seq<Event>, key: Key)
    requires es != [] && es[|es| - 1].Failure?
    ensures Survives(es, key, |es| - 1) <==> (PrunesAt(es, |es| - 1) ==> 0 < es[|es| - 1].window)
  {
    var n := |es| - 1;
    assert Leaves(es, key, n, n) <==> (PrunesAt(es, n) ==> 0 < es[n].window);
    hide Leaves, PrunesAt;
  }

  lemma SurvivingAppend(es: seq<Event>, key: Key, indices: seq<nat>, i: nat)
    ensures Surviving(es, key, indices + [i]) ==
            if Survives(es, key, i) then Surviving(es, key, indices) + [i] else Surviving(es, key, indices)
  {
    assert (indices + [i])[..|indices|] == indices;
  }

  lemma DatesAppend(es: seq<Event>, indices: seq<nat>, i: nat)
    ensures Dates(es, indices + [i]) == Dates(es, indices) + [At(es, i)]
  {
  }

  function Remaining(es: seq<Event>, key: Key): seq<Time> { Dates(es, Surviving(es, key, Indices(es, key))) }

  /** The last call leaves the dates that survive it. */
  lemma LastSurviving(es: seq<Event>, key: Key)
    requires es != []
    ensures LastStep(es, key, Remaining(es[..|es| - 1], key)) == Remaining(es, key)
  {
    var n, pre := |es| - 1, es[..|es| - 1];
    var held, indices := Remaining(pre, key), Indices(pre, key);
    OldDates(es, key);
    LastIndices(es, key);
    PruningRecords(es, n);
    if es[n].key == key && es[n].Failure? {
      NewSurvives(es, key);
      SurvivingAppend(es, key, indices, n);
      DatesAppend(es, Surviving(es, key, indices), n);
      hide Survives, Indices, PrunesAt, Surviving, Dates;
      KeptTwice(held, es[n].at, es[n].at, es[n].window);
      KeptAppend(Kept(held, es[n].at, es[n].window), es[n].at, es[n].at, es[n].window);
    } else {
      hide Survives, PrunesAt, Indices;
    }
  }

  lemma PruningRecords(es: seq<Event>, j: nat)
    requires j < |es|
    ensures PrunesAt(es, j) ==> es[j].Failure?
  {
  }

  lemma LastIndices(es: seq<Event>, key: Key)
    requires es != []
    ensures var n := |es| - 1;
            Indices(es, key) == if es[n].key != key || es[n].Look? then Indices(es[..n], key)
                                else if es[n].Failure? then Indices(es[..n], key) + [n] else []
  {
  }

  /** The table holds, for each key, exactly the failures since its last clearing that survived every cleaning. */
  lemma {:induction false} TableHolds(es: seq<Event>, key: Key)
    ensures Get(Run(es), key) == Remaining(es, key)
  {
    if es == [] {
    } else {
      TableHolds(es[..|es| - 1], key);
      LastStepIs(es, key);
      LastSurviving(es, key);
      hide Remaining, LastStep;
    }
  }

  // ---- When a count is exact ----

  lemma SinceOneMore(es: seq<Event>, e: Event)
    requires !e.Forget?
    ensures Since(es + [e], e.key) == if e.Failure? then Since(es, e.key) + [e.at] else Since(es, e.key)
  {
    assert (es + [e])[..|es|] == es;
    IndicesBound(es, e.key);
    SamePrefix(es + [e], Indices(es, e.key));
  }

  lemma {:induction false} NoneYoung(ts: seq<Time>, now: Time, window: Time)
    requires forall k | 0 <= k < |ts| :: now - ts[k] >= window
    ensures Kept(ts, now, window) == []
  {
    if ts == [] {
    } else {
      NoneYoung(ts[..|ts| - 1], now, window);
    }
  }

  /** The young dates the table holds, against all the young dates. */
  lemma HeldAndYoung(es: seq<Event>, key: Key, now: Time, window: Time)
    ensures |Kept(Get(Run(es), key), now, window)| == |Kept(Since(es, key), now, window)|
       <==> forall i <- Indices(es, key) :: now - At(es, i) < window ==> Survives(es, key, i)
  {
    var indices := Indices(es, key);
    TableHolds(es, key);
    KeptDates(es, Surviving(es, key, indices), now, window);
    KeptDates(es, indices, now, window);
    YoungSurviving(es, key, indices, now, window);
    hide Survives, Surviving, Young, At, Run, Kept, Indices;
  }

  /** A count is the number of failures of the key since it was last cleared that are younger than the
      caller's window, if and only if none of those was too old for an earlier call that cleaned them: a call
      on that key, or a recording on any key that found too many of them. */
  lemma CountsExactly(es: seq<Event>, e: Event)
    requires !e.Forget? && (e.Look? || e.window > 0)
    ensures Step(Run(es), e).1 == |Kept(Since(es + [e], e.key), e.at, e.window)| <==> NothingDropped(es, e)
  {
    HeldAndYoung(es, e.key, e.at, e.window);
    SinceOneMore(es, e);
    KeptAppend(Since(es, e.key), e.at, e.at, e.window);
  }

  /** A recording with an empty window counts the failure just recorded, which is already too old. */
  lemma EmptyWindowCountsOne(es: seq<Event>, e: Event)
    requires e.Failure? && e.window <= 0 && InOrder(es + [e])
    ensures Step(Run(es), e).1 == 1 && Kept(Since(es + [e], e.key), e.at, e.window) == []
  {
    SinceOneMore(es, e);
    IndicesAreFailures(es, e.key);
    forall i | i in Indices(es, e.key) ensures At(es, i) <= e.at {
      assert (es + [e])[i] == es[i] && (es + [e])[|es|] == e;
    }
    NoneYoung(Since(es, e.key), e.at, e.window);
    KeptAppend(Since(es, e.key), e.at, e.at, e.window);
    HeldAndYoung(es, e.key, e.at, e.window);
  }

  lemma {:induction false} IndicesAreFailures(es: seq<Event>, key: Key)
    ensures forall k | 0 <= k < |Indices(es, key)| :: Indices(es, key)[k] < |es| && es[Indices(es, key)[k]].Failure?
  {
    if es == [] {
    } else {
      IndicesAreFailures(es[..|es| - 1], key);
    }
  }

  /** Counts are exact as long as no call on the key, and no recording that cleans every key, has a window
      shorter than the caller's: in particular with one window for all, or with one window for each key and
      never too many keys. */
  lemma WiderWindowsAreHarmless(es: seq<Event>, e: Event)
    requires InOrder(es + [e]) && !e.Forget? && (e.Look? || e.window > 0)
    requires forall j | 0 <= j < |es| && !es[j].Forget? && (es[j].key == e.key || PrunesAt(es, j)) ::
               es[j].window >= e.window
    ensures Step(Run(es), e).1 == |Kept(Since(es + [e], e.key), e.at, e.window)|
  {
    forall i | i in Indices(es, e.key) && e.at - At(es, i) < e.window ensures Survives(es, e.key, i) {
      forall j | i <= j < |es| ensures Leaves(es, e.key, i, j) {
        assert (es + [e])[j] == es[j] && (es + [e])[|es|] == e;
      }
    }
    CountsExactly(es, e);
  }

  // ---- Another key's window ----

  ghost function Names(n: nat): set<Key> { set i: nat | i < n :: Key(i) }

  lemma {:induction false} NamesSize(n: nat)
    ensures |Names(n)| == n
    ensures Names(n + 1) == Names(n) + {Key(n)} && Key(n) !in Names(n)
  {
    if n == 0 {
    } else {
      NamesSize(n - 1);
    }
  }

  /** One failure on each of `n` keys, with a window of ten minutes. */
  function Crowd(n: nat): seq<Event> { seq(n, i requires 0 <= i < n => Failure(Key(i), 0, 600)) }

  lemma CrowdGrows(n: nat)
    ensures Crowd(n + 1)[..n] == Crowd(n) && Crowd(n + 1)[n] == Failure(Key(n), 0, 600) && |Crowd(n)| == n
  {
  }

  lemma FirstFailure(m: Table, key: Key, now: Time, window: Time)
    requires key !in m && |m| < MAX_KEYS
    ensures Recorded(m, key, now, window).0 == m[key := [now]]
  {
    assert Kept([], now, window) == [] && [] + [now] == [now];
  }

  /** One date for each of the first keys, and no other key. */
  ghost predicate OneEach(m: Table, n: nat) {
    (forall key :: key in m <==> key.id < n) && forall i: nat | i < n :: Get(m, Key(i)) == [0]
  }

  lemma CrowdSize(m: Table, n: nat)
    requires OneEach(m, n)
    ensures m.Keys == Names(n) && |m| == n && Key(n) !in m
  {
    NamesSize(n);
    forall key ensures key in m.Keys <==> key in Names(n) {
      assert key in Names(n) <==> key.id < n by { if key.id < n { assert key == Key(key.id); } }
    }
    assert |m| == |m.Keys|;
  }

  lemma OneMoreEach(m: Table, n: nat)
    requires OneEach(m, n) && n < MAX_KEYS
    ensures OneEach(Recorded(m, Key(n), 0, 600).0, n + 1)
  {
    CrowdSize(m, n);
    FirstFailure(m, Key(n), 0, 600);
    hide Recorded;
  }

  lemma {:induction false} CrowdTable(n: nat)
    requires n <= MAX_KEYS
    ensures OneEach(Run(Crowd(n)), n)
    decreases n
  {
    if n == 0 {
    } else {
      CrowdTable(n - 1);
      CrowdGrows(n - 1);
      hide OneEach, Crowd, Recorded;
      OneMoreEach(Run(Crowd(n - 1)), n - 1);
    }
  }

  lemma {:induction false} CrowdIndices(n: nat)
    ensures Indices(Crowd(n), Key(0)) == if n == 0 then [] else [0]
  {
    if n == 0 {
    } else {
      CrowdIndices(n - 1);
      CrowdGrows(n - 1);
      LastIndices(Crowd(n), Key(0));
    }
  }

  predicate OneWindowPerKey(es: seq<Event>) {
    forall j, k | 0 <= j < k < |es| && es[j].key == es[k].key && !es[j].Forget? && !es[k].Forget? ::
      es[j].window == es[k].window
  }

  /** The crowd, then one failure of another key with a window of one minute. */
  function Crowded(n: nat): seq<Event> { Crowd(n) + [Failure(Key(n), 100, 60)] }

  lemma CrowdedPrunes(n: nat)
    requires n == MAX_KEYS
    ensures |Crowded(n)| == n + 1 && Crowded(n)[..n] == Crowd(n) && PrunesAt(Crowded(n), n)
  {
    CrowdGrows(n);
    assert Crowded(n)[..n] == Crowd(n);
    CrowdTable(n);
    CrowdSize(Run(Crowd(n)), n);
    assert |Names(n) + {Key(n)}| == n + 1 by { NamesSize(n); }
    hide Run, Crowd, Names, OneEach;
  }

  lemma CrowdedTable(n: nat)
    requires n == MAX_KEYS
    ensures Get(Run(Crowded(n)), Key(0)) == []
  {
    CrowdedPrunes(n);
    CrowdTable(n);
    LastStepIs(Crowded(n), Key(0));
    assert Crowded(n)[n] == Failure(Key(n), 100, 60);
    hide Run, Crowd, PrunesAt, Crowded;
    assert [0][..0] == [];
    assert Kept([0], 100, 60) == [];
  }

  lemma CrowdedSince(n: nat)
    requires n > 0
    ensures Since(Crowded(n), Key(0)) == [0]
  {
    CrowdIndices(n);
    CrowdGrows(n);
    assert Crowded(n)[..n] == Crowd(n);
    LastIndices(Crowded(n), Key(0));
    hide Indices;
    assert Crowded(n)[0] == Failure(Key(0), 0, 600);
  }

  lemma CrowdedWindows(n: nat)
    requires n > 0
    ensures InOrder(Crowded(n) + [Look(Key(0), 100, 600)]) && OneWindowPerKey(Crowded(n) + [Look(Key(0), 100, 600)])
  {
  }

  /** One call on another key, with a shorter window, makes the table forget a failure it should count. */
  lemma OtherKeyForgets(n: nat)
    requires n == 10000
    ensures var es, e := Crowded(n), Look(Key(0), 100, 600);
            && InOrder(es + [e]) && OneWindowPerKey(es + [e])
            && Step(Run(es), e).1 == 0 && |Kept(Since(es + [e], e.key), e.at, e.window)| == 1
  {
    CrowdedTable(n);
    CrowdedSince(n);
    CrowdedWindows(n);
    SinceOneMore(Crowded(n), Look(Key(0), 100, 600));
    hide Run, Crowded, Since, InOrder, OneWindowPerKey;
    assert [0][..0] == [];
    assert Kept([0], 100, 600) == [0] && Kept([], 100, 600) == [];
  }

  // ---- What a cleaning leaves ----

  lemma {:induction false} KeptTwice(ts: seq<Time>, now: Time, later: Time, window: Time)
    requires now <= later
    ensures Kept(Kept(ts, now, window), later, window) == Kept(ts, later, window)
  {
    if ts == [] {
    } else {
      var last := ts[|ts| - 1];
      KeptTwice(ts[..|ts| - 1], now, later, window);
      KeptAppend(Kept(ts[..|ts| - 1], now, window), last, later, window);
    }
  }

  lemma KeptAppend(ts: seq<Time>, t: Time, now: Time, window: Time)
    ensures Kept(ts + [t], now, window) ==
            if now - t < window then Kept(ts, now, window) + [t] else Kept(ts, now, window)
  {
    assert (ts + [t])[..|ts|] == ts;
  }

  /** After a cleaning every key left has a date that still counts. */
  lemma PrunedIsYoung(m: Table, now: Time, window: Time, key: Key)
    requires |m| > MAX_KEYS && key in Pruned(m, now, window)
    ensures exists t :: t in m[key] && now - t < window
  {
    KeptYoung(m[key], now, window);
  }

  lemma {:induction false} KeptYoung(ts: seq<Time>, now: Time, window: Time)
    ensures Kept(ts, now, window) != [] ==> exists t :: t in ts && now - t < window
  {
    if ts == [] {
    } else {
      var n := |ts| - 1;
      KeptYoung(ts[..n], now, window);
      if t :| t in ts[..n] && now - t < window { assert t in ts; }
      assert ts[n] in ts;
    }
  }

  // ---- The dates that count ----

  lemma CountAppend(ts: seq<Time>, last: Time, t: Time)
    ensures multiset(ts + [last])[t] == multiset(ts)[t] + if t == last then 1 else 0
  {
  }

  /** Cleaning keeps every date younger than the window as often as it was there, and no other. */
  lemma {:induction false} KeptExactly(ts: seq<Time>, now: Time, window: Time, t: Time)
    ensures multiset(Kept(ts, now, window))[t] == if now - t < window then multiset(ts)[t] else 0
  {
    if ts == [] {
    } else {
      var n := |ts| - 1;
      KeptExactly(ts[..n], now, window, t);
      assert ts == ts[..n] + [ts[n]];
      CountAppend(ts[..n], ts[n], t);
      CountAppend(Kept(ts[..n], now, window), ts[n], t);
    }
  }

  predicate Ascends(ts: seq<Time>) { forall j, k | 0 <= j < k < |ts| :: ts[j] <= ts[k] }

  predicate UpTo(ts: seq<Time>, last: Time) { forall k | 0 <= k < |ts| :: ts[k] <= last }

  /** Dates in order stay in order. */
  lemma {:induction false} KeptInOrder(ts: seq<Time>, now: Time, window: Time, last: Time)
    requires Ascends(ts) && UpTo(ts, last)
    ensures Ascends(Kept(ts, now, window)) && UpTo(Kept(ts, now, window), last)
  {
    if ts == [] {
    } else {
      var n := |ts| - 1;
      KeptInOrder(ts[..n], now, window, ts[n]);
    }
  }
}
