/** Whole runs of the push queue: enqueueing, batches, workers that die after their call, receipts, devices
    that go away. */
module PushRuns {
  import opened Wrappers
  import opened PushQueue

  /** `sent` counts the calls that carried a row, `unsaved` those whose worker died before its commit. */
  datatype World = World(rows: seq<Row>, devices: set<nat>, sent: multiset<nat>, unsaved: multiset<nat>)

  datatype Event =
    | Enqueue(notification: nat, targets: seq<nat>, now: Time)
    | Dispatch(picked: seq<nat>, allowed: set<nat>, reply: Reply, survives: bool, now: Time)
    | Collect(picked: seq<nat>, data: map<string, Receipt>, now: Time)
    | Unregister(device: nat)

  const EMPTY := World([], {}, multiset{}, multiset{})

  // ---- Steps ----

  predicate Distinct(picked: seq<nat>) { forall j, k | 0 <= j < k < |picked| :: picked[j] != picked[k] }

  /** The rows a query may return, in the given state and due. */
  predicate DueRows(rows: seq<Row>, picked: seq<nat>, state: State, now: Time) {
    && Distinct(picked)
    && forall k | 0 <= k < |picked| ::
         picked[k] < |rows| && rows[picked[k]].state == state && rows[picked[k]].nextAt <= now
  }

  function Rows(rows: seq<Row>, picked: seq<nat>): seq<Row>
    requires forall k | 0 <= k < |picked| :: picked[k] < |rows|
  {
    seq(|picked|, k requires 0 <= k < |picked| => rows[picked[k]])
  }

  function BatchOf(w: World, picked: seq<nat>, allowed: set<nat>, now: Time): Batch
    requires forall k | 0 <= k < |picked| :: picked[k] < |w.rows|
  {
    Batch(Rows(w.rows, picked),
          seq(|picked|, k requires 0 <= k < |picked| =>
            picked[k] in allowed && w.rows[picked[k]].device.Some? && w.rows[picked[k]].device.value in w.devices),
          now)
  }

  function Put(rows: seq<Row>, picked: seq<nat>, values: seq<Row>): seq<Row>
    requires |values| == |picked| && forall k | 0 <= k < |picked| :: picked[k] < |rows|
    ensures |Put(rows, picked, values)| == |rows|
  {
    if picked == [] then rows
    else Put(rows, picked[..|picked| - 1], values[..|picked| - 1])[picked[|picked| - 1] := values[|picked| - 1]]
  }

  function Detach(rows: seq<Row>, gone: set<nat>): seq<Row> {
    seq(|rows|, k requires 0 <= k < |rows| =>
      if rows[k].device.Some? && rows[k].device.value in gone then rows[k].(device := None) else rows[k])
  }

  function Sent(b: Batch, picked: seq<nat>): multiset<nat>
    requires Proper(b) && |b.rows| == |picked|
  {
    multiset(set k | 0 <= k < |picked| && Goes(b, k) :: picked[k])
  }

  function Step(w: World, e: Event): World {
    match e
    case Enqueue(notification, targets, now) =>
      w.(rows := Enqueued(w.rows, notification, targets, now), devices := w.devices + set d | d in targets)
    case Dispatch(picked, allowed, reply, survives, now) =>
      if !DueRows(w.rows, picked, Pending, now) then w
      else
        var b := BatchOf(w, picked, allowed, now);
        var sent := w.sent + Sent(b, picked);
        if !survives then w.(sent := sent, unsaved := w.unsaved + Sent(b, picked))
        else
          w.(rows := Detach(Put(w.rows, picked, AllAfter(b, reply)), Forgotten(b, reply)),
             devices := w.devices - Forgotten(b, reply), sent := sent)
    case Collect(picked, data, now) =>
      if !DueRows(w.rows, picked, Accepted, now) || Spoilt(Rows(w.rows, picked), data)
      then w
      else
        var gone := GoneByReceipt(Rows(w.rows, picked), data);
        w.(rows := Detach(Put(w.rows, picked, AllAcknowledged(Rows(w.rows, picked), data, now)), gone),
           devices := w.devices - gone)
    case Unregister(device) => w.(rows := Detach(w.rows, {device}), devices := w.devices - {device})
  }

  function Run(w: World, es: seq<Event>): World
    decreases |es|
  {
    if es == [] then w else Run(Step(w, es[0]), es[1..])
  }

  // ---- One row ----

  predicate RowInv(r: Row) {
    && r.attempts <= MAX_ATTEMPTS
    && (r.state == Pending ==> r.attempts < MAX_ATTEMPTS)
    && (r.state == Accepted ==> r.attempts >= 1 && r.ticket.Some?)
  }

  predicate Ended(r: Row) { r.state in {ProviderAccepted, Failed, Skipped, Lost} }

  /** How much can still happen to a row; 0 once it is ended. */
  function Potential(r: Row): int {
    if Ended(r) then 0 else 1 + 2 * (MAX_ATTEMPTS - r.attempts) + if r.state == Accepted then 1 else 0
  }

  predicate Unmoved(r: Row, q: Row) { q.state == r.state && q.attempts == r.attempts }

  /** A step of a row: an ended row never moves again, any other move spends some of what is left. */
  predicate Moves(r: Row, q: Row) {
    && q.notification == r.notification && q.createdAt == r.createdAt && (q.device == r.device || q.device.None?)
    && r.attempts <= q.attempts
    && (Ended(r) ==> q == r.(device := q.device))
    && (Unmoved(r, q) || Potential(q) < Potential(r))
  }

  /** A retried row keeps its attempts; it ends at the fourth, and until then is not due again at once. */
  lemma RetriedMoves(r: Row, code: Code, now: Time)
    requires 1 <= r.attempts <= MAX_ATTEMPTS
    ensures RowInv(Retried(r, code, now)) && Retried(r, code, now).attempts == r.attempts
    ensures Retried(r, code, now).state in {Pending, Failed} && Retried(r, code, now).device == r.device
    ensures Retried(r, code, now).notification == r.notification && Retried(r, code, now).createdAt == r.createdAt
    ensures Ended(Retried(r, code, now)) <==> r.attempts == MAX_ATTEMPTS
    ensures !Ended(Retried(r, code, now)) ==> now + 15 <= Retried(r, code, now).nextAt <= now + 300
  {
  }

  /** A rejected row is tried again only when the rate was exceeded and a try is left. */
  lemma RejectedMoves(r: Row, detail: Detail, now: Time)
    requires 1 <= r.attempts <= MAX_ATTEMPTS
    ensures RowInv(Rejected(r, detail, now)) && Rejected(r, detail, now).attempts == r.attempts
    ensures Ended(Rejected(r, detail, now)) <==> detail != Listed(MessageRateExceeded) || r.attempts == MAX_ATTEMPTS
    ensures Ended(Rejected(r, detail, now)) <==> Rejected(r, detail, now).state == Failed
    ensures Rejected(r, detail, now).error.Some? && (Rejected(r, detail, now).error.value.Provider? <==> detail.Listed?)
  {
    if detail == Listed(MessageRateExceeded) { RetriedMoves(r, CodeOf(detail), now); }
  }

  lemma SettledMoves(r: Row, t: Ticket, now: Time)
    requires 1 <= r.attempts <= MAX_ATTEMPTS
    ensures RowInv(Settled(r, t, now)) && Settled(r, t, now).attempts == r.attempts
    ensures Settled(r, t, now).state in {Pending, Failed, Accepted} && Settled(r, t, now).device == r.device
    ensures Settled(r, t, now).notification == r.notification && Settled(r, t, now).createdAt == r.createdAt
  {
  }

  lemma AfterMoves(b: Batch, reply: Reply, k: nat)
    requires Proper(b) && k < |b.rows| && b.rows[k].state == Pending && RowInv(b.rows[k])
    ensures RowInv(After(b, reply, k)) && Moves(b.rows[k], After(b, reply, k))
    ensures After(b, reply, k).device == b.rows[k].device
    ensures After(b, reply, k).attempts == b.rows[k].attempts + if Goes(b, k) then 1 else 0
  {
    hide Place, FirstRaise, Retried, Settled;
    if Goes(b, k) {
      var r := Counted(b.rows[k]);
      RetriedMoves(r, TransportError, b.now);
      if reply.Tickets? {
        var settled := Settled(r, TicketOf(b, reply.tickets, k), b.now);
        SettledMoves(r, TicketOf(b, reply.tickets, k), b.now);
        RetriedMoves(settled, TransportError, b.now);
      }
    }
  }

  lemma AcknowledgedMoves(r: Row, receipt: Receipt, now: Time)
    requires r.state == Accepted && RowInv(r)
    ensures RowInv(Acknowledged(r, receipt, now)) && Moves(r, Acknowledged(r, receipt, now))
    ensures Acknowledged(r, receipt, now).attempts == r.attempts && Acknowledged(r, receipt, now).device == r.device
  {
  }

  // ---- The whole queue ----

  ghost predicate OneRowEach(rows: seq<Row>) {
    forall j, k | 0 <= j < k < |rows| && rows[j].device.Some? && rows[j].notification == rows[k].notification ::
      rows[j].device != rows[k].device
  }

  predicate SentInv(w: World, id: nat) {
    w.sent[id] == w.unsaved[id] + if id < |w.rows| then w.rows[id].attempts else 0
  }

  ghost predicate Inv(w: World) {
    && OneRowEach(w.rows)
    && (forall k | 0 <= k < |w.rows| :: RowInv(w.rows[k]))
    && (forall id: nat :: SentInv(w, id))
  }

  ghost predicate AllMove(rows: seq<Row>, rows': seq<Row>) {
    |rows| <= |rows'| && forall k | 0 <= k < |rows| :: Moves(rows[k], rows'[k])
  }

  lemma {:induction false} PutAt(rows: seq<Row>, picked: seq<nat>, values: seq<Row>, id: nat)
    requires |values| == |picked| && (forall k | 0 <= k < |picked| :: picked[k] < |rows|) && Distinct(picked)
    requires id < |rows|
    ensures id !in picked ==> Put(rows, picked, values)[id] == rows[id]
    ensures forall k | 0 <= k < |picked| && picked[k] == id :: Put(rows, picked, values)[id] == values[k]
  {
    if picked == [] {
    } else {
      var n := |picked| - 1;
      PutAt(rows, picked[..n], values[..n], id);
      if id == picked[n] { assert forall k | 0 <= k < n :: picked[k] != id; }
      else if id in picked { assert id in picked[..n]; }
    }
  }

  lemma {:induction false} EnqueuedRows(rows: seq<Row>, notification: nat, targets: seq<nat>, now: Time)
    requires OneRowEach(rows)
    ensures var after := Enqueued(rows, notification, targets, now);
            OneRowEach(after) && |rows| <= |after| && after[..|rows|] == rows
    ensures forall k | |rows| <= k < |Enqueued(rows, notification, targets, now)| ::
              exists d :: Enqueued(rows, notification, targets, now)[k] == NewRow(notification, d, now)
    ensures forall t <- targets :: Queued(Enqueued(rows, notification, targets, now), notification, t)
  {
    if targets == [] {
    } else {
      var n := |targets| - 1;
      var before, after := Enqueued(rows, notification, targets[..n], now), Enqueued(rows, notification, targets, now);
      EnqueuedRows(rows, notification, targets[..n], now);
      forall t | t in targets ensures Queued(after, notification, t) {
        if t in targets[..n] {
          var k :| 0 <= k < |before| && before[k].notification == notification && before[k].device == Some(t);
          assert after[k] == before[k];
        } else {
          assert t == targets[n];
          if !Queued(before, notification, t) { assert after[|before|] == NewRow(notification, t, now); }
        }
      }
    }
  }

  lemma EnqueueKeeps(w: World, notification: nat, targets: seq<nat>, now: Time)
    requires Inv(w)
    ensures var w' := Step(w, Enqueue(notification, targets, now)); Inv(w') && AllMove(w.rows, w'.rows)
  {
    var w' := Step(w, Enqueue(notification, targets, now));
    EnqueuedRows(w.rows, notification, targets, now);
    forall k | 0 <= k < |w.rows| ensures w'.rows[k] == w.rows[k] { assert w'.rows[..|w.rows|][k] == w.rows[k]; }
    forall id: nat ensures SentInv(w', id) { assert SentInv(w, id); }
  }

  lemma DetachKeeps(rows: seq<Row>, gone: set<nat>)
    requires OneRowEach(rows) && forall k | 0 <= k < |rows| :: RowInv(rows[k])
    ensures OneRowEach(Detach(rows, gone)) && forall k | 0 <= k < |rows| :: RowInv(Detach(rows, gone)[k])
  {
  }

  /** Rows replaced where a query picked them, then detached from the devices that are gone. */
  lemma Replaced(rows: seq<Row>, picked: seq<nat>, values: seq<Row>, gone: set<nat>)
    requires OneRowEach(rows) && (forall k | 0 <= k < |rows| :: RowInv(rows[k]))
    requires |values| == |picked| && (forall k | 0 <= k < |picked| :: picked[k] < |rows|) && Distinct(picked)
    requires forall k | 0 <= k < |picked| ::
               RowInv(values[k]) && Moves(rows[picked[k]], values[k]) && values[k].device == rows[picked[k]].device
    ensures var after := Detach(Put(rows, picked, values), gone);
            && OneRowEach(after) && (forall k | 0 <= k < |rows| :: RowInv(after[k])) && AllMove(rows, after)
  {
    hide RowInv, Moves;
    var put := Put(rows, picked, values);
    forall id | 0 <= id < |rows|
      ensures RowInv(put[id]) && Moves(rows[id], put[id]) && put[id].device == rows[id].device
      ensures put[id].notification == rows[id].notification
    {
      PutAt(rows, picked, values, id);
      if id in picked {
        var k :| 0 <= k < |picked| && picked[k] == id;
      } else {
        MovesSame(rows[id]);
      }
      MovesNotification(rows[id], put[id]);
    }
    DetachKeeps(put, gone);
    forall id | 0 <= id < |rows| ensures Moves(rows[id], Detach(put, gone)[id]) {
      MovesDetached(rows[id], put[id], gone);
    }
  }

  lemma MovesSame(r: Row)
    ensures Moves(r, r)
  {
  }

  lemma MovesNotification(r: Row, q: Row)
    requires Moves(r, q)
    ensures q.notification == r.notification
  {
  }

  lemma MovesDetached(r: Row, q: Row, gone: set<nat>)
    requires Moves(r, q)
    ensures Moves(r, Detach([q], gone)[0])
  {
  }

  lemma SentAt(b: Batch, picked: seq<nat>, id: nat)
    requires Proper(b) && |b.rows| == |picked| && Distinct(picked)
    ensures id !in picked ==> Sent(b, picked)[id] == 0
    ensures forall k | 0 <= k < |picked| && picked[k] == id :: Sent(b, picked)[id] == if Goes(b, k) then 1 else 0
  {
  }

  lemma BatchMoves(w: World, picked: seq<nat>, allowed: set<nat>, reply: Reply, now: Time, k: nat)
    requires DueRows(w.rows, picked, Pending, now) && k < |picked| && RowInv(w.rows[picked[k]])
    ensures var b := BatchOf(w, picked, allowed, now);
            && RowInv(After(b, reply, k)) && Moves(w.rows[picked[k]], After(b, reply, k))
            && After(b, reply, k).device == w.rows[picked[k]].device
            && After(b, reply, k).attempts == w.rows[picked[k]].attempts + if Goes(b, k) then 1 else 0
  {
    AfterMoves(BatchOf(w, picked, allowed, now), reply, k);
  }

  lemma DispatchSent(w: World, picked: seq<nat>, allowed: set<nat>, reply: Reply, survives: bool, now: Time, id: nat)
    requires DueRows(w.rows, picked, Pending, now) && SentInv(w, id)
    requires forall k | 0 <= k < |picked| :: RowInv(w.rows[picked[k]])
    ensures SentInv(Step(w, Dispatch(picked, allowed, reply, survives, now)), id)
  {
    var b := BatchOf(w, picked, allowed, now);
    forall k | 0 <= k < |picked|
      ensures After(b, reply, k).attempts == w.rows[picked[k]].attempts + if Goes(b, k) then 1 else 0
    {
      BatchMoves(w, picked, allowed, reply, now, k);
    }
    SentAt(b, picked, id);
    if id < |w.rows| { PutAt(w.rows, picked, AllAfter(b, reply), id); }
    hide RowInv, Moves, After, Goes, Forgotten, BatchOf, Put, Sent;
  }

  lemma DispatchKeeps(w: World, picked: seq<nat>, allowed: set<nat>, reply: Reply, survives: bool, now: Time)
    requires Inv(w)
    ensures var w' := Step(w, Dispatch(picked, allowed, reply, survives, now)); Inv(w') && AllMove(w.rows, w'.rows)
  {
    hide RowInv, Moves, After, Goes, Forgotten, BatchOf, SentInv, Sent;
    var w' := Step(w, Dispatch(picked, allowed, reply, survives, now));
    if DueRows(w.rows, picked, Pending, now) {
      var b := BatchOf(w, picked, allowed, now);
      BatchRows(w, picked, allowed, now);
      forall k | 0 <= k < |picked|
        ensures RowInv(After(b, reply, k)) && Moves(w.rows[picked[k]], After(b, reply, k))
        ensures After(b, reply, k).device == w.rows[picked[k]].device
      {
        BatchMoves(w, picked, allowed, reply, now, k);
      }
      Replaced(w.rows, picked, AllAfter(b, reply), Forgotten(b, reply));
      forall id: nat ensures SentInv(w', id) { DispatchSent(w, picked, allowed, reply, survives, now, id); }
    }
    if w' == w || !survives {
      forall k | 0 <= k < |w.rows| ensures Moves(w.rows[k], w.rows[k]) { MovesSame(w.rows[k]); }
    }
  }

  lemma BatchRows(w: World, picked: seq<nat>, allowed: set<nat>, now: Time)
    requires forall k | 0 <= k < |picked| :: picked[k] < |w.rows|
    ensures Proper(BatchOf(w, picked, allowed, now)) && |BatchOf(w, picked, allowed, now).rows| == |picked|
  {
  }

  lemma CollectKeeps(w: World, picked: seq<nat>, data: map<string, Receipt>, now: Time)
    requires Inv(w)
    ensures var w' := Step(w, Collect(picked, data, now)); Inv(w') && AllMove(w.rows, w'.rows)
  {
    var w' := Step(w, Collect(picked, data, now));
    if DueRows(w.rows, picked, Accepted, now) && !Spoilt(Rows(w.rows, picked), data) {
      var rows := Rows(w.rows, picked);
      var values := AllAcknowledged(rows, data, now);
      forall k | 0 <= k < |picked|
        ensures RowInv(values[k]) && Moves(w.rows[picked[k]], values[k])
        ensures values[k].device == w.rows[picked[k]].device && values[k].attempts == w.rows[picked[k]].attempts
      {
        AcknowledgedMoves(rows[k], ReceiptOf(rows[k], data), now);
      }
      hide RowInv, Moves, Acknowledged, GoneByReceipt;
      Replaced(w.rows, picked, values, GoneByReceipt(rows, data));
      forall id: nat ensures SentInv(w', id) {
        assert SentInv(w, id);
        if id < |w.rows| { PutAt(w.rows, picked, values, id); }
      }
    }
    if w' == w { forall k | 0 <= k < |w.rows| ensures Moves(w.rows[k], w.rows[k]) { MovesSame(w.rows[k]); } }
  }

  lemma StepKeeps(w: World, e: Event)
    requires Inv(w)
    ensures Inv(Step(w, e)) && AllMove(w.rows, Step(w, e).rows)
  {
    match e {
      case Enqueue(notification, targets, now) => EnqueueKeeps(w, notification, targets, now);
      case Dispatch(picked, allowed, reply, survives, now) => DispatchKeeps(w, picked, allowed, reply, survives, now);
      case Collect(picked, data, now) => CollectKeeps(w, picked, data, now);
      case Unregister(device) =>
        DetachKeeps(w.rows, {device});
        forall id: nat ensures SentInv(Step(w, e), id) { assert SentInv(w, id); }
    }
  }

  lemma {:induction false} RunKeeps(w: World, es: seq<Event>)
    requires Inv(w)
    ensures Inv(Run(w, es))
    decreases |es|
  {
    if es == [] {
    } else {
      StepKeeps(w, es[0]);
      RunKeeps(Step(w, es[0]), es[1..]);
    }
  }

  // ---- Promises over whole runs ----

  /** A row is sent at most four times, plus once for each worker that died between its call and its commit. */
  lemma FewSendings(es: seq<Event>, id: nat)
    ensures Run(EMPTY, es).sent[id] <= 4 + Run(EMPTY, es).unsaved[id]
    ensures id < |Run(EMPTY, es).rows| ==>
              Run(EMPTY, es).sent[id] == Run(EMPTY, es).rows[id].attempts + Run(EMPTY, es).unsaved[id]
    ensures id < |Run(EMPTY, es).rows| && Run(EMPTY, es).rows[id].state == Pending ==>
              Run(EMPTY, es).sent[id] < 4 + Run(EMPTY, es).unsaved[id]
  {
    RunKeeps(EMPTY, es);
    assert SentInv(Run(EMPTY, es), id);
  }

  /** One more sending of the only row, without an answer; the worker may die before its commit. */
  lemma SendsAgain(w: World, now: Time, survives: bool)
    requires |w.rows| == 1 && w.rows[0].state == Pending && w.rows[0].nextAt <= now < w.rows[0].createdAt + LIFE
    requires w.rows[0].device.Some? && w.rows[0].device.value in w.devices
    ensures var w' := Step(w, Dispatch([0], {0}, NoReply(false), survives, now));
            && w'.devices == w.devices && w'.sent == w.sent + multiset{0}
            && w'.unsaved == w.unsaved + (if survives then multiset{} else multiset{0})
            && w'.rows == if survives then [Retried(Counted(w.rows[0]), TransportError, now)] else w.rows
  {
    var b := BatchOf(w, [0], {0}, now);
    assert Goes(b, 0);
    assert (set k | 0 <= k < 1 && Goes(b, k) :: [0][k]) == {0};
    assert Forgotten(b, NoReply(false)) == {};
    assert Put(w.rows, [0], AllAfter(b, NoReply(false)))[0] == After(b, NoReply(false), 0) by {
      PutAt(w.rows, [0], AllAfter(b, NoReply(false)), 0);
    }
  }

  const ONCE_QUEUED := Step(EMPTY, Enqueue(0, [0], 0))
  const UNSAVED := Step(ONCE_QUEUED, Again(false, 0))
  const FIRST := Step(UNSAVED, Again(true, 0))
  const SECOND := Step(FIRST, Again(true, 15))
  const THIRD := Step(SECOND, Again(true, 75))
  const FOURTH := Step(THIRD, Again(true, 375))

  function Again(survives: bool, now: Time): Event { Dispatch([0], {0}, NoReply(false), survives, now) }

  lemma Queuing()
    ensures ONCE_QUEUED == World([NewRow(0, 0, 0)], {0}, multiset{}, multiset{})
  {
    assert [0][..0] == [];
    assert Enqueued([], 0, [], 0) == [];
    assert ONCE_QUEUED.devices == {0};
  }

  lemma FourthSaved()
    ensures FOURTH.sent[0] == 5 && FOURTH.unsaved[0] == 1 && |FOURTH.rows| == 1 && FOURTH.rows[0].state == Failed
  {
    hide Step;
    Queuing();
    SendsAgain(ONCE_QUEUED, 0, false);
    SendsAgain(UNSAVED, 0, true);
    SendsAgain(FIRST, 15, true);
    SendsAgain(SECOND, 75, true);
    SendsAgain(THIRD, 375, true);
  }

  lemma {:induction false} RunThen(w: World, es: seq<Event>, e: Event)
    ensures Run(w, es + [e]) == Step(Run(w, es), e)
    decreases |es|
  {
    if es == [] {
      assert [] + [e] == [e] && [e][1..] == [];
    } else {
      assert (es + [e])[1..] == es[1..] + [e];
      RunThen(Step(w, es[0]), es[1..], e);
    }
  }

  ghost predicate Reached(w: World) { exists es :: Run(EMPTY, es) == w }

  lemma ReachedNext(w: World, e: Event)
    requires Reached(w)
    ensures Reached(Step(w, e))
  {
    var es :| Run(EMPTY, es) == w;
    RunThen(EMPTY, es, e);
  }

  /** A worker that dies after its call, then four calls without an answer: the row is sent five times. */
  lemma FiveSendings()
    ensures exists es :: Run(EMPTY, es).sent[0] == 5 && Run(EMPTY, es).unsaved[0] == 1
  {
    assert Run(EMPTY, []) == EMPTY;
    assert Reached(EMPTY);
    hide Step, Run, Reached;
    ReachedNext(EMPTY, Enqueue(0, [0], 0));
    ReachedNext(ONCE_QUEUED, Again(false, 0));
    ReachedNext(UNSAVED, Again(true, 0));
    ReachedNext(FIRST, Again(true, 15));
    ReachedNext(SECOND, Again(true, 75));
    ReachedNext(THIRD, Again(true, 375));
    ReachedByRun(FOURTH);
    FourthSaved();
  }

  lemma ReachedByRun(w: World)
    requires Reached(w)
    ensures exists es :: Run(EMPTY, es) == w
  {
  }

  lemma OneRowPerDevice(es: seq<Event>, j: nat, k: nat)
    requires j < k < |Run(EMPTY, es).rows| && Run(EMPTY, es).rows[j].device.Some?
    requires Run(EMPTY, es).rows[j].notification == Run(EMPTY, es).rows[k].notification
    ensures Run(EMPTY, es).rows[j].device != Run(EMPTY, es).rows[k].device
  {
    RunKeeps(EMPTY, es);
  }

  /** How many times the row changes state or is sent again. */
  function Changes(w: World, es: seq<Event>, id: nat): nat
    decreases |es|
  {
    if es == [] then 0
    else
      var w' := Step(w, es[0]);
      Changes(w', es[1..], id)
      + if id < |w.rows| && id < |w'.rows| && !Unmoved(w.rows[id], w'.rows[id]) then 1 else 0
  }

  /** Every change spends some of the row's potential: nine changes at most for a new row, none once it is ended. */
  lemma {:induction false} ChangesAreFew(w: World, es: seq<Event>, id: nat)
    requires Inv(w) && id < |w.rows|
    ensures id < |Run(w, es).rows| && Changes(w, es, id) <= Potential(w.rows[id]) - Potential(Run(w, es).rows[id])
    ensures Ended(w.rows[id]) ==> Run(w, es).rows[id] == w.rows[id].(device := Run(w, es).rows[id].device)
    ensures Changes(w, es, id) <= 9
    decreases |es|
  {
    if es == [] {
    } else {
      StepKeeps(w, es[0]);
      assert Moves(w.rows[id], Step(w, es[0]).rows[id]);
      ChangesAreFew(Step(w, es[0]), es[1..], id);
    }
    assert RowInv(w.rows[id]);
    RunKeeps(w, es);
    assert RowInv(Run(w, es).rows[id]);
  }
}
