/** The push worker as it runs: rows written in place while it walks over a batch. An exception is a
    `raised` flag; the handler then treats every row that was sent. */
module PushWorker {
  import opened Wrappers
  import opened PushQueue

  class Delivery {
    const notification: nat
    const createdAt: Time
    var device: Option<nat>
    var state: State
    var attempts: nat
    var nextAt: Time
    var ticket: Option<string>
    var error: Option<Code>

    constructor (notification: nat, device: nat, now: Time)
      ensures Value() == Row(notification, Some(device), now, Pending, 0, now, None, None)
    {
      this.notification, this.device, createdAt := notification, Some(device), now;
      state, attempts, nextAt, ticket, error := Pending, 0, now, None, None;
    }

    function Value(): Row
      reads this
    {
      Row(notification, device, createdAt, state, attempts, nextAt, ticket, error)
    }

    method Retry(code: Code, now: Time)
      modifies this
      ensures Value() == Retried(old(Value()), code, now)
    {
      error := Some(code);
      if attempts >= MAX_ATTEMPTS {
        state := Failed;
      } else {
        state := Pending;
        nextAt := now + RetryDelay(attempts);
      }
    }

    method Reject(detail: Detail, now: Time)
      modifies this
      ensures Value() == Rejected(old(Value()), detail, now)
    {
      var code := CodeOf(detail);
      if code == Provider(MessageRateExceeded) {
        Retry(code, now);
      } else {
        state, error := Failed, Some(code);
      }
    }

    /** Drops the row, or counts one more attempt for it. */
    method Prepare(allowed: bool, now: Time) returns (goes: bool)
      modifies this
      ensures goes <==> allowed && now - old(Value()).createdAt < LIFE
      ensures Value() == if goes then Counted(old(Value())) else DroppedRow(old(Value()), allowed)
    {
      goes := false;
      if !allowed {
        state, error := Skipped, Some(Unregistered);
      } else if now - createdAt >= LIFE {
        state, error := Failed, Some(TooOld);
      } else {
        attempts := attempts + 1;
        goes := true;
      }
    }

    /** Records a receipt; the device it refuses, if any, is to be forgotten. */
    method Acknowledge(receipt: Receipt, now: Time) returns (gone: Option<nat>)
      requires receipt != Refused(Unhashable)
      modifies this
      ensures Value() == Acknowledged(old(Value()), receipt, now)
      ensures gone == if receipt == Refused(Listed(DeviceNotRegistered)) then old(Value()).device else None
    {
      gone := None;
      match receipt {
        case Received =>
          state, error := ProviderAccepted, None;
        case Refused(detail) =>
          Reject(detail, now);
          if detail == Listed(DeviceNotRegistered) { gone := device; }
        case Missing =>
          if now - createdAt >= RECEIPT_LIFE {
            state, error := Lost, Some(ReceiptUnavailable);
          } else {
            nextAt := now + 5 * MINUTE;
          }
      }
    }

    /** Back to the committed row. */
    method Restore(r: Row)
      requires r.notification == notification && r.createdAt == createdAt
      modifies this
      ensures Value() == r
    {
      device, state, attempts, nextAt, ticket, error := r.device, r.state, r.attempts, r.nextAt, r.ticket, r.error;
    }

    method Recover(permanent: bool, now: Time)
      modifies this
      ensures Value() == RecoveredRow(old(Value()), permanent, now)
    {
      if permanent {
        state, error := Failed, Some(HttpRejected);
      } else {
        Retry(TransportError, now);
      }
    }

    /** Writes what a ticket says; the device it refuses, if any, is to be forgotten. */
    method Settle(t: Ticket, now: Time) returns (gone: Option<nat>)
      requires t != Refusal(Unhashable)
      modifies this
      ensures Value() == Settled(old(Value()), t, now)
      ensures gone == if t == Refusal(Listed(DeviceNotRegistered)) then old(Value()).device else None
    {
      gone := None;
      match t {
        case Taken(id) =>
          state, ticket, error := Accepted, Some(id), None;
          nextAt := now + 15 * MINUTE;
        case Refusal(detail) =>
          Reject(detail, now);
          if detail == Listed(DeviceNotRegistered) { gone := device; }
        case Unreadable =>
          Retry(InvalidTicket, now);
      }
    }
  }

  function RecoveredRow(r: Row, permanent: bool, now: Time): Row {
    if permanent then r.(state := Failed, error := Some(HttpRejected)) else Retried(r, TransportError, now)
  }

  ghost predicate AllDistinct(rows: seq<Delivery>) {
    forall j, k | 0 <= j < k < |rows| :: rows[j] != rows[k]
  }

  function Values(rows: seq<Delivery>): seq<Row>
    reads rows
  {
    seq(|rows|, k requires 0 <= k < |rows| reads rows => rows[k].Value())
  }

  /** Where the selected rows stand in the batch. */
  ghost predicate Located(b: Batch, rows: seq<Delivery>, selected: seq<Delivery>, at: seq<nat>, upto: nat)
    requires Proper(b) && upto <= |b.rows| == |rows|
  {
    && |selected| == |at| == Place(b, upto)
    && (forall j | 0 <= j < |at| ::
          at[j] < upto && Goes(b, at[j]) && Place(b, at[j]) == j && selected[j] == rows[at[j]])
    && (forall i | 0 <= i < upto && Goes(b, i) :: Place(b, i) < |at| && at[Place(b, i)] == i)
  }

  /** Row `i` once selection is over. */
  function Chosen(b: Batch, i: nat): Row
    requires Proper(b) && i < |b.rows|
  {
    if Goes(b, i) then Counted(b.rows[i]) else Dropped(b, i)
  }

  /** Row `i` once the first `n` tickets have been read. */
  function Read(b: Batch, tickets: seq<Ticket>, i: nat, n: nat): Row
    requires Proper(b) && i < |b.rows|
  {
    if Goes(b, i) && Place(b, i) < n then Settled(Counted(b.rows[i]), TicketOf(b, tickets, i), b.now) else Chosen(b, i)
  }

  /** The place in the batch of the next row to be sent. */
  function NextAt(b: Batch, at: seq<nat>, j: nat): nat
    requires Proper(b) && j <= |at|
  {
    if j < |at| then at[j] else |b.rows|
  }

  class Worker {
    var devices: set<nat>

    constructor ()
      ensures devices == {}
    {
      devices := {};
    }

    /** Sends a batch of due rows. `reply` is what the network brings back. */
    method Dispatch(rows: seq<Delivery>, allowed: seq<bool>, reply: Reply, now: Time) returns (accepted: nat)
      requires AllDistinct(rows) && |allowed| == |rows|
      modifies rows, this
      ensures Values(rows) == AllAfter(Batch(old(Values(rows)), allowed, now), reply)
      ensures accepted == Report(Batch(old(Values(rows)), allowed, now), reply)
      ensures devices == old(devices) - Forgotten(Batch(old(Values(rows)), allowed, now), reply)
    {
      hide Delivery.Value, After, Chosen, Read, Recovered, Forgotten, UnknownUpTo, Located, Raises, TakenBefore, NextAt,
           FirstRaise, Place;
      ghost var b := Batch(Values(rows), allowed, now);
      var selected; ghost var at;
      selected, at := Select(rows, allowed, now, b);
      accepted := 0;
      match reply {
        case NoReply(permanent) =>
          Recover(rows, selected, at, permanent, now, b);
          forall i | 0 <= i < |rows| ensures rows[i].Value() == After(b, reply, i) { AfterFailure(b, i, permanent); }
          NothingForgotten(b, permanent);
        case Tickets(tickets) =>
          var raised; ghost var n;
          accepted, raised, n := ReadTickets(rows, selected, at, tickets, now, b);
          RaisedAt(b, tickets, rows, selected, at, n);
          if raised {
            Recover(rows, selected, at, false, now, b);
          }
          forall i | 0 <= i < |rows| ensures rows[i].Value() == After(b, reply, i) {
            AfterReading(b, tickets, rows, selected, at, i, n);
          }
      }
    }

    /** Drops what must not be sent any more and counts one attempt for the rest. */
    method Select(rows: seq<Delivery>, allowed: seq<bool>, now: Time, ghost b: Batch)
      returns (selected: seq<Delivery>, ghost at: seq<nat>)
      requires AllDistinct(rows) && Proper(b) && b == Batch(Values(rows), allowed, now)
      modifies rows
      ensures Located(b, rows, selected, at, |rows|)
      ensures forall i | 0 <= i < |rows| :: rows[i].Value() == Chosen(b, i)
    {
      hide Delivery.Value, Counted, DroppedRow;
      selected, at := [], [];
      var k := 0;
      while k < |rows|
        invariant 0 <= k <= |rows| && Located(b, rows, selected, at, k)
        invariant forall i | 0 <= i < k :: rows[i].Value() == Chosen(b, i)
        invariant forall i | k <= i < |rows| :: rows[i].Value() == b.rows[i]
      {
        var goes := rows[k].Prepare(allowed[k], now);
        if goes {
          selected := selected + [rows[k]];
          at := at + [k];
        }
        k := k + 1;
      }
    }

    /** The exception handler: every row that was sent, whatever was already read of the reply. */
    method Recover(rows: seq<Delivery>, selected: seq<Delivery>, ghost at: seq<nat>, permanent: bool, now: Time,
                   ghost b: Batch)
      requires AllDistinct(rows) && Proper(b) && |b.rows| == |rows| && Located(b, rows, selected, at, |rows|)
      modifies rows
      ensures forall i | 0 <= i < |rows| :: rows[i].Value() == Recovered(b, i, old(rows[i].Value()), permanent, now)
    {
      hide Delivery.Value, RecoveredRow, Place, Goes;
      var j := 0;
      while j < |selected|
        invariant 0 <= j <= |selected|
        invariant forall i | 0 <= i < |rows| ::
                    rows[i].Value() == if Goes(b, i) && Place(b, i) < j
                                       then Recovered(b, i, old(rows[i].Value()), permanent, now)
                                       else old(rows[i].Value())
      {
        assert selected[j] == rows[at[j]];
        selected[j].Recover(permanent, now);
        j := j + 1;
      }
    }

    /** Reads the tickets in order, up to the first that raises. */
    method ReadTickets(rows: seq<Delivery>, selected: seq<Delivery>, ghost at: seq<nat>, tickets: seq<Ticket>,
                       now: Time, ghost b: Batch) returns (accepted: nat, raised: bool, ghost n: nat)
      requires AllDistinct(rows) && Proper(b) && |b.rows| == |rows| && b.now == now
      requires Located(b, rows, selected, at, |rows|)
      requires forall i | 0 <= i < |rows| :: rows[i].Value() == Chosen(b, i)
      modifies rows, this
      ensures n <= |at| && (raised <==> n < |at|)
      ensures forall j | 0 <= j < n :: !Raises(b, tickets, at[j])
      ensures raised ==> Raises(b, tickets, at[n])
      ensures forall i | 0 <= i < |rows| :: rows[i].Value() == Read(b, tickets, i, n)
      ensures accepted == TakenBefore(b, tickets, NextAt(b, at, n))
      ensures devices == old(devices) - UnknownUpTo(b, tickets, n)
    {
      hide Delivery.Value, Settled, Place, Goes, Located, Read, TakenBefore, UnknownUpTo, Raises, TicketOf;
      accepted, raised, n := 0, false, 0;
      var j := 0;
      ReadNothing(b, tickets, rows, selected, at);
      while j < |selected|
        invariant 0 <= j <= |selected| == |at| && n == j && !raised
        invariant forall k | 0 <= k < j :: !Raises(b, tickets, at[k])
        invariant forall i | 0 <= i < |rows| :: rows[i].Value() == Read(b, tickets, i, j)
        invariant accepted == TakenBefore(b, tickets, NextAt(b, at, j))
        invariant devices == old(devices) - UnknownUpTo(b, tickets, j)
      {
        NextRow(b, tickets, rows, selected, at, j);
        ReadNext(b, tickets, rows, selected, at, j);
        TakenNext(b, tickets, rows, selected, at, j);
        UnknownGrows(b, tickets, rows, selected, at, j);
        var row := selected[j];
        var ticket := if j < |tickets| then tickets[j] else Unreadable;
        if ticket == Refusal(Unhashable) {
          raised := true;
          return;
        }
        var gone := row.Settle(ticket, now);
        if ticket.Taken? { accepted := accepted + 1; }
        if gone.Some? { devices := devices - {gone.value}; }
        j := j + 1;
        n := j;
      }
    }

    /** Records the receipts of the rows due; an exception rolls the whole transaction back. */
    method Collect(rows: seq<Delivery>, data: map<string, Receipt>, now: Time) returns (raised: bool)
      requires AllDistinct(rows)
      modifies rows, this
      ensures raised <==> Spoilt(old(Values(rows)), data)
      ensures Values(rows) == if raised then old(Values(rows)) else AllAcknowledged(old(Values(rows)), data, now)
      ensures devices == old(devices) - if raised then {} else GoneByReceipt(old(Values(rows)), data)
    {
      hide Delivery.Value, Acknowledged, ReceiptOf, GoneByReceipt;
      var saved, kept := Values(rows), devices;
      raised := false;
      var k := 0;
      assert GoneByReceipt(saved[..0], data) == {} by { NoneGone(data); }
      while k < |rows|
        invariant 0 <= k <= |rows|
        invariant forall i | 0 <= i < |rows| :: rows[i].Value() == Collected(saved, data, now, i, k)
        invariant forall i | 0 <= i < k :: ReceiptOf(saved[i], data) != Refused(Unhashable)
        invariant devices == kept - GoneByReceipt(saved[..k], data)
      {
        var receipt := ReceiptOf(saved[k], data);
        if receipt == Refused(Unhashable) {
          raised := true;
          RollBack(rows, saved, data, now, k);
          devices := kept;
          return;
        }
        GoneGrows(saved, data, k);
        var gone := rows[k].Acknowledge(receipt, now);
        if gone.Some? { devices := devices - {gone.value}; }
        k := k + 1;
      }
      assert saved[..k] == saved;
    }

    method RollBack(rows: seq<Delivery>, saved: seq<Row>, ghost data: map<string, Receipt>, ghost now: Time,
                    ghost n: nat)
      requires AllDistinct(rows) && |saved| == |rows|
      requires forall i | 0 <= i < |rows| :: rows[i].Value() == Collected(saved, data, now, i, n)
      modifies rows
      ensures Values(rows) == saved
    {
      var k := 0;
      while k < |rows|
        invariant 0 <= k <= |rows|
        invariant forall i | 0 <= i < k :: rows[i].Value() == saved[i]
        invariant forall i | k <= i < |rows| :: rows[i].Value() == Collected(saved, data, now, i, n)
      {
        CollectedKeeps(saved, data, now, k, n, rows[k]);
        rows[k].Restore(saved[k]);
        k := k + 1;
      }
    }

    /** Queues a notification for each device that has no row for it yet. */
    method Enqueue(queue: seq<Delivery>, notification: nat, targets: seq<nat>, now: Time)
      returns (longer: seq<Delivery>)
      ensures Values(longer) == Enqueued(Values(queue), notification, targets, now)
    {
      longer := queue;
      var t := 0;
      assert targets[..0] == [];
      while t < |targets|
        invariant 0 <= t <= |targets|
        invariant Values(longer) == Enqueued(Values(queue), notification, targets[..t], now)
      {
        assert targets[..t + 1][..t] == targets[..t];
        var found := IsQueued(longer, notification, targets[t]);
        if !found {
          var row := new Delivery(notification, targets[t], now);
          ghost var before := Values(longer);
          longer := longer + [row];
          assert Values(longer) == before + [row.Value()];
        }
        t := t + 1;
      }
      assert targets[..t] == targets;
    }

    method IsQueued(queue: seq<Delivery>, notification: nat, device: nat) returns (found: bool)
      ensures found <==> Queued(Values(queue), notification, device)
    {
      var k := 0;
      while k < |queue|
        invariant 0 <= k <= |queue|
        invariant forall i | 0 <= i < k :: !(queue[i].notification == notification && queue[i].device == Some(device))
      {
        if queue[k].notification == notification && queue[k].device == Some(device) {
          assert Values(queue)[k] == queue[k].Value();
          return true;
        }
        k := k + 1;
      }
      found := false;
    }
  }

  lemma NoneGone(data: map<string, Receipt>)
    ensures GoneByReceipt([], data) == {}
  {
  }

  lemma CollectedKeeps(saved: seq<Row>, data: map<string, Receipt>, now: Time, i: nat, n: nat, row: Delivery)
    requires i < |saved| && row.Value() == Collected(saved, data, now, i, n)
    ensures row.notification == saved[i].notification && row.createdAt == saved[i].createdAt
  {
  }

  /** Row `i` once the first `n` receipts have been recorded. */
  function Collected(rows: seq<Row>, data: map<string, Receipt>, now: Time, i: nat, n: nat): Row
    requires i < |rows|
  {
    if i < n then Acknowledged(rows[i], ReceiptOf(rows[i], data), now) else rows[i]
  }

  lemma GoneGrows(rows: seq<Row>, data: map<string, Receipt>, n: nat)
    requires n < |rows|
    ensures GoneByReceipt(rows[..n + 1], data) == GoneByReceipt(rows[..n], data)
            + if ReceiptOf(rows[n], data) == Refused(Listed(DeviceNotRegistered)) && rows[n].device.Some?
              then {rows[n].device.value} else {}
  {
    hide ReceiptOf;
    var before, after := rows[..n], rows[..n + 1];
    assert forall k | 0 <= k < n :: after[k] == before[k];
    assert after[n] == rows[n];
  }

  function Recovered(b: Batch, i: nat, row: Row, permanent: bool, now: Time): Row
    requires Proper(b) && i < |b.rows|
  {
    if Goes(b, i) then RecoveredRow(row, permanent, now) else row
  }

  /** The devices refused by the first `n` tickets. */
  function UnknownUpTo(b: Batch, tickets: seq<Ticket>, n: nat): set<nat>
    requires Proper(b)
  {
    set i | 0 <= i < |b.rows| && b.rows[i].device.Some? && Goes(b, i) && Place(b, i) < n
            && TicketOf(b, tickets, i) == Refusal(Listed(DeviceNotRegistered)) :: b.rows[i].device.value
  }

  lemma ReadNothing(b: Batch, tickets: seq<Ticket>, rows: seq<Delivery>, selected: seq<Delivery>, at: seq<nat>)
    requires Proper(b) && |b.rows| == |rows| && Located(b, rows, selected, at, |rows|)
    ensures |selected| == |at| && TakenBefore(b, tickets, NextAt(b, at, 0)) == 0 && UnknownUpTo(b, tickets, 0) == {}
    ensures forall i | 0 <= i < |rows| :: Read(b, tickets, i, 0) == Chosen(b, i)
    ensures forall j | 0 <= j < |at| :: at[j] < |rows|
  {
    TakenUpTo(b, tickets, rows, selected, at, 0);
  }

  /** The row of the next ticket. */
  lemma NextRow(b: Batch, tickets: seq<Ticket>, rows: seq<Delivery>, selected: seq<Delivery>, at: seq<nat>, j: nat)
    requires Proper(b) && |b.rows| == |rows| && Located(b, rows, selected, at, |rows|) && j < |at|
    requires AllDistinct(rows)
    ensures |selected| == |at| && at[j] < |rows| && selected[j] == rows[at[j]]
    ensures forall i | 0 <= i < |rows| && i != at[j] :: rows[i] != rows[at[j]]
    ensures Goes(b, at[j]) && Place(b, at[j]) == j
    ensures TicketOf(b, tickets, at[j]) == if j < |tickets| then tickets[j] else Unreadable
    ensures Raises(b, tickets, at[j]) <==> TicketOf(b, tickets, at[j]) == Refusal(Unhashable)
  {
    hide Place, Goes;
  }

  /** What its ticket changes: that row alone. */
  lemma ReadNext(b: Batch, tickets: seq<Ticket>, rows: seq<Delivery>, selected: seq<Delivery>, at: seq<nat>, j: nat)
    requires Proper(b) && |b.rows| == |rows| && Located(b, rows, selected, at, |rows|) && j < |at|
    ensures forall i | 0 <= i < |rows| && i != at[j] :: Read(b, tickets, i, j + 1) == Read(b, tickets, i, j)
    ensures Read(b, tickets, at[j], j + 1) == Settled(Read(b, tickets, at[j], j), TicketOf(b, tickets, at[j]), b.now)
    ensures Read(b, tickets, at[j], j).device == b.rows[at[j]].device
  {
    hide Settled, Place, TicketOf, Goes;
  }

  lemma TakenNext(b: Batch, tickets: seq<Ticket>, rows: seq<Delivery>, selected: seq<Delivery>, at: seq<nat>, j: nat)
    requires Proper(b) && |b.rows| == |rows| && Located(b, rows, selected, at, |rows|) && j < |at|
    ensures TakenBefore(b, tickets, NextAt(b, at, j + 1)) == TakenBefore(b, tickets, NextAt(b, at, j))
            + if TicketOf(b, tickets, at[j]).Taken? then 1 else 0
  {
    hide TakenBefore, TicketOf, Place;
    TakenUpTo(b, tickets, rows, selected, at, j + 1);
    TakenHere(b, tickets, at[j]);
  }

  lemma TakenHere(b: Batch, tickets: seq<Ticket>, k: nat)
    requires Proper(b) && k < |b.rows|
    ensures TakenBefore(b, tickets, k + 1) == TakenBefore(b, tickets, k)
            + if Goes(b, k) && TicketOf(b, tickets, k).Taken? then 1 else 0
  {
  }

  lemma TakenUpTo(b: Batch, tickets: seq<Ticket>, rows: seq<Delivery>, selected: seq<Delivery>, at: seq<nat>, n: nat)
    requires Proper(b) && |b.rows| == |rows| && Located(b, rows, selected, at, |rows|) && n <= |at|
    ensures TakenBefore(b, tickets, NextAt(b, at, n)) ==
            if n == 0 then 0 else TakenBefore(b, tickets, at[n - 1] + 1)
  {
    hide TicketOf, Goes;
    var from := if n == 0 then 0 else at[n - 1] + 1;
    var to := NextAt(b, at, n);
    if n > 0 && to < from { PlaceGrows(b, to, at[n - 1]); }
    forall i | from <= i < to ensures !Goes(b, i) {
      if Goes(b, i) {
        PlaceGrows(b, i, to);
        if n > 0 { PlaceGrows(b, at[n - 1], i); }
      }
    }
    TakenSkips(b, tickets, from, to);
  }

  /** Reading stops exactly where the first ticket raises. */
  lemma RaisedAt(b: Batch, tickets: seq<Ticket>, rows: seq<Delivery>, selected: seq<Delivery>, at: seq<nat>, n: nat)
    requires Proper(b) && |b.rows| == |rows| && Located(b, rows, selected, at, |rows|) && n <= |at|
    requires forall j | 0 <= j < n :: !Raises(b, tickets, at[j])
    requires n < |at| ==> Raises(b, tickets, at[n])
    ensures FirstRaise(b, tickets, 0) == NextAt(b, at, n)
    ensures forall i | 0 <= i < |rows| && Goes(b, i) :: i < NextAt(b, at, n) <==> Place(b, i) < n
    ensures UnknownUpTo(b, tickets, n) == Forgotten(b, Tickets(tickets))
  {
    hide TicketOf, UnknownUpTo, Forgotten;
    var first := NextAt(b, at, n);
    forall i | 0 <= i < |rows| && Goes(b, i) ensures i < first <==> Place(b, i) < n {
      if n < |at| {
        if i < first { PlaceGrows(b, i, first); } else { PlaceGrows(b, first, i); }
      } else {
        PlaceGrows(b, i, |rows|);
      }
    }
    forall i | 0 <= i < first ensures !Raises(b, tickets, i) {
      if Goes(b, i) { assert at[Place(b, i)] == i; }
    }
    RaisesFirst(b, tickets, 0, first);
    assert UnknownUpTo(b, tickets, n) == Forgotten(b, Tickets(tickets)) by { SameUnknown(b, tickets, n); }
  }

  lemma SameUnknown(b: Batch, tickets: seq<Ticket>, n: nat)
    requires Proper(b)
    requires forall i | 0 <= i < |b.rows| && Goes(b, i) :: i < FirstRaise(b, tickets, 0) <==> Place(b, i) < n
    ensures UnknownUpTo(b, tickets, n) == Forgotten(b, Tickets(tickets))
  {
    hide TicketOf, FirstRaise, Place;
  }

  lemma AfterFailure(b: Batch, i: nat, permanent: bool)
    requires Proper(b) && i < |b.rows|
    ensures Recovered(b, i, Chosen(b, i), permanent, b.now) == After(b, NoReply(permanent), i)
  {
  }

  lemma NothingForgotten(b: Batch, permanent: bool)
    requires Proper(b)
    ensures Forgotten(b, NoReply(permanent)) == {}
  {
  }

  lemma AfterReading(b: Batch, tickets: seq<Ticket>, rows: seq<Delivery>, selected: seq<Delivery>, at: seq<nat>,
                     i: nat, n: nat)
    requires Proper(b) && |b.rows| == |rows| && Located(b, rows, selected, at, |rows|) && i < |rows| && n <= |at|
    requires FirstRaise(b, tickets, 0) == NextAt(b, at, n)
    requires Goes(b, i) ==> (i < NextAt(b, at, n) <==> Place(b, i) < n)
    ensures After(b, Tickets(tickets), i) ==
            if n < |at| then Recovered(b, i, Read(b, tickets, i, n), false, b.now) else Read(b, tickets, i, n)
  {
    hide Place, FirstRaise, Settled, Retried;
  }

  /** A refused device among the first `n` tickets. */
  ghost predicate RefusedBefore(b: Batch, tickets: seq<Ticket>, n: nat, d: nat)
    requires Proper(b)
  {
    exists i :: 0 <= i < |b.rows| && RefusedAt(b, tickets, i, d) && Goes(b, i) && Place(b, i) < n
  }

  predicate RefusedAt(b: Batch, tickets: seq<Ticket>, i: nat, d: nat)
    requires Proper(b) && i < |b.rows|
  {
    b.rows[i].device == Some(d) && TicketOf(b, tickets, i) == Refusal(Listed(DeviceNotRegistered))
  }

  lemma UnknownIs(b: Batch, tickets: seq<Ticket>, n: nat, d: nat)
    requires Proper(b)
    ensures d in UnknownUpTo(b, tickets, n) <==> RefusedBefore(b, tickets, n, d)
  {
    hide TicketOf, Place, Goes;
    if d in UnknownUpTo(b, tickets, n) {
      var i :| 0 <= i < |b.rows| && b.rows[i].device == Some(d) && Goes(b, i) && Place(b, i) < n
               && TicketOf(b, tickets, i) == Refusal(Listed(DeviceNotRegistered));
      assert RefusedAt(b, tickets, i, d);
    }
  }

  lemma RefusedGrows(b: Batch, tickets: seq<Ticket>, rows: seq<Delivery>, selected: seq<Delivery>, at: seq<nat>, j: nat,
                     d: nat)
    requires Proper(b) && |b.rows| == |rows| && Located(b, rows, selected, at, |rows|) && j < |at|
    ensures RefusedBefore(b, tickets, j + 1, d) <==> RefusedBefore(b, tickets, j, d) || RefusedAt(b, tickets, at[j], d)
  {
    hide RefusedAt, Place, Goes;
    assert Goes(b, at[j]) && Place(b, at[j]) == j;
    if RefusedBefore(b, tickets, j + 1, d) {
      var i :| 0 <= i < |b.rows| && RefusedAt(b, tickets, i, d) && Goes(b, i) && Place(b, i) < j + 1;
      assert at[Place(b, i)] == i;
    }
  }

  lemma UnknownGrows(b: Batch, tickets: seq<Ticket>, rows: seq<Delivery>, selected: seq<Delivery>, at: seq<nat>, j: nat)
    requires Proper(b) && |b.rows| == |rows| && Located(b, rows, selected, at, |rows|) && j < |at|
    ensures UnknownUpTo(b, tickets, j + 1) == UnknownUpTo(b, tickets, j)
            + if TicketOf(b, tickets, at[j]) == Refusal(Listed(DeviceNotRegistered)) && b.rows[at[j]].device.Some?
              then {b.rows[at[j]].device.value} else {}
  {
    assert at[j] < |b.rows|;
    hide TicketOf, Place, Goes, UnknownUpTo, RefusedBefore, Located;
    forall d: nat
      ensures d in UnknownUpTo(b, tickets, j + 1)
         <==> d in UnknownUpTo(b, tickets, j) || RefusedAt(b, tickets, at[j], d)
    {
      UnknownIs(b, tickets, j + 1, d);
      UnknownIs(b, tickets, j, d);
      RefusedGrows(b, tickets, rows, selected, at, j, d);
    }
  }
}
