/** What enqueueing and one batch of the push queue do to each row (recruitment_push_worker.py). */
module PushDispatch {
  import opened Wrappers
  import opened PushQueue
  import opened PushRuns

  // ---- Enqueueing ----

  /** Every target device has a row for the notification; the rows there were stay; a new row is pending, due
      now, never sent, for a device that had none. */
  lemma EnqueuedExactly(w: World, notification: nat, targets: seq<nat>, now: Time)
    requires Inv(w)
    ensures var rows := Step(w, Enqueue(notification, targets, now)).rows;
            && |w.rows| <= |rows| && rows[..|w.rows|] == w.rows
            && (forall d | d in targets ::
                  exists k :: 0 <= k < |rows| && rows[k].notification == notification && rows[k].device == Some(d))
            && (forall k | |w.rows| <= k < |rows| ::
                  && rows[k].notification == notification && rows[k].device.Some? && rows[k].device.value in targets
                  && rows[k].createdAt == now && rows[k].nextAt == now && rows[k].state == Pending
                  && rows[k].attempts == 0 && rows[k].ticket.None? && rows[k].error.None?
                  && forall j | 0 <= j < |w.rows| && w.rows[j].notification == notification ::
                       w.rows[j].device != rows[k].device)
  {
    EnqueuedRows(w.rows, notification, targets, now);
    var rows := Enqueued(w.rows, notification, targets, now);
    forall d | d in targets
      ensures exists k :: 0 <= k < |rows| && rows[k].notification == notification && rows[k].device == Some(d)
    {
      assert Queued(rows, notification, d);
    }
    forall k | |w.rows| <= k < |rows|
      ensures rows[k].device.Some? && rows[k].device.value in targets
      ensures rows[k] == NewRow(notification, rows[k].device.value, now)
    {
      EnqueuedFor(w.rows, notification, targets, now, k);
    }
    forall j, k | 0 <= j < |w.rows| <= k < |rows| && w.rows[j].notification == notification
      ensures w.rows[j].device != rows[k].device
    {
      assert rows[..|w.rows|][j] == rows[j];
    }
    hide Enqueued, Inv;
  }

  lemma {:induction false} EnqueuedFor(rows: seq<Row>, notification: nat, targets: seq<nat>, now: Time, k: nat)
    requires |rows| <= k < |Enqueued(rows, notification, targets, now)|
    ensures var r := Enqueued(rows, notification, targets, now)[k];
            r.device.Some? && r.device.value in targets && r == NewRow(notification, r.device.value, now)
  {
    var n := |targets| - 1;
    var before := Enqueued(rows, notification, targets[..n], now);
    if k < |before| {
      EnqueuedFor(rows, notification, targets[..n], now, k);
    }
  }

  // ---- One batch ----

  /** The row is sent: its device is there and may be told, and it is less than a day old. */
  predicate GoesOut(w: World, allowed: set<nat>, now: Time, id: nat)
    requires id < |w.rows|
  {
    id in allowed && w.rows[id].device.Some? && w.rows[id].device.value in w.devices
    && now - w.rows[id].createdAt < 24 * 3600
  }

  /** The rows of the batch sent before the k-th, whose tickets come before its own. */
  function Ahead(w: World, picked: seq<nat>, allowed: set<nat>, now: Time, k: nat): set<nat>
    requires k <= |picked| && forall j | 0 <= j < |picked| :: picked[j] < |w.rows|
  {
    set j: nat | j < k && GoesOut(w, allowed, now, picked[j])
  }

  /** The ticket of the k-th row: the one at the number of rows sent before it, if the reply is long enough. */
  function OwnTicket(w: World, picked: seq<nat>, allowed: set<nat>, tickets: seq<Ticket>, now: Time, k: nat): Ticket
    requires k <= |picked| && forall j | 0 <= j < |picked| :: picked[j] < |w.rows|
  {
    var n := |Ahead(w, picked, allowed, now, k)|;
    if n < |tickets| then tickets[n] else Unreadable
  }

  lemma BatchGoes(w: World, picked: seq<nat>, allowed: set<nat>, now: Time, k: nat)
    requires k < |picked| && forall j | 0 <= j < |picked| :: picked[j] < |w.rows|
    ensures Goes(BatchOf(w, picked, allowed, now), k) <==> GoesOut(w, allowed, now, picked[k])
  {
  }

  lemma AheadStep(w: World, picked: seq<nat>, allowed: set<nat>, now: Time, k: nat)
    requires k < |picked| && forall j | 0 <= j < |picked| :: picked[j] < |w.rows|
    ensures |Ahead(w, picked, allowed, now, k + 1)|
         == |Ahead(w, picked, allowed, now, k)| + if GoesOut(w, allowed, now, picked[k]) then 1 else 0
  {
    hide GoesOut;
    var before, after := Ahead(w, picked, allowed, now, k), Ahead(w, picked, allowed, now, k + 1);
    assert after == before + if GoesOut(w, allowed, now, picked[k]) then {k} else {};
    assert k !in before;
  }

  lemma {:induction false} PlaceIs(w: World, picked: seq<nat>, allowed: set<nat>, now: Time, k: nat)
    requires k <= |picked| && forall j | 0 <= j < |picked| :: picked[j] < |w.rows|
    ensures Place(BatchOf(w, picked, allowed, now), k) == |Ahead(w, picked, allowed, now, k)|
  {
    if k == 0 {
    } else {
      PlaceIs(w, picked, allowed, now, k - 1);
      BatchGoes(w, picked, allowed, now, k - 1);
      AheadStep(w, picked, allowed, now, k - 1);
      hide GoesOut, Goes, Ahead;
    }
  }

  /** The tickets of the rows sent raise nothing. */
  predicate AllReadable(w: World, picked: seq<nat>, allowed: set<nat>, tickets: seq<Ticket>, now: Time)
    requires forall j | 0 <= j < |picked| :: picked[j] < |w.rows|
  {
    forall k | 0 <= k < |picked| && GoesOut(w, allowed, now, picked[k]) ::
      OwnTicket(w, picked, allowed, tickets, now, k) != Refusal(Unhashable)
  }

  lemma BatchRaises(w: World, picked: seq<nat>, allowed: set<nat>, tickets: seq<Ticket>, now: Time, k: nat)
    requires k < |picked| && forall j | 0 <= j < |picked| :: picked[j] < |w.rows|
    ensures var b := BatchOf(w, picked, allowed, now);
            && TicketOf(b, tickets, k) == OwnTicket(w, picked, allowed, tickets, now, k)
            && (Raises(b, tickets, k) <==>
                  GoesOut(w, allowed, now, picked[k])
                  && OwnTicket(w, picked, allowed, tickets, now, k) == Refusal(Unhashable))
  {
    PlaceIs(w, picked, allowed, now, k);
    BatchGoes(w, picked, allowed, now, k);
    hide GoesOut, Goes, BatchOf, Place, Ahead;
  }

  lemma {:induction false} RaiseFound(b: Batch, tickets: seq<Ticket>, k: nat)
    requires Proper(b) && k <= |b.rows|
    ensures FirstRaise(b, tickets, k) < |b.rows| <==> exists j :: k <= j < |b.rows| && Raises(b, tickets, j)
    ensures FirstRaise(b, tickets, k) < |b.rows| ==> Raises(b, tickets, FirstRaise(b, tickets, k))
    decreases |b.rows| - k
  {
    hide Raises;
    if k == |b.rows| || Raises(b, tickets, k) {
    } else {
      RaiseFound(b, tickets, k + 1);
    }
  }

  lemma BatchInterrupted(w: World, picked: seq<nat>, allowed: set<nat>, tickets: seq<Ticket>, now: Time)
    requires forall j | 0 <= j < |picked| :: picked[j] < |w.rows|
    ensures Interrupted(BatchOf(w, picked, allowed, now), Tickets(tickets))
       <==> !AllReadable(w, picked, allowed, tickets, now)
  {
    var b := BatchOf(w, picked, allowed, now);
    RaiseFound(b, tickets, 0);
    forall k | 0 <= k < |picked|
      ensures Raises(b, tickets, k) <==> GoesOut(w, allowed, now, picked[k])
                                         && OwnTicket(w, picked, allowed, tickets, now, k) == Refusal(Unhashable)
    {
      BatchRaises(w, picked, allowed, tickets, now, k);
    }
    hide Raises, GoesOut, OwnTicket;
  }

  /** The delay before the next try: fifteen seconds, a minute, then five. */
  function Wait(attempts: nat): int { if attempts == 1 then 15 else if attempts == 2 then 60 else 300 }

  lemma DispatchedRow(w: World, picked: seq<nat>, allowed: set<nat>, reply: Reply, now: Time, k: nat)
    requires DueRows(w.rows, picked, Pending, now) && k < |picked|
    ensures var b := BatchOf(w, picked, allowed, now);
            var q := Step(w, Dispatch(picked, allowed, reply, true, now)).rows[picked[k]];
            && q.(device := None) == After(b, reply, k).(device := None)
            && (q.device == After(b, reply, k).device || q.device.None?)
  {
    var b := BatchOf(w, picked, allowed, now);
    PutAt(w.rows, picked, AllAfter(b, reply), picked[k]);
    hide Put, After, Forgotten, BatchOf;
  }

  /** A row that may not be told any more is skipped, and one a day old fails, without being sent. */
  lemma DropsExactly(w: World, picked: seq<nat>, allowed: set<nat>, reply: Reply, now: Time, k: nat)
    requires DueRows(w.rows, picked, Pending, now) && k < |picked| && !GoesOut(w, allowed, now, picked[k])
    ensures var r, q := w.rows[picked[k]], Step(w, Dispatch(picked, allowed, reply, true, now)).rows[picked[k]];
            var told := picked[k] in allowed && r.device.Some? && r.device.value in w.devices;
            && q.state == (if told then Failed else Skipped) && q.error == Some(if told then TooOld else Unregistered)
            && q.attempts == r.attempts && q.ticket == r.ticket
  {
    DispatchedRow(w, picked, allowed, reply, now, k);
    BatchGoes(w, picked, allowed, now, k);
    hide Step;
  }

  /** Without an answer, or when a ticket raises, every row sent is tried again in its delay, up to four times;
      an answer that refuses the whole batch fails them all. */
  lemma RetriesExactly(w: World, picked: seq<nat>, allowed: set<nat>, reply: Reply, now: Time, k: nat)
    requires DueRows(w.rows, picked, Pending, now) && k < |picked| && GoesOut(w, allowed, now, picked[k])
    requires w.rows[picked[k]].attempts < 4
    requires reply.Tickets? ==> !AllReadable(w, picked, allowed, reply.tickets, now)
    ensures var r, q := w.rows[picked[k]], Step(w, Dispatch(picked, allowed, reply, true, now)).rows[picked[k]];
            var permanent := reply.NoReply? && reply.permanent;
            && q.attempts == r.attempts + 1
            && q.state == (if permanent || q.attempts == 4 then Failed else Pending)
            && q.error == Some(if permanent then HttpRejected else TransportError)
            && (q.state == Pending ==> q.nextAt == now + Wait(q.attempts))
  {
    DispatchedRow(w, picked, allowed, reply, now, k);
    BatchGoes(w, picked, allowed, now, k);
    if reply.Tickets? { BatchInterrupted(w, picked, allowed, reply.tickets, now); }
    var b := BatchOf(w, picked, allowed, now);
    hide Step, GoesOut, AllReadable, FirstRaise, TicketOf;
    SettledAttempts(b, reply, k);
  }

  lemma SettledAttempts(b: Batch, reply: Reply, k: nat)
    requires Proper(b) && k < |b.rows| && Goes(b, k) && b.rows[k].attempts < 4
    requires reply.NoReply? || Interrupted(b, reply)
    ensures var r, q := b.rows[k], After(b, reply, k);
            var permanent := reply.NoReply? && reply.permanent;
            && q.attempts == r.attempts + 1
            && q.state == (if permanent || q.attempts == 4 then Failed else Pending)
            && q.error == Some(if permanent then HttpRejected else TransportError)
            && (q.state == Pending ==> q.nextAt == b.now + Wait(q.attempts))
  {
    hide FirstRaise, TicketOf, Goes;
  }

  /** When the reply can be read, the row follows its own ticket: accepted under its number exactly when it was
      taken, to be followed up in fifteen minutes; tried again exactly for an exceeded rate or an unreadable
      ticket with a try left; failed otherwise. */
  lemma DispatchedExactly(w: World, picked: seq<nat>, allowed: set<nat>, tickets: seq<Ticket>, now: Time, k: nat)
    requires DueRows(w.rows, picked, Pending, now) && k < |picked| && GoesOut(w, allowed, now, picked[k])
    requires w.rows[picked[k]].attempts < 4 && AllReadable(w, picked, allowed, tickets, now)
    ensures var r := w.rows[picked[k]];
            var q := Step(w, Dispatch(picked, allowed, Tickets(tickets), true, now)).rows[picked[k]];
            var t := OwnTicket(w, picked, allowed, tickets, now, k);
            var again := t.Unreadable? || t == Refusal(Listed(MessageRateExceeded));
            && q.attempts == r.attempts + 1
            && (q.state == Accepted <==> t.Taken?)
            && (q.state == Pending <==> again && q.attempts < 4)
            && (q.state == Failed <==> !t.Taken? && !(again && q.attempts < 4))
            && (t.Taken? ==> q.ticket == Some(t.id) && q.error.None? && q.nextAt == now + 15 * 60)
            && (q.state == Pending ==> q.nextAt == now + Wait(q.attempts))
            && (t.Unreadable? ==> q.error == Some(InvalidTicket))
            && (t.Refusal? ==> q.error == Some(if t.detail.Listed? then Provider(t.detail.code) else ProviderError))
  {
    var b := BatchOf(w, picked, allowed, now);
    DispatchedRow(w, picked, allowed, Tickets(tickets), now, k);
    BatchGoes(w, picked, allowed, now, k);
    BatchInterrupted(w, picked, allowed, tickets, now);
    BatchRaises(w, picked, allowed, tickets, now, k);
    assert OwnTicket(w, picked, allowed, tickets, now, k) != Refusal(Unhashable);
    hide Step, GoesOut, AllReadable, TicketOf, OwnTicket, Goes, BatchOf, Raises;
    assert FirstRaise(b, tickets, 0) == |b.rows|;
    hide FirstRaise;
  }

  /** A row sent was refused because its device is not registered, and no ticket before its own raises. */
  predicate RefusedDevice(w: World, picked: seq<nat>, allowed: set<nat>, tickets: seq<Ticket>, now: Time, d: nat)
    requires forall j | 0 <= j < |picked| :: picked[j] < |w.rows|
  {
    exists k :: 0 <= k < |picked| && w.rows[picked[k]].device == Some(d) && GoesOut(w, allowed, now, picked[k])
                && OwnTicket(w, picked, allowed, tickets, now, k) == Refusal(Listed(DeviceNotRegistered))
                && AllReadable(w, picked[..k], allowed, tickets, now)
  }

  lemma {:induction false} RaiseBeyond(b: Batch, tickets: seq<Ticket>, from: nat, k: nat)
    requires Proper(b) && from <= k < |b.rows|
    ensures k < FirstRaise(b, tickets, from) <==> forall j | from <= j <= k :: !Raises(b, tickets, j)
    decreases |b.rows| - from
  {
    hide Raises;
    if Raises(b, tickets, from) || from == k {
    } else {
      RaiseBeyond(b, tickets, from + 1, k);
    }
  }

  lemma AheadPrefix(w: World, picked: seq<nat>, allowed: set<nat>, tickets: seq<Ticket>, now: Time, k: nat, j: nat)
    requires j < k <= |picked| && forall i | 0 <= i < |picked| :: picked[i] < |w.rows|
    ensures OwnTicket(w, picked[..k], allowed, tickets, now, j) == OwnTicket(w, picked, allowed, tickets, now, j)
  {
    hide GoesOut;
    assert Ahead(w, picked[..k], allowed, now, j) == Ahead(w, picked, allowed, now, j);
  }

  lemma ReadablePrefix(w: World, picked: seq<nat>, allowed: set<nat>, tickets: seq<Ticket>, now: Time, k: nat)
    requires k < |picked| && forall j | 0 <= j < |picked| :: picked[j] < |w.rows|
    ensures AllReadable(w, picked[..k], allowed, tickets, now)
       <==> forall j | 0 <= j < k :: !Raises(BatchOf(w, picked, allowed, now), tickets, j)
  {
    forall j | 0 <= j < k
      ensures OwnTicket(w, picked[..k], allowed, tickets, now, j) == OwnTicket(w, picked, allowed, tickets, now, j)
      ensures Raises(BatchOf(w, picked, allowed, now), tickets, j)
         <==> GoesOut(w, allowed, now, picked[j])
              && OwnTicket(w, picked, allowed, tickets, now, j) == Refusal(Unhashable)
    {
      AheadPrefix(w, picked, allowed, tickets, now, k, j);
      BatchRaises(w, picked, allowed, tickets, now, j);
    }
    hide Raises, GoesOut, OwnTicket;
  }

  lemma UnknownIs(w: World, picked: seq<nat>, allowed: set<nat>, tickets: seq<Ticket>, now: Time, k: nat)
    requires k < |picked| && forall j | 0 <= j < |picked| :: picked[j] < |w.rows|
    ensures Unknown(BatchOf(w, picked, allowed, now), Tickets(tickets), k)
       <==> GoesOut(w, allowed, now, picked[k])
            && OwnTicket(w, picked, allowed, tickets, now, k) == Refusal(Listed(DeviceNotRegistered))
            && AllReadable(w, picked[..k], allowed, tickets, now)
  {
    hide Raises, GoesOut, OwnTicket, FirstRaise, TicketOf, Goes, AllReadable;
    var b := BatchOf(w, picked, allowed, now);
    BatchRaises(w, picked, allowed, tickets, now, k);
    ReadablePrefix(w, picked, allowed, tickets, now, k);
    RaiseBeyond(b, tickets, 0, k);
    BatchGoes(w, picked, allowed, now, k);
  }

  /** The devices a batch forgets are exactly those refused as no longer registered, before any ticket raises. */
  lemma DispatchForgets(w: World, picked: seq<nat>, allowed: set<nat>, reply: Reply, now: Time, d: nat)
    requires DueRows(w.rows, picked, Pending, now)
    ensures var q := Step(w, Dispatch(picked, allowed, reply, true, now));
            d in q.devices <==> d in w.devices
                                && !(reply.Tickets? && RefusedDevice(w, picked, allowed, reply.tickets, now, d))
  {
    var b := BatchOf(w, picked, allowed, now);
    if reply.Tickets? {
      forall k | 0 <= k < |picked|
        ensures b.rows[k] == w.rows[picked[k]]
        ensures Unknown(b, reply, k)
           <==> GoesOut(w, allowed, now, picked[k])
                && OwnTicket(w, picked, allowed, reply.tickets, now, k) == Refusal(Listed(DeviceNotRegistered))
                && AllReadable(w, picked[..k], allowed, reply.tickets, now)
      {
        UnknownIs(w, picked, allowed, reply.tickets, now, k);
      }
      hide Unknown, GoesOut, OwnTicket, AllReadable;
      ForgottenIs(b, reply, d);
      assert |b.rows| == |picked|;
      hide BatchOf;
      assert d in Forgotten(b, reply) <==> RefusedDevice(w, picked, allowed, reply.tickets, now, d);
    } else {
      hide GoesOut, BatchOf;
      ForgottenIs(b, reply, d);
    }
    hide Put, AllAfter, RefusedDevice, Forgotten;
  }

  lemma ForgottenIs(b: Batch, reply: Reply, d: nat)
    requires Proper(b)
    ensures d in Forgotten(b, reply)
       <==> exists k :: 0 <= k < |b.rows| && b.rows[k].device == Some(d) && Unknown(b, reply, k)
  {
    hide Goes, FirstRaise, TicketOf;
    if k :| 0 <= k < |b.rows| && b.rows[k].device == Some(d) && Unknown(b, reply, k) {
      assert b.rows[k].device.value in Forgotten(b, reply);
    }
    if d in Forgotten(b, reply) {
      var k :| 0 <= k < |b.rows| && b.rows[k].device.Some? && Unknown(b, reply, k) && b.rows[k].device.value == d;
      assert b.rows[k].device == Some(d);
    }
  }

  /** Rows that were not picked keep everything but a device that is forgotten. */
  lemma OthersStay(w: World, picked: seq<nat>, allowed: set<nat>, reply: Reply, survives: bool, now: Time, id: nat)
    requires DueRows(w.rows, picked, Pending, now) && id < |w.rows| && (id !in picked || !survives)
    ensures var q := Step(w, Dispatch(picked, allowed, reply, survives, now)).rows;
            && |q| == |w.rows| && q[id].(device := None) == w.rows[id].(device := None)
            && (q[id].device == w.rows[id].device || q[id].device.None?)
  {
    if survives {
      PutAt(w.rows, picked, AllAfter(BatchOf(w, picked, allowed, now), reply), id);
    }
    hide Put, AllAfter, Forgotten, BatchOf;
  }
}
