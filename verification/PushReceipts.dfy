/** When an accepted row of the push queue ends. A receipt whose detail is a list or an object makes its
    collection raise before the commit, so the rows picked with it stay as they were, and due. */
module PushReceipts {
  import opened Wrappers
  import opened PushQueue
  import opened PushRuns

  /** Nothing is known of the row yet, and it is less than twenty-three hours old. */
  predicate StillWaits(r: Row, data: map<string, Receipt>, now: Time) {
    ReceiptOf(r, data) == Missing && now - r.createdAt < 23 * 3600
  }

  lemma CollectedRow(w: World, picked: seq<nat>, data: map<string, Receipt>, now: Time, k: nat)
    requires DueRows(w.rows, picked, Accepted, now) && k < |picked| && !Spoilt(Rows(w.rows, picked), data)
    ensures var r, q := w.rows[picked[k]], Step(w, Collect(picked, data, now)).rows[picked[k]];
            q.state == Acknowledged(r, ReceiptOf(r, data), now).state
  {
    var rows := Rows(w.rows, picked);
    var values := AllAcknowledged(rows, data, now);
    assert picked[k] < |w.rows|;
    PutAt(w.rows, picked, values, picked[k]);
    hide Put, Acknowledged, Spoilt;
  }

  lemma CollectMoves(w: World, picked: seq<nat>, data: map<string, Receipt>, now: Time)
    requires DueRows(w.rows, picked, Accepted, now)
    ensures |Step(w, Collect(picked, data, now)).rows| == |w.rows|
    ensures Spoilt(Rows(w.rows, picked), data) ==> Step(w, Collect(picked, data, now)) == w
  {
    hide AllAcknowledged;
  }

  /** A collection ends the row it picks, or sends it again, exactly when none of the receipts picked with it
      raises, and it has a receipt or is twenty-three hours old. */
  lemma EndsExactly(w: World, picked: seq<nat>, data: map<string, Receipt>, now: Time, k: nat)
    requires DueRows(w.rows, picked, Accepted, now) && k < |picked|
    ensures var q := Step(w, Collect(picked, data, now));
            picked[k] < |q.rows|
            && (q.rows[picked[k]].state != Accepted <==>
                  !Spoilt(Rows(w.rows, picked), data) && !StillWaits(w.rows[picked[k]], data, now))
  {
    CollectMoves(w, picked, data, now);
    if !Spoilt(Rows(w.rows, picked), data) {
      CollectedRow(w, picked, data, now, k);
    }
    hide Step, Spoilt, Rows;
  }

  // ---- What a collection leaves ----

  /** The device was refused as no longer registered by a receipt of the collection. */
  predicate RefusedDevice(rows: seq<Row>, data: map<string, Receipt>, d: nat) {
    exists k :: 0 <= k < |rows| && rows[k].device == Some(d)
                && rows[k].ticket.Some? && rows[k].ticket.value in data
                && data[rows[k].ticket.value] == Refused(Listed(DeviceNotRegistered))
  }

  lemma CollectedRows(w: World, picked: seq<nat>, data: map<string, Receipt>, now: Time, k: nat)
    requires DueRows(w.rows, picked, Accepted, now) && k < |picked| && !Spoilt(Rows(w.rows, picked), data)
    ensures var r, q := w.rows[picked[k]], Step(w, Collect(picked, data, now)).rows[picked[k]];
            q.(device := None) == Acknowledged(r, ReceiptOf(r, data), now).(device := None)
            && Acknowledged(r, ReceiptOf(r, data), now).device == r.device
            && q.device == if r.device.Some? && r.device.value in GoneByReceipt(Rows(w.rows, picked), data)
                           then None else r.device
  {
    var rows := Rows(w.rows, picked);
    PutAt(w.rows, picked, AllAcknowledged(rows, data, now), picked[k]);
    AcknowledgedKeeps(w.rows[picked[k]], ReceiptOf(w.rows[picked[k]], data), now);
    hide Put, Acknowledged, Spoilt, GoneByReceipt;
  }

  lemma AcknowledgedKeeps(r: Row, receipt: Receipt, now: Time)
    ensures Acknowledged(r, receipt, now).device == r.device
  {
  }

  /** A row of a collection that does not raise: accepted by the provider without error exactly on an ok
      receipt; lost exactly without receipt from twenty-three hours on; failed exactly when refused for
      anything but an exceeded rate with a try left; sent again exactly for that one, at once due in its delay;
      else still accepted, due in five minutes. */
  lemma CollectedExactly(w: World, picked: seq<nat>, data: map<string, Receipt>, now: Time, k: nat)
    requires DueRows(w.rows, picked, Accepted, now) && k < |picked| && !Spoilt(Rows(w.rows, picked), data)
    requires RowInv(w.rows[picked[k]])
    ensures var r, q := w.rows[picked[k]], Step(w, Collect(picked, data, now)).rows[picked[k]];
            var known := r.ticket.value in data;
            var refused := known && data[r.ticket.value].Refused?;
            var tried := refused && data[r.ticket.value].detail == Listed(MessageRateExceeded) && r.attempts < 4;
            var late := now - r.createdAt >= 23 * 3600;
            && (q.state == ProviderAccepted <==> known && data[r.ticket.value] == Received)
            && (q.state == Lost <==> (!known || data[r.ticket.value] == Missing) && late)
            && (q.state == Failed <==> refused && !tried)
            && (q.state == Pending <==> tried)
            && (q.state == Accepted <==> (!known || data[r.ticket.value] == Missing) && !late)
            && (q.state == ProviderAccepted ==> q.error.None?)
            && (q.state == Accepted ==> q.nextAt == now + 300)
            && (q.state == Lost ==> q.error == Some(ReceiptUnavailable))
            && (tried ==> q.nextAt == now + if r.attempts == 1 then 15 else if r.attempts == 2 then 60 else 300)
            && (refused ==> q.error == Some(if data[r.ticket.value].detail.Listed?
                                            then Provider(data[r.ticket.value].detail.code) else ProviderError))
            && q.attempts == r.attempts && q.ticket == r.ticket && q.createdAt == r.createdAt
            && q.notification == r.notification
  {
    CollectedRows(w, picked, data, now, k);
    hide Step, Rows, GoneByReceipt, Spoilt;
  }

  /** The devices forgotten are exactly those refused as no longer registered, and their rows lose them; rows
      that were not picked keep everything else. */
  lemma CollectForgets(w: World, picked: seq<nat>, data: map<string, Receipt>, now: Time, id: nat)
    requires DueRows(w.rows, picked, Accepted, now) && !Spoilt(Rows(w.rows, picked), data) && id < |w.rows|
    ensures var q, rows := Step(w, Collect(picked, data, now)), Rows(w.rows, picked);
            && (forall d :: d in q.devices <==> d in w.devices && !RefusedDevice(rows, data, d))
            && |q.rows| == |w.rows|
            && q.rows[id].device == (if w.rows[id].device.Some? && RefusedDevice(rows, data, w.rows[id].device.value)
                                     then None else w.rows[id].device)
            && (id !in picked ==> q.rows[id] == w.rows[id].(device := q.rows[id].device))
  {
    var rows := Rows(w.rows, picked);
    var values := AllAcknowledged(rows, data, now);
    PutAt(w.rows, picked, values, id);
    forall d ensures d in GoneByReceipt(rows, data) <==> RefusedDevice(rows, data, d) {
      GoneIs(rows, data, d);
    }
    if id in picked {
      var k :| 0 <= k < |picked| && picked[k] == id;
      CollectedRows(w, picked, data, now, k);
    }
    hide Put, Acknowledged, Spoilt, GoneByReceipt, RefusedDevice, Rows;
  }

  lemma GoneIs(rows: seq<Row>, data: map<string, Receipt>, d: nat)
    ensures d in GoneByReceipt(rows, data) <==> RefusedDevice(rows, data, d)
  {
    if d in GoneByReceipt(rows, data) {
      var k :| 0 <= k < |rows| && rows[k].device.Some? && rows[k].device.value == d
               && ReceiptOf(rows[k], data) == Refused(Listed(DeviceNotRegistered));
      assert rows[k].device == Some(d);
    }
    if RefusedDevice(rows, data, d) {
      var k :| 0 <= k < |rows| && rows[k].device == Some(d)
               && rows[k].ticket.Some? && rows[k].ticket.value in data
               && data[rows[k].ticket.value] == Refused(Listed(DeviceNotRegistered));
      assert ReceiptOf(rows[k], data) == Refused(Listed(DeviceNotRegistered));
      assert rows[k].device.value in GoneByReceipt(rows, data);
    }
  }

  // ---- A row that never ends ----

  const GRANTED: Event := Dispatch([0], {0}, Tickets([Taken("t")]), true, 0)
  const HANDED := Step(ONCE_QUEUED, GRANTED)
  const UNREADABLE: map<string, Receipt> := map["t" := Refused(Unhashable)]

  lemma Handed()
    ensures |HANDED.rows| == 1 && HANDED.rows[0].state == Accepted && HANDED.rows[0].ticket == Some("t")
    ensures HANDED.rows[0].createdAt == 0 && HANDED.rows[0].nextAt == 15 * MINUTE
  {
    Queuing();
    hide ONCE_QUEUED;
    var w := ONCE_QUEUED;
    var b := BatchOf(w, [0], {0}, 0);
    assert Goes(b, 0) && Place(b, 0) == 0;
    assert TicketOf(b, [Taken("t")], 0) == Taken("t");
    assert !Raises(b, [Taken("t")], 0) && FirstRaise(b, [Taken("t")], 0) == 1;
    assert After(b, Tickets([Taken("t")]), 0).state == Accepted;
    PutAt(w.rows, [0], AllAfter(b, Tickets([Taken("t")])), 0);
  }

  /** Collections of the row, one a minute from the second day on. */
  function Attempts(n: nat): seq<Event> {
    if n == 0 then [] else Attempts(n - 1) + [Collect([0], UNREADABLE, LIFE + n * MINUTE)]
  }

  lemma AttemptFails(now: Time)
    ensures Step(HANDED, Collect([0], UNREADABLE, now)) == HANDED
  {
    Handed();
    hide HANDED, Step;
    if DueRows(HANDED.rows, [0], Accepted, now) {
      assert ReceiptOf(Rows(HANDED.rows, [0])[0], UNREADABLE) == Refused(Unhashable);
      CollectMoves(HANDED, [0], UNREADABLE, now);
    } else {
      NotDue(HANDED, [0], UNREADABLE, now);
    }
  }

  lemma NotDue(w: World, picked: seq<nat>, data: map<string, Receipt>, now: Time)
    requires !DueRows(w.rows, picked, Accepted, now)
    ensures Step(w, Collect(picked, data, now)) == w
  {
  }

  lemma {:induction false} AttemptsFail(n: nat)
    ensures Run(HANDED, Attempts(n)) == HANDED && |Attempts(n)| == n
  {
    hide HANDED, Step;
    if n == 0 {
    } else {
      AttemptsFail(n - 1);
      RunThen(HANDED, Attempts(n - 1), Collect([0], UNREADABLE, LIFE + n * MINUTE));
      AttemptFails(LIFE + n * MINUTE);
    }
  }

  /** However many times its receipt is collected, and however old it is, the row stays accepted and due. */
  lemma NeverEnds(n: nat)
    ensures var w := Run(EMPTY, [Enqueue(0, [0], 0), GRANTED] + Attempts(n));
            && |w.rows| == 1 && w.rows[0].state == Accepted && w.rows[0].nextAt <= LIFE + n * MINUTE
            && LIFE + n * MINUTE - w.rows[0].createdAt >= RECEIPT_LIFE
  {
    Handed();
    AttemptsFail(n);
    hide Step, Attempts;
    var es := Attempts(n);
    var first := Enqueue(0, [0], 0);
    assert ([first, GRANTED] + es)[1..] == [GRANTED] + es && ([GRANTED] + es)[1..] == es;
  }
}
