/** The push queue (recruitment_push_worker.py): rows reserved in batches, sent to a provider that offers no
    idempotence, followed by receipts. A batch is one transaction, with its network call inside. */
module PushQueue {
  import opened Wrappers

  const MAX_ATTEMPTS := 4
  const RETRY_SECONDS: seq<int> := [15, 60, 300]
  const MINUTE := 60
  const HOUR := 3600
  const LIFE := 24 * HOUR
  const RECEIPT_LIFE := 23 * HOUR

  type Time = int

  datatype State = Pending | Accepted | ProviderAccepted | Failed | Skipped | Lost

  /** The provider's documented codes. */
  datatype ProviderCode =
    DeviceNotRegistered | MessageTooBig | MessageRateExceeded | MismatchSenderId | InvalidCredentials

  datatype Code =
    | Provider(code: ProviderCode) | ProviderError | InvalidTicket | TransportError | HttpRejected | TooOld
    | Unregistered | ReceiptUnavailable

  datatype Row = Row(
    notification: nat, device: Option<nat>, createdAt: Time, state: State, attempts: nat, nextAt: Time,
    ticket: Option<string>, error: Option<Code>)

  /** The detail of an error: a documented word, anything else, or a JSON list or object, on which the
      membership test raises. */
  datatype Detail = Listed(code: ProviderCode) | Unlisted | Unhashable

  datatype Ticket = Taken(id: string) | Refusal(detail: Detail) | Unreadable

  datatype Receipt = Received | Refused(detail: Detail) | Missing

  /** What the network call brings back. */
  datatype Reply = NoReply(permanent: bool) | Tickets(tickets: seq<Ticket>)

  // ---- One row ----

  /** The entry for the number of attempts, the last one beyond; index -1 also names the last one. */
  function RetryDelay(attempts: nat): int {
    if attempts == 0 || attempts > |RETRY_SECONDS| then RETRY_SECONDS[|RETRY_SECONDS| - 1]
    else RETRY_SECONDS[attempts - 1]
  }

  function Retried(r: Row, code: Code, now: Time): Row {
    if r.attempts >= MAX_ATTEMPTS then r.(error := Some(code), state := Failed)
    else r.(error := Some(code), state := Pending, nextAt := now + RetryDelay(r.attempts))
  }

  function CodeOf(detail: Detail): Code {
    if detail.Listed? then Provider(detail.code) else ProviderError
  }

  function Rejected(r: Row, detail: Detail, now: Time): Row {
    if detail == Listed(MessageRateExceeded) then Retried(r, CodeOf(detail), now)
    else r.(state := Failed, error := Some(CodeOf(detail)))
  }

  function Settled(r: Row, t: Ticket, now: Time): Row {
    match t
    case Taken(id) => r.(state := Accepted, ticket := Some(id), error := None, nextAt := now + 15 * MINUTE)
    case Refusal(detail) => Rejected(r, detail, now)
    case Unreadable => Retried(r, InvalidTicket, now)
  }

  // ---- A batch ----

  /** The rows reserved, and for each whether its device may still be told. */
  datatype Batch = Batch(rows: seq<Row>, allowed: seq<bool>, now: Time)

  predicate Proper(b: Batch) { |b.allowed| == |b.rows| }

  predicate Goes(b: Batch, k: nat)
    requires Proper(b) && k < |b.rows|
  {
    b.allowed[k] && b.now - b.rows[k].createdAt < LIFE
  }

  /** The place of row `k` in what is sent. */
  function Place(b: Batch, k: nat): nat
    requires Proper(b) && k <= |b.rows|
  {
    if k == 0 then 0 else Place(b, k - 1) + if Goes(b, k - 1) then 1 else 0
  }

  function Counted(r: Row): Row { r.(attempts := r.attempts + 1) }

  function DroppedRow(r: Row, allowed: bool): Row {
    if !allowed then r.(state := Skipped, error := Some(Unregistered)) else r.(state := Failed, error := Some(TooOld))
  }

  function Dropped(b: Batch, k: nat): Row
    requires Proper(b) && k < |b.rows|
  {
    DroppedRow(b.rows[k], b.allowed[k])
  }

  function TicketOf(b: Batch, tickets: seq<Ticket>, k: nat): Ticket
    requires Proper(b) && k < |b.rows|
  {
    if Place(b, k) < |tickets| then tickets[Place(b, k)] else Unreadable
  }

  predicate Raises(b: Batch, tickets: seq<Ticket>, k: nat)
    requires Proper(b) && k < |b.rows|
  {
    Goes(b, k) && TicketOf(b, tickets, k) == Refusal(Unhashable)
  }

  /** The first row from `k` on whose ticket raises, or the number of rows. */
  function FirstRaise(b: Batch, tickets: seq<Ticket>, k: nat): (n: nat)
    requires Proper(b) && k <= |b.rows|
    ensures k <= n <= |b.rows|
    decreases |b.rows| - k
  {
    if k == |b.rows| || Raises(b, tickets, k) then k else FirstRaise(b, tickets, k + 1)
  }

  predicate Interrupted(b: Batch, reply: Reply)
    requires Proper(b)
  {
    reply.Tickets? && FirstRaise(b, reply.tickets, 0) < |b.rows|
  }

  /** Row `k` after the batch. After an interruption every row sent is tried again, settled or not. */
  function After(b: Batch, reply: Reply, k: nat): Row
    requires Proper(b) && k < |b.rows|
  {
    if !Goes(b, k) then Dropped(b, k)
    else if reply.NoReply? then
      if reply.permanent then Counted(b.rows[k]).(state := Failed, error := Some(HttpRejected))
      else Retried(Counted(b.rows[k]), TransportError, b.now)
    else
      var raise := FirstRaise(b, reply.tickets, 0);
      var settled := if k < raise then Settled(Counted(b.rows[k]), TicketOf(b, reply.tickets, k), b.now)
                     else Counted(b.rows[k]);
      if raise < |b.rows| then Retried(settled, TransportError, b.now) else settled
  }

  function AllAfter(b: Batch, reply: Reply): seq<Row>
    requires Proper(b)
  {
    seq(|b.rows|, k requires 0 <= k < |b.rows| => After(b, reply, k))
  }

  /** The tickets taken among the first `k` rows. */
  function TakenBefore(b: Batch, tickets: seq<Ticket>, k: nat): nat
    requires Proper(b) && k <= |b.rows|
  {
    if k == 0 then 0
    else TakenBefore(b, tickets, k - 1) + if Goes(b, k - 1) && TicketOf(b, tickets, k - 1).Taken? then 1 else 0
  }

  /** What the batch reports: the tickets taken before the first that raises. */
  function Report(b: Batch, reply: Reply): nat
    requires Proper(b)
  {
    if reply.NoReply? then 0 else TakenBefore(b, reply.tickets, FirstRaise(b, reply.tickets, 0))
  }

  function CountAccepted(rows: seq<Row>): nat {
    if rows == [] then 0
    else CountAccepted(rows[..|rows| - 1]) + if rows[|rows| - 1].state == Accepted then 1 else 0
  }

  /** Devices the provider no longer knows. */
  predicate Unknown(b: Batch, reply: Reply, k: nat)
    requires Proper(b) && k < |b.rows|
  {
    && reply.Tickets? && Goes(b, k) && k < FirstRaise(b, reply.tickets, 0)
    && TicketOf(b, reply.tickets, k) == Refusal(Listed(DeviceNotRegistered))
  }

  function Forgotten(b: Batch, reply: Reply): set<nat>
    requires Proper(b)
  {
    set k | 0 <= k < |b.rows| && b.rows[k].device.Some? && Unknown(b, reply, k) :: b.rows[k].device.value
  }

  // ---- Receipts ----

  function ReceiptOf(r: Row, data: map<string, Receipt>): Receipt {
    if r.ticket.Some? && r.ticket.value in data then data[r.ticket.value] else Missing
  }

  function Acknowledged(r: Row, receipt: Receipt, now: Time): Row {
    match receipt
    case Received => r.(state := ProviderAccepted, error := None)
    case Refused(detail) => Rejected(r, detail, now)
    case Missing =>
      if now - r.createdAt >= RECEIPT_LIFE then r.(state := Lost, error := Some(ReceiptUnavailable))
      else r.(nextAt := now + 5 * MINUTE)
  }

  /** One receipt that raises loses the whole collection: nothing is committed. */
  predicate Spoilt(rows: seq<Row>, data: map<string, Receipt>) {
    exists k :: 0 <= k < |rows| && ReceiptOf(rows[k], data) == Refused(Unhashable)
  }

  function AllAcknowledged(rows: seq<Row>, data: map<string, Receipt>, now: Time): seq<Row> {
    seq(|rows|, k requires 0 <= k < |rows| => Acknowledged(rows[k], ReceiptOf(rows[k], data), now))
  }

  function GoneByReceipt(rows: seq<Row>, data: map<string, Receipt>): set<nat> {
    set k | 0 <= k < |rows| && rows[k].device.Some? && ReceiptOf(rows[k], data) == Refused(Listed(DeviceNotRegistered))
      :: rows[k].device.value
  }

  // ---- Enqueueing ----

  predicate Queued(rows: seq<Row>, notification: nat, device: nat) {
    exists k :: 0 <= k < |rows| && rows[k].notification == notification && rows[k].device == Some(device)
  }

  function NewRow(notification: nat, device: nat, now: Time): Row {
    Row(notification, Some(device), now, Pending, 0, now, None, None)
  }

  /** One row per notification and device. */
  function Enqueued(rows: seq<Row>, notification: nat, targets: seq<nat>, now: Time): seq<Row> {
    if targets == [] then rows
    else
      var before := Enqueued(rows, notification, targets[..|targets| - 1], now);
      var device := targets[|targets| - 1];
      if Queued(before, notification, device) then before else before + [NewRow(notification, device, now)]
  }

  // ---- The report ----

  /** Nothing was taken before the first ticket that raises. */
  predicate NothingTakenFirst(b: Batch, tickets: seq<Ticket>)
    requires Proper(b)
  {
    forall k | 0 <= k < FirstRaise(b, tickets, 0) :: Goes(b, k) ==> !TicketOf(b, tickets, k).Taken?
  }

  predicate Waiting(b: Batch) { forall k | 0 <= k < |b.rows| :: b.rows[k].state == Pending }

  lemma AfterAccepted(b: Batch, reply: Reply, k: nat)
    requires Proper(b) && Waiting(b) && k < |b.rows|
    ensures After(b, reply, k).state == Accepted <==>
              && !Interrupted(b, reply) && reply.Tickets? && Goes(b, k) && TicketOf(b, reply.tickets, k).Taken?
  {
    hide Place, FirstRaise;
  }

  lemma {:induction false} TakenAreAccepted(b: Batch, reply: Reply, k: nat)
    requires Proper(b) && Waiting(b) && k <= |b.rows| && reply.Tickets? && !Interrupted(b, reply)
    ensures CountAccepted(AllAfter(b, reply)[..k]) == TakenBefore(b, reply.tickets, k)
  {
    if k == 0 {
    } else {
      TakenAreAccepted(b, reply, k - 1);
      AfterAccepted(b, reply, k - 1);
      assert AllAfter(b, reply)[..k][..k - 1] == AllAfter(b, reply)[..k - 1];
    }
  }

  lemma {:induction false} NoneAccepted(rows: seq<Row>)
    requires forall k | 0 <= k < |rows| :: rows[k].state != Accepted
    ensures CountAccepted(rows) == 0
  {
    if rows == [] {
    } else {
      NoneAccepted(rows[..|rows| - 1]);
    }
  }

  lemma {:induction false} NothingTaken(b: Batch, tickets: seq<Ticket>, k: nat)
    requires Proper(b) && k <= |b.rows|
    ensures TakenBefore(b, tickets, k) == 0
       <==> forall j | 0 <= j < k :: Goes(b, j) ==> !TicketOf(b, tickets, j).Taken?
  {
    if k == 0 {
    } else {
      NothingTaken(b, tickets, k - 1);
    }
  }

  /** The number returned is the number of rows moved to accepted, except when a ticket raises after
      another one was taken: those are tried again but stay in the number. */
  lemma ReportIsExact(b: Batch, reply: Reply)
    requires Proper(b) && Waiting(b)
    ensures Report(b, reply) == CountAccepted(AllAfter(b, reply))
       <==> (Interrupted(b, reply) ==> NothingTakenFirst(b, reply.tickets))
  {
    var after := AllAfter(b, reply);
    assert after[..|b.rows|] == after;
    if reply.NoReply? || Interrupted(b, reply) {
      forall k | 0 <= k < |after| ensures after[k].state != Accepted { AfterAccepted(b, reply, k); }
      NoneAccepted(after);
      if reply.Tickets? { NothingTaken(b, reply.tickets, FirstRaise(b, reply.tickets, 0)); }
    } else {
      TakenAreAccepted(b, reply, |b.rows|);
    }
  }

  /** Two rows, the first taken, the second refused with an unreadable detail: one reported, none accepted. */
  lemma ReportTooMany()
    ensures exists b: Batch, reply :: Proper(b) && Waiting(b) && Report(b, reply) == 1
                                      && CountAccepted(AllAfter(b, reply)) == 0
  {
    var r := Row(0, Some(0), 0, Pending, 0, 0, None, None);
    var b := Batch([r, r.(device := Some(1))], [true, true], 0);
    var tickets := [Taken("t"), Refusal(Unhashable)];
    assert Place(b, 1) == 1 && Goes(b, 0) && Goes(b, 1);
    assert TicketOf(b, tickets, 0) == Taken("t");
    assert Raises(b, tickets, 1) && FirstRaise(b, tickets, 0) == 1;
    assert TakenBefore(b, tickets, 1) == 1;
    forall k | 0 <= k < 2 ensures AllAfter(b, Tickets(tickets))[k].state != Accepted {
      AfterAccepted(b, Tickets(tickets), k);
    }
    NoneAccepted(AllAfter(b, Tickets(tickets)));
    assert Proper(b) && Waiting(b) && Report(b, Tickets(tickets)) == 1;
  }

  // ---- Places ----

  lemma {:induction false} PlaceGrows(b: Batch, i: nat, k: nat)
    requires Proper(b) && i <= k <= |b.rows|
    ensures Place(b, i) <= Place(b, k)
    ensures i < k && Goes(b, i) ==> Place(b, i) < Place(b, k)
    decreases k
  {
    if i == k {
    } else {
      PlaceGrows(b, i, k - 1);
    }
  }

  lemma {:induction false} RaisesFirst(b: Batch, tickets: seq<Ticket>, k: nat, first: nat)
    requires Proper(b) && k <= first <= |b.rows|
    requires forall i | k <= i < first :: !Raises(b, tickets, i)
    requires first < |b.rows| ==> Raises(b, tickets, first)
    ensures FirstRaise(b, tickets, k) == first
    decreases first - k
  {
    if k == first {
    } else {
      RaisesFirst(b, tickets, k + 1, first);
    }
  }

  lemma {:induction false} TakenSkips(b: Batch, tickets: seq<Ticket>, i: nat, k: nat)
    requires Proper(b) && i <= k <= |b.rows|
    requires forall j | i <= j < k :: !Goes(b, j)
    ensures TakenBefore(b, tickets, k) == TakenBefore(b, tickets, i)
    decreases k
  {
    if i == k {
    } else {
      TakenSkips(b, tickets, i, k - 1);
    }
  }
}
