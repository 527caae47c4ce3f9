/** Leases and retries of the SMS queue: when a live reservation is taken again, and how far apart the
    tries of one challenge are. A worker whose lease lapsed still records its answer. */
module SmsLeases {
  import opened Wrappers
  import opened Splitting
  import opened SmsModel
  import opened SmsWorld
  import opened SmsDelivery

  /** Reservations read no clock past `now`. */
  predicate ReservesBy(e: Event, now: Time) {
    match e
    case Carrier(ReserveEvent(_, clock)) => clock <= now
    case _ => true
  }

  // ---- What is recorded while the challenge is in flight ----

  /** The step records a failed call on the row while it is still sending; the result is the clock the
      recording worker read when it started. */
  ghost function RetryAt(w: World, e: Event, id: Id): Option<Time> {
    match e
    case Carrier(RecordEvent(job)) =>
      if && job.id == id && id in w.db.challenges && w.db.challenges[id].delivery == Sending
         && job in w.jobs && w.jobs[job].Answered? && w.jobs[job].reply.Retry?
      then Some(w.jobs[job].at) else None
    case _ => None
  }

  /** The first failed call recorded in the run. */
  ghost function RetryRecorded(w: World, es: seq<Event>, id: Id): Option<Time>
    decreases |es|
  {
    if es == [] then None
    else if RetryAt(w, es[0], id).Some? then RetryAt(w, es[0], id)
    else RetryRecorded(Step(w, es[0]), es[1..], id)
  }

  /** A row reserved until `lease` for the n-th time and not reserved since: still sending, back in the
      queue by a recorded failure, or settled. */
  ghost predicate Held(r: Challenge, retry: Option<Time>, n: nat, lease: Time, now: Time) {
    && r.sendAttempts == n
    && (|| (r.delivery == Sending && r.leaseUntil == lease && retry.None?)
        || (r.delivery == Queued && retry.Some? && n < MAX_SEND_ATTEMPTS
            && r.nextAttemptAt == retry.value + RetryDelay(n))
        || (!Unsent(r.delivery) && (retry.Some? ==> n >= MAX_SEND_ATTEMPTS || r.expiresAt <= now + MIN_REMAINING)))
  }

  ghost predicate HeldIn(w: World, id: Id, retry: Option<Time>, n: nat, lease: Time, now: Time) {
    id in w.db.challenges ==> Held(w.db.challenges[id], retry, n, lease, now)
  }

  function Earlier(a: Option<Time>, b: Option<Time>): Option<Time> { if a.Some? then a else b }

  lemma HeldReserve(r: Challenge, picked: bool, clock: Time, retry: Option<Time>, n: nat, lease: Time, now: Time)
    requires Held(r, retry, n, lease, now) && clock <= now <= lease
    requires ReserveRow(r, picked, clock).sendAttempts == n
    ensures Held(ReserveRow(r, picked, clock), retry, n, lease, now)
  {
  }

  lemma HeldRecord(r: Challenge, reply: Reply, at: Time, retry: Option<Time>, n: nat, lease: Time, now: Time)
    requires Held(r, retry, n, lease, now)
    ensures var recorded := if r.delivery == Sending && reply.Retry? then Some(at) else None;
            Held(Record(r, reply, at), Earlier(retry, recorded), n, lease, now)
  {
  }

  lemma HeldApply(r: Challenge, report: Report, error: string, clock: Time, retry: Option<Time>, n: nat, lease: Time,
                  now: Time)
    requires Held(r, retry, n, lease, now)
    ensures Held(Apply(r, report, error, clock), retry, n, lease, now)
  {
  }

  lemma HeldMail(r: Challenge, q: Challenge, retry: Option<Time>, n: nat, lease: Time, now: Time)
    requires Held(r, retry, n, lease, now) && MailKept(r, q)
    ensures Held(q, retry, n, lease, now)
  {
  }

  lemma HeldCarrier(w: World, e: DeliveryEvent, id: Id, retry: Option<Time>, n: nat, lease: Time, now: Time)
    requires id in w.db.challenges && Held(w.db.challenges[id], retry, n, lease, now)
    requires ReservesBy(Carrier(e), now) && now <= lease
    requires CarrierStep(w, e).db.challenges[id].sendAttempts == n
    ensures Held(CarrierStep(w, e).db.challenges[id], Earlier(retry, RetryAt(w, Carrier(e), id)), n, lease, now)
  {
    hide Held, ReserveRow, Record, Apply, Eligible, Sweep;
    var r := w.db.challenges[id];
    match e {
      case ReserveEvent(picked, clock) => HeldReserve(r, id in picked, clock, retry, n, lease, now);
      case RecordEvent(job) =>
        if job in w.jobs && w.jobs[job].Answered? {
          HeldRecord(r, w.jobs[job].reply, w.jobs[job].at, retry, n, lease, now);
        }
      case ReportEvent(_, report, error, clock) => HeldApply(r, report, error, clock, retry, n, lease, now);
      case TrackEvent(_, _) => TrackHolds(r, CarrierStep(w, e).db.challenges[id], retry, n, lease, now);
      case _ =>
    }
  }

  lemma HeldStep(w: World, e: Event, id: Id, retry: Option<Time>, n: nat, lease: Time, now: Time)
    requires DeliveryInv(w) && Sound(w, e) && id in w.history.issued
    requires HeldIn(w, id, retry, n, lease, now) && ReservesBy(e, now) && now <= lease
    requires id in Step(w, e).db.challenges ==> Step(w, e).db.challenges[id].sendAttempts == n
    ensures HeldIn(Step(w, e), id, Earlier(retry, RetryAt(w, e, id)), n, lease, now)
  {
    StepFollows(w, e, id);
    hide RowInv, Held, CarrierStep, CandidateStep, CandidateHistory, MailKept, Moves, ReservesBy, Sound;
    if id in w.db.challenges && id in Step(w, e).db.challenges {
      match e {
        case Carrier(d) => HeldCarrier(w, d, id, retry, n, lease, now);
        case Candidate(c) =>
          CandidateRow(w, c, id);
          HeldMail(w.db.challenges[id], Step(w, e).db.challenges[id], retry, n, lease, now);
      }
    }
  }

  lemma TrackHolds(r: Challenge, q: Challenge, retry: Option<Time>, n: nat, lease: Time, now: Time)
    requires Held(r, retry, n, lease, now) && q == r.(statusCheckedAt := q.statusCheckedAt)
    ensures Held(q, retry, n, lease, now)
  {
  }

  lemma {:induction false} HeldRun(w: World, es: seq<Event>, id: Id, retry: Option<Time>, n: nat, lease: Time,
                                   now: Time)
    requires DeliveryInv(w) && SoundRun(w, es) && id in w.history.issued
    requires HeldIn(w, id, retry, n, lease, now) && now <= lease
    requires forall k :: 0 <= k < |es| ==> ReservesBy(es[k], now)
    requires id in Run(w, es).db.challenges ==> Run(w, es).db.challenges[id].sendAttempts == n
    ensures HeldIn(Run(w, es), id, Earlier(retry, RetryRecorded(w, es, id)), n, lease, now)
    decreases |es|
  {
    if es == [] {
    } else {
      var w' := Step(w, es[0]);
      hide RowInv, Held, Step, RetryAt, Moves;
      StepKeeps(w, es[0]);
      StepFollows(w, es[0], id);
      RunFollows(w', es[1..], id);
      RunFollows(w, es, id);
      if id in Run(w, es).db.challenges {
        HeldStep(w, es[0], id, retry, n, lease, now);
        HeldRun(w', es[1..], id, Earlier(retry, RetryAt(w, es[0], id)), n, lease, now);
      }
    }
  }

  /** A reservation whose lease still runs is taken again exactly when a failed call was recorded for it
      with tries left, its delay counted from the start of the recording worker has passed, and the
      code still waits with more than fifteen seconds to live. */
  lemma TakenAgainExactly(w: World, es: seq<Event>, id: Id, picked: set<Id>, now: Time)
    requires DeliveryInv(w) && SoundRun(w, es)
    requires id in w.db.challenges && w.db.challenges[id].delivery == Sending
    requires now <= w.db.challenges[id].leaseUntil
    requires forall k :: 0 <= k < |es| ==> ReservesBy(es[k], now)
    requires id in Run(w, es).db.challenges
    requires Run(w, es).db.challenges[id].sendAttempts == w.db.challenges[id].sendAttempts
    ensures var r, retry := Run(w, es).db.challenges[id], RetryRecorded(w, es, id);
            id in Taken(Run(w, es).db.challenges, picked, now)
            <==> && id in picked && retry.Some? && r.sendAttempts < 3
                 && retry.value + (if r.sendAttempts == 1 then 5 else 15) <= now
                 && r.status == CodeQueued && r.expiresAt > now + 15
  {
    var r := w.db.challenges[id];
    RowIssued(w, id) by { assert GatewayInv(w, id); }
    HeldRun(w, es, id, None, r.sendAttempts, r.leaseUntil, now);
    hide RowInv, Step, Run, RetryRecorded;
  }

  lemma LiveStays(w: World, e: Event, id: Id, n: nat, lease: Time)
    requires DeliveryInv(w) && Sound(w, e) && id in w.history.issued
    requires HeldIn(w, id, None, n, lease, lease) && ReservesBy(e, lease)
    ensures id in Step(w, e).db.challenges ==> Step(w, e).db.challenges[id].sendAttempts == n
  {
    StepFollows(w, e, id);
    if id in w.db.challenges {
      var r := w.db.challenges[id];
      match e {
        case Carrier(ReserveEvent(picked, clock)) => ReserveRowMoves(r, id in picked, clock);
        case Carrier(_) =>
        case Candidate(c) =>
          hide CandidateStep, CandidateHistory, RowInv, Moves;
          CandidateRow(w, c, id);
      }
    }
  }

  lemma {:induction false} LiveRun(w: World, es: seq<Event>, id: Id, n: nat, lease: Time)
    requires DeliveryInv(w) && SoundRun(w, es) && id in w.history.issued
    requires HeldIn(w, id, None, n, lease, lease) && RetryRecorded(w, es, id).None?
    requires forall k :: 0 <= k < |es| ==> ReservesBy(es[k], lease)
    ensures id in Run(w, es).db.challenges ==> Run(w, es).db.challenges[id].sendAttempts == n
    decreases |es|
  {
    if es == [] {
    } else {
      hide RowInv, Held, Step, Moves;
      StepKeeps(w, es[0]);
      StepFollows(w, es[0], id);
      LiveStays(w, es[0], id, n, lease);
      HeldStep(w, es[0], id, None, n, lease, lease);
      LiveRun(Step(w, es[0]), es[1..], id, n, lease);
    }
    HeldHasAttempts(w, id, n, lease);
  }

  lemma HeldHasAttempts(w: World, id: Id, n: nat, lease: Time)
    requires HeldIn(w, id, None, n, lease, lease)
    ensures id in w.db.challenges ==> w.db.challenges[id].sendAttempts == n
  {
  }

  /** While a lease runs and no failed call is recorded, no worker reserves the challenge again, whatever
      else is recorded or reported, by whomever. */
  lemma LiveReservationIsExclusive(w: World, es: seq<Event>, id: Id)
    requires DeliveryInv(w) && SoundRun(w, es)
    requires id in w.db.challenges && w.db.challenges[id].delivery == Sending
    requires forall k :: 0 <= k < |es| ==> ReservesBy(es[k], w.db.challenges[id].leaseUntil)
    requires RetryRecorded(w, es, id).None?
    ensures id in Run(w, es).db.challenges ==>
              Run(w, es).db.challenges[id].sendAttempts == w.db.challenges[id].sendAttempts
  {
    RowIssued(w, id) by { assert GatewayInv(w, id); }
    LiveRun(w, es, id, w.db.challenges[id].sendAttempts, w.db.challenges[id].leaseUntil);
  }

  // ---- How far apart the tries are ----

  /** After a failed call recorded by a worker that started at `at`, the challenge can be taken from five
      seconds after that start the first time, fifteen after; the clock of the recording plays no part. */
  lemma RetryDue(r: Challenge, error: string, at: Time, now: Time)
    requires r.delivery == Sending
    ensures var q := Record(r, Retry(error), at);
            Eligible(Sweep(q, now), now)
            <==> && r.sendAttempts < 3 && r.status == CodeQueued && r.expiresAt > now + 15
                 && at + (if r.sendAttempts == 1 then 5 else 15) <= now
  {
  }

  ghost function TakenAt(w: World, e: Event, id: Id): Option<Time> {
    match e
    case Carrier(ReserveEvent(picked, now)) => if id in Taken(w.db.challenges, picked, now) then Some(now) else None
    case _ => None
  }

  /** The clock of the first reservation of the challenge. */
  ghost function FirstReserved(w: World, es: seq<Event>, id: Id): Option<Time>
    decreases |es|
  {
    if es == [] then None
    else if TakenAt(w, es[0], id).Some? then TakenAt(w, es[0], id)
    else FirstReserved(Step(w, es[0]), es[1..], id)
  }

  /** What every later moment knows about the first reservation. */
  ghost predicate RowSince(r: Challenge, first: Option<Time>) {
    && (first.Some? <==> r.sendAttempts >= 1)
    && (first.Some? ==>
          && (r.delivery == Sending ==> r.leaseUntil >= first.value + SEND_LEASE)
          && (r.delivery == Queued ==> r.nextAttemptAt >= first.value + RetryDelay(r.sendAttempts)))
  }

  ghost predicate SinceFirst(w: World, id: Id, first: Option<Time>) {
    && (first.Some? ==> id in w.history.issued)
    && (id in w.db.challenges ==> RowSince(w.db.challenges[id], first))
    && (forall job | job in w.jobs && job.id == id :: first.Some? && w.jobs[job].at >= first.value)
  }

  lemma TakenSince(r: Challenge, first: Option<Time>, now: Time)
    requires RowSince(r, first) && Eligible(Sweep(r, now), now) && r.sendAttempts >= 1
    ensures now >= first.value + if r.sendAttempts == 1 then 5 else 15
  {
  }

  lemma ReserveSince(r: Challenge, picked: bool, now: Time, first: Option<Time>)
    requires RowSince(r, first) && RowInv(r)
    ensures var taken := if picked && Eligible(Sweep(r, now), now) then Some(now) else None;
            RowSince(ReserveRow(r, picked, now), Earlier(first, taken))
  {
  }

  lemma RecordSince(r: Challenge, reply: Reply, at: Time, first: Option<Time>)
    requires RowSince(r, first) && RowInv(r) && first.Some? && at >= first.value
    ensures RowSince(Record(r, reply, at), first)
  {
  }

  lemma ApplySince(r: Challenge, report: Report, error: string, now: Time, first: Option<Time>)
    requires RowSince(r, first)
    ensures RowSince(Apply(r, report, error, now), first)
  {
  }

  lemma MailSince(r: Challenge, q: Challenge, first: Option<Time>)
    requires RowSince(r, first) && MailKept(r, q)
    ensures RowSince(q, first)
  {
  }

  lemma NewSince(r: Challenge)
    requires r.sendAttempts == 0
    ensures RowSince(r, None)
  {
  }

  lemma ReserveStepSince(w: World, picked: set<Id>, now: Time, id: Id, first: Option<Time>)
    requires DeliveryInv(w) && now > 0 && SinceFirst(w, id, first)
    ensures var e := Carrier(ReserveEvent(picked, now));
            SinceFirst(Step(w, e), id, Earlier(first, TakenAt(w, e, id)))
  {
    var cs := w.db.challenges;
    var taken := Taken(cs, picked, now);
    hide RowInv, ReserveRow, Eligible, Sweep, RowSince, GatewayInv;
    if id in cs {
      RowIssued(w, id) by { assert GatewayInv(w, id); }
      ReserveSince(cs[id], id in picked, now, first);
    }
    if id in taken && first.Some? {
      FirstHasAttempts(cs[id], first);
      TakenSince(cs[id], first, now);
    }
    forall job | job in Step(w, Carrier(ReserveEvent(picked, now))).jobs && job.id == id && job !in w.jobs
      ensures job.id in taken
    {
      AddedJobs(cs, taken, now, job.id, job.attempt);
    }
  }

  lemma FirstHasAttempts(r: Challenge, first: Option<Time>)
    requires RowSince(r, first) && first.Some?
    ensures r.sendAttempts >= 1
  {
  }

  lemma SinceStep(w: World, e: Event, id: Id, first: Option<Time>)
    requires DeliveryInv(w) && Sound(w, e) && SinceFirst(w, id, first)
    ensures SinceFirst(Step(w, e), id, Earlier(first, TakenAt(w, e, id)))
  {
    match e {
      case Carrier(ReserveEvent(picked, now)) => ReserveStepSince(w, picked, now, id, first);
      case Carrier(d) => CarrierSince(w, d, id, first);
      case Candidate(c) => CandidateSince(w, c, id, first);
    }
  }

  lemma CarrierSince(w: World, e: DeliveryEvent, id: Id, first: Option<Time>)
    requires DeliveryInv(w) && !e.ReserveEvent? && SinceFirst(w, id, first)
    ensures SinceFirst(CarrierStep(w, e), id, first)
  {
    hide RowInv, Record, Apply, GatewayInv;
    if id in w.db.challenges {
      var r := w.db.challenges[id];
      match e {
        case RecordEvent(job) =>
          if job.id == id && job in w.jobs && w.jobs[job].Answered? {
            RecordSince(r, w.jobs[job].reply, w.jobs[job].at, first);
          }
        case ReportEvent(_, report, error, now) => ApplySince(r, report, error, now, first);
        case _ =>
      }
    }
  }

  lemma CandidateSince(w: World, e: CandidateEvent, id: Id, first: Option<Time>)
    requires DeliveryInv(w) && Sound(w, Candidate(e)) && SinceFirst(w, id, first)
    ensures SinceFirst(Step(w, Candidate(e)), id, first)
  {
    var cs, cs' := w.db.challenges, Step(w, Candidate(e)).db.challenges;
    CandidateRow(w, e, id);
    CandidateIssues(w, e, id);
    hide CandidateStep, CandidateHistory, RowInv, MailKept, RowSince;
    if id in cs && id in cs' {
      MailSince(cs[id], cs'[id], first);
    } else if id in cs' {
      NewSince(cs'[id]);
    }
  }

  lemma {:induction false} SinceRun(w: World, es: seq<Event>, id: Id, first: Option<Time>)
    requires DeliveryInv(w) && SoundRun(w, es) && SinceFirst(w, id, first)
    ensures SinceFirst(Run(w, es), id, Earlier(first, FirstReserved(w, es, id)))
    decreases |es|
  {
    if es == [] {
    } else {
      hide Step, SinceFirst, DeliveryInv, TakenAt;
      StepKeeps(w, es[0]);
      SinceStep(w, es[0], id, first);
      SinceRun(Step(w, es[0]), es[1..], id, Earlier(first, TakenAt(w, es[0], id)));
    }
  }

  /** In every run a challenge is taken a second time at least five seconds after the first, and a third
      time at least fifteen after the first. */
  lemma RetriesAfterFirst(es: seq<Event>, picked: set<Id>, now: Time, id: Id)
    requires SoundRun(EMPTY, es) && id in Taken(Run(EMPTY, es).db.challenges, picked, now)
    requires Run(EMPTY, es).db.challenges[id].sendAttempts >= 1
    ensures var first := FirstReserved(EMPTY, es, id);
            first.Some? && now >= first.value + if Run(EMPTY, es).db.challenges[id].sendAttempts == 1 then 5 else 15
  {
    SinceRun(EMPTY, es, id, None);
    TakenSince(Run(EMPTY, es).db.challenges[id], FirstReserved(EMPTY, es, id), now);
  }

  // ---- A live reservation taken again ----

  const REQUESTED := Challenge("0550000000", "Ali", "Ben", "123456", 1, 301, 0, CodeQueued, None, 0, None,
                               Queued, None, true, 0, 0, 0, 0, None, None, None)
  const UNREACHABLE := Retry("gateway_unreachable")
  ghost const FILED := Step(EMPTY, Candidate(RequestEvent(Some("0550000000"), "Ali", "Ben", "ip", "a", "123456", 1)))
  ghost const HELD := Step(FILED, Carrier(ReserveEvent({"a"}, 1)))
  ghost const UNHEARD := Step(HELD, Carrier(SendEvent(Job("a", 1), NeverArrived)))
  ghost const LAPSED := Step(UNHEARD, Carrier(ReserveEvent({"a"}, 47)))
  ghost const REQUEUED := Step(LAPSED, Carrier(RecordEvent(Job("a", 1))))

  ghost predicate Only(w: World, r: Challenge, jobs: map<Job, Phase>) {
    w.db.challenges == map["a" := r] && w.jobs == jobs && w.history.issued == {"a"}
  }

  lemma NameKept(name: string)
    requires 2 <= |name| <= 100 && Trimmed(name)
    ensures NameAllowed(name) && Strip(name) == name
  {
    StripTrimmed(name);
  }

  lemma Letters()
    ensures !IsSpace('A') && !IsSpace('i') && !IsSpace('B') && !IsSpace('n')
  {
  }

  lemma FirstRow()
    ensures NewChallenge("0550000000", "Ali", "Ben", "123456", 1) == REQUESTED
    ensures NameAllowed("Ali") && NameAllowed("Ben")
  {
    hide Strip, IsSpace, NameAllowed;
    Letters();
    NameKept("Ali");
    NameKept("Ben");
  }

  lemma FirstRequest(phone: Phone, firstName: string, lastName: string, ip: string, id: Id, code: string, now: Time)
    requires NameAllowed(firstName) && NameAllowed(lastName)
    ensures var e := RequestEvent(Some(phone), firstName, lastName, ip, id, code, now);
            var w := Step(EMPTY, Candidate(e));
            && w.db.challenges == map[id := NewChallenge(phone, firstName, lastName, code, now)]
            && w.jobs == map[] && w.history.issued == {id}
  {
    hide NameAllowed, NewChallenge, CountedRates, Strip;
    assert !TooMany(EMPTY.db, phone, ip, now);
    assert KeptChallenges(map[], phone, now) == map[];
  }

  lemma FiledIs()
    ensures Only(FILED, REQUESTED, map[])
  {
    FirstRow();
    hide Step, NameAllowed, NewChallenge, Strip;
    FirstRequest("0550000000", "Ali", "Ben", "ip", "a", "123456", 1);
  }

  lemma TakesOnly(cs: map<Id, Challenge>, r: Challenge, now: Time)
    requires cs == map["a" := r] && Sweep(r, now) == r && Eligible(r, now)
    ensures Taken(cs, {"a"}, now) == {"a"} && Reserve(cs, {"a"}, now) == map["a" := Pick(r, now)]
  {
    hide Sweep, Eligible, Pick;
    assert Taken(cs, {"a"}, now) == {"a"};
  }

  lemma ReservesOnly(w: World, r: Challenge, jobs: map<Job, Phase>, now: Time)
    requires Only(w, r, jobs) && Sweep(r, now) == r && Eligible(r, now)
    ensures var w' := Step(w, Carrier(ReserveEvent({"a"}, now)));
            Only(w', Pick(r, now), jobs[Job("a", r.sendAttempts + 1) := Reserved(now)])
    ensures "a" in Taken(w.db.challenges, {"a"}, now)
  {
    hide Sweep, Eligible, Pick, Reserve, Taken;
    TakesOnly(w.db.challenges, r, now);
    var job := Job("a", r.sendAttempts + 1);
    assert NewJobs(w.db.challenges, {"a"}, now) == map[job := Reserved(now)];
  }

  lemma SendsOnly(w: World, r: Challenge, jobs: map<Job, Phase>, job: Job)
    requires Only(w, r, jobs) && job in jobs && jobs[job].Reserved?
    ensures Only(Step(w, Carrier(SendEvent(job, NeverArrived))), r, jobs[job := Answered(jobs[job].at, UNREACHABLE)])
  {
  }

  lemma RecordsOnly(w: World, r: Challenge, jobs: map<Job, Phase>, job: Job)
    requires Only(w, r, jobs) && job in jobs && jobs[job].Answered? && job.id == "a"
    ensures Only(Step(w, Carrier(RecordEvent(job))), Record(r, jobs[job].reply, jobs[job].at), jobs - {job})
  {
    hide Record;
  }

  lemma LapsedIs()
    ensures Only(LAPSED, REQUESTED.(delivery := Sending, leaseUntil := 92, sendAttempts := 2),
                 map[Job("a", 1) := Answered(1, UNREACHABLE), Job("a", 2) := Reserved(47)])
  {
    hide Step, Only;
    FiledIs();
    ReservesOnly(FILED, REQUESTED, map[], 1);
    var held, first, answered := Pick(REQUESTED, 1), Reserved(1), Answered(1, UNREACHABLE);
    assert map[][Job("a", 1) := first] == map[Job("a", 1) := first];
    SendsOnly(HELD, held, map[Job("a", 1) := first], Job("a", 1));
    assert map[Job("a", 1) := first][Job("a", 1) := answered] == map[Job("a", 1) := answered];
    ReservesOnly(UNHEARD, held, map[Job("a", 1) := answered], 47);
  }

  lemma RequeuedIs()
    ensures Only(REQUEUED, REQUESTED.(leaseUntil := 92, sendAttempts := 2, nextAttemptAt := 16,
                                      error := Some("gateway_unreachable")),
                 map[Job("a", 2) := Reserved(47)])
  {
    hide Step, Only;
    LapsedIs();
    var jobs := map[Job("a", 1) := Answered(1, UNREACHABLE), Job("a", 2) := Reserved(47)];
    RecordsOnly(LAPSED, REQUESTED.(delivery := Sending, leaseUntil := 92, sendAttempts := 2), jobs, Job("a", 1));
    assert jobs - {Job("a", 1)} == map[Job("a", 2) := Reserved(47)];
  }

  ghost predicate Reached(w: World) { exists es :: SoundRun(EMPTY, es) && Run(EMPTY, es) == w }

  lemma {:induction false} RunThen(w: World, es: seq<Event>, e: Event)
    requires SoundRun(w, es) && Sound(Run(w, es), e)
    ensures SoundRun(w, es + [e]) && Run(w, es + [e]) == Step(Run(w, es), e)
    decreases |es|
  {
    hide Step, Sound;
    if es == [] {
      assert [] + [e] == [e] && [e][1..] == [];
    } else {
      assert (es + [e])[1..] == es[1..] + [e];
      RunThen(Step(w, es[0]), es[1..], e);
    }
  }

  lemma ReachedNext(w: World, e: Event)
    requires Reached(w) && Sound(w, e)
    ensures Reached(Step(w, e))
  {
    hide Step, Sound;
    var es :| SoundRun(EMPTY, es) && Run(EMPTY, es) == w;
    RunThen(EMPTY, es, e);
  }

  lemma RequeuedReached()
    ensures Reached(LAPSED) && Reached(REQUEUED)
  {
    assert Run(EMPTY, []) == EMPTY && SoundRun(EMPTY, []);
    assert Reached(EMPTY);
    hide Step, Reached;
    ReachedNext(EMPTY, Candidate(RequestEvent(Some("0550000000"), "Ali", "Ben", "ip", "a", "123456", 1)));
    ReachedNext(FILED, Carrier(ReserveEvent({"a"}, 1)));
    ReachedNext(HELD, Carrier(SendEvent(Job("a", 1), NeverArrived)));
    ReachedNext(UNHEARD, Carrier(ReserveEvent({"a"}, 47)));
    ReachedNext(LAPSED, Carrier(RecordEvent(Job("a", 1))));
  }

  /** A run in which the worker of the first try, whose lease lapsed, records its failure over the second
      reservation, live until 92: one second after that reservation a third worker takes the challenge,
      and the second has not called the gateway yet. */
  lemma LiveReservationRetaken()
    ensures Reached(LAPSED) && REQUEUED == Step(LAPSED, Carrier(RecordEvent(Job("a", 1))))
    ensures "a" in LAPSED.db.challenges && LAPSED.db.challenges["a"].delivery == Sending
    ensures LAPSED.db.challenges["a"].leaseUntil == 92
    ensures Job("a", 2) in REQUEUED.jobs && REQUEUED.jobs[Job("a", 2)] == Reserved(47)
    ensures "a" in REQUEUED.db.challenges && REQUEUED.db.challenges["a"].nextAttemptAt == 16
    ensures "a" in Taken(REQUEUED.db.challenges, {"a"}, 48)
  {
    RequeuedReached();
    LapsedIs();
    RequeuedIs();
    hide Step;
    ReservesOnly(REQUEUED, REQUEUED.db.challenges["a"], REQUEUED.jobs, 48);
  }
}
