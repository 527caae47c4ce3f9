/** What every run of the SMS queue keeps: at most one SMS and at most three calls per challenge, a row
    to be sent still has its text, and the delivery state only moves as documented. */
module SmsDelivery {
  import opened Wrappers
  import opened SmsModel
  import opened SmsWorld

  // ---- One row ----

  predicate Unsent(d: Delivery) { d in {Queued, Sending} }

  /** Positive when present: a recorded time is never mistaken for a missing one. */
  predicate Stamp(t: Option<Time>) { t.Some? ==> t.value > 0 }

  ghost predicate RowInv(r: Challenge) {
    && r.sendAttempts <= MAX_SEND_ATTEMPTS
    && (r.cipher <==> Pending(r) && Unsent(r.delivery))
    && (r.delivery == Sending ==> r.sendAttempts >= 1)
    && (Unsent(r.delivery) ==> r.acceptedAt.None? && r.sentAt.None? && r.deliveredAt.None?)
    && (r.delivery in {Accepted, Processed, Sent, Delivered} ==> r.acceptedAt.Some?)
    && (r.delivery in {Sent, Delivered} ==> r.sentAt.Some?)
    && (r.delivery == Delivered <==> r.deliveredAt.Some?)
    && Stamp(r.acceptedAt) && Stamp(r.sentAt) && Stamp(r.deliveredAt)
  }

  predicate Kept(before: Option<Time>, after: Option<Time>) { before.Some? ==> after == before }

  /** One step of a row's delivery: the rank falls only for a new try or a failure; a failure is left
      only for a proof of sending; times are written once. */
  ghost predicate Moves(r: Challenge, q: Challenge) {
    && (Rank(q.delivery) < Rank(r.delivery) ==>
          (r.delivery == Sending && q.delivery == Queued)
          || (r.delivery in {Failed, Expired} && q.delivery in {Sent, Delivered}))
    && (r.delivery in {Failed, Expired} ==> q.delivery == r.delivery || q.delivery in {Sent, Delivered})
    && Follows(r, q)
  }

  /** What holds between any two moments of a row's life. */
  ghost predicate Follows(r: Challenge, q: Challenge) {
    && (!Unsent(r.delivery) ==> !Unsent(q.delivery))
    && (r.delivery == Delivered ==> q.delivery == Delivered)
    && Kept(r.acceptedAt, q.acceptedAt) && Kept(r.sentAt, q.sentAt) && Kept(r.deliveredAt, q.deliveredAt)
    && r.sendAttempts <= q.sendAttempts
  }

  lemma FollowsTransitive(r: Challenge, q: Challenge, p: Challenge)
    requires Follows(r, q) && Follows(q, p)
    ensures Follows(r, p)
  {
  }

  lemma ReserveRowMoves(r: Challenge, picked: bool, now: Time)
    requires RowInv(r)
    ensures RowInv(ReserveRow(r, picked, now)) && Moves(r, ReserveRow(r, picked, now))
    ensures ReserveRow(r, picked, now).sendAttempts
         == r.sendAttempts + if picked && Eligible(Sweep(r, now), now) then 1 else 0
    ensures r.delivery == Sending && r.leaseUntil >= now ==> ReserveRow(r, picked, now) == r
  {
  }

  lemma RecordMoves(r: Challenge, reply: Reply, now: Time)
    requires RowInv(r) && now > 0
    ensures RowInv(Record(r, reply, now)) && Moves(r, Record(r, reply, now))
    ensures Record(r, reply, now).sendAttempts == r.sendAttempts
  {
  }

  lemma ApplyMoves(r: Challenge, report: Report, error: string, now: Time)
    requires RowInv(r) && now > 0
    ensures RowInv(Apply(r, report, error, now)) && Moves(r, Apply(r, report, error, now))
    ensures Apply(r, report, error, now).sendAttempts == r.sendAttempts
  {
  }

  /** Replaying a report just applied changes nothing, whenever it arrives. */
  lemma ReplayedReport(r: Challenge, report: Report, error: string, error': string, now: Time, later: Time)
    ensures Ignored(Apply(r, report, error, now), report) || Ignored(r, report)
    ensures Apply(Apply(r, report, error, now), report, error', later) == Apply(r, report, error, now)
  {
  }

  // ---- Everything in flight ----

  function Waiting(jobs: map<Job, Phase>, id: Id, attempt: nat): nat {
    if Job(id, attempt) in jobs && jobs[Job(id, attempt)].Reserved? then 1 else 0
  }

  /** Jobs of the challenge that have not called the gateway yet. */
  function Outstanding(jobs: map<Job, Phase>, id: Id): nat {
    Waiting(jobs, id, 1) + Waiting(jobs, id, 2) + Waiting(jobs, id, 3)
  }

  /** Reservations made so far; a purged challenge counts as used up. */
  function Budget(challenges: map<Id, Challenge>, id: Id): nat {
    if id in challenges then challenges[id].sendAttempts else MAX_SEND_ATTEMPTS
  }

  ghost predicate JobsInv(w: World) {
    forall job | job in w.jobs ::
      && job.id in w.history.issued && 1 <= job.attempt <= Budget(w.db.challenges, job.id)
      && w.jobs[job].at > 0
  }

  ghost predicate GatewayInv(w: World, id: Id) {
    && w.history.taken[id] <= 1 && w.history.taken[id] <= w.history.calls[id]
    && (id in w.history.issued ==>
          w.history.calls[id] + Outstanding(w.jobs, id) <= Budget(w.db.challenges, id) <= MAX_SEND_ATTEMPTS)
    && (id !in w.history.issued ==> id !in w.db.challenges && w.history.calls[id] == 0)
  }

  ghost predicate DeliveryInv(w: World) {
    && (forall id | id in w.db.challenges :: RowInv(w.db.challenges[id]))
    && JobsInv(w)
    && (forall id :: GatewayInv(w, id))
  }

  // ---- Every step keeps it ----

  /** Clocks read a positive time, and random identifiers are new. */
  predicate Sound(w: World, e: Event) {
    match e
    case Candidate(RequestEvent(_, _, _, _, id, _, now)) => now > 0 && id !in w.history.issued
    case Carrier(ReserveEvent(_, now)) => now > 0
    case Carrier(ReportEvent(_, _, _, now)) => now > 0
    case _ => true
  }

  lemma OutstandingKept(jobs: map<Job, Phase>, jobs': map<Job, Phase>, id: Id)
    requires forall k :: 1 <= k <= 3 ==> Waiting(jobs', id, k) <= Waiting(jobs, id, k)
    ensures Outstanding(jobs', id) <= Outstanding(jobs, id)
  {
  }

  lemma ReserveRows(cs: map<Id, Challenge>, picked: set<Id>, now: Time, id: Id)
    requires id in cs && RowInv(cs[id])
    ensures RowInv(Reserve(cs, picked, now)[id])
    ensures Reserve(cs, picked, now)[id].sendAttempts
         == cs[id].sendAttempts + if id in Taken(cs, picked, now) then 1 else 0
    ensures id in Taken(cs, picked, now) ==> cs[id].sendAttempts < MAX_SEND_ATTEMPTS
  {
    ReserveRowMoves(cs[id], id in picked, now);
  }

  lemma AddedJobs(cs: map<Id, Challenge>, taken: set<Id>, now: Time, id: Id, k: nat)
    requires taken <= cs.Keys
    ensures Job(id, k) in NewJobs(cs, taken, now) <==> id in taken && k == cs[id].sendAttempts + 1
  {
  }

  lemma ReserveGateway(w: World, picked: set<Id>, now: Time, id: Id)
    requires DeliveryInv(w) && now > 0
    ensures GatewayInv(CarrierStep(w, ReserveEvent(picked, now)), id)
  {
    var cs := w.db.challenges;
    var taken := Taken(cs, picked, now);
    var added, jobs' := NewJobs(cs, taken, now), w.jobs + NewJobs(cs, taken, now);
    assert GatewayInv(w, id);
    if id in cs {
      ReserveRows(cs, picked, now, id);
    }
    forall k: nat ensures Waiting(jobs', id, k) <= Waiting(w.jobs, id, k)
                                                  + if id in taken && k == cs[id].sendAttempts + 1 then 1 else 0 {
      AddedJobs(cs, taken, now, id, k);
    }
    if id in taken {
      assert Job(id, cs[id].sendAttempts + 1) !in w.jobs;
    }
  }

  lemma RowIssued(w: World, id: Id)
    requires GatewayInv(w, id)
    ensures id in w.db.challenges ==> id in w.history.issued
  {
  }

  lemma ReserveKeeps(w: World, picked: set<Id>, now: Time)
    requires DeliveryInv(w) && now > 0
    ensures DeliveryInv(CarrierStep(w, ReserveEvent(picked, now)))
  {
    hide RowInv, ReserveRow, Eligible, Sweep, GatewayInv;
    var cs := w.db.challenges;
    var w' := CarrierStep(w, ReserveEvent(picked, now));
    forall id | id in cs
      ensures RowInv(w'.db.challenges[id]) && id in w.history.issued
      ensures w'.db.challenges[id].sendAttempts == cs[id].sendAttempts + if id in Taken(cs, picked, now) then 1 else 0
    {
      ReserveRows(cs, picked, now, id);
      assert GatewayInv(w, id);
      RowIssued(w, id);
    }
    forall job | job in w'.jobs
      ensures job.id in w.history.issued && 1 <= job.attempt <= Budget(w'.db.challenges, job.id) && w'.jobs[job].at > 0
    {
      AddedJobs(cs, Taken(cs, picked, now), now, job.id, job.attempt);
    }
    forall id ensures GatewayInv(w', id) {
      ReserveGateway(w, picked, now, id);
    }
  }

  lemma SendKeeps(w: World, job: Job, wire: Wire)
    requires DeliveryInv(w)
    ensures DeliveryInv(CarrierStep(w, SendEvent(job, wire)))
  {
    var w' := CarrierStep(w, SendEvent(job, wire));
    if job in w.jobs && w.jobs[job].Reserved? {
      forall id ensures GatewayInv(w', id) {
        assert GatewayInv(w, id);
        assert Budget(w.db.challenges, job.id) <= MAX_SEND_ATTEMPTS by { assert GatewayInv(w, job.id); }
        if id != job.id {
          OutstandingKept(w.jobs, w'.jobs, id);
        }
      }
    }
  }

  lemma DroppingKeeps(w: World, job: Job)
    requires DeliveryInv(w)
    ensures DeliveryInv(w.(jobs := w.jobs - {job}))
  {
    var w' := w.(jobs := w.jobs - {job});
    forall id ensures GatewayInv(w', id) {
      assert GatewayInv(w, id);
      OutstandingKept(w.jobs, w'.jobs, id);
    }
  }

  /** Changing one row without touching its attempts. */
  lemma RowKeeps(w: World, id: Id, r: Challenge)
    requires DeliveryInv(w) && id in w.db.challenges
    requires RowInv(r) && r.sendAttempts == w.db.challenges[id].sendAttempts
    ensures DeliveryInv(w.(db := w.db.(challenges := w.db.challenges[id := r])))
  {
    var w' := w.(db := w.db.(challenges := w.db.challenges[id := r]));
    forall k ensures GatewayInv(w', k) {
      assert GatewayInv(w, k);
      OutstandingKept(w.jobs, w'.jobs, k);
    }
  }

  lemma CarrierKeeps(w: World, e: DeliveryEvent)
    requires DeliveryInv(w) && Sound(w, Carrier(e))
    ensures DeliveryInv(CarrierStep(w, e))
  {
    var cs := w.db.challenges;
    match e {
      case ReserveEvent(picked, now) => ReserveKeeps(w, picked, now);
      case SendEvent(job, wire) => SendKeeps(w, job, wire);
      case CrashEvent(job) => DroppingKeeps(w, job);
      case RecordEvent(job) =>
        if job in w.jobs && w.jobs[job].Answered? {
          DroppingKeeps(w, job);
          if job.id in cs {
            RecordMoves(cs[job.id], w.jobs[job].reply, w.jobs[job].at);
            RowKeeps(w.(jobs := w.jobs - {job}), job.id, Record(cs[job.id], w.jobs[job].reply, w.jobs[job].at));
          }
        }
      case ReportEvent(id, report, error, now) =>
        if id in cs {
          ApplyMoves(cs[id], report, error, now);
          RowKeeps(w, id, Apply(cs[id], report, error, now));
        }
      case TrackEvent(picked, now) =>
        var w' := CarrierStep(w, e);
        forall id ensures GatewayInv(w', id) {
          assert GatewayInv(w, id);
          OutstandingKept(w.jobs, w'.jobs, id);
        }
    }
  }

  /** Nothing about the SMS changes; the text is erased only when the code stops waiting. */
  ghost predicate MailKept(r: Challenge, q: Challenge) {
    && q.delivery == r.delivery && q.leaseUntil == r.leaseUntil && q.sendAttempts == r.sendAttempts
    && q.expiresAt == r.expiresAt && q.nextAttemptAt == r.nextAttemptAt
    && q.acceptedAt == r.acceptedAt && q.sentAt == r.sentAt && q.deliveredAt == r.deliveredAt
    && if Pending(q) then Pending(r) && q.cipher == r.cipher else !q.cipher || (!Pending(r) && q.cipher == r.cipher)
  }

  lemma MailKeptMoves(r: Challenge, q: Challenge)
    requires RowInv(r) && MailKept(r, q)
    ensures RowInv(q) && Moves(r, q)
  {
  }

  lemma RequestKeepsMail(t: Tables, phone: Option<Phone>, firstName: string, lastName: string, ip: string,
                         newId: Id, code: string, now: Time, id: Id)
    ensures var t' := RequestCode(t, phone, firstName, lastName, ip, newId, code, now).0;
            && (id in t.challenges && id in t'.challenges ==> MailKept(t.challenges[id], t'.challenges[id]))
            && (id !in t.challenges && id in t'.challenges ==>
                  && phone.Some? && id == newId
                  && t'.challenges[id] == NewChallenge(phone.value, firstName, lastName, code, now))
  {
    hide Superseded, MailKept, NewChallenge, NameAllowed, TooMany, CountedRates;
    if id in t.challenges {
      MailKeptSame(t.challenges[id]);
      if phone.Some? { SupersededKeepsMail(t.challenges[id], phone.value); }
    }
  }

  lemma MailKeptSame(r: Challenge)
    ensures MailKept(r, r)
  {
  }

  lemma SupersededKeepsMail(r: Challenge, phone: Phone)
    ensures MailKept(r, Superseded(r, phone))
  {
  }

  lemma CandidateKeepsMail(t: Tables, e: CandidateEvent, id: Id)
    ensures var t' := CandidateStep(t, e).0;
            && (id in t.challenges && id in t'.challenges ==> MailKept(t.challenges[id], t'.challenges[id]))
            && (id !in t.challenges && id in t'.challenges ==>
                  && e.RequestEvent? && id == e.id && e.phone.Some?
                  && t'.challenges[id] == NewChallenge(e.phone.value, e.firstName, e.lastName, e.code, e.now))
  {
    match e {
      case RequestEvent(phone, firstName, lastName, ip, newId, code, now) =>
        hide RequestCode, MailKept, NewChallenge;
        RequestKeepsMail(t, phone, firstName, lastName, ip, newId, code, now, id);
      case VerifyEvent(_, _, _, _) =>
      case IdentifyEvent(_, _) =>
      case SubmitEvent(_, _, _) =>
    }
  }

  lemma CandidateIssues(w: World, e: CandidateEvent, id: Id)
    ensures var w' := Step(w, Candidate(e));
            && w.history.issued <= w'.history.issued
            && w'.history.calls == w.history.calls && w'.history.taken == w.history.taken && w'.jobs == w.jobs
            && (id in w'.history.issued && id !in w.history.issued ==> id in w'.db.challenges)
            && (id in w'.db.challenges && id !in w.db.challenges ==> id in w'.history.issued)
  {
  }

  lemma NewRowInv(phone: Phone, firstName: string, lastName: string, code: string, now: Time)
    ensures RowInv(NewChallenge(phone, firstName, lastName, code, now))
  {
  }

  lemma CandidateRow(w: World, e: CandidateEvent, id: Id)
    requires DeliveryInv(w) && Sound(w, Candidate(e))
    ensures var w' := Step(w, Candidate(e));
            var cs, cs' := w.db.challenges, w'.db.challenges;
            && (id in cs' && id in cs ==> RowInv(cs'[id]) && MailKept(cs[id], cs'[id]))
            && (id in cs' && id !in cs ==> RowInv(cs'[id]) && id !in w.history.issued && cs'[id].sendAttempts == 0)
  {
    var cs, cs' := w.db.challenges, Step(w, Candidate(e)).db.challenges;
    CandidateKeepsMail(w.db, e, id);
    hide CandidateStep, CandidateHistory, RowInv, MailKept;
    if id in cs' && id in cs {
      MailKeptMoves(cs[id], cs'[id]);
    } else if id in cs' {
      NewRowInv(e.phone.value, e.firstName, e.lastName, e.code, e.now);
    }
  }

  lemma CandidateGateway(w: World, e: CandidateEvent, id: Id)
    requires DeliveryInv(w) && Sound(w, Candidate(e))
    ensures GatewayInv(Step(w, Candidate(e)), id)
  {
    assert GatewayInv(w, id);
    CandidateRow(w, e, id);
    CandidateIssues(w, e, id);
    hide CandidateStep, CandidateHistory, RowInv;
  }

  lemma CandidateKeeps(w: World, e: CandidateEvent)
    requires DeliveryInv(w) && Sound(w, Candidate(e))
    ensures DeliveryInv(Step(w, Candidate(e)))
  {
    var w' := Step(w, Candidate(e));
    forall id | id in w'.db.challenges ensures RowInv(w'.db.challenges[id]) { CandidateRow(w, e, id); }
    forall id ensures GatewayInv(w', id) { CandidateGateway(w, e, id); }
    hide CandidateStep, CandidateHistory, RowInv;
    forall job | job in w'.jobs
      ensures job.id in w'.history.issued && 1 <= job.attempt <= Budget(w'.db.challenges, job.id) && w'.jobs[job].at > 0
    {
      CandidateIssues(w, e, job.id);
      CandidateRow(w, e, job.id);
      assert job in w.jobs && GatewayInv(w, job.id);
    }
  }

  // ---- Whole runs ----

  ghost predicate SoundRun(w: World, es: seq<Event>)
    decreases |es|
  {
    es == [] || (Sound(w, es[0]) && SoundRun(Step(w, es[0]), es[1..]))
  }

  lemma StepKeeps(w: World, e: Event)
    requires DeliveryInv(w) && Sound(w, e)
    ensures DeliveryInv(Step(w, e))
  {
    match e {
      case Candidate(c) => CandidateKeeps(w, c);
      case Carrier(d) => CarrierKeeps(w, d);
    }
  }

  lemma {:induction false} RunKeeps(w: World, es: seq<Event>)
    requires DeliveryInv(w) && SoundRun(w, es)
    ensures DeliveryInv(Run(w, es))
    decreases |es|
  {
    if es == [] {
    } else {
      StepKeeps(w, es[0]);
      RunKeeps(Step(w, es[0]), es[1..]);
    }
  }

  /** From an empty table, whatever the workers, the crashes, the lost replies and the lapsed leases: the
      gateway takes at most one SMS per challenge, and is called at most three times. */
  lemma OneSmsPerChallenge(es: seq<Event>, id: Id)
    requires SoundRun(EMPTY, es)
    ensures Run(EMPTY, es).history.taken[id] <= 1
    ensures Run(EMPTY, es).history.calls[id] <= 3
  {
    RunKeeps(EMPTY, es);
    assert GatewayInv(Run(EMPTY, es), id);
  }

  /** A worker never decrypts an erased text: every row it can reserve still holds its own, waits for its
      code, and has more than fifteen seconds to live. */
  lemma ReservedRowsHoldTheirText(es: seq<Event>, picked: set<Id>, now: Time, id: Id)
    requires SoundRun(EMPTY, es)
    requires id in Taken(Run(EMPTY, es).db.challenges, picked, now)
    ensures var r := Run(EMPTY, es).db.challenges[id];
            r.cipher && Sweep(r, now) == r && r.status == CodeQueued && r.expiresAt > now + 15
  {
    RunKeeps(EMPTY, es);
    assert RowInv(Run(EMPTY, es).db.challenges[id]);
  }

  /** The encrypted text is kept exactly as long as it can serve: while the code waits and the SMS is not sent. */
  lemma TextOnlyWhileNeeded(es: seq<Event>, id: Id)
    requires SoundRun(EMPTY, es) && id in Run(EMPTY, es).db.challenges
    ensures var r := Run(EMPTY, es).db.challenges[id];
            r.cipher <==> r.status == CodeQueued && r.delivery in {Queued, Sending}
  {
    RunKeeps(EMPTY, es);
    assert RowInv(Run(EMPTY, es).db.challenges[id]);
  }

  lemma StepFollows(w: World, e: Event, id: Id)
    requires DeliveryInv(w) && Sound(w, e)
    ensures var cs, cs' := w.db.challenges, Step(w, e).db.challenges;
            && (id in cs && id in cs' ==> Moves(cs[id], cs'[id]))
            && (id !in cs && id in w.history.issued ==> id !in cs')
    ensures w.history.issued <= Step(w, e).history.issued
  {
    match e {
      case Candidate(c) => CandidateFollows(w, c, id);
      case Carrier(d) => CarrierFollows(w, d, id);
    }
  }

  lemma CarrierFollows(w: World, e: DeliveryEvent, id: Id)
    requires DeliveryInv(w) && Sound(w, Carrier(e))
    ensures id in CarrierStep(w, e).db.challenges <==> id in w.db.challenges
    ensures id in w.db.challenges ==> Moves(w.db.challenges[id], CarrierStep(w, e).db.challenges[id])
    ensures CarrierStep(w, e).history.issued == w.history.issued
  {
    hide ReserveRow, Record, Apply, RowInv;
    if id in w.db.challenges {
      var r := w.db.challenges[id];
      match e {
        case ReserveEvent(picked, now) => ReserveRowMoves(r, id in picked, now);
        case RecordEvent(job) =>
          if job in w.jobs && w.jobs[job].Answered? { RecordMoves(r, w.jobs[job].reply, w.jobs[job].at); }
        case ReportEvent(_, report, error, now) => ApplyMoves(r, report, error, now);
        case _ =>
      }
    }
  }

  lemma CandidateFollows(w: World, e: CandidateEvent, id: Id)
    requires DeliveryInv(w) && Sound(w, Candidate(e))
    ensures var cs, cs' := w.db.challenges, Step(w, Candidate(e)).db.challenges;
            && (id in cs && id in cs' ==> Moves(cs[id], cs'[id]))
            && (id !in cs && id in w.history.issued ==> id !in cs')
    ensures w.history.issued <= Step(w, Candidate(e)).history.issued
  {
    var cs, cs' := w.db.challenges, Step(w, Candidate(e)).db.challenges;
    CandidateRow(w, e, id);
    CandidateIssues(w, e, id);
    hide CandidateStep, CandidateHistory, RowInv, MailKept, Moves;
    if id in cs && id in cs' { MailKeptMoves(cs[id], cs'[id]); }
  }

  /** Over any run: once the gateway took the SMS the row never returns to queued or sending, delivered is
      final, and the acceptance, sending and delivery times never change once written. */
  lemma {:induction false} RunFollows(w: World, es: seq<Event>, id: Id)
    requires DeliveryInv(w) && SoundRun(w, es) && id in w.history.issued
    ensures id in Run(w, es).db.challenges ==>
              id in w.db.challenges && Follows(w.db.challenges[id], Run(w, es).db.challenges[id])
    decreases |es|
  {
    if es == [] {
    } else {
      var w' := Step(w, es[0]);
      StepKeeps(w, es[0]);
      StepFollows(w, es[0], id);
      RunFollows(w', es[1..], id);
      if id in Run(w, es).db.challenges {
        FollowsTransitive(w.db.challenges[id], w'.db.challenges[id], Run(w', es[1..]).db.challenges[id]);
      }
    }
  }
}
