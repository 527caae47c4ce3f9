/** What each step of the SMS service does to a row (app/modules/recruitment_sms_service.py). */
module SmsEffects {
  import opened Wrappers
  import opened Splitting
  import opened SmsModel
  import opened SmsWorld

  // ---- The candidate ----

  /** An accepted request files one row: its phone, its names stripped and its code, waiting to be sent, untried, for
      five minutes. It ends the unverified codes of the phone and erases their texts, deletes what is more than a
      day old, and leaves every other row alone. */
  lemma RequestMoves(w: World, e: CandidateEvent)
    requires e.RequestEvent?
    requires RequestCode(w.db, e.phone, e.firstName, e.lastName, e.ip, e.id, e.code, e.now).1.Ok?
    ensures var cs, after := w.db.challenges, Step(w, Candidate(e)).db.challenges;
            && CandidateStep(w.db, e).1 == Requested(Ok(Issued(e.id, e.phone.value)))
            && (forall id :: id in after <==> id == e.id || (id in cs && cs[id].createdAt >= e.now - 86400))
            && e.id !in cs
            && after[e.id] == Challenge(e.phone.value, Strip(e.firstName), Strip(e.lastName), e.code, e.now,
                                        e.now + 300, 0, CodeQueued, None, 0, None, Queued, None, true, 0, 0, 0, 0,
                                        None, None, None)
            && forall id | id in after && id != e.id ::
                 after[id] == if cs[id].phone == e.phone.value && cs[id].token.None?
                              then cs[id].(status := CodeExpired, cipher := false) else cs[id]
  {
    hide CountedRates, TooMany, NameAllowed, Strip;
  }

  /** An accepted request counts one for its phone and one for its address in the clock hour; counters whose hour
      ended more than an hour ago are deleted, the others stay. */
  lemma RequestCounts(w: World, e: CandidateEvent, key: RateKey)
    requires e.RequestEvent?
    requires RequestCode(w.db, e.phone, e.firstName, e.lastName, e.ip, e.id, e.code, e.now).1.Ok?
    ensures var rates, after := w.db.rates, Step(w, Candidate(e)).db.rates;
            var hit := key == RateKey(ByPhone, e.phone.value, e.now / 3600) || key == RateKey(ByIp, e.ip, e.now / 3600);
            && (key in after <==> (key in rates || hit) && (key.hour + 1) * 3600 >= e.now - 3600)
            && (key in after ==> after[key] == (if key in rates then rates[key] else 0) + if hit then 1 else 0)
  {
    hide TooMany, NameAllowed, KeptChallenges, NewChallenge;
  }

  lemma VerifyRows(t: Tables, id: Id, code: string, token: Token, now: Time)
    requires id in t.challenges
    ensures var r, (after, answer) := t.challenges[id], VerifyCode(t, id, code, token, now);
            var usable := r.expiresAt > now && r.status in {CodeQueued, CodeLeased, CodeSent}
                          && r.token.None? && r.attempts < 5;
            && after == t.(challenges := t.challenges[id := after.challenges[id]])
            && (answer.Ok? <==> usable && code == r.code && !TokenTaken(t.challenges, token))
            && (!usable || (code == r.code && TokenTaken(t.challenges, token)) ==> after.challenges[id] == r)
            && (usable && code != r.code ==>
                  after.challenges[id] == r.(attempts := r.attempts + 1) && answer == Err(Problem(400)))
            && (answer.Ok? ==>
                  && after.challenges[id] == r.(attempts := r.attempts + 1, token := Some(token),
                                                tokenExpiresAt := now + 7200, status := CodeVerified, cipher := false)
                  && answer == Ok(Session(token, r.firstName, r.lastName, r.phone)))
  {
    hide TokenTaken;
  }

  /** A code that can be tried was filed less than five minutes ago, waits, was not used and was tried fewer than five
      times; trying it counts one try. The right code gives its row the token for two hours and erases the
      text; a wrong one changes nothing else. Other rows are left alone. */
  lemma VerifyMoves(w: World, e: CandidateEvent)
    requires e.VerifyEvent? && e.id in w.db.challenges
    ensures var r, after := w.db.challenges[e.id], Step(w, Candidate(e)).db.challenges;
            var usable := r.expiresAt > e.now && r.status in {CodeQueued, CodeLeased, CodeSent}
                          && r.token.None? && r.attempts < 5;
            var taken := exists k :: k in w.db.challenges && w.db.challenges[k].token == Some(e.token);
            && after.Keys == w.db.challenges.Keys
            && (forall k | k in after && k != e.id :: after[k] == w.db.challenges[k])
            && (CandidateStep(w.db, e).1.session.Ok? <==> usable && e.code == r.code && !taken)
            && (!usable || (e.code == r.code && taken) ==> after[e.id] == r)
            && (usable && e.code != r.code ==>
                  after[e.id] == r.(attempts := r.attempts + 1)
                  && CandidateStep(w.db, e).1 == Verified(Err(Problem(400))))
            && (usable && e.code == r.code && !taken ==>
                  && after[e.id] == r.(attempts := r.attempts + 1, token := Some(e.token),
                                       tokenExpiresAt := e.now + 7200, status := CodeVerified, cipher := false)
                  && CandidateStep(w.db, e).1 == Verified(Ok(Session(e.token, r.firstName, r.lastName, r.phone))))
  {
    VerifyRows(w.db, e.id, e.code, e.token, e.now);
    assert TokenTaken(w.db.challenges, e.token)
      <==> exists k :: k in w.db.challenges && w.db.challenges[k].token == Some(e.token);
    assert Step(w, Candidate(e)).db == VerifyCode(w.db, e.id, e.code, e.token, e.now).0;
    assert CandidateStep(w.db, e).1 == Verified(VerifyCode(w.db, e.id, e.code, e.token, e.now).1);
    hide VerifyCode, Step, CandidateStep, TokenTaken;
  }

  // ---- The workers ----

  /** Too close to its end to be sent, or never answered at the third try. */
  predicate GivenUp(r: Challenge, now: Time) {
    r.status == CodeQueued
    && ((r.expiresAt <= now + 15 && (r.delivery == Queued || (r.delivery == Sending && r.leaseUntil < now)))
        || (r.delivery == Sending && r.leaseUntil < now && r.sendAttempts >= 3))
  }

  /** It can be sent: waiting, with more than fifteen seconds to live and a try left, due in the queue or lost by
      its worker. */
  predicate CanBeSent(r: Challenge, now: Time) {
    && r.status == CodeQueued && r.expiresAt > now + 15 && r.sendAttempts < 3
    && ((r.delivery == Queued && r.nextAttemptAt <= now) || (r.delivery == Sending && r.leaseUntil < now))
  }

  lemma ReservedRow(r: Challenge, picked: bool, now: Time)
    ensures Eligible(Sweep(r, now), now) <==> CanBeSent(r, now)
    ensures ReserveRow(r, picked, now)
         == if GivenUp(r, now) then
              r.(delivery := if r.expiresAt <= now + 15 then Expired else Failed, cipher := false,
                 error := Some(if r.expiresAt <= now + 15 then "code_expired" else "gateway_outcome_unknown"))
            else if picked && CanBeSent(r, now) then
              r.(delivery := Sending, leaseUntil := now + 45, sendAttempts := r.sendAttempts + 1)
            else r
    ensures CanBeSent(r, now) ==> !GivenUp(r, now)
  {
  }

  /** A worker that reserves gives up what is too late or lost for good, erasing its text, takes the rows it picked
      that can be sent, for forty-five seconds, and touches no other. */
  lemma ReserveMoves(w: World, picked: set<Id>, now: Time, id: Id)
    requires id in w.db.challenges
    ensures var r, after := w.db.challenges[id], CarrierStep(w, ReserveEvent(picked, now));
            && after.db.challenges.Keys == w.db.challenges.Keys && after.db.rates == w.db.rates
            && (id in Taken(w.db.challenges, picked, now) <==> id in picked && CanBeSent(r, now))
            && var q := after.db.challenges[id];
               if GivenUp(r, now) then
                 q == r.(delivery := if r.expiresAt <= now + 15 then Expired else Failed, cipher := false,
                         error := Some(if r.expiresAt <= now + 15 then "code_expired" else "gateway_outcome_unknown"))
               else if id in picked && CanBeSent(r, now) then
                 && q == r.(delivery := Sending, leaseUntil := now + 45, sendAttempts := r.sendAttempts + 1)
                 && Job(id, r.sendAttempts + 1) in after.jobs
                 && after.jobs[Job(id, r.sendAttempts + 1)] == Reserved(now)
               else q == r
  {
    ReservedRow(w.db.challenges[id], id in picked, now);
    hide ReserveRow, Eligible, Sweep, GivenUp, CanBeSent;
  }

  /** A call to the gateway: it takes a message once, whatever is answered; without a usable answer the worker will
      have the message tried again, and one the gateway already held counts as taken. */
  lemma SendMoves(w: World, job: Job, wire: Wire)
    requires job in w.jobs && w.jobs[job].Reserved?
    ensures var after := CarrierStep(w, SendEvent(job, wire));
            var known := job.id in w.history.taken;
            && after.db == w.db && after.history.calls == w.history.calls + multiset{job.id}
            && after.history.taken
               == w.history.taken + (if wire.Arrived? && !known then multiset{job.id} else multiset{})
            && job in after.jobs && after.jobs[job].Answered? && after.jobs[job].at == w.jobs[job].at
            && (after.jobs[job].reply.Retry? <==>
                  wire.NeverArrived? || wire == Refused(false) || (wire.Arrived? && !wire.answered))
            && (after.jobs[job].reply.Rejected? <==>
                  wire == Refused(true)
                  || (wire.Arrived? && wire.answered && !known && wire.report == Some(ReportFailed)))
            && (after.jobs[job].reply.Took? ==> after.jobs[job].reply.report == if known then None else wire.report)
  {
  }

  /** The state an adapter's report names. */
  predicate Names(report: Report, d: Delivery) {
    match report
    case ReportAccepted => d == Accepted
    case ReportProcessed => d == Processed
    case ReportSent => d == Sent
    case ReportDelivered => d == Delivered
    case ReportFailed => d == Failed
  }

  /** Recording an answer writes only a row still sending. Taken: in the state reported, or accepted, from now, without
      its text. To be tried again: back in the queue with its delay while a try is left. Else: failed, without
      its text. */
  lemma RecordMoves(w: World, job: Job)
    requires job in w.jobs && w.jobs[job].Answered? && job.id in w.db.challenges
    ensures var r, now := w.db.challenges[job.id], w.jobs[job].at;
            var after := CarrierStep(w, RecordEvent(job));
            var q := after.db.challenges[job.id];
            && after.jobs == w.jobs - {job} && after.db.challenges == w.db.challenges[job.id := q]
            && (r.delivery != Sending ==> q == r)
            && (r.delivery == Sending ==>
                  match w.jobs[job].reply
                  case Took(report) =>
                    && (if report.Some? && report != Some(ReportFailed) then Names(report.value, q.delivery)
                        else q.delivery == Accepted)
                    && q == r.(delivery := q.delivery, error := None, cipher := false, acceptedAt := Some(now),
                               statusCheckedAt := now,
                               sentAt := if q.delivery in {Sent, Delivered} then Some(now) else r.sentAt,
                               deliveredAt := if q.delivery == Delivered then Some(now) else r.deliveredAt)
                  case Retry(error) =>
                    if r.sendAttempts < 3 then
                      q == r.(delivery := Queued, error := Some(error),
                              nextAttemptAt := now + if r.sendAttempts == 1 then 5 else 15)
                    else q == r.(delivery := Failed, error := Some(error), cipher := false)
                  case Rejected(error) => q == r.(delivery := Failed, error := Some(error), cipher := false))
  {
  }

  // ---- The reports ----

  /** The states a report moves on from: those before the one it names, and after a supposed failure those that a proof
      of sending overrides. */
  predicate MovesOn(d: Delivery, report: Report) {
    match report
    case ReportAccepted => d == Sending
    case ReportProcessed => d in {Sending, Accepted}
    case ReportSent => d in {Sending, Accepted, Processed, Failed, Expired}
    case ReportDelivered => d in {Sending, Accepted, Processed, Sent, Failed, Expired}
    case ReportFailed => d in {Sending, Accepted, Processed, Sent}
  }

  /** A report is applied exactly when it moves the row on: to the state it names, without its text, with the times
      of acceptance, sending and delivery that were not known yet; a failure keeps the times. */
  lemma ReportMoves(w: World, id: Id, report: Report, error: string, now: Time)
    requires id in w.db.challenges
    requires w.db.challenges[id].acceptedAt != Some(0) && w.db.challenges[id].sentAt != Some(0)
    ensures var r, after := w.db.challenges[id], CarrierStep(w, ReportEvent(id, report, error, now));
            var q := after.db.challenges[id];
            && after == w.(db := w.db.(challenges := w.db.challenges[id := q]))
            && (!MovesOn(r.delivery, report) ==> q == r)
            && (MovesOn(r.delivery, report) && report == ReportFailed ==>
                  q == r.(delivery := Failed, error := Some(error), cipher := false))
            && (MovesOn(r.delivery, report) && report != ReportFailed ==>
                  && Names(report, q.delivery)
                  && q == r.(delivery := q.delivery, error := None, cipher := false,
                             acceptedAt := if r.acceptedAt.Some? then r.acceptedAt else Some(now),
                             sentAt := if q.delivery in {Sent, Delivered} && r.sentAt.None? then Some(now)
                                       else r.sentAt,
                             deliveredAt := if q.delivery == Delivered then Some(now) else r.deliveredAt))
  {
  }

  /** Tracking stamps the rows it picked that are due: less than fifteen minutes old, accepted or processed and not
      checked for three seconds, or sent and not checked for fifteen. */
  lemma TrackMoves(w: World, picked: set<Id>, now: Time, id: Id)
    requires id in w.db.challenges
    ensures var r, after := w.db.challenges[id], CarrierStep(w, TrackEvent(picked, now));
            var due := r.createdAt > now - 900
                       && ((r.delivery in {Accepted, Processed} && r.statusCheckedAt <= now - 3)
                           || (r.delivery == Sent && r.statusCheckedAt <= now - 15));
            && after.db.challenges.Keys == w.db.challenges.Keys && after == w.(db := after.db)
            && after.db.rates == w.db.rates
            && after.db.challenges[id] == if id in picked && due then r.(statusCheckedAt := now) else r
  {
  }
}
