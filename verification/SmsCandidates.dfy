/** What the candidates can count on over whole runs of the SMS service, with a clock that never goes back:
    one code per phone, requests apart, exact counters, few tries and one access per code. */
module SmsCandidates {
  import opened Wrappers
  import Splitting
  import opened SmsModel
  import opened SmsWorld

  // ---- Codes and tokens ----

  predicate RowStatus(r: Challenge) {
    if r.token.None? then r.status in {CodeQueued, CodeExpired} else r.status in {CodeVerified, CodeSubmitted}
  }

  /** Two rows never wait for a code of the same phone, nor share a token. */
  predicate Apart(r: Challenge, q: Challenge) {
    && (r.phone == q.phone && r.status == CodeQueued ==> q.status != CodeQueued)
    && (r.token.Some? ==> q.token != r.token)
  }

  ghost predicate CodesInv(cs: map<Id, Challenge>) {
    && (forall id | id in cs :: RowStatus(cs[id]))
    && (forall id, id' | id in cs && id' in cs && id != id' :: Apart(cs[id], cs[id']))
  }

  // ---- Tries ----

  /** The row counts the tries, and holds the token if one was granted. */
  ghost predicate TriesInv(w: World, id: Id) {
    var h := w.history;
    && h.tries[id] <= MAX_ATTEMPTS && h.granted[id] <= 1
    && (id in w.db.challenges ==>
          && id in h.issued && h.tries[id] == w.db.challenges[id].attempts
          && h.granted[id] == if w.db.challenges[id].token.Some? then 1 else 0)
    && (id !in h.issued ==> h.tries[id] == 0 && h.granted[id] == 0)
  }

  // ---- Requests ----

  predicate Filed(cs: map<Id, Challenge>, q: Request) {
    q.id in cs && cs[q.id].phone == q.phone && cs[q.id].createdAt == q.at
  }

  /** Every recent request still has its row, and every row its request. */
  ghost predicate FiledInv(cs: map<Id, Challenge>, requests: seq<Request>, clock: Time) {
    && (forall i | 0 <= i < |requests| :: requests[i].at <= clock)
    && (forall i | 0 <= i < |requests| :: requests[i].at >= clock - DAY ==> Filed(cs, requests[i]))
    && (forall id | id in cs :: exists i :: 0 <= i < |requests| && requests[i].id == id && Filed(cs, requests[i]))
  }

  ghost predicate SpacedInv(requests: seq<Request>) {
    forall i, j | 0 <= i < j < |requests| && requests[i].phone == requests[j].phone ::
      requests[j].at >= requests[i].at + RESEND_DELAY
  }

  /** No later request of the phone. */
  ghost predicate Newest(requests: seq<Request>, r: Challenge) {
    forall j | 0 <= j < |requests| && requests[j].phone == r.phone :: requests[j].at <= r.createdAt
  }

  /** An unverified code waits until it is replaced, and lives five minutes. */
  ghost predicate WaitingInv(requests: seq<Request>, r: Challenge) {
    && r.expiresAt == r.createdAt + CODE_TTL
    && (r.token.None? ==> (r.status == CodeQueued <==> Newest(requests, r)))
  }

  ghost predicate CodeLives(cs: map<Id, Challenge>, requests: seq<Request>) {
    forall id | id in cs :: WaitingInv(requests, cs[id])
  }

  // ---- Counters ----

  predicate Counts(q: Request, key: RateKey) {
    key == PhoneKey(q.phone, q.at) || key == IpKey(q.ip, q.at)
  }

  /** How many committed requests fall under a counter. */
  function Counted(requests: seq<Request>, key: RateKey): nat {
    if requests == [] then 0
    else Counted(requests[..|requests| - 1], key) + if Counts(requests[|requests| - 1], key) then 1 else 0
  }

  function Limit(kind: RateKind): nat { if kind == ByPhone then PHONE_LIMIT else IP_LIMIT }

  /** A counter that is still kept is exact, and no hour ever exceeded its limit. */
  ghost predicate RateInv(w: World, clock: Time, key: RateKey) {
    && Counted(w.history.requests, key) <= Limit(key.kind)
    && (KeptRate(key, clock) ==> CountOf(w.db.rates, key) == Counted(w.history.requests, key))
  }

  ghost predicate CandidateInv(w: World, clock: Time) {
    && CodesInv(w.db.challenges)
    && (forall i | 0 <= i < |w.history.requests| :: w.history.requests[i].id in w.history.issued)
    && (forall id :: TriesInv(w, id))
    && FiledInv(w.db.challenges, w.history.requests, clock)
    && SpacedInv(w.history.requests) && CodeLives(w.db.challenges, w.history.requests)
    && (forall key :: RateInv(w, clock, key))
  }

  // ---- Clocks ----

  function ClockOf(e: Event, clock: Time): Time {
    if e.Candidate? then e.c.now else clock
  }

  /** The candidates' clock never goes back, and random identifiers are new. */
  predicate InOrder(w: World, clock: Time, e: Event) {
    ClockOf(e, clock) >= clock && (e.Candidate? && e.c.RequestEvent? ==> e.c.id !in w.history.issued)
  }

  ghost predicate InOrderRun(w: World, clock: Time, es: seq<Event>)
    decreases |es|
  {
    es == [] || (InOrder(w, clock, es[0]) && InOrderRun(Step(w, es[0]), ClockOf(es[0], clock), es[1..]))
  }

  function LastClock(clock: Time, es: seq<Event>): Time
    decreases |es|
  {
    if es == [] then clock else LastClock(ClockOf(es[0], clock), es[1..])
  }

  // ---- A committed request ----

  lemma CountedAppend(requests: seq<Request>, q: Request, key: RateKey)
    ensures Counted(requests + [q], key) == Counted(requests, key) + if Counts(q, key) then 1 else 0
  {
    assert (requests + [q])[..|requests|] == requests;
  }

  lemma SupersededApart(r: Challenge, q: Challenge, phone: Phone, firstName: string, lastName: string,
                        code: string, now: Time)
    requires RowStatus(r) && RowStatus(q)
    ensures RowStatus(Superseded(r, phone))
    ensures Apart(r, q) ==> Apart(Superseded(r, phone), Superseded(q, phone))
    ensures var row := NewChallenge(phone, firstName, lastName, code, now);
            Apart(row, Superseded(r, phone)) && Apart(Superseded(r, phone), row)
  {
  }

  lemma NewRowStatus(phone: Phone, firstName: string, lastName: string, code: string, now: Time)
    ensures RowStatus(NewChallenge(phone, firstName, lastName, code, now))
  {
  }

  lemma RequestCodes(cs: map<Id, Challenge>, phone: Phone, firstName: string, lastName: string, newId: Id,
                     code: string, now: Time)
    requires CodesInv(cs) && newId !in cs
    ensures CodesInv(KeptChallenges(cs, phone, now)[newId := NewChallenge(phone, firstName, lastName, code, now)])
  {
    hide RowStatus, Apart, Superseded, NewChallenge;
    var row := NewChallenge(phone, firstName, lastName, code, now);
    var cs' := KeptChallenges(cs, phone, now)[newId := row];
    forall id | id in cs' ensures RowStatus(cs'[id]) {
      NewRowStatus(phone, firstName, lastName, code, now);
      SupersededApart(if id in cs then cs[id] else row, row, phone, firstName, lastName, code, now);
    }
    forall id, id' | id in cs' && id' in cs' && id != id' ensures Apart(cs'[id], cs'[id']) {
      SupersededApart(if id in cs then cs[id] else cs[id'], if id' in cs then cs[id'] else cs[id],
                      phone, firstName, lastName, code, now);
    }
  }

  lemma RequestFiled(cs: map<Id, Challenge>, requests: seq<Request>, clock: Time, q: Request, row: Challenge)
    requires FiledInv(cs, requests, clock) && q.at >= clock && q.id !in cs
    requires row.phone == q.phone && row.createdAt == q.at
    requires forall i | 0 <= i < |requests| :: requests[i].id != q.id
    ensures FiledInv(KeptChallenges(cs, q.phone, q.at)[q.id := row], requests + [q], q.at)
  {
    var cs', after := KeptChallenges(cs, q.phone, q.at)[q.id := row], requests + [q];
    forall i | 0 <= i < |after| && after[i].at >= q.at - DAY ensures Filed(cs', after[i]) {
      if i < |requests| { assert Filed(cs, requests[i]); }
    }
    forall id | id in cs' ensures exists i :: 0 <= i < |after| && after[i].id == id && Filed(cs', after[i]) {
      if id == q.id {
        assert after[|requests|] == q;
      } else {
        var i :| 0 <= i < |requests| && requests[i].id == id && Filed(cs, requests[i]);
        assert after[i] == requests[i];
      }
    }
  }

  /** Too soon after an earlier request of the history, as the tables alone can tell. */
  lemma SeenInTables(cs: map<Id, Challenge>, requests: seq<Request>, clock: Time, phone: Phone, now: Time)
    requires FiledInv(cs, requests, clock) && now >= clock
    ensures RequestedSince(cs, phone, now - RESEND_DELAY)
       <==> exists i :: 0 <= i < |requests| && requests[i].phone == phone && requests[i].at > now - RESEND_DELAY
  {
    if RequestedSince(cs, phone, now - RESEND_DELAY) {
      var id :| id in cs && cs[id].phone == phone && cs[id].createdAt > now - RESEND_DELAY;
      var i :| 0 <= i < |requests| && requests[i].id == id && Filed(cs, requests[i]);
      assert requests[i].phone == phone;
    }
    if i :| 0 <= i < |requests| && requests[i].phone == phone && requests[i].at > now - RESEND_DELAY {
      assert Filed(cs, requests[i]);
    }
  }

  lemma RequestWaits(requests: seq<Request>, r: Challenge, q: Request)
    requires WaitingInv(requests, r) && RowStatus(r)
    requires r.phone == q.phone ==> r.createdAt < q.at
    ensures WaitingInv(requests + [q], Superseded(r, q.phone))
  {
    assert (requests + [q])[|requests|] == q;
    if r.phone == q.phone {
      assert !Newest(requests + [q], Superseded(r, q.phone));
    } else {
      assert Newest(requests + [q], r) <==> Newest(requests, r) by {
        assert forall j | 0 <= j < |requests| :: (requests + [q])[j] == requests[j];
      }
    }
  }

  lemma RequestLives(cs: map<Id, Challenge>, requests: seq<Request>, clock: Time, q: Request, firstName: string,
                     lastName: string, code: string)
    requires CodeLives(cs, requests) && CodesInv(cs) && FiledInv(cs, requests, clock) && clock <= q.at
    requires !RequestedSince(cs, q.phone, q.at - RESEND_DELAY)
    ensures CodeLives(KeptChallenges(cs, q.phone, q.at)[q.id := NewChallenge(q.phone, firstName, lastName, code, q.at)],
                      requests + [q])
  {
    var row := NewChallenge(q.phone, firstName, lastName, code, q.at);
    forall j | 0 <= j < |requests + [q]| ensures (requests + [q])[j].at <= q.at {}
    assert WaitingInv(requests + [q], row);
    hide WaitingInv, NewChallenge, Superseded;
    forall id | id in cs ensures WaitingInv(requests + [q], Superseded(cs[id], q.phone)) {
      RequestWaits(requests, cs[id], q);
    }
  }

  lemma RequestSpaced(requests: seq<Request>, q: Request)
    requires SpacedInv(requests)
    requires forall i | 0 <= i < |requests| && requests[i].phone == q.phone :: requests[i].at <= q.at - RESEND_DELAY
    ensures SpacedInv(requests + [q])
  {
  }

  lemma RequestRate(w: World, clock: Time, q: Request, rates: map<RateKey, nat>, key: RateKey)
    requires RateInv(w, clock, key) && q.at >= clock
    requires RateInv(w, clock, PhoneKey(q.phone, q.at)) && RateInv(w, clock, IpKey(q.ip, q.at))
    requires CountOf(w.db.rates, PhoneKey(q.phone, q.at)) < PHONE_LIMIT
    requires CountOf(w.db.rates, IpKey(q.ip, q.at)) < IP_LIMIT
    ensures var w' := w.(db := w.db.(rates := CountedRates(w.db.rates, q.phone, q.ip, q.at)),
                         history := w.history.(requests := w.history.requests + [q]));
            RateInv(w', q.at, key)
  {
    CountedAppend(w.history.requests, q, key);
    HourIsKept(q.at, clock);
    LaterKept(key, clock, q.at);
    CountedOne(w.db.rates, q, key);
    hide KeptRate, CountedRates, Counts;
  }

  lemma LaterKept(key: RateKey, clock: Time, now: Time)
    requires now >= clock
    ensures KeptRate(key, now) ==> KeptRate(key, clock)
  {
  }

  /** A kept counter goes up by one exactly when it counts the request. */
  lemma CountedOne(rates: map<RateKey, nat>, q: Request, key: RateKey)
    ensures KeptRate(key, q.at) ==>
              CountOf(CountedRates(rates, q.phone, q.ip, q.at), key) ==
              CountOf(rates, key) + if Counts(q, key) then 1 else 0
    ensures Counts(q, key) ==> KeptRate(key, q.at)
    ensures Counts(q, key) ==> key == PhoneKey(q.phone, q.at) || key == IpKey(q.ip, q.at)
  {
    HourIsKept(q.at, q.at);
  }

  /** The counters of the running hour are live. */
  lemma HourIsKept(now: Time, clock: Time)
    requires now >= clock
    ensures (now / HOUR + 1) * HOUR >= now - HOUR && (now / HOUR + 1) * HOUR >= clock - HOUR
  {
  }

  lemma RequestTries(w: World, e: CandidateEvent, id: Id)
    requires e.RequestEvent? && e.id !in w.history.issued && TriesInv(w, id) && TriesInv(w, e.id)
    ensures TriesInv(Step(w, Candidate(e)), id)
  {
  }

  predicate Accepted(w: World, e: CandidateEvent) {
    e.RequestEvent? && RequestCode(w.db, e.phone, e.firstName, e.lastName, e.ip, e.id, e.code, e.now).1.Ok?
  }

  function RequestOf(e: CandidateEvent): Request
    requires e.RequestEvent? && e.phone.Some?
  {
    Request(e.id, e.phone.value, e.ip, e.now)
  }

  lemma AcceptedStep(w: World, e: CandidateEvent)
    requires Accepted(w, e)
    ensures e.phone.Some? && e.id !in w.db.challenges && !TooMany(w.db, e.phone.value, e.ip, e.now)
    ensures var w', q := Step(w, Candidate(e)), RequestOf(e);
            && w'.db.challenges == KeptChallenges(w.db.challenges, q.phone, q.at)
                                     [q.id := NewChallenge(q.phone, e.firstName, e.lastName, e.code, q.at)]
            && w'.db.rates == CountedRates(w.db.rates, q.phone, q.ip, q.at)
            && w'.history.requests == w.history.requests + [q] && w'.history.issued == w.history.issued + {q.id}
  {
  }

  lemma AcceptedChallenges(w: World, clock: Time, e: CandidateEvent)
    requires CandidateInv(w, clock) && InOrder(w, clock, Candidate(e)) && Accepted(w, e)
    ensures var w' := Step(w, Candidate(e));
            && CodesInv(w'.db.challenges) && FiledInv(w'.db.challenges, w'.history.requests, e.now)
            && SpacedInv(w'.history.requests) && CodeLives(w'.db.challenges, w'.history.requests)
  {
    AcceptedStep(w, e);
    var q, requests := RequestOf(e), w.history.requests;
    hide Step, NameAllowed, KeptChallenges, CountedRates, CodesInv, CodeLives, SpacedInv;
    RequestCodes(w.db.challenges, q.phone, e.firstName, e.lastName, e.id, e.code, e.now);
    RequestFiled(w.db.challenges, requests, clock, q, NewChallenge(q.phone, e.firstName, e.lastName, e.code, e.now));
    SeenInTables(w.db.challenges, requests, clock, q.phone, e.now);
    RequestLives(w.db.challenges, requests, clock, q, e.firstName, e.lastName, e.code);
    RequestSpaced(requests, q);
  }

  lemma AcceptedRates(w: World, clock: Time, e: CandidateEvent, key: RateKey)
    requires CandidateInv(w, clock) && InOrder(w, clock, Candidate(e)) && Accepted(w, e)
    ensures RateInv(Step(w, Candidate(e)), e.now, key)
  {
    AcceptedStep(w, e);
    hide Step, NameAllowed, KeptChallenges, CodesInv, FiledInv, SpacedInv, CodeLives, CountedRates;
    RequestRate(w, clock, RequestOf(e), w.db.rates, key);
  }

  lemma AcceptedRequest(w: World, clock: Time, e: CandidateEvent)
    requires CandidateInv(w, clock) && InOrder(w, clock, Candidate(e)) && e.RequestEvent?
    ensures CandidateInv(Step(w, Candidate(e)), e.now)
  {
    var w' := Step(w, Candidate(e));
    if Accepted(w, e) {
      AcceptedStep(w, e);
      hide Step, NameAllowed, KeptChallenges, CodesInv, FiledInv, SpacedInv, CodeLives, RateInv, TriesInv,
           CountedRates, TooMany;
      forall id ensures TriesInv(w', id) { RequestTries(w, e, id); }
      AcceptedChallenges(w, clock, e);
      forall key ensures RateInv(w', e.now, key) { AcceptedRates(w, clock, e, key); }
    } else {
      hide CandidateInv, NameAllowed, TooMany;
      LaterClock(w, clock, e.now);
    }
  }

  lemma LaterClock(w: World, clock: Time, now: Time)
    requires CandidateInv(w, clock) && now >= clock
    ensures CandidateInv(w, now)
  {
    forall key ensures RateInv(w, now, key) {
      assert RateInv(w, clock, key);
    }
  }

  // ---- Using a code ----

  /** A step that leaves counters, requests, phones and dates alone. */
  predicate SameRequests(w: World, w': World) {
    && w'.db.rates == w.db.rates && w'.history.requests == w.history.requests
    && w'.history.issued == w.history.issued && w'.db.challenges.Keys == w.db.challenges.Keys
    && forall id | id in w.db.challenges ::
         w'.db.challenges[id].phone == w.db.challenges[id].phone
         && w'.db.challenges[id].createdAt == w.db.challenges[id].createdAt
  }

  lemma SameRequestsKeep(w: World, w': World, clock: Time)
    requires CandidateInv(w, clock) && SameRequests(w, w')
    requires CodesInv(w'.db.challenges) && CodeLives(w'.db.challenges, w.history.requests)
    requires forall id :: TriesInv(w', id)
    ensures CandidateInv(w', clock)
  {
    var requests := w.history.requests;
    forall i | 0 <= i < |requests| && requests[i].at >= clock - DAY ensures Filed(w'.db.challenges, requests[i]) {
      assert Filed(w.db.challenges, requests[i]);
    }
    forall id | id in w'.db.challenges
      ensures exists i :: 0 <= i < |requests| && requests[i].id == id && Filed(w'.db.challenges, requests[i])
    {
      var i :| 0 <= i < |requests| && requests[i].id == id && Filed(w.db.challenges, requests[i]);
      assert Filed(w'.db.challenges, requests[i]);
    }
    forall key ensures RateInv(w', clock, key) {
      assert RateInv(w, clock, key);
    }
  }

  lemma VerifyCodes(t: Tables, id: Id, code: string, token: Token, now: Time)
    requires CodesInv(t.challenges)
    ensures CodesInv(VerifyCode(t, id, code, token, now).0.challenges)
  {
    var cs, cs' := t.challenges, VerifyCode(t, id, code, token, now).0.challenges;
    forall i, j | i in cs' && j in cs' && i != j ensures Apart(cs'[i], cs'[j]) {
      assert Apart(cs[i], cs[j]) && Apart(cs[j], cs[i]);
    }
  }

  lemma SubmitCodes(t: Tables, id: Id, reference: string)
    requires CodesInv(t.challenges) && id in t.challenges && t.challenges[id].token.Some?
    ensures CodesInv(Submit(t, id, reference).0.challenges)
  {
    var cs, cs' := t.challenges, Submit(t, id, reference).0.challenges;
    forall i, j | i in cs' && j in cs' && i != j ensures Apart(cs'[i], cs'[j]) {
      assert Apart(cs[i], cs[j]) && RowStatus(cs[i]) && RowStatus(cs[j]);
    }
  }

  lemma TryCounts(w: World, e: CandidateEvent, id: Id)
    requires e.VerifyEvent? && TriesInv(w, id)
    ensures TriesInv(Step(w, Candidate(e)), id)
  {
  }

  lemma TrySameRequests(w: World, e: CandidateEvent)
    requires e.VerifyEvent?
    ensures SameRequests(w, Step(w, Candidate(e)))
  {
    hide TokenTaken, Usable;
  }

  lemma TryLives(w: World, e: CandidateEvent)
    requires e.VerifyEvent? && CodeLives(w.db.challenges, w.history.requests)
    ensures CodeLives(Step(w, Candidate(e)).db.challenges, w.history.requests)
  {
    var cs, cs' := w.db.challenges, Step(w, Candidate(e)).db.challenges;
    forall id | id in cs' ensures WaitingInv(w.history.requests, cs'[id]) {
      assert WaitingInv(w.history.requests, cs[id]);
    }
  }

  lemma AcceptedTry(w: World, clock: Time, e: CandidateEvent)
    requires CandidateInv(w, clock) && e.VerifyEvent?
    ensures CandidateInv(Step(w, Candidate(e)), clock)
  {
    var w' := Step(w, Candidate(e));
    VerifyCodes(w.db, e.id, e.code, e.token, e.now);
    assert w'.db == VerifyCode(w.db, e.id, e.code, e.token, e.now).0;
    hide Step, VerifyCode, TriesInv, CodesInv, CodeLives;
    TryLives(w, e);
    forall id ensures TriesInv(w', id) { TryCounts(w, e, id); }
    TrySameRequests(w, e);
    SameRequestsKeep(w, w', clock);
  }

  lemma FilingCounts(w: World, e: CandidateEvent, id: Id)
    requires e.SubmitEvent? && TriesInv(w, id)
    ensures TriesInv(Step(w, Candidate(e)), id)
  {
  }

  lemma FilingSameRequests(w: World, e: CandidateEvent)
    requires e.SubmitEvent?
    ensures SameRequests(w, Step(w, Candidate(e)))
  {
  }

  lemma FilingCodes(w: World, e: CandidateEvent)
    requires CodesInv(w.db.challenges) && e.SubmitEvent?
    ensures CodesInv(Step(w, Candidate(e)).db.challenges)
  {
    var found := Identify(Views(w.db.challenges), e.token, e.now);
    if found.Ok? {
      SubmitCodes(w.db, found.value, e.reference);
    }
  }

  lemma FilingLives(w: World, e: CandidateEvent)
    requires e.SubmitEvent? && CodeLives(w.db.challenges, w.history.requests)
    ensures CodeLives(Step(w, Candidate(e)).db.challenges, w.history.requests)
  {
    var cs, cs' := w.db.challenges, Step(w, Candidate(e)).db.challenges;
    forall id | id in cs' ensures WaitingInv(w.history.requests, cs'[id]) {
      assert WaitingInv(w.history.requests, cs[id]);
    }
  }

  lemma AcceptedFiling(w: World, clock: Time, e: CandidateEvent)
    requires CandidateInv(w, clock) && e.SubmitEvent?
    ensures CandidateInv(Step(w, Candidate(e)), clock)
  {
    hide Step, TriesInv, CodesInv, CodeLives;
    var w' := Step(w, Candidate(e));
    FilingCodes(w, e);
    FilingLives(w, e);
    forall id ensures TriesInv(w', id) { FilingCounts(w, e, id); }
    FilingSameRequests(w, e);
    SameRequestsKeep(w, w', clock);
  }

  // ---- The carrier changes none of it ----

  lemma SameViewCodes(cs: map<Id, Challenge>, cs': map<Id, Challenge>)
    requires CodesInv(cs) && cs'.Keys == cs.Keys
    requires forall id | id in cs :: ViewOf(cs'[id]) == ViewOf(cs[id])
    ensures CodesInv(cs')
  {
    forall id | id in cs' ensures RowStatus(cs'[id]) {
      assert ViewOf(cs'[id]) == ViewOf(cs[id]);
    }
    forall i, j | i in cs' && j in cs' && i != j ensures Apart(cs'[i], cs'[j]) {
      assert ViewOf(cs'[i]) == ViewOf(cs[i]) && ViewOf(cs'[j]) == ViewOf(cs[j]) && Apart(cs[i], cs[j]);
    }
  }

  lemma SameViewLives(cs: map<Id, Challenge>, cs': map<Id, Challenge>, requests: seq<Request>)
    requires CodeLives(cs, requests) && cs'.Keys == cs.Keys
    requires forall id | id in cs :: ViewOf(cs'[id]) == ViewOf(cs[id])
    ensures CodeLives(cs', requests)
  {
    forall id | id in cs' ensures WaitingInv(requests, cs'[id]) {
      assert WaitingInv(requests, cs[id]) && ViewOf(cs'[id]) == ViewOf(cs[id]);
    }
  }

  lemma CarrierHistory(w: World, e: DeliveryEvent)
    ensures var h, h' := w.history, CarrierStep(w, e).history;
            h'.issued == h.issued && h'.requests == h.requests && h'.tries == h.tries && h'.granted == h.granted
  {
  }

  lemma CarrierKeepsCandidates(w: World, clock: Time, e: DeliveryEvent)
    requires CandidateInv(w, clock)
    ensures CandidateInv(CarrierStep(w, e), clock)
  {
    var w' := CarrierStep(w, e);
    CarrierKeepsView(w, e);
    SameViewForAll(w'.db, w.db);
    CarrierHistory(w, e);
    hide CarrierStep, SameView;
    SameViewCodes(w.db.challenges, w'.db.challenges);
    SameViewLives(w.db.challenges, w'.db.challenges, w.history.requests);
    forall id ensures TriesInv(w', id) {
      assert TriesInv(w, id);
      if id in w.db.challenges { assert ViewOf(w'.db.challenges[id]) == ViewOf(w.db.challenges[id]); }
    }
    forall id | id in w.db.challenges
      ensures w'.db.challenges[id].phone == w.db.challenges[id].phone
              && w'.db.challenges[id].createdAt == w.db.challenges[id].createdAt
    {
      assert ViewOf(w'.db.challenges[id]) == ViewOf(w.db.challenges[id]);
    }
    assert w'.db.rates == w.db.rates by { SameViewRates(w'.db, w.db); }
    SameRequestsKeep(w, w', clock);
  }

  lemma SameViewRates(s: Tables, t: Tables)
    requires SameView(s, t)
    ensures s.rates == t.rates
  {
  }

  // ---- Whole runs ----

  lemma CandidateStepKeeps(w: World, clock: Time, e: Event)
    requires CandidateInv(w, clock) && InOrder(w, clock, e)
    ensures CandidateInv(Step(w, e), ClockOf(e, clock))
  {
    match e {
      case Carrier(d) => CarrierKeepsCandidates(w, clock, d);
      case Candidate(c) =>
        match c {
          case RequestEvent(_, _, _, _, _, _, _) => AcceptedRequest(w, clock, c);
          case VerifyEvent(_, _, _, now) => AcceptedTry(w, clock, c); LaterClock(Step(w, e), clock, now);
          case IdentifyEvent(_, now) => LaterClock(w, clock, now);
          case SubmitEvent(_, _, now) => AcceptedFiling(w, clock, c); LaterClock(Step(w, e), clock, now);
        }
    }
  }

  lemma {:induction false} CandidateRun(w: World, clock: Time, es: seq<Event>)
    requires CandidateInv(w, clock) && InOrderRun(w, clock, es)
    ensures CandidateInv(Run(w, es), LastClock(clock, es))
    decreases |es|
  {
    if es == [] {
    } else {
      CandidateStepKeeps(w, clock, es[0]);
      CandidateRun(Step(w, es[0]), ClockOf(es[0], clock), es[1..]);
    }
  }

  lemma EmptyInv(clock: Time)
    ensures CandidateInv(EMPTY, clock)
  {
  }

  /** At any time at most one code of a phone can still be used. */
  lemma OneUsableCode(es: seq<Event>, start: Time, id: Id, id': Id, now: Time)
    requires InOrderRun(EMPTY, start, es)
    requires id in Run(EMPTY, es).db.challenges && id' in Run(EMPTY, es).db.challenges
    requires Usable(Run(EMPTY, es).db.challenges[id], now) && Usable(Run(EMPTY, es).db.challenges[id'], now)
    requires Run(EMPTY, es).db.challenges[id].phone == Run(EMPTY, es).db.challenges[id'].phone
    ensures id == id'
  {
    EmptyInv(start);
    CandidateRun(EMPTY, start, es);
    var cs := Run(EMPTY, es).db.challenges;
    assert RowStatus(cs[id]) && RowStatus(cs[id']);
    assert id != id' ==> Apart(cs[id], cs[id']);
  }

  /** A token opens at most one row, so an identity never depends on the order of the rows. */
  lemma TokenOpensOneRow(es: seq<Event>, start: Time, token: Token, id: Id, id': Id, now: Time)
    requires InOrderRun(EMPTY, start, es)
    requires id in Run(EMPTY, es).db.challenges && id' in Run(EMPTY, es).db.challenges
    requires Opens(Run(EMPTY, es).db.challenges[id], token, now)
    requires Opens(Run(EMPTY, es).db.challenges[id'], token, now)
    ensures id == id'
  {
    EmptyInv(start);
    CandidateRun(EMPTY, start, es);
    var cs := Run(EMPTY, es).db.challenges;
    assert id != id' ==> Apart(cs[id], cs[id']);
  }

  /** Whatever is tried, a code gets at most five tries and gives one access, even once purged. */
  lemma FewTries(es: seq<Event>, start: Time, id: Id)
    requires InOrderRun(EMPTY, start, es)
    ensures Run(EMPTY, es).history.tries[id] <= 5
    ensures Run(EMPTY, es).history.granted[id] <= 1
  {
    EmptyInv(start);
    CandidateRun(EMPTY, start, es);
    assert TriesInv(Run(EMPTY, es), id);
  }

  /** Accepted requests of a phone are at least sixty seconds apart, whatever was purged between them. */
  lemma RequestsApart(es: seq<Event>, start: Time, i: nat, j: nat)
    requires InOrderRun(EMPTY, start, es)
    requires i < j < |Run(EMPTY, es).history.requests|
    requires Run(EMPTY, es).history.requests[i].phone == Run(EMPTY, es).history.requests[j].phone
    ensures Run(EMPTY, es).history.requests[j].at >= Run(EMPTY, es).history.requests[i].at + 60
  {
    EmptyInv(start);
    CandidateRun(EMPTY, start, es);
  }

  /** Two moments share a counter of the phone, or of the address, exactly when they fall in one clock hour. */
  lemma OneCounterPerHour(phone: Phone, ip: string, t: Time, u: Time)
    ensures PhoneKey(phone, t) == PhoneKey(phone, u) <==> t / 3600 == u / 3600
    ensures IpKey(ip, t) == IpKey(ip, u) <==> t / 3600 == u / 3600
    ensures PhoneKey(phone, t) != IpKey(ip, u)
  {
  }

  /** What the whole history of committed requests allows. */
  ghost predicate WithinLimits(requests: seq<Request>, phone: Phone, ip: string, now: Time) {
    && Counted(requests, PhoneKey(phone, now)) < 5
    && Counted(requests, IpKey(ip, now)) < 20
    && forall i | 0 <= i < |requests| && requests[i].phone == phone :: requests[i].at <= now - 60
  }

  /** The tables decide exactly as the whole history would: five requests of the phone and twenty of the
      address in the clock hour, none of the phone in the last sixty seconds. */
  lemma AcceptedExactly(es: seq<Event>, start: Time, phone: Phone, firstName: string, lastName: string,
                        ip: string, id: Id, code: string, now: Time)
    requires InOrderRun(EMPTY, start, es) && now >= LastClock(start, es)
    requires id !in Run(EMPTY, es).history.issued
    ensures RequestCode(Run(EMPTY, es).db, Some(phone), firstName, lastName, ip, id, code, now).1.Ok?
       <==> 2 <= |Splitting.Strip(firstName)| <= 100 && 2 <= |Splitting.Strip(lastName)| <= 100
            && WithinLimits(Run(EMPTY, es).history.requests, phone, ip, now)
  {
    EmptyInv(start);
    CandidateRun(EMPTY, start, es);
    var w, clock := Run(EMPTY, es), LastClock(start, es);
    HourIsKept(now, clock);
    assert FiledInv(w.db.challenges, w.history.requests, clock);
    assert RateInv(w, clock, PhoneKey(phone, now)) && RateInv(w, clock, IpKey(ip, now));
    assert id !in w.db.challenges by { assert TriesInv(w, id); }
    hide CandidateInv, CodesInv, Run, InOrderRun, Splitting.Strip;
    SeenInTables(w.db.challenges, w.history.requests, clock, phone, now);
  }

  /** Access is given exactly for the right code, within five minutes of its request, before the phone asked
      for another one, before five tries were made, and once. */
  lemma AccessExactly(es: seq<Event>, start: Time, id: Id, code: string, token: Token, now: Time)
    requires InOrderRun(EMPTY, start, es) && id in Run(EMPTY, es).db.challenges
    requires !TokenTaken(Run(EMPTY, es).db.challenges, token)
    ensures VerifyCode(Run(EMPTY, es).db, id, code, token, now).1.Ok?
       <==> && code == Run(EMPTY, es).db.challenges[id].code
            && now < Run(EMPTY, es).db.challenges[id].createdAt + 300
            && Newest(Run(EMPTY, es).history.requests, Run(EMPTY, es).db.challenges[id])
            && Run(EMPTY, es).history.tries[id] < 5 && Run(EMPTY, es).history.granted[id] == 0
  {
    EmptyInv(start);
    CandidateRun(EMPTY, start, es);
    var w := Run(EMPTY, es);
    assert TriesInv(w, id) && WaitingInv(w.history.requests, w.db.challenges[id]) && RowStatus(w.db.challenges[id]);
    hide CandidateInv, Run, InOrderRun, TokenTaken, Newest;
  }

  /** Committed requests of a phone in the 3600 seconds from `start`. */
  function InWindow(requests: seq<Request>, phone: Phone, start: Time): nat {
    if requests == [] then 0
    else
      var q := requests[|requests| - 1];
      InWindow(requests[..|requests| - 1], phone, start)
      + if q.phone == phone && start <= q.at < start + 3600 then 1 else 0
  }

  lemma {:induction false} WindowSpansTwoHours(requests: seq<Request>, phone: Phone, start: Time)
    ensures InWindow(requests, phone, start)
         <= Counted(requests, PhoneKey(phone, start)) + Counted(requests, PhoneKey(phone, start + HOUR))
  {
    if requests == [] {
    } else {
      var q := requests[|requests| - 1];
      WindowSpansTwoHours(requests[..|requests| - 1], phone, start);
      if q.phone == phone && start <= q.at < start + HOUR {
        assert q.at / HOUR == start / HOUR || q.at / HOUR == (start + HOUR) / HOUR;
      }
    }
  }

  /** At most ten requests of a phone in any 3600 seconds, at most five in a clock hour. */
  lemma FewRequests(es: seq<Event>, start: Time, phone: Phone, since: Time)
    requires InOrderRun(EMPTY, start, es)
    ensures Counted(Run(EMPTY, es).history.requests, PhoneKey(phone, since)) <= 5
    ensures InWindow(Run(EMPTY, es).history.requests, phone, since) <= 10
  {
    EmptyInv(start);
    CandidateRun(EMPTY, start, es);
    var w, clock := Run(EMPTY, es), LastClock(start, es);
    assert RateInv(w, clock, PhoneKey(phone, since)) && RateInv(w, clock, PhoneKey(phone, since + HOUR));
    WindowSpansTwoHours(w.history.requests, phone, since);
  }
}
