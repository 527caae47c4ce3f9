/** What a verified code gives (app/modules/recruitment_sms_service.py): an access that opens its own row for two
    hours, whatever happens meanwhile, with the identity that asked for the code. */
module SmsAccess {
  import opened Wrappers
  import opened Splitting
  import opened SmsModel
  import opened SmsWorld
  import opened SmsCandidates

  // ---- The access lasts two hours ----

  /** The row verified at `at` with the token; once it is purged, the two hours are over. */
  ghost predicate OpenSince(w: World, clock: Time, id: Id, token: Token, at: Time) {
    && id in w.history.issued
    && (id in w.db.challenges ==>
          var r := w.db.challenges[id];
          && r.token == Some(token) && r.tokenExpiresAt == at + 7200 && r.status in {CodeVerified, CodeSubmitted}
          && r.createdAt + 300 > at)
    && (id !in w.db.challenges ==> clock >= at + 7200)
  }

  lemma GrantOpens(w: World, clock: Time, e: CandidateEvent)
    requires CandidateInv(w, clock) && e.VerifyEvent? && e.now >= clock
    requires VerifyCode(w.db, e.id, e.code, e.token, e.now).1.Ok?
    ensures OpenSince(Step(w, Candidate(e)), e.now, e.id, e.token, e.now)
  {
    assert TriesInv(w, e.id) && WaitingInv(w.history.requests, w.db.challenges[e.id]);
    hide CandidateInv, TokenTaken, Newest;
  }

  lemma RequestKeepsOpen(w: World, clock: Time, e: CandidateEvent, id: Id, token: Token, at: Time)
    requires e.RequestEvent? && OpenSince(w, clock, id, token, at) && e.now >= clock && e.id !in w.history.issued
    ensures OpenSince(Step(w, Candidate(e)), e.now, id, token, at)
  {
    if SmsCandidates.Accepted(w, e) {
      AcceptedStep(w, e);
      hide Step, TooMany, CountedRates, NewChallenge, NameAllowed;
    } else {
      hide TooMany, NameAllowed;
    }
  }

  lemma TryKeepsOpen(w: World, clock: Time, e: CandidateEvent, id: Id, token: Token, at: Time)
    requires e.VerifyEvent? && OpenSince(w, clock, id, token, at) && e.now >= clock
    ensures OpenSince(Step(w, Candidate(e)), e.now, id, token, at)
  {
    hide TokenTaken;
  }

  lemma FilingKeepsOpen(w: World, clock: Time, e: CandidateEvent, id: Id, token: Token, at: Time)
    requires (e.SubmitEvent? || e.IdentifyEvent?) && OpenSince(w, clock, id, token, at) && e.now >= clock
    ensures OpenSince(Step(w, Candidate(e)), e.now, id, token, at)
  {
  }

  lemma CarrierKeepsOpen(w: World, clock: Time, e: DeliveryEvent, id: Id, token: Token, at: Time)
    requires OpenSince(w, clock, id, token, at)
    ensures OpenSince(Step(w, Carrier(e)), clock, id, token, at)
  {
    CarrierKeepsView(w, e);
    SameViewAt(CarrierStep(w, e).db, w.db, id);
    CarrierHistory(w, e);
    hide CarrierStep, SameView;
  }

  lemma StepKeepsOpen(w: World, clock: Time, e: Event, id: Id, token: Token, at: Time)
    requires OpenSince(w, clock, id, token, at) && InOrder(w, clock, e)
    ensures OpenSince(Step(w, e), ClockOf(e, clock), id, token, at)
  {
    match e {
      case Carrier(d) => CarrierKeepsOpen(w, clock, d, id, token, at);
      case Candidate(c) =>
        match c {
          case RequestEvent(_, _, _, _, _, _, _) => RequestKeepsOpen(w, clock, c, id, token, at);
          case VerifyEvent(_, _, _, _) => TryKeepsOpen(w, clock, c, id, token, at);
          case _ => FilingKeepsOpen(w, clock, c, id, token, at);
        }
    }
  }

  lemma {:induction false} RunKeepsOpen(w: World, clock: Time, es: seq<Event>, id: Id, token: Token, at: Time)
    requires OpenSince(w, clock, id, token, at) && InOrderRun(w, clock, es)
    ensures OpenSince(Run(w, es), LastClock(clock, es), id, token, at)
    decreases |es|
  {
    if es == [] {
    } else {
      hide OpenSince, Step;
      StepKeepsOpen(w, clock, es[0], id, token, at);
      RunKeepsOpen(Step(w, es[0]), ClockOf(es[0], clock), es[1..], id, token, at);
    }
  }

  lemma TokensApart(cs: map<Id, Challenge>, id: Id, k: Id)
    requires CodesInv(cs) && id in cs && k in cs && cs[id].token.Some?
    ensures Views(cs)[k].token == cs[k].token && (cs[k].token == cs[id].token ==> k == id)
  {
    assert Views(cs)[k] == ViewOf(cs[k]);
    assert k != id ==> Apart(cs[id], cs[k]);
  }

  /** The token opens the row of that identifier, and no other, exactly while it is there and in time. */
  lemma IdentifiesExactly(w: World, clock: Time, id: Id, token: Token, at: Time, now: Time)
    requires CandidateInv(w, clock) && OpenSince(w, clock, id, token, at) && now >= clock
    ensures CandidateStep(w.db, IdentifyEvent(token, now)).1 == Identified(Ok(id)) <==> now < at + 7200
  {
    var cs := w.db.challenges;
    var found := Identify(Views(cs), token, now);
    assert forall k :: k in Views(cs) <==> k in cs;
    if id in cs {
      assert Views(cs)[id] == ViewOf(cs[id]);
      if found.Ok? {
        TokensApart(cs, id, found.value);
      }
    }
  }

  /** In every run, after a code was verified at `at`, whatever candidates, workers, gateway and webhooks do next,
      filing and purging included: the token opens the row of that code at `now` exactly when less than two
      hours have passed. */
  lemma AccessOpens(es: seq<Event>, start: Time, e: CandidateEvent, fs: seq<Event>, now: Time)
    requires InOrderRun(EMPTY, start, es) && e.VerifyEvent? && e.now >= LastClock(start, es)
    requires CandidateStep(Run(EMPTY, es).db, e).1.session.Ok?
    requires var v := Step(Run(EMPTY, es), Candidate(e)); InOrderRun(v, e.now, fs) && now >= LastClock(e.now, fs)
    ensures var v := Run(Step(Run(EMPTY, es), Candidate(e)), fs);
            CandidateStep(v.db, IdentifyEvent(e.token, now)).1 == Identified(Ok(e.id)) <==> now < e.now + 7200
  {
    var w, clock := Run(EMPTY, es), LastClock(start, es);
    EmptyInv(start);
    CandidateRun(EMPTY, start, es);
    GrantOpens(w, clock, e);
    CandidateStepKeeps(w, clock, Candidate(e));
    hide CandidateInv, OpenSince, Step, CandidateStep;
    RunKeepsOpen(Step(w, Candidate(e)), e.now, fs, e.id, e.token, e.now);
    CandidateRun(Step(w, Candidate(e)), e.now, fs);
    IdentifiesExactly(Run(Step(w, Candidate(e)), fs), LastClock(e.now, fs), e.id, e.token, e.now, now);
  }

  // ---- An application is filed once ----

  /** The row holds the reference of the application that was filed with it. */
  ghost predicate FiledAs(w: World, id: Id, reference: string) {
    id in w.history.issued
    && (id in w.db.challenges ==> w.db.challenges[id].submittedReference == Some(reference))
  }

  lemma RequestKeepsFiled(w: World, e: CandidateEvent, id: Id, reference: string)
    requires e.RequestEvent? && FiledAs(w, id, reference) && e.id !in w.history.issued
    ensures FiledAs(Step(w, Candidate(e)), id, reference)
  {
    if SmsCandidates.Accepted(w, e) {
      AcceptedStep(w, e);
      hide Step, TooMany, CountedRates, NewChallenge, NameAllowed;
    } else {
      hide TooMany, NameAllowed;
    }
  }

  lemma CandidateKeepsFiled(w: World, e: CandidateEvent, id: Id, reference: string)
    requires !e.RequestEvent? && FiledAs(w, id, reference)
    ensures FiledAs(Step(w, Candidate(e)), id, reference)
  {
    hide TokenTaken;
  }

  lemma CarrierKeepsFiled(w: World, e: DeliveryEvent, id: Id, reference: string)
    requires FiledAs(w, id, reference)
    ensures FiledAs(Step(w, Carrier(e)), id, reference)
  {
    CarrierKeepsView(w, e);
    SameViewAt(CarrierStep(w, e).db, w.db, id);
    CarrierHistory(w, e);
    hide CarrierStep, SameView;
  }

  lemma {:induction false} RunKeepsFiled(w: World, clock: Time, es: seq<Event>, id: Id, reference: string)
    requires FiledAs(w, id, reference) && InOrderRun(w, clock, es)
    ensures FiledAs(Run(w, es), id, reference)
    decreases |es|
  {
    if es == [] {
    } else {
      match es[0] {
        case Carrier(d) => CarrierKeepsFiled(w, d, id, reference);
        case Candidate(c) =>
          if c.RequestEvent? {
            RequestKeepsFiled(w, c, id, reference);
          } else {
            CandidateKeepsFiled(w, c, id, reference);
          }
      }
      hide FiledAs, Step;
      RunKeepsFiled(Step(w, es[0]), ClockOf(es[0], clock), es[1..], id, reference);
    }
  }

  lemma FilingAnswers(w: World, e: CandidateEvent, id: Id)
    requires e.SubmitEvent? && CandidateStep(w.db, IdentifyEvent(e.token, e.now)).1 == Identified(Ok(id))
    ensures id in w.db.challenges
    ensures CandidateStep(w.db, e).1
         == Submitted(Ok(if w.db.challenges[id].submittedReference.Some?
                         then w.db.challenges[id].submittedReference.value else e.reference))
    ensures CandidateStep(w.db, e).0.challenges.Keys == w.db.challenges.Keys
    ensures CandidateStep(w.db, e).1 == Submitted(Ok(CandidateStep(w.db, e).0.challenges[id].submittedReference.value))
    ensures CandidateStep(w.db, e).0.challenges[id].submittedReference.Some?
    ensures CandidateStep(w.db, e).0.challenges[id].status == CodeSubmitted
         || w.db.challenges[id].submittedReference.Some?
  {
  }

  /** An access files one application: the first filing keeps its reference, and every later one made with an access
      to the same row is answered that reference, whatever happens between them. */
  lemma FiledOnce(es: seq<Event>, start: Time, e: CandidateEvent, fs: seq<Event>, f: CandidateEvent, id: Id)
    requires InOrderRun(EMPTY, start, es) && e.SubmitEvent? && f.SubmitEvent?
    requires CandidateStep(Run(EMPTY, es).db, IdentifyEvent(e.token, e.now)).1 == Identified(Ok(id))
    requires InOrderRun(Step(Run(EMPTY, es), Candidate(e)), e.now, fs)
    requires var v := Run(Step(Run(EMPTY, es), Candidate(e)), fs);
             CandidateStep(v.db, IdentifyEvent(f.token, f.now)).1 == Identified(Ok(id))
    ensures var w := Run(EMPTY, es);
            var v := Run(Step(w, Candidate(e)), fs);
            CandidateStep(w.db, e).1.reference.Ok? && CandidateStep(v.db, f).1 == CandidateStep(w.db, e).1
  {
    var w := Run(EMPTY, es);
    EmptyInv(start);
    CandidateRun(EMPTY, start, es);
    assert TriesInv(w, id);
    FilingAnswers(w, e, id);
    var v := Step(w, Candidate(e));
    assert v.history.issued == w.history.issued;
    hide CandidateInv, CandidateStep, Step;
    FilingTables(w, e);
    RunKeepsFiled(v, e.now, fs, id, v.db.challenges[id].submittedReference.value);
    FilingAnswers(Run(v, fs), f, id);
  }

  lemma FilingTables(w: World, e: CandidateEvent)
    ensures Step(w, Candidate(e)).db == CandidateStep(w.db, e).0
  {
  }

  // ---- The identity of a code ----

  /** The request of the run that filed the identifier. */
  ghost function FiledBy(w: World, es: seq<Event>, id: Id, known: Option<CandidateEvent>): Option<CandidateEvent>
    decreases |es|
  {
    if es == [] then known
    else
      FiledBy(Step(w, es[0]), es[1..], id,
              if es[0].Candidate? && SmsCandidates.Accepted(w, es[0].c) && es[0].c.id == id
              then Some(es[0].c) else known)
  }

  /** The row holds what the request asked for: its phone, its names stripped, its code, for five minutes. */
  ghost predicate RowOf(r: Challenge, filed: Option<CandidateEvent>) {
    && filed.Some? && filed.value.RequestEvent? && filed.value.phone == Some(r.phone)
    && r.firstName == Strip(filed.value.firstName) && r.lastName == Strip(filed.value.lastName)
    && r.code == filed.value.code && r.createdAt == filed.value.now && r.expiresAt == filed.value.now + 300
  }

  ghost predicate RowFiled(w: World, id: Id, filed: Option<CandidateEvent>) {
    id in w.db.challenges ==> RowOf(w.db.challenges[id], filed)
  }

  ghost function FiledNow(w: World, e: Event, id: Id, known: Option<CandidateEvent>): Option<CandidateEvent> {
    if e.Candidate? && SmsCandidates.Accepted(w, e.c) && e.c.id == id then Some(e.c) else known
  }

  lemma SameFields(r: Challenge, q: Challenge, filed: Option<CandidateEvent>)
    requires RowOf(r, filed) && q.phone == r.phone && q.firstName == r.firstName && q.lastName == r.lastName
    requires q.code == r.code && q.createdAt == r.createdAt && q.expiresAt == r.expiresAt
    ensures RowOf(q, filed)
  {
  }

  lemma RequestFiles(w: World, e: CandidateEvent, id: Id, known: Option<CandidateEvent>)
    requires RowFiled(w, id, known) && e.RequestEvent?
    ensures RowFiled(Step(w, Candidate(e)), id, FiledNow(w, Candidate(e), id, known))
  {
    if SmsCandidates.Accepted(w, e) {
      AcceptedStep(w, e);
      hide Step, TooMany, CountedRates, NameAllowed, SmsCandidates.Accepted, Strip;
    } else {
      hide TooMany, NameAllowed, RowOf;
    }
  }

  lemma TryFiled(w: World, e: CandidateEvent, id: Id, known: Option<CandidateEvent>)
    requires RowFiled(w, id, known) && !e.RequestEvent?
    ensures RowFiled(Step(w, Candidate(e)), id, known)
  {
    hide TokenTaken, Strip;
  }

  lemma CarrierFiled(w: World, e: DeliveryEvent, id: Id, known: Option<CandidateEvent>)
    requires RowFiled(w, id, known)
    ensures RowFiled(Step(w, Carrier(e)), id, known)
  {
    CarrierKeepsView(w, e);
    SameViewAt(CarrierStep(w, e).db, w.db, id);
    hide CarrierStep, SameView, RowOf;
    if id in w.db.challenges {
      SameFields(w.db.challenges[id], CarrierStep(w, e).db.challenges[id], known);
    }
  }

  lemma {:induction false} RunFiled(w: World, es: seq<Event>, id: Id, known: Option<CandidateEvent>)
    requires RowFiled(w, id, known)
    ensures RowFiled(Run(w, es), id, FiledBy(w, es, id, known))
    decreases |es|
  {
    if es == [] {
    } else {
      var e := es[0];
      match e {
        case Carrier(d) => CarrierFiled(w, d, id, known);
        case Candidate(c) => if c.RequestEvent? { RequestFiles(w, c, id, known); } else { TryFiled(w, c, id, known); }
      }
      hide RowFiled, Step, SmsCandidates.Accepted;
      RunFiled(Step(w, e), es[1..], id, FiledNow(w, e, id, known));
    }
  }

  /** A code that is verified, in any run, gives the identity of the request that filed it: its phone and its names,
      stripped; and it is the code of that request. */
  lemma SessionIsTheirs(es: seq<Event>, id: Id, code: string, token: Token, now: Time)
    requires VerifyCode(Run(EMPTY, es).db, id, code, token, now).1.Ok?
    ensures var filed := FiledBy(EMPTY, es, id, None);
            && filed.Some? && filed.value.RequestEvent? && filed.value.phone.Some?
            && code == filed.value.code && now < filed.value.now + 300
            && VerifyCode(Run(EMPTY, es).db, id, code, token, now).1.value
               == Session(token, Strip(filed.value.firstName), Strip(filed.value.lastName), filed.value.phone.value)
  {
    RunFiled(EMPTY, es, id, None);
    hide Run, FiledBy, TokenTaken, Strip;
  }
}
