/** Whole runs of the SMS service: candidates, any number of dispatch workers with their jobs in flight,
    crashes, an unreliable gateway, tracking and webhooks. Every event is one transaction, one
    network call, or one lost worker. */
module SmsWorld {
  import opened Wrappers
  import opened SmsModel

  /** One reservation of a challenge, in flight until it is recorded or its worker dies. */
  datatype Job = Job(id: Id, attempt: nat)

  /** `at` is the clock the worker read when it started, which it keeps to the end. */
  datatype Phase = Reserved(at: Time) | Answered(at: Time, reply: Reply)

  /** A committed request, kept as history. */
  datatype Request = Request(id: Id, phone: Phone, ip: string, at: Time)

  /** What happened so far; no step reads it. */
  datatype History = History(
    issued: set<Id>, requests: seq<Request>, tries: multiset<Id>, granted: multiset<Id>,
    calls: multiset<Id>, taken: multiset<Id>)

  datatype World = World(db: Tables, jobs: map<Job, Phase>, history: History)

  const EMPTY := World(Tables(map[], map[]), map[],
                       History({}, [], multiset{}, multiset{}, multiset{}, multiset{}))

  /** What becomes of a message put on the wire. The gateway refuses an identifier it already holds. */
  datatype Wire =
    | NeverArrived
    | Refused(final: bool)
    | Arrived(answered: bool, report: Option<Report>)

  datatype CandidateEvent =
    | RequestEvent(
        phone: Option<Phone>, firstName: string, lastName: string, ip: string, id: Id, code: string, now: Time)
    | VerifyEvent(id: Id, code: string, token: Token, now: Time)
    | IdentifyEvent(token: Token, now: Time)
    | SubmitEvent(token: Token, reference: string, now: Time)

  datatype DeliveryEvent =
    | ReserveEvent(picked: set<Id>, now: Time)
    | SendEvent(job: Job, wire: Wire)
    | RecordEvent(job: Job)
    | CrashEvent(job: Job)
    | ReportEvent(id: Id, report: Report, error: string, now: Time)
    | TrackEvent(picked: set<Id>, now: Time)

  datatype Event = Candidate(c: CandidateEvent) | Carrier(d: DeliveryEvent)

  datatype Answer =
    | Requested(issued: Result<Issued, Problem>)
    | Verified(session: Result<Session, Problem>)
    | Identified(row: Result<Id, Problem>)
    | Submitted(reference: Result<string, Problem>)

  // ---- The part of a row the candidate's calls read and write ----

  datatype CodeView = CodeView(
    phone: Phone, firstName: string, lastName: string, code: string, createdAt: Time, expiresAt: Time,
    attempts: nat, status: CodeStatus, token: Option<Token>, tokenExpiresAt: Time,
    submittedReference: Option<string>)

  function ViewOf(r: Challenge): CodeView {
    CodeView(r.phone, r.firstName, r.lastName, r.code, r.createdAt, r.expiresAt, r.attempts, r.status,
             r.token, r.tokenExpiresAt, r.submittedReference)
  }

  function Views(challenges: map<Id, Challenge>): map<Id, CodeView> {
    map id | id in challenges :: ViewOf(challenges[id])
  }

  predicate SameView(s: Tables, t: Tables) {
    s.rates == t.rates && Views(s.challenges) == Views(t.challenges)
  }

  // ---- Candidate steps ----

  predicate ViewOpens(v: CodeView, token: Token, now: Time) {
    v.token == Some(token) && v.tokenExpiresAt > now && v.status in {CodeVerified, CodeSubmitted}
  }

  ghost function Identify(views: map<Id, CodeView>, token: Token, now: Time): (r: Result<Id, Problem>)
    ensures r.Ok? ==> r.value in views && ViewOpens(views[r.value], token, now)
    ensures r.Err? ==> r.error == Problem(401)
                       && forall id :: id in views ==> !ViewOpens(views[id], token, now)
  {
    if exists id :: id in views && ViewOpens(views[id], token, now) then
      var id :| id in views && ViewOpens(views[id], token, now);
      Ok(id)
    else Err(Problem(401))
  }

  ghost function CandidateStep(t: Tables, e: CandidateEvent): (Tables, Answer) {
    match e
    case RequestEvent(phone, firstName, lastName, ip, id, code, now) =>
      var (t', r) := RequestCode(t, phone, firstName, lastName, ip, id, code, now);
      (t', Requested(r))
    case VerifyEvent(id, code, token, now) =>
      var (t', r) := VerifyCode(t, id, code, token, now);
      (t', Verified(r))
    case IdentifyEvent(token, now) => (t, Identified(Identify(Views(t.challenges), token, now)))
    case SubmitEvent(token, reference, now) =>
      match Identify(Views(t.challenges), token, now)
      case Err(p) => (t, Submitted(Err(p)))
      case Ok(id) =>
        var (t', r) := Submit(t, id, reference);
        (t', Submitted(Ok(r)))
  }

  ghost function CandidateHistory(t: Tables, h: History, e: CandidateEvent): History {
    match (e, CandidateStep(t, e).1)
    case (RequestEvent(_, _, _, ip, id, _, now), Requested(Ok(issued))) =>
      h.(issued := h.issued + {id}, requests := h.requests + [Request(id, issued.phone, ip, now)])
    case (VerifyEvent(id, _, _, now), Verified(r)) =>
      if id !in t.challenges || !Usable(t.challenges[id], now) || r == Err(Problem(500)) then h
      else h.(tries := h.tries + multiset{id}, granted := h.granted + if r.Ok? then multiset{id} else multiset{})
    case _ => h
  }

  // ---- Delivery steps ----

  /** The rows a reservation really takes. */
  function Taken(challenges: map<Id, Challenge>, picked: set<Id>, now: Time): set<Id> {
    set id | id in challenges && id in picked && Eligible(Sweep(challenges[id], now), now)
  }

  function NewJobs(challenges: map<Id, Challenge>, taken: set<Id>, now: Time): map<Job, Phase>
    requires taken <= challenges.Keys
  {
    var keys := set id | id in taken :: Job(id, challenges[id].sendAttempts + 1);
    map job | job in keys :: Reserved(now)
  }

  /** Whether the message reaches the gateway and is new to it, and what the worker hears. */
  function Deliver(known: bool, wire: Wire): (bool, Reply) {
    match wire
    case NeverArrived => (false, Retry("gateway_unreachable"))
    case Refused(final) => (false, if final then Rejected("gateway_http") else Retry("gateway_http"))
    case Arrived(answered, report) =>
      (!known,
       if !answered then Retry("gateway_timeout")
       else if known then Took(None)
       else if report == Some(ReportFailed) then Rejected("gateway_failed")
       else Took(report))
  }

  function CarrierStep(w: World, e: DeliveryEvent): World {
    var challenges := w.db.challenges;
    match e
    case ReserveEvent(picked, now) =>
      w.(db := w.db.(challenges := Reserve(challenges, picked, now)),
         jobs := w.jobs + NewJobs(challenges, Taken(challenges, picked, now), now))
    case SendEvent(job, wire) =>
      if job !in w.jobs || !w.jobs[job].Reserved? then w
      else
        var (taken, reply) := Deliver(job.id in w.history.taken, wire);
        w.(jobs := w.jobs[job := Answered(w.jobs[job].at, reply)],
           history := w.history.(calls := w.history.calls + multiset{job.id},
                                 taken := w.history.taken + if taken then multiset{job.id} else multiset{}))
    case RecordEvent(job) =>
      if job !in w.jobs || !w.jobs[job].Answered? then w
      else
        var rest := w.(jobs := w.jobs - {job});
        if job.id !in challenges then rest
        else
          var recorded := Record(challenges[job.id], w.jobs[job].reply, w.jobs[job].at);
          rest.(db := w.db.(challenges := challenges[job.id := recorded]))
    case CrashEvent(job) => w.(jobs := w.jobs - {job})
    case ReportEvent(id, report, error, now) =>
      if id !in challenges then w
      else w.(db := w.db.(challenges := challenges[id := Apply(challenges[id], report, error, now)]))
    case TrackEvent(picked, now) => w.(db := w.db.(challenges := Mark(challenges, picked, now)))
  }

  // ---- Runs ----

  ghost function Step(w: World, e: Event): World {
    match e
    case Candidate(c) => w.(db := CandidateStep(w.db, c).0, history := CandidateHistory(w.db, w.history, c))
    case Carrier(d) => CarrierStep(w, d)
  }

  ghost function Run(w: World, es: seq<Event>): World
    decreases |es|
  {
    if es == [] then w else Run(Step(w, es[0]), es[1..])
  }

  /** What the candidates' calls return, in order. */
  ghost function Answers(w: World, es: seq<Event>): seq<Answer>
    decreases |es|
  {
    if es == [] then []
    else (if es[0].Candidate? then [CandidateStep(w.db, es[0].c).1] else []) + Answers(Step(w, es[0]), es[1..])
  }

  function CandidateEvents(es: seq<Event>): seq<CandidateEvent> {
    if es == [] then []
    else (if es[0].Candidate? then [es[0].c] else []) + CandidateEvents(es[1..])
  }

  // ---- Delivery never changes what the candidate sees ----

  lemma SameViewIntro(s: Tables, t: Tables)
    requires s.rates == t.rates && s.challenges.Keys == t.challenges.Keys
    requires forall id | id in s.challenges :: ViewOf(s.challenges[id]) == ViewOf(t.challenges[id])
    ensures SameView(s, t)
  {
  }

  lemma RowsKeepView(r: Challenge, picked: bool, reply: Reply, report: Report, error: string, now: Time)
    ensures ViewOf(ReserveRow(r, picked, now)) == ViewOf(r)
    ensures ViewOf(Record(r, reply, now)) == ViewOf(r)
    ensures ViewOf(Apply(r, report, error, now)) == ViewOf(r)
  {
  }

  lemma CarrierKeepsView(w: World, e: DeliveryEvent)
    ensures SameView(CarrierStep(w, e).db, w.db)
  {
    hide ReserveRow, Record, Apply, ViewOf, SameView;
    var before, after := w.db.challenges, CarrierStep(w, e).db.challenges;
    forall id | id in before ensures id in after && ViewOf(after[id]) == ViewOf(before[id]) {
      match e {
        case ReserveEvent(picked, now) =>
          RowsKeepView(before[id], id in picked, Took(None), ReportSent, "", now);
        case RecordEvent(job) =>
          if job in w.jobs && w.jobs[job].Answered? {
            RowsKeepView(before[id], false, w.jobs[job].reply, ReportSent, "", w.jobs[job].at);
          }
        case ReportEvent(_, report, error, now) =>
          RowsKeepView(before[id], false, Took(None), report, error, now);
        case TrackEvent(_, _) =>
          MarkKeepsView(w.db.challenges, e.picked, e.now, id);
        case _ =>
      }
    }
    assert after.Keys == before.Keys;
    SameViewIntro(CarrierStep(w, e).db, w.db);
  }

  lemma MarkKeepsView(challenges: map<Id, Challenge>, picked: set<Id>, now: Time, id: Id)
    requires id in challenges
    ensures ViewOf(Mark(challenges, picked, now)[id]) == ViewOf(challenges[id])
  {
  }

  lemma SameViewAt(s: Tables, t: Tables, id: Id)
    requires SameView(s, t)
    ensures id in s.challenges <==> id in t.challenges
    ensures id in s.challenges ==> ViewOf(s.challenges[id]) == ViewOf(t.challenges[id])
  {
    assert id in Views(s.challenges) <==> id in Views(t.challenges);
    if id in s.challenges {
      assert Views(s.challenges)[id] == Views(t.challenges)[id];
    }
  }

  lemma SameViewForAll(s: Tables, t: Tables)
    requires SameView(s, t)
    ensures s.challenges.Keys == t.challenges.Keys
    ensures forall id | id in s.challenges :: ViewOf(s.challenges[id]) == ViewOf(t.challenges[id])
  {
    forall id ensures id in s.challenges <==> id in t.challenges
              ensures id in s.challenges ==> ViewOf(s.challenges[id]) == ViewOf(t.challenges[id]) {
      SameViewAt(s, t, id);
    }
  }

  lemma KeptView(cs: map<Id, Challenge>, ds: map<Id, Challenge>, phone: Phone, now: Time)
    requires Views(cs) == Views(ds)
    ensures Views(KeptChallenges(cs, phone, now)) == Views(KeptChallenges(ds, phone, now))
  {
    SameViewForAll(Tables(cs, map[]), Tables(ds, map[]));
    var kept, kept' := KeptChallenges(cs, phone, now), KeptChallenges(ds, phone, now);
    forall id | id in cs ensures cs[id].createdAt == ds[id].createdAt {
      assert ViewOf(cs[id]) == ViewOf(ds[id]);
    }
    assert kept.Keys == kept'.Keys;
    forall id | id in kept ensures ViewOf(kept[id]) == ViewOf(kept'[id]) {
      assert ViewOf(cs[id]) == ViewOf(ds[id]);
    }
    SameViewIntro(Tables(kept, map[]), Tables(kept', map[]));
  }

  lemma RequestReadsView(s: Tables, t: Tables, phone: Option<Phone>, firstName: string, lastName: string,
                         ip: string, id: Id, code: string, now: Time)
    requires SameView(s, t)
    ensures RequestCode(s, phone, firstName, lastName, ip, id, code, now).1
         == RequestCode(t, phone, firstName, lastName, ip, id, code, now).1
    ensures SameView(RequestCode(s, phone, firstName, lastName, ip, id, code, now).0,
                     RequestCode(t, phone, firstName, lastName, ip, id, code, now).0)
  {
    SameViewForAll(s, t);
    if phone.Some? {
      assert RequestedSince(s.challenges, phone.value, now - RESEND_DELAY)
        <==> RequestedSince(t.challenges, phone.value, now - RESEND_DELAY);
      KeptView(s.challenges, t.challenges, phone.value, now);
      ViewsAdd(KeptChallenges(s.challenges, phone.value, now), KeptChallenges(t.challenges, phone.value, now),
               id, NewChallenge(phone.value, firstName, lastName, code, now),
               NewChallenge(phone.value, firstName, lastName, code, now));
    }
  }

  lemma ViewsAdd(cs: map<Id, Challenge>, ds: map<Id, Challenge>, id: Id, r: Challenge, q: Challenge)
    requires Views(cs) == Views(ds) && ViewOf(r) == ViewOf(q)
    ensures Views(cs[id := r]) == Views(ds[id := q])
  {
    assert Views(cs[id := r]) == Views(cs)[id := ViewOf(r)];
    assert Views(ds[id := q]) == Views(ds)[id := ViewOf(q)];
  }

  lemma VerifyReadsView(s: Tables, t: Tables, id: Id, code: string, token: Token, now: Time)
    requires SameView(s, t)
    ensures VerifyCode(s, id, code, token, now).1 == VerifyCode(t, id, code, token, now).1
    ensures SameView(VerifyCode(s, id, code, token, now).0, VerifyCode(t, id, code, token, now).0)
  {
    SameViewForAll(s, t);
    assert TokenTaken(s.challenges, token) <==> TokenTaken(t.challenges, token);
    var s', t' := VerifyCode(s, id, code, token, now).0, VerifyCode(t, id, code, token, now).0;
    if id in s.challenges {
      assert ViewOf(s.challenges[id]) == ViewOf(t.challenges[id]);
      assert ViewOf(s'.challenges[id]) == ViewOf(t'.challenges[id]);
      hide ViewOf, TokenTaken, SameView;
      assert s'.challenges == s.challenges[id := s'.challenges[id]];
      assert t'.challenges == t.challenges[id := t'.challenges[id]];
      ViewsAdd(s.challenges, t.challenges, id, s'.challenges[id], t'.challenges[id]);
      assert SameView(s', t') by { SameViewFromViews(s', t'); }
    }
  }

  lemma SameViewFromViews(s: Tables, t: Tables)
    requires s.rates == t.rates && Views(s.challenges) == Views(t.challenges)
    ensures SameView(s, t)
  {
  }

  /** A candidate's call sees and changes only the candidate's part of the tables. */
  lemma CandidateReadsView(s: Tables, t: Tables, e: CandidateEvent)
    requires SameView(s, t)
    ensures CandidateStep(s, e).1 == CandidateStep(t, e).1
    ensures SameView(CandidateStep(s, e).0, CandidateStep(t, e).0)
  {
    match e {
      case RequestEvent(phone, firstName, lastName, ip, id, code, now) =>
        RequestReadsView(s, t, phone, firstName, lastName, ip, id, code, now);
      case VerifyEvent(id, code, token, now) =>
        VerifyReadsView(s, t, id, code, token, now);
      case IdentifyEvent(_, _) =>
      case SubmitEvent(token, reference, now) =>
        SameViewForAll(s, t);
        var found := Identify(Views(s.challenges), token, now);
        if found.Ok? {
          var s', t' := Submit(s, found.value, reference).0, Submit(t, found.value, reference).0;
          assert Views(s'.challenges) == Views(t'.challenges);
        }
    }
  }

  /** Two runs with the same candidate calls give the candidates the same answers, whatever the workers,
      the gateway, the webhooks and the crashes do in each. */
  lemma {:induction false} NonInterference(v: World, w: World, es: seq<Event>, fs: seq<Event>)
    requires SameView(v.db, w.db)
    requires CandidateEvents(es) == CandidateEvents(fs)
    ensures Answers(v, es) == Answers(w, fs)
    ensures SameView(Run(v, es).db, Run(w, fs).db)
    decreases |es| + |fs|
  {
    if es != [] && es[0].Carrier? {
      CarrierKeepsView(v, es[0].d);
      NonInterference(Step(v, es[0]), w, es[1..], fs);
    } else if fs != [] && fs[0].Carrier? {
      CarrierKeepsView(w, fs[0].d);
      NonInterference(v, Step(w, fs[0]), es, fs[1..]);
    } else if es != [] {
      assert CandidateEvents(es)[0] == CandidateEvents(fs)[0];
      assert CandidateEvents(es)[1..] == CandidateEvents(es[1..]) == CandidateEvents(fs[1..]);
      CandidateReadsView(v.db, w.db, es[0].c);
      NonInterference(Step(v, es[0]), Step(w, fs[0]), es[1..], fs[1..]);
    }
  }
}
