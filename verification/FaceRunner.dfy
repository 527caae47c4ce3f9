/** The loop of one facial terminal (app/static/pointeur-facial.js): a timer, a lock, one request at a time,
    and a status check for every burst whose answer was lost. JavaScript runs one callback at a time; a
    callback that waits for the network ends, and its answer is another event. */
module FaceRunner {
  import opened Wrappers

  type Key = string

  type Burst = string

  /** `pending`: the burst whose outcome is not known. */
  datatype Runner = Runner(key: Key, busy: bool, pending: Option<Burst>, timer: bool, stopped: bool, generation: nat)

  datatype Request = Post(burst: Burst) | Check(burst: Burst)

  /** A request still unanswered, with the runner that waits for it. */
  datatype Flight = Flight(id: nat, request: Request)

  /** How a request ends: an answer, an HTTP status, or no status at all (nothing came back, or showing the
      answer failed). */
  datatype Outcome = Answered | Status(code: int) | NoStatus

  /** The page. Runners are objects: a stopped one lives on while its request is in flight. */
  datatype Page = Page(
    running: bool, generation: nat, runners: seq<Runner>, active: map<Key, nat>, flights: seq<Flight>,
    posted: multiset<Burst>)

  const LOADED := Page(false, 0, [], map[], [], multiset{})

  datatype Event =
    | Start
    | Halt
    | StartRunner(key: Key)
    | StopRunner(key: Key)
    | StopAll
    | TimerFires(id: nat, cooling: bool, drawn: Burst)
    | VerifyNow(key: Key, cooling: bool, drawn: Burst)
    | Reply(flight: nat, outcome: Outcome)

  // ---- Pieces of a step ----

  predicate Current(p: Page, r: Runner) { p.running && !r.stopped && r.generation == p.generation }

  function Scheduled(p: Page, r: Runner): Runner {
    if p.running && !r.stopped && !r.timer then r.(timer := true) else r
  }

  function Stopped(r: Runner): Runner { r.(stopped := true, timer := false) }

  function SetRunner(p: Page, id: nat, r: Runner): Page
    requires id < |p.runners|
  {
    p.(runners := p.runners[id := r])
  }

  function StopKey(p: Page, key: Key): Page {
    if key in p.active && p.active[key] < |p.runners| then
      SetRunner(p, p.active[key], Stopped(p.runners[p.active[key]])).(active := p.active - {key})
    else p
  }

  /** What a runner asks when it ticks. */
  function Asked(r: Runner, drawn: Burst): Request {
    if r.pending.Some? then Check(r.pending.value) else Post(drawn)
  }

  function Tick(p: Page, id: nat, cooling: bool, drawn: Burst): Page
    requires id < |p.runners|
  {
    var r := p.runners[id].(timer := false);
    if !p.running || r.stopped then SetRunner(p, id, r)
    else if r.busy || cooling then SetRunner(p, id, Scheduled(p, r))
    else
      var request := Asked(r, drawn);
      SetRunner(p, id, r.(busy := true)).(
        flights := p.flights + [Flight(id, request)],
        posted := p.posted + if request.Post? then multiset{drawn} else multiset{})
  }

  /** Statuses that stop the terminal for good. */
  predicate Gone(code: int) { code in {403, 404, 409, 503} }

  /** The runner once its request ended, the error handler included. */
  function Ended(p: Page, r: Runner, request: Request, outcome: Outcome): Runner {
    var cleared := if request.Check? && outcome.Answered? then r.(pending := None) else r;
    var handled := if outcome.NoStatus? && Current(p, r) then cleared.(pending := Some(request.burst)) else cleared;
    handled.(busy := false)
  }

  function Landed(p: Page, flight: nat): Page
    requires flight < |p.flights|
  {
    p.(flights := p.flights[..flight] + p.flights[flight + 1..])
  }

  function Finish(p: Page, flight: nat, outcome: Outcome): Page
    requires flight < |p.flights| && p.flights[flight].id < |p.runners|
  {
    var id := p.flights[flight].id;
    var r := p.runners[id];
    var landed := SetRunner(Landed(p, flight), id, Ended(p, r, p.flights[flight].request, outcome));
    var judged := if outcome.Status? && Gone(outcome.code) && Current(p, r) then StopKey(landed, r.key) else landed;
    if Current(judged, judged.runners[id]) then SetRunner(judged, id, Scheduled(judged, judged.runners[id])) else judged
  }

  function Step(p: Page, e: Event): Page {
    match e
    case Start => if p.running then p else p.(running := true, generation := p.generation + 1)
    case Halt => p.(running := false)
    case StartRunner(key) =>
      if key in p.active then p
      else
        var r := Runner(key, false, None, false, false, p.generation);
        p.(runners := p.runners + [Scheduled(p, r)], active := p.active[key := |p.runners|])
    case StopRunner(key) => StopKey(p, key)
    case StopAll =>
      p.(running := false, generation := p.generation + 1, active := map[],
         runners := seq(|p.runners|, k requires 0 <= k < |p.runners| =>
           if p.runners[k].key in p.active && p.active[p.runners[k].key] == k then Stopped(p.runners[k])
           else p.runners[k]))
    case TimerFires(id, cooling, drawn) =>
      if id < |p.runners| && p.runners[id].timer then Tick(p, id, cooling, drawn) else p
    case VerifyNow(key, cooling, drawn) =>
      if key in p.active && p.active[key] < |p.runners| then
        var r := p.runners[p.active[key]];
        if r.pending.None? || r.busy then p else Tick(p, p.active[key], cooling, drawn)
      else p
    case Reply(flight, outcome) =>
      if flight < |p.flights| && p.flights[flight].id < |p.runners| then Finish(p, flight, outcome) else p
  }

  function Run(p: Page, es: seq<Event>): Page
    decreases |es|
  {
    if es == [] then p else Run(Step(p, es[0]), es[1..])
  }

  /** Burst identifiers are drawn at random: new each time. */
  predicate Sound(p: Page, e: Event) { (e.TimerFires? || e.VerifyNow?) ==> e.drawn !in p.posted }

  predicate SoundRun(p: Page, es: seq<Event>)
    decreases |es|
  {
    es == [] || (Sound(p, es[0]) && SoundRun(Step(p, es[0]), es[1..]))
  }

  // ---- The invariant ----

  /** A busy runner has no timer; a stopped one neither; what is to be checked was posted. */
  predicate RunnerInv(p: Page, r: Runner) {
    && (r.busy ==> !r.timer) && (r.stopped ==> !r.timer) && r.generation <= p.generation
    && (r.pending.Some? ==> r.pending.value in p.posted)
  }

  /** The request in flight is the one its busy runner waits for. */
  predicate FlightInv(p: Page, f: Flight) {
    && f.id < |p.runners| && p.runners[f.id].busy && f.request.burst in p.posted
    && (p.runners[f.id].pending.Some? ==> f.request == Check(p.runners[f.id].pending.value))
  }

  /** A runner that is not stopped is the active one of its terminal. */
  predicate ActiveInv(p: Page) {
    && (forall key | key in p.active :: p.active[key] < |p.runners| && p.runners[p.active[key]].key == key
                                        && !p.runners[p.active[key]].stopped)
    && (forall id | 0 <= id < |p.runners| && !p.runners[id].stopped ::
          p.runners[id].key in p.active && p.active[p.runners[id].key] == id)
  }

  ghost predicate Inv(p: Page) {
    && ActiveInv(p)
    && (forall id | 0 <= id < |p.runners| :: RunnerInv(p, p.runners[id]))
    && (forall k | 0 <= k < |p.flights| :: FlightInv(p, p.flights[k]))
    && (forall j, k | 0 <= j < k < |p.flights| :: p.flights[j].id != p.flights[k].id)
    && (forall b: Burst :: p.posted[b] <= 1)
  }

  lemma TickActive(p: Page, id: nat, cooling: bool, drawn: Burst)
    requires ActiveInv(p) && id < |p.runners|
    ensures ActiveInv(Tick(p, id, cooling, drawn))
  {
  }

  lemma TickRunner(p: Page, id: nat, cooling: bool, drawn: Burst, k: nat)
    requires id < |p.runners| && k < |p.runners| && !p.runners[id].busy
    requires RunnerInv(p, p.runners[id]) && RunnerInv(p, p.runners[k])
    ensures RunnerInv(Tick(p, id, cooling, drawn), Tick(p, id, cooling, drawn).runners[k])
  {
  }

  /** The request a tick sends, if it sends one. */
  lemma TickFlight(p: Page, id: nat, cooling: bool, drawn: Burst)
    requires id < |p.runners| && !p.runners[id].busy && RunnerInv(p, p.runners[id])
    ensures var q := Tick(p, id, cooling, drawn);
            q.flights == p.flights || (|q.flights| == |p.flights| + 1 && q.flights[..|p.flights|] == p.flights
                                       && q.flights[|p.flights|].id == id && FlightInv(q, q.flights[|p.flights|]))
  {
  }

  /** The requests of the others are untouched. */
  lemma TickOthers(p: Page, id: nat, cooling: bool, drawn: Burst, f: Flight)
    requires id < |p.runners| && !p.runners[id].busy && FlightInv(p, f)
    ensures FlightInv(Tick(p, id, cooling, drawn), f) && f.id != id
  {
  }

  lemma TickPosts(p: Page, id: nat, cooling: bool, drawn: Burst, burst: Burst)
    requires id < |p.runners| && drawn !in p.posted && p.posted[burst] <= 1
    ensures Tick(p, id, cooling, drawn).posted[burst] <= 1
  {
  }

  /** A tick that finds its runner free, or that changes nothing but its timer. */
  lemma TickKeeps(p: Page, id: nat, cooling: bool, drawn: Burst)
    requires Inv(p) && id < |p.runners| && !p.runners[id].busy && drawn !in p.posted
    ensures Inv(Tick(p, id, cooling, drawn))
  {
    var q := Tick(p, id, cooling, drawn);
    assert |q.runners| == |p.runners|;
    hide Tick, RunnerInv, FlightInv, ActiveInv;
    TickActive(p, id, cooling, drawn);
    forall k | 0 <= k < |q.runners| ensures RunnerInv(q, q.runners[k]) { TickRunner(p, id, cooling, drawn, k); }
    TickFlight(p, id, cooling, drawn);
    forall k | 0 <= k < |p.flights| ensures FlightInv(q, p.flights[k]) && p.flights[k].id != id {
      TickOthers(p, id, cooling, drawn, p.flights[k]);
    }
    forall k | 0 <= k < |p.flights| ensures q.flights[k] == p.flights[k] {
      if q.flights != p.flights { assert q.flights[..|p.flights|][k] == p.flights[k]; }
    }
    forall b: Burst ensures q.posted[b] <= 1 { TickPosts(p, id, cooling, drawn, b); }
  }

  /** Changing runners without touching locks and bursts. */
  lemma RunnersKeep(p: Page, q: Page)
    requires Inv(p) && ActiveInv(q)
    requires |q.runners| == |p.runners| && q.flights == p.flights && q.posted == p.posted
    requires forall k | 0 <= k < |p.runners| ::
               && RunnerInv(q, q.runners[k])
               && q.runners[k].busy == p.runners[k].busy && q.runners[k].pending == p.runners[k].pending
    ensures Inv(q)
  {
    forall k | 0 <= k < |q.flights| ensures FlightInv(q, q.flights[k]) { assert FlightInv(p, p.flights[k]); }
  }

  lemma StopKeyKeeps(p: Page, key: Key)
    requires Inv(p)
    ensures Inv(StopKey(p, key)) && StopKey(p, key).flights == p.flights
    ensures |StopKey(p, key).runners| == |p.runners| && StopKey(p, key).running == p.running
    ensures StopKey(p, key).generation == p.generation
  {
    var q := StopKey(p, key);
    if key in p.active {
      forall k | 0 <= k < |q.runners| ensures RunnerInv(q, q.runners[k]) { assert RunnerInv(p, p.runners[k]); }
      RunnersKeep(p, q);
    }
  }

  lemma ScheduleKeeps(p: Page, id: nat)
    requires Inv(p) && id < |p.runners| && !p.runners[id].busy
    ensures Inv(SetRunner(p, id, Scheduled(p, p.runners[id])))
  {
    var q := SetRunner(p, id, Scheduled(p, p.runners[id]));
    forall k | 0 <= k < |q.runners| ensures RunnerInv(q, q.runners[k]) { assert RunnerInv(p, p.runners[k]); }
    RunnersKeep(p, q);
  }

  lemma LandedKeeps(p: Page, flight: nat, outcome: Outcome)
    requires Inv(p) && flight < |p.flights| && p.flights[flight].id < |p.runners|
    ensures var id := p.flights[flight].id;
            Inv(SetRunner(Landed(p, flight), id, Ended(p, p.runners[id], p.flights[flight].request, outcome)))
  {
    var id := p.flights[flight].id;
    var q := SetRunner(Landed(p, flight), id, Ended(p, p.runners[id], p.flights[flight].request, outcome));
    assert FlightInv(p, p.flights[flight]) && RunnerInv(p, p.runners[id]);
    forall k | 0 <= k < |q.runners| ensures RunnerInv(q, q.runners[k]) { assert RunnerInv(p, p.runners[k]); }
    forall k | 0 <= k < |q.flights|
      ensures FlightInv(q, q.flights[k]) && q.flights[k] == p.flights[if k < flight then k else k + 1]
    {
      var before := if k < flight then k else k + 1;
      assert q.flights[k] == p.flights[before];
      assert FlightInv(p, p.flights[before]);
    }
  }

  lemma FinishKeeps(p: Page, flight: nat, outcome: Outcome)
    requires Inv(p) && flight < |p.flights| && p.flights[flight].id < |p.runners|
    ensures Inv(Finish(p, flight, outcome))
  {
    LandedKeeps(p, flight, outcome);
    var id := p.flights[flight].id;
    var landed := SetRunner(Landed(p, flight), id, Ended(p, p.runners[id], p.flights[flight].request, outcome));
    hide Inv, Ended;
    StopKeyKeeps(landed, p.runners[id].key);
    var judged := if outcome.Status? && Gone(outcome.code) && Current(p, p.runners[id])
                  then StopKey(landed, p.runners[id].key) else landed;
    assert !landed.runners[id].busy by { EndedIsFree(p, p.runners[id], p.flights[flight].request, outcome); }
    if Current(judged, judged.runners[id]) { ScheduleKeeps(judged, id); }
  }

  lemma EndedIsFree(p: Page, r: Runner, request: Request, outcome: Outcome)
    ensures !Ended(p, r, request, outcome).busy
  {
  }

  lemma StopAllKeeps(p: Page)
    requires Inv(p)
    ensures Inv(Step(p, StopAll))
  {
    var q := Step(p, StopAll);
    forall k | 0 <= k < |q.runners| ensures RunnerInv(q, q.runners[k]) { assert RunnerInv(p, p.runners[k]); }
    RunnersKeep(p, q);
  }

  lemma StartRunnerKeeps(p: Page, key: Key)
    requires Inv(p) && key !in p.active
    ensures Inv(Step(p, StartRunner(key)))
  {
    var q := Step(p, StartRunner(key));
    forall k | 0 <= k < |p.runners| ensures q.runners[k] == p.runners[k] && RunnerInv(q, q.runners[k]) {
      assert RunnerInv(p, p.runners[k]);
    }
    forall k | 0 <= k < |q.flights| ensures FlightInv(q, q.flights[k]) { assert FlightInv(p, p.flights[k]); }
  }

  lemma SwitchKeeps(p: Page, running: bool, generation: nat)
    requires Inv(p) && generation >= p.generation
    ensures Inv(p.(running := running, generation := generation))
  {
    var q := p.(running := running, generation := generation);
    forall k | 0 <= k < |q.runners| ensures RunnerInv(q, q.runners[k]) { assert RunnerInv(p, p.runners[k]); }
    RunnersKeep(p, q);
  }

  lemma StepKeeps(p: Page, e: Event)
    requires Inv(p) && Sound(p, e)
    ensures Inv(Step(p, e))
  {
    hide Tick, Finish, FlightInv;
    match e {
      case Start => SwitchKeeps(p, true, p.generation + 1);
      case Halt => SwitchKeeps(p, false, p.generation);
      case StartRunner(key) => if key !in p.active { StartRunnerKeeps(p, key); }
      case StopRunner(key) => StopKeyKeeps(p, key);
      case StopAll => StopAllKeeps(p);
      case TimerFires(id, cooling, drawn) =>
        if id < |p.runners| && p.runners[id].timer {
          assert RunnerInv(p, p.runners[id]);
          TickKeeps(p, id, cooling, drawn);
        }
      case VerifyNow(key, cooling, drawn) =>
        if key in p.active && !p.runners[p.active[key]].busy { TickKeeps(p, p.active[key], cooling, drawn); }
      case Reply(flight, outcome) =>
        if flight < |p.flights| && p.flights[flight].id < |p.runners| { FinishKeeps(p, flight, outcome); }
    }
  }

  lemma {:induction false} RunKeeps(p: Page, es: seq<Event>)
    requires Inv(p) && SoundRun(p, es)
    ensures Inv(Run(p, es))
    decreases |es|
  {
    if es == [] {
    } else {
      StepKeeps(p, es[0]);
      RunKeeps(Step(p, es[0]), es[1..]);
    }
  }

  // ---- Promises over whole runs ----

  /** A burst is posted at most once, whatever is lost, stopped and started again. */
  lemma PostedOnce(es: seq<Event>, burst: Burst)
    requires SoundRun(LOADED, es)
    ensures Run(LOADED, es).posted[burst] <= 1
  {
    RunKeeps(LOADED, es);
  }

  /** A runner never waits for two requests. */
  lemma OneRequestAtATime(es: seq<Event>, j: nat, k: nat)
    requires SoundRun(LOADED, es)
    requires j < |Run(LOADED, es).flights| && k < |Run(LOADED, es).flights|
    requires Run(LOADED, es).flights[j].id == Run(LOADED, es).flights[k].id
    ensures j == k
  {
    RunKeeps(LOADED, es);
  }

  /** The lock of a tick set by the timer never finds the runner busy: a busy runner has no timer. */
  lemma TimerFindsFree(es: seq<Event>, id: nat)
    requires SoundRun(LOADED, es) && id < |Run(LOADED, es).runners|
    requires Run(LOADED, es).runners[id].timer
    ensures !Run(LOADED, es).runners[id].busy && !Run(LOADED, es).runners[id].stopped
  {
    RunKeeps(LOADED, es);
    assert RunnerInv(Run(LOADED, es), Run(LOADED, es).runners[id]);
  }

  /** A terminal has one live runner at most. */
  lemma OneLiveRunner(es: seq<Event>, j: nat, k: nat)
    requires SoundRun(LOADED, es)
    requires j < |Run(LOADED, es).runners| && k < |Run(LOADED, es).runners|
    requires !Run(LOADED, es).runners[j].stopped && !Run(LOADED, es).runners[k].stopped
    requires Run(LOADED, es).runners[j].key == Run(LOADED, es).runners[k].key
    ensures j == k
  {
    RunKeeps(LOADED, es);
  }

  /** The answer the runner is waiting for. */
  predicate Answers(p: Page, e: Event, id: nat) {
    e.Reply? && e.flight < |p.flights| && p.flights[e.flight].id == id && e.outcome.Answered?
  }

  /** Until one of its requests is answered, a runner with an unknown burst keeps it and asks only about it. */
  lemma UnknownStep(p: Page, e: Event, id: nat, burst: Burst)
    requires Inv(p) && Sound(p, e) && !Answers(p, e, id)
    requires id < |p.runners| && p.runners[id].pending == Some(burst)
    ensures id < |Step(p, e).runners| && Step(p, e).runners[id].pending == Some(burst)
    ensures forall f <- Step(p, e).flights :: f.id == id ==> f.request == Check(burst)
  {
    StepKeeps(p, e);
    UnknownStays(p, e, id, burst);
    var q := Step(p, e);
    forall f | f in q.flights && f.id == id ensures f.request == Check(burst) {
      var k :| 0 <= k < |q.flights| && q.flights[k] == f;
      assert FlightInv(q, q.flights[k]);
    }
  }

  lemma UnknownStays(p: Page, e: Event, id: nat, burst: Burst)
    requires Inv(p) && !Answers(p, e, id)
    requires id < |p.runners| && p.runners[id].pending == Some(burst)
    ensures id < |Step(p, e).runners| && Step(p, e).runners[id].pending == Some(burst)
  {
    if e.Reply? && e.flight < |p.flights| {
      assert FlightInv(p, p.flights[e.flight]);
      UnknownAfterReply(p, e.flight, e.outcome, id, burst);
    }
    hide Finish, Inv;
  }

  /** A lost answer to a check asks for another check of the same burst. */
  lemma UnknownAfterReply(p: Page, flight: nat, outcome: Outcome, id: nat, burst: Burst)
    requires flight < |p.flights| && FlightInv(p, p.flights[flight])
    requires id < |p.runners| && p.runners[id].pending == Some(burst)
    requires p.flights[flight].id == id ==> !outcome.Answered?
    ensures id < |Finish(p, flight, outcome).runners| && Finish(p, flight, outcome).runners[id].pending == Some(burst)
  {
  }

  ghost predicate Unanswered(p: Page, es: seq<Event>, id: nat)
    decreases |es|
  {
    es == [] || (!Answers(p, es[0], id) && Unanswered(Step(p, es[0]), es[1..], id))
  }

  lemma {:induction false} UnknownIsOnlyChecked(p: Page, es: seq<Event>, id: nat, burst: Burst)
    requires Inv(p) && SoundRun(p, es) && Unanswered(p, es, id)
    requires id < |p.runners| && p.runners[id].pending == Some(burst)
    ensures id < |Run(p, es).runners| && Run(p, es).runners[id].pending == Some(burst)
    ensures forall f <- Run(p, es).flights :: f.id == id ==> f.request == Check(burst)
    decreases |es|
  {
    if es == [] {
      forall f | f in p.flights && f.id == id ensures f.request == Check(burst) {
        var k :| 0 <= k < |p.flights| && p.flights[k] == f;
        assert FlightInv(p, p.flights[k]);
      }
    } else {
      UnknownStep(p, es[0], id, burst);
      StepKeeps(p, es[0]);
      UnknownIsOnlyChecked(Step(p, es[0]), es[1..], id, burst);
    }
  }
}
