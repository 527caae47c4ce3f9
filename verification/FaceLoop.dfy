/** The loop of a facial terminal goes on (app/static/pointeur-facial.js): whatever its requests bring back, a
    runner of the running page waits for an answer or for its timer, until it is stopped. */
module FaceLoop {
  import opened Wrappers
  import opened FaceRunner

  // ---- What a step does ----

  /** A runner that can ask: free, not stopped, on a running page. */
  predicate Free(p: Page, id: nat) {
    id < |p.runners| && p.running && !p.runners[id].stopped && !p.runners[id].busy
  }

  /** The runner a step wakes. */
  function Woken(p: Page, e: Event): Option<nat> {
    match e
    case TimerFires(id, _, _) => if id < |p.runners| && p.runners[id].timer then Some(id) else None
    case VerifyNow(key, _, _) =>
      if key in p.active && p.active[key] < |p.runners| && p.runners[p.active[key]].pending.Some?
      then Some(p.active[key]) else None
    case _ => None
  }

  predicate Cooling(e: Event) { (e.TimerFires? || e.VerifyNow?) && e.cooling }

  function Drawn(e: Event): Burst { if e.TimerFires? || e.VerifyNow? then e.drawn else "" }

  /** A request goes out exactly when a free runner wakes and is not cooling down: a check of the burst whose
      outcome it does not know, else a posting of the new one. */
  lemma AsksExactly(p: Page, e: Event, id: nat)
    requires Inv(p) && id < |p.runners|
    ensures var asks := Woken(p, e) == Some(id) && Free(p, id) && !Cooling(e);
            var pending := p.runners[id].pending;
            var f := Flight(id, if pending.Some? then Check(pending.value) else Post(Drawn(e)));
            && (asks ==> Step(p, e).flights == p.flights + [f])
            && (!asks ==> forall g <- Step(p, e).flights :: g.id == id ==> g in p.flights)
  {
    hide Inv, Scheduled, StopKey, Ended, Current;
    match e {
      case Reply(flight, outcome) =>
        if flight < |p.flights| && p.flights[flight].id < |p.runners| {
          FlightsAfter(p, flight, outcome);
        }
      case StopRunner(key) => StopKeyFlights(p, key);
      case _ =>
    }
  }

  lemma StopKeyFlights(p: Page, key: Key)
    ensures StopKey(p, key).flights == p.flights && |StopKey(p, key).runners| == |p.runners|
  {
  }

  lemma FlightsAfter(p: Page, flight: nat, outcome: Outcome)
    requires flight < |p.flights| && p.flights[flight].id < |p.runners|
    ensures Finish(p, flight, outcome).flights == p.flights[..flight] + p.flights[flight + 1..]
  {
  }

  /** What the end of a request leaves of its runner: free; rescheduled if it serves and is not turned away;
      stopped by a refusal; unsure after a loss, sure again after an answered check. */
  lemma EndsExactly(p: Page, flight: nat, outcome: Outcome)
    requires Inv(p) && flight < |p.flights| && p.flights[flight].id < |p.runners|
    ensures var f := p.flights[flight];
            var r, q := p.runners[f.id], Step(p, Reply(flight, outcome)).runners[f.id];
            var serves := p.running && !r.stopped && r.generation == p.generation;
            var refused := outcome.Status? && outcome.code in {403, 404, 409, 503};
            && !q.busy && q.key == r.key && q.generation == r.generation
            && (q.stopped <==> r.stopped || (serves && refused))
            && (q.timer <==> serves && !refused)
            && (q.pending == if outcome.NoStatus? && serves then Some(f.request.burst)
                             else if outcome.Answered? && f.request.Check? then None else r.pending)
  {
    assert FlightInv(p, p.flights[flight]);
    var r := p.runners[p.flights[flight].id];
    assert RunnerInv(p, r);
  }

  /** Starting a terminal that has no runner adds one, whose timer is set if the page runs. */
  lemma StartsExactly(p: Page, key: Key)
    requires Inv(p)
    ensures var q := Step(p, StartRunner(key));
            && key in q.active && q.runners[q.active[key]].key == key && !q.runners[q.active[key]].stopped
            && (key in p.active ==> q == p)
            && (key !in p.active ==>
                  && |q.runners| == |p.runners| + 1 && q.active[key] == |p.runners|
                  && q.runners[q.active[key]].generation == p.generation && !q.runners[q.active[key]].busy
                  && q.runners[q.active[key]].pending.None? && (q.runners[q.active[key]].timer <==> p.running))
  {
  }

  /** Stopping a terminal stops its runner; stopping the page stops every runner. */
  lemma StopsExactly(p: Page, e: Event, id: nat)
    requires Inv(p) && (e.StopRunner? || e.StopAll?) && id < |p.runners|
    ensures var q := Step(p, e);
            && |q.runners| == |p.runners|
            && (q.runners[id].stopped <==> p.runners[id].stopped || e.StopAll? || p.runners[id].key == e.key)
            && q.runners[id].busy == p.runners[id].busy && q.runners[id].pending == p.runners[id].pending
            && (q.runners[id].stopped ==> !q.runners[id].timer)
            && (e.StopAll? ==> !q.running && q.generation == p.generation + 1 && q.active == map[])
            && (e.StopRunner? ==> e.key !in q.active && q.running == p.running)
  {
    assert RunnerInv(p, p.runners[id]);
  }

  // ---- The loop goes on ----

  predicate Serves(p: Page, r: Runner) { p.running && !r.stopped && r.generation == p.generation }

  predicate Awaits(p: Page, id: nat) { exists k :: 0 <= k < |p.flights| && p.flights[k].id == id }

  predicate Going(p: Page, id: nat)
    requires id < |p.runners|
  {
    && (Serves(p, p.runners[id]) ==> p.runners[id].busy || p.runners[id].timer)
    && (p.runners[id].busy ==> Awaits(p, id))
  }

  lemma TickGoing(p: Page, id: nat, cooling: bool, drawn: Burst, k: nat)
    requires id < |p.runners| && k < |p.runners| && Going(p, k) && !p.runners[id].busy
    requires RunnerInv(p, p.runners[id])
    ensures Going(Tick(p, id, cooling, drawn), k)
  {
    var q := Tick(p, id, cooling, drawn);
    if p.runners[k].busy {
      var j :| 0 <= j < |p.flights| && p.flights[j].id == k;
      assert q.flights[j].id == k;
    } else if q.runners[k].busy {
      assert q.flights[|p.flights|].id == k;
    }
  }

  lemma StillAwaits(p: Page, flight: nat, outcome: Outcome, k: nat)
    requires flight < |p.flights| && p.flights[flight].id < |p.runners|
    requires Awaits(p, k) && p.flights[flight].id != k
    ensures Awaits(Finish(p, flight, outcome), k)
  {
    FlightsAfter(p, flight, outcome);
    var j :| 0 <= j < |p.flights| && p.flights[j].id == k;
    var q := Finish(p, flight, outcome);
    hide Finish;
    assert q.flights[if j < flight then j else j - 1].id == k;
  }

  lemma OthersAfter(p: Page, flight: nat, outcome: Outcome, k: nat)
    requires Inv(p) && flight < |p.flights| && p.flights[flight].id < |p.runners|
    requires k < |p.runners| && p.flights[flight].id != k
    ensures var q := Finish(p, flight, outcome);
            && k < |q.runners| && q.running == p.running && q.generation == p.generation
            && q.runners[k] == p.runners[k]
  {
    assert FlightInv(p, p.flights[flight]);
  }

  lemma FinishGoing(p: Page, flight: nat, outcome: Outcome, k: nat)
    requires Inv(p) && flight < |p.flights| && p.flights[flight].id < |p.runners|
    requires k < |p.runners| && Going(p, k)
    ensures k < |Finish(p, flight, outcome).runners| && Going(Finish(p, flight, outcome), k)
  {
    if p.flights[flight].id == k {
      EndsExactly(p, flight, outcome);
      FinishSwitch(p, flight, outcome);
      hide Finish, Inv, Ended, Awaits;
    } else {
      OthersAfter(p, flight, outcome, k);
      if p.runners[k].busy { StillAwaits(p, flight, outcome, k); }
      hide Finish, Inv, Awaits;
    }
  }

  lemma FinishSwitch(p: Page, flight: nat, outcome: Outcome)
    requires flight < |p.flights| && p.flights[flight].id < |p.runners|
    ensures var q := Finish(p, flight, outcome);
            q.running == p.running && q.generation == p.generation && |q.runners| == |p.runners|
  {
  }

  lemma StepGoing(p: Page, e: Event, k: nat)
    requires Inv(p) && k < |Step(p, e).runners|
    requires forall id | 0 <= id < |p.runners| :: Going(p, id)
    ensures Going(Step(p, e), k)
  {
    match e {
      case TimerFires(id, cooling, drawn) =>
        if id < |p.runners| && p.runners[id].timer {
          assert RunnerInv(p, p.runners[id]);
          hide Inv, Going;
          assert |Step(p, e).runners| == |p.runners|;
          TickGoing(p, id, cooling, drawn, k);
        }
      case VerifyNow(key, cooling, drawn) =>
        if key in p.active && p.runners[p.active[key]].pending.Some? && !p.runners[p.active[key]].busy {
          assert RunnerInv(p, p.runners[p.active[key]]);
          assert |Step(p, e).runners| == |p.runners|;
          hide Inv, Going;
          TickGoing(p, p.active[key], cooling, drawn, k);
        }
      case Reply(flight, outcome) =>
        if flight < |p.flights| && p.flights[flight].id < |p.runners| {
          FinishSwitch(p, flight, outcome);
          FinishGoing(p, flight, outcome, k);
        }
      case _ => SwitchGoing(p, e, k);
    }
  }

  /** Steps of the page itself send nothing. */
  lemma SwitchGoing(p: Page, e: Event, k: nat)
    requires Inv(p) && k < |Step(p, e).runners| && !e.TimerFires? && !e.VerifyNow? && !e.Reply?
    requires forall id | 0 <= id < |p.runners| :: Going(p, id)
    ensures Going(Step(p, e), k)
  {
    var q := Step(p, e);
    assert q.flights == p.flights;
    if k < |p.runners| {
      assert RunnerInv(p, p.runners[k]) && Going(p, k);
      assert q.runners[k].busy == p.runners[k].busy;
    }
  }

  lemma {:induction false} RunGoing(p: Page, es: seq<Event>, k: nat)
    requires Inv(p) && SoundRun(p, es) && k < |Run(p, es).runners|
    requires forall id | 0 <= id < |p.runners| :: Going(p, id)
    ensures Going(Run(p, es), k)
    decreases |es|
  {
    if es == [] {
    } else {
      var q := Step(p, es[0]);
      StepKeeps(p, es[0]);
      forall id | 0 <= id < |q.runners| ensures Going(q, id) { StepGoing(p, es[0], id); }
      hide Going, Step, Inv;
      RunGoing(q, es[1..], k);
    }
  }

  /** In every run, a runner that serves a running page either waits for one answer or has its timer set, and
      a busy one has exactly one request in flight. */
  lemma LoopGoesOn(es: seq<Event>, id: nat)
    requires SoundRun(LOADED, es) && id < |Run(LOADED, es).runners|
    ensures var p := Run(LOADED, es);
            var r := p.runners[id];
            && (p.running && !r.stopped && r.generation == p.generation ==> r.busy != r.timer)
            && (r.busy <==> exists k :: 0 <= k < |p.flights| && p.flights[k].id == id)
            && (forall j, k | 0 <= j < k < |p.flights| :: !(p.flights[j].id == id && p.flights[k].id == id))
  {
    RunKeeps(LOADED, es);
    RunGoing(LOADED, es, id);
    var p := Run(LOADED, es);
    assert RunnerInv(p, p.runners[id]);
    if k :| 0 <= k < |p.flights| && p.flights[k].id == id {
      assert FlightInv(p, p.flights[k]);
    }
    hide Run, SoundRun;
  }
}
