/** The facial page as it runs: runner objects changed by callbacks. Each callback is proved to be the
    step of FaceRunner it stands for. The list of all runners ever created, the requests in flight and the
    bursts posted are history. */
module FacePage {
  import opened Wrappers
  import opened FaceRunner

  class RunnerObject {
    const key: Key
    const generation: nat
    var busy: bool
    var pending: Option<Burst>
    var timer: bool
    var stopped: bool

    constructor (key: Key, generation: nat)
      ensures Value() == Runner(key, false, None, false, false, generation)
    {
      this.key, this.generation := key, generation;
      busy, pending, timer, stopped := false, None, false, false;
    }

    function Value(): Runner
      reads this
    {
      Runner(key, busy, pending, timer, stopped, generation)
    }

    method Stop()
      modifies this
      ensures Value() == Stopped(old(Value()))
    {
      stopped := true;
      timer := false;
    }
  }

  ghost function Values(all: seq<RunnerObject>): seq<Runner>
    reads all
  {
    seq(|all|, k requires 0 <= k < |all| reads all => all[k].Value())
  }

  class Facial {
    var running: bool
    var generation: nat
    var active: map<Key, RunnerObject>
    ghost var all: seq<RunnerObject>
    ghost var ids: map<Key, nat>
    ghost var flights: seq<Flight>
    ghost var posted: multiset<Burst>

    ghost predicate Valid()
      reads this
    {
      && (forall j, k | 0 <= j < k < |all| :: all[j] != all[k])
      && ids.Keys == active.Keys
      && (forall key | key in active :: ids[key] < |all| && all[ids[key]] == active[key] && active[key].key == key)
    }

    ghost function State(): Page
      reads this, all
    {
      Page(running, generation, Values(all), ids, flights, posted)
    }

    constructor ()
      ensures Valid() && State() == LOADED
    {
      running, generation, active, all, ids, flights, posted := false, 0, map[], [], map[], [], multiset{};
    }

    method Schedule(r: RunnerObject)
      modifies r
      ensures r.Value() == Scheduled(old(State()), old(r.Value()))
    {
      if running && !r.stopped && !r.timer { r.timer := true; }
    }

    method StartRunner(key: Key)
      requires Valid()
      modifies this
      ensures Valid() && State() == Step(old(State()), Event.StartRunner(key))
    {
      if key in active { return; }
      hide RunnerObject.Value, Scheduled;
      var r := new RunnerObject(key, generation);
      Schedule(r);
      active := active[key := r];
      ids := ids[key := |all|];
      all := all + [r];
      assert Values(all) == old(Values(all)) + [r.Value()];
    }

    method StopRunner(key: Key)
      requires Valid()
      modifies this, all
      ensures Valid() && all == old(all) && State() == StopKey(old(State()), key)
    {
      if key in active {
        var r := active[key];
        r.Stop();
        active := active - {key};
        ids := ids - {key};
      }
      assert Values(all) == StopKey(old(State()), key).runners;
    }

    /** Stops everything; answers still to come are of an old generation. */
    method Stop()
      requires Valid()
      modifies this, all
      ensures Valid() && State() == Step(old(State()), StopAll)
    {
      StopActive();
      running := false;
      generation := generation + 1;
      active := map[];
      ids := map[];
      assert Values(all) == Step(old(State()), StopAll).runners;
    }

    method StopActive()
      requires Valid()
      modifies all
      ensures forall k | 0 <= k < |all| ::
                all[k].Value() == if all[k].key in active && ids[all[k].key] == k then Stopped(old(all[k].Value()))
                                  else old(all[k].Value())
    {
      hide RunnerObject.Value, Stopped;
      var rest := active.Keys;
      while rest != {}
        invariant rest <= active.Keys
        invariant forall k | 0 <= k < |all| ::
                    all[k].Value() == if all[k].key in active && ids[all[k].key] == k && all[k].key !in rest
                                      then Stopped(old(all[k].Value())) else old(all[k].Value())
        decreases rest
      {
        var key :| key in rest;
        assert all[ids[key]] == active[key];
        active[key].Stop();
        rest := rest - {key};
      }
    }

    /** Runs one tick; `request` is what is sent, if anything is. */
    method Tick(r: RunnerObject, ghost id: nat, cooling: bool, drawn: Burst) returns (request: Option<Request>)
      requires Valid() && id < |all| && all[id] == r
      modifies this`flights, this`posted, r
      ensures Valid() && State() == FaceRunner.Tick(old(State()), id, cooling, drawn)
      ensures request.Some? ==> flights == old(flights) + [Flight(id, request.value)]
    {
      request := None;
      r.timer := false;
      if running && !r.stopped {
        if r.busy || cooling {
          Schedule(r);
        } else {
          r.busy := true;
          request := Some(if r.pending.Some? then Check(r.pending.value) else Post(drawn));
          flights := flights + [Flight(id, request.value)];
          if request.value.Post? { posted := posted + multiset{drawn}; }
        }
      }
      assert Values(all) == old(Values(all))[id := r.Value()];
    }

    method VerifyNow(key: Key, cooling: bool, drawn: Burst) returns (request: Option<Request>)
      requires Valid()
      modifies this`flights, this`posted, all
      ensures Valid() && State() == Step(old(State()), Event.VerifyNow(key, cooling, drawn))
    {
      request := None;
      if key !in active { return; }
      var r := active[key];
      if r.pending.None? || r.busy { return; }
      request := Tick(r, ids[key], cooling, drawn);
    }

    /** The end of a request: the answer or the error, then the next tick if the runner is still current. */
    method Finish(r: RunnerObject, ghost flight: nat, request: Request, outcome: Outcome)
      requires Valid() && flight < |flights| && flights[flight].request == request
      requires flights[flight].id < |all| && all[flights[flight].id] == r
      modifies this, all
      ensures Valid() && State() == FaceRunner.Finish(old(State()), flight, outcome)
    {
      hide RunnerObject.Value, Ended, Scheduled, StopKey, State, Values;
      ghost var id := flights[flight].id;
      SameRunner(r, id);
      var current := Land(r, flight, request, outcome);
      if outcome.Status? && current && outcome.code in {403, 404, 409, 503} {
        StopRunner(r.key);
      }
      Resume(r, id);
    }

    lemma SameRunner(r: RunnerObject, id: nat)
      requires id < |all| && all[id] == r
      ensures State().runners[id] == r.Value() && |State().runners| == |all| && r.Value().key == r.key
      ensures State().flights == flights
    {
    }

    /** Frees the runner; tells whether it was still current. */
    method Land(r: RunnerObject, ghost flight: nat, request: Request, outcome: Outcome) returns (current: bool)
      requires Valid() && flight < |flights| && flights[flight].request == request
      requires flights[flight].id < |all| && all[flights[flight].id] == r
      modifies this`flights, r
      ensures Valid()
      ensures current == Current(old(State()), old(r.Value()))
      ensures State() == SetRunner(Landed(old(State()), flight), old(flights[flight].id),
                                   Ended(old(State()), old(r.Value()), request, outcome))
    {
      ghost var id := flights[flight].id;
      current := running && !r.stopped && r.generation == generation;
      if request.Check? && outcome.Answered? { r.pending := None; }
      if outcome.NoStatus? && current { r.pending := Some(request.burst); }
      r.busy := false;
      flights := flights[..flight] + flights[flight + 1..];
      assert Values(all) == old(Values(all))[id := r.Value()];
    }

    method Resume(r: RunnerObject, ghost id: nat)
      requires Valid() && id < |all| && all[id] == r
      modifies r
      ensures Valid()
      ensures State() == var p := old(State());
                         if Current(p, p.runners[id]) then SetRunner(p, id, Scheduled(p, p.runners[id])) else p
    {
      if running && !r.stopped && r.generation == generation {
        Schedule(r);
        assert Values(all) == old(Values(all))[id := r.Value()];
      }
    }
  }
}
