/** Bursts whose answer was lost (app/static/pointeur-facial.js): the page is to ask the server about each
    before any new try. It does so for the runner that lost it, and forgets those of a stopped runner. */
module FaceLosses {
  import opened Wrappers
  import opened FaceRunner

  /** A burst posted by a runner, whose answer never came and was not asked for since. */
  datatype Loss = Loss(id: nat, burst: Burst)

  /** Losses after a step: a posting that ends without an answer adds one, an answered check takes one off. */
  function LossesAfter(p: Page, lost: set<Loss>, e: Event): set<Loss> {
    if !e.Reply? || e.flight >= |p.flights| then lost
    else
      var f := p.flights[e.flight];
      match f.request
      case Post(burst) => if e.outcome.NoStatus? then lost + {Loss(f.id, burst)} else lost
      case Check(burst) => if e.outcome.Answered? then lost - {Loss(f.id, burst)} else lost
  }

  function Losses(p: Page, es: seq<Event>, lost: set<Loss>): set<Loss>
    decreases |es|
  {
    if es == [] then lost else Losses(Step(p, es[0]), es[1..], LossesAfter(p, lost, es[0]))
  }

  /** The runner that posts a new burst at this step. */
  predicate Tries(p: Page, e: Event, id: nat) {
    && e.TimerFires? && e.id == id && id < |p.runners| && p.runners[id].timer && !e.cooling
    && p.running && !p.runners[id].stopped && !p.runners[id].busy && p.runners[id].pending.None?
  }

  /** Those are the only steps that post. */
  lemma TriesExactly(p: Page, e: Event)
    requires Inv(p) && Sound(p, e)
    ensures Step(p, e).posted != p.posted <==> exists id: nat :: Tries(p, e, id)
  {
    match e {
      case TimerFires(id, _, drawn) =>
        if id < |p.runners| && p.runners[id].timer {
          assert RunnerInv(p, p.runners[id]);
          if Tries(p, e, id) {
            assert Step(p, e).posted[drawn] == p.posted[drawn] + 1;
          }
        }
      case VerifyNow(_, _, _) =>
      case Reply(_, _) =>
      case _ =>
    }
  }

  /** The runner asks about its loss, or will never ask again. */
  predicate LossInv(p: Page, loss: Loss) {
    && loss.id < |p.runners|
    && var r := p.runners[loss.id];
       r.pending == Some(loss.burst) || (r.pending.None? && !r.busy && !r.timer)
  }

  lemma LossStep(p: Page, lost: set<Loss>, e: Event, loss: Loss)
    requires Inv(p) && (forall l | l in lost :: LossInv(p, l)) && loss in LossesAfter(p, lost, e)
    ensures LossInv(Step(p, e), loss)
  {
    if loss in lost {
      LossStays(p, lost, e, loss);
    } else {
      assert FlightInv(p, p.flights[e.flight]);
      NewLoss(p, e.flight, loss.burst);
    }
  }

  lemma NewLoss(p: Page, flight: nat, burst: Burst)
    requires flight < |p.flights| && p.flights[flight].request == Post(burst) && FlightInv(p, p.flights[flight])
    requires RunnerInv(p, p.runners[p.flights[flight].id])
    ensures LossInv(Finish(p, flight, NoStatus), Loss(p.flights[flight].id, burst))
  {
  }

  lemma LossStays(p: Page, lost: set<Loss>, e: Event, loss: Loss)
    requires Inv(p) && loss in lost && LossInv(p, loss) && loss in LossesAfter(p, lost, e)
    ensures LossInv(Step(p, e), loss)
  {
    match e {
      case Reply(flight, outcome) =>
        if flight < |p.flights| {
          assert FlightInv(p, p.flights[flight]);
          hide Inv;
          LossAfterReply(p, lost, flight, outcome, loss);
        }
      case TimerFires(_, _, _) =>
      case VerifyNow(_, _, _) =>
      case _ =>
    }
  }

  lemma LossAfterReply(p: Page, lost: set<Loss>, flight: nat, outcome: Outcome, loss: Loss)
    requires flight < |p.flights| && FlightInv(p, p.flights[flight]) && loss in lost && LossInv(p, loss)
    requires loss in LossesAfter(p, lost, Reply(flight, outcome))
    ensures LossInv(Finish(p, flight, outcome), loss)
  {
  }

  lemma {:induction false} LossesRun(p: Page, es: seq<Event>, lost: set<Loss>)
    requires Inv(p) && SoundRun(p, es) && forall l | l in lost :: LossInv(p, l)
    ensures Inv(Run(p, es)) && forall l | l in Losses(p, es, lost) :: LossInv(Run(p, es), l)
    decreases |es|
  {
    if es == [] {
    } else {
      StepKeeps(p, es[0]);
      forall l | l in LossesAfter(p, lost, es[0]) ensures LossInv(Step(p, es[0]), l) {
        LossStep(p, lost, es[0], l);
      }
      hide Step, LossesAfter, Inv, LossInv;
      LossesRun(Step(p, es[0]), es[1..], LossesAfter(p, lost, es[0]));
    }
  }

  /** The bursts of a terminal that were lost and not asked for. */
  predicate Unasked(p: Page, lost: set<Loss>, key: Key, loss: Loss) {
    loss in lost && loss.id < |p.runners| && p.runners[loss.id].key == key
  }

  /** A runner never tries while it has a loss to ask about. */
  lemma AsksBeforeTrying(es: seq<Event>, e: Event, id: nat, burst: Burst)
    requires SoundRun(LOADED, es) && Tries(Run(LOADED, es), e, id)
    ensures Loss(id, burst) !in Losses(LOADED, es, {})
  {
    LossesRun(LOADED, es, {});
  }

  /** A terminal tries a new burst with a loss left unasked exactly when a stopped runner of it left one. */
  lemma TriesUnasked(es: seq<Event>, e: Event, id: nat)
    requires SoundRun(LOADED, es) && Tries(Run(LOADED, es), e, id)
    ensures var p, lost := Run(LOADED, es), Losses(LOADED, es, {});
            (exists loss :: Unasked(p, lost, p.runners[id].key, loss))
            <==> exists loss :: Unasked(p, lost, p.runners[id].key, loss) && p.runners[loss.id].stopped
  {
    var p, lost := Run(LOADED, es), Losses(LOADED, es, {});
    LossesRun(LOADED, es, {});
    if loss :| Unasked(p, lost, p.runners[id].key, loss) {
      AsksBeforeTrying(es, e, id, loss.burst);
      assert p.runners[loss.id].stopped by {
        if !p.runners[loss.id].stopped { OneLiveRunner(es, loss.id, id); }
      }
    }
  }

  // ---- A loss that is never asked about ----

  const LOST: seq<Event> :=
    [Start, StartRunner("t"), TimerFires(0, false, "b"), Reply(0, NoStatus), StopRunner("t"), StartRunner("t")]
  const FREE := Runner("t", false, None, true, false, 1)

  /** The runner of terminal t loses a burst, is stopped and started again: the next tick tries a new one. */
  lemma LossForgotten()
    ensures SoundRun(LOADED, LOST) && Losses(LOADED, LOST, {}) == {Loss(0, "b")}
    ensures var p := Run(LOADED, LOST);
            && |p.runners| == 2 && p.runners[0].key == p.runners[1].key && Tries(p, TimerFires(1, false, "c"), 1)
            && Sound(p, TimerFires(1, false, "c"))
  {
    var waiting := FREE.(busy := true, timer := false);
    var unsure := FREE.(pending := Some("b"));
    var p1 := LOADED.(running := true, generation := 1);
    var p2 := p1.(runners := [FREE], active := map["t" := 0]);
    var p3 := p2.(runners := [waiting], flights := [Flight(0, Post("b"))], posted := multiset{"b"});
    var p4 := p3.(runners := [unsure], flights := []);
    var p5 := p4.(runners := [Stopped(unsure)], active := map[]);
    var p6 := p5.(runners := [Stopped(unsure), FREE], active := map["t" := 1]);
    assert Step(LOADED, LOST[0]) == p1;
    assert Step(p1, LOST[1]) == p2;
    assert Step(p2, LOST[2]) == p3;
    assert Step(p3, LOST[3]) == p4;
    assert Step(p4, LOST[4]) == p5;
    assert Step(p5, LOST[5]) == p6;
  }
}
