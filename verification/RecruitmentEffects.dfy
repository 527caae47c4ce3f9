/** What each request on an application does when it is accepted, and when it is
    (app/modules/recruitment_engage_staff.py, recruitment_engage_public.py). */
module RecruitmentEffects {
  import opened Wrappers
  import opened RecruitmentModel
  import opened RecruitmentInvariants
  import opened RecruitmentRuns

  /** Only the interview `id` changed. */
  predicate OnlyInterview(a: Application, b: Application, id: nat) {
    && |b.interviews| == |a.interviews|
    && (forall k | 0 <= k < |a.interviews| && k != id :: b.interviews[k] == a.interviews[k])
    && b == a.(interviews := b.interviews)
  }

  /** The versions of an interview that is cancelled: the live one ends now, the others stay. */
  predicate VersionsEnded(before: seq<Version>, after: seq<Version>, now: Time) {
    && |after| == |before|
    && forall k | 0 <= k < |before| ::
         after[k] == if before[k].supersededAt.None? && before[k].cancelledAt.None?
                     then before[k].(cancelledAt := Some(now)) else before[k]
  }

  // ---- The candidate ----

  /** A candidate can withdraw until a decision was told; the first withdrawal is written, shown, and cancels every
      interview not over, with its document; the others stay as they are. */
  lemma WithdrawMoves(a: Application, now: Time)
    ensures var (b, r) := Do(a, WithdrawEvent(now));
            var told := a.outcome in {Favorable, Unfavorable} && a.communicatedAt.Some?;
            && (r == Err(Problem(409)) <==> told) && (r.Ok? <==> !told)
            && (told || a.withdrawnAt.Some? ==> b == a)
            && (!told && a.withdrawnAt.None? ==>
                  && b.withdrawnAt == Some(now) && b.outcome == WithdrawnOutcome && b.visible == SeenWithdrawn
                  && b == a.(withdrawnAt := b.withdrawnAt, outcome := b.outcome, visible := b.visible,
                             interviews := b.interviews)
                  && |b.interviews| == |a.interviews|
                  && forall k | 0 <= k < |a.interviews| ::
                       var i, j := a.interviews[k], b.interviews[k];
                       if i.status in {Draft, Proposed, Confirmed} then
                         && j.status == Cancelled && j.cancelledAt == Some(now)
                         && VersionsEnded(i.versions, j.versions, now)
                         && j == i.(status := j.status, cancelledAt := j.cancelledAt, versions := j.versions)
                       else j == i)
  {
  }

  /** A candidate confirms a proposed interview that was sent and is not past: it is then confirmed, now, in its
      current version. */
  lemma ConfirmMoves(a: Application, id: nat, now: Time)
    ensures var (b, r) := Do(a, ConfirmEvent(id, now));
            && (r == Err(Problem(404)) <==> id >= |a.interviews| || a.interviews[id].status == Draft)
            && (r == Err(Problem(409)) <==>
                  id < |a.interviews| && a.interviews[id].status != Draft
                  && (a.interviews[id].status == Cancelled || a.interviews[id].startsAt < now + 3600))
            && (r == Ok(Written(id)) <==>
                  id < |a.interviews| && a.interviews[id].status == Proposed && a.interviews[id].startsAt >= now + 3600)
            && (r != Ok(Written(id)) ==> b == a)
    ensures var (b, r) := Do(a, ConfirmEvent(id, now));
            r == Ok(Written(id)) ==>
              && OnlyInterview(a, b, id)
              && var i, j := a.interviews[id], b.interviews[id];
                 && j.status == Confirmed && j.confirmedAt == Some(now)
                 && j.viewedVersion >= i.version && (i.viewedVersion <= i.version ==> j.viewedVersion == i.version)
                 && j == i.(status := j.status, confirmedAt := j.confirmedAt, viewedVersion := j.viewedVersion)
  {
  }

  /** Looking at an interview that was sent marks its current version as seen, and nothing else. */
  lemma ViewMoves(a: Application, id: nat)
    ensures var (b, r) := Do(a, ViewEvent(id));
            && (r == Err(Problem(404)) <==> id >= |a.interviews| || a.interviews[id].status == Draft)
            && (r.Err? ==> b == a)
            && (r.Ok? ==>
                  && OnlyInterview(a, b, id)
                  && b.interviews[id] == a.interviews[id].(viewedVersion := b.interviews[id].viewedVersion)
                  && b.interviews[id].viewedVersion >= a.interviews[id].version
                  && (a.interviews[id].viewedVersion <= a.interviews[id].version ==>
                        b.interviews[id].viewedVersion == a.interviews[id].version))
  {
  }

  // ---- The recruiter, on an interview ----

  /** Cancelling ends a draft, or an interview in force with its document; one that is over stays as it is. */
  lemma CancelMoves(a: Application, id: nat, now: Time)
    ensures var (b, r) := Do(a, CancelEvent(id, now));
            && (r == Err(Problem(404)) <==> id >= |a.interviews|) && (r == Ok(Written(id)) <==> id < |a.interviews|)
            && (r.Err? ==> b == a)
            && (r.Ok? ==>
                  && OnlyInterview(a, b, id)
                  && var i, j := a.interviews[id], b.interviews[id];
                     if i.status in {Proposed, Confirmed} then
                       && j.status == Cancelled && j.cancelledAt == Some(now)
                       && VersionsEnded(i.versions, j.versions, now)
                       && j == i.(status := j.status, cancelledAt := j.cancelledAt, versions := j.versions)
                     else if i.status == Draft then j == i.(status := Cancelled, cancelledAt := Some(now))
                     else j == i)
  {
  }

  /** An arrival is written exactly once, for an interview in force, on its day in Algiers, from the document of its
      current version. */
  lemma ArriveMoves(a: Application, e: Event)
    requires Inv(a) && e.ArriveEvent? && e.id < |a.interviews|
    ensures var (b, r) := Do(a, e);
            var i := a.interviews[e.id];
            var admitted := i.status in {Proposed, Confirmed} && e.version == i.version
                            && i.startsAt / 86400 == (e.now + 3600) / 86400;
            && (r == Err(Problem(409)) <==> !admitted)
            && (r == Ok(Written(e.id)) <==> admitted && i.arrivedAt.None?)
            && (r != Ok(Written(e.id)) ==> b == a)
            && (r == Ok(Written(e.id)) ==>
                  OnlyInterview(a, b, e.id) && b.interviews[e.id] == i.(arrivedAt := Some(e.now)))
  {
    var i := a.interviews[e.id];
    assert InterviewInv(i);
    CurrentIsLast(i);
    if i.version > 0 { NeverOutdated(i, i.version - 1); }
    hide Inv, CurrentVersion;
  }

  /** A presence or an absence is recorded for an interview that was sent, not cancelled, and held; an absence not
      after an arrival; a presence with marks that are acceptable. A presence ends the interview and raises the
      stage to it; an absence ends it without. */
  lemma OutcomeMoves(a: Application, e: Event)
    requires e.OutcomeEvent? && e.id < |a.interviews|
    ensures var (b, r) := Do(a, e);
            var i := a.interviews[e.id];
            var held := i.status !in {Cancelled, Draft} && i.startsAt <= e.now + 3600;
            && (r == Err(Problem(409)) <==> !held || (!e.present && i.arrivedAt.Some?))
            && (r == Err(Problem(422)) <==> held && e.present && !e.graded)
            && (r.Err? ==> b == a)
            && (r.Ok? ==>
                  && |b.interviews| == |a.interviews|
                  && (forall k | 0 <= k < |a.interviews| && k != e.id :: b.interviews[k] == a.interviews[k])
                  && b.interviews[e.id] == i.(status := if e.present then Done else NoShow)
                  && b.stage == (if e.present && a.stage in {Received, Review, Shortlisted, Convocation}
                                 then InterviewStage else a.stage)
                  && b == a.(interviews := b.interviews, stage := b.stage))
  {
  }

  // ---- The recruiter, on the application ----

  /** The stages after the decision. */
  predicate AfterDecision(s: Stage) { s in {HiringFile, ContractStage, Signature, Hired} }

  /** The decision a request asks for, when it is a new one. */
  predicate Decides(a: Application, p: Processing) { p.outcome.Value? && p.outcome.value != a.outcome }

  /** A decision known to the service, which the recruiter may still change. */
  predicate MayDecide(a: Application, p: Processing)
    requires p.outcome.Value?
  {
    && p.outcome.value in {Pending, Favorable, Unfavorable}
    && !(a.communicatedAt.Some? && a.outcome == Favorable && a.contract.Some?)
  }

  /** The decision once the request is applied, and whether the candidate was told it before. */
  function OutcomeAfter(a: Application, p: Processing): Outcome { if Decides(a, p) then p.outcome.value else a.outcome }

  predicate ToldBefore(a: Application, p: Processing) { a.communicatedAt.Some? && !Decides(a, p) }

  predicate ToldAfter(a: Application, p: Processing) { ToldBefore(a, p) || p.communicate == Some(true) }

  /** A new decision, other than waiting, raises the stage to the decision. */
  function StageDecided(a: Application, p: Processing): Stage {
    if Decides(a, p) && p.outcome.value != Pending
       && a.stage in {Received, Review, Shortlisted, Convocation, InterviewStage}
    then Decision else a.stage
  }

  /** The stage a request asks for, when it is another one. */
  predicate Stages(a: Application, p: Processing) { p.stage.Value? && p.stage.value != StageDecided(a, p) }

  predicate MayStage(a: Application, p: Processing, hired: bool)
    requires p.stage.Value?
  {
    && (AfterDecision(p.stage.value) ==> OutcomeAfter(a, p) == Favorable && ToldAfter(a, p))
    && (p.stage.value in {Signature, Hired} ==> a.contract.Some?)
    && (p.stage.value == Hired ==> a.contract.value.state == Signed && hired)
  }

  /** What the candidate sees of a stage up to the interview. */
  function SeenOf(s: Stage): Visible
    requires s in {Received, Review, Shortlisted, Convocation, InterviewStage}
  {
    if s == Received then SeenReceived else if s == Review then SeenReview
    else if s == Shortlisted then SeenShortlisted else SeenInterview
  }

  /** A request on the application is accepted exactly when: the candidate did not withdraw, unless it touches only
      the follow-up; a new decision is known and still free; what is told was decided; and a new stage is known,
      and after the decision only for a favourable one, told, with a contract to sign, signed to be hired. */
  lemma ProcessAccepted(a: Application, e: Event)
    requires e.ProcessEvent?
    ensures var p := e.p;
            Do(a, e).1.Ok?
            <==> && !(a.withdrawnAt.Some? && (!p.stage.Absent? || !p.outcome.Absent? || p.communicate.Some?))
                 && !p.outcome.Unknown? && (Decides(a, p) ==> MayDecide(a, p))
                 && (p.communicate == Some(true) ==> OutcomeAfter(a, p) in {Favorable, Unfavorable})
                 && !p.stage.Unknown? && (Stages(a, p) ==> MayStage(a, p, e.hired))
    ensures Do(a, e).1.Err? ==> Do(a, e).0 == a
  {
  }

  /** What an accepted request leaves: the decision and the stage asked for; a new decision is not told until it is
      communicated, and the candidate then sees it; a stage up to the interview is seen until a decision is
      told; the follow-up fields that were sent; and nothing else. */
  lemma ProcessMoves(a: Application, e: Event)
    requires e.ProcessEvent? && Do(a, e).1.Ok?
    ensures var b, p := Do(a, e).0, e.p;
            var tells := p.communicate == Some(true) && !ToldBefore(a, p);
            && b.outcome == OutcomeAfter(a, p)
            && b.stage == (if Stages(a, p) then p.stage.value else StageDecided(a, p))
            && b.communicatedAt == (if tells then Some(e.now) else if Decides(a, p) then None else a.communicatedAt)
            && b.visible == (if Stages(a, p) && !ToldAfter(a, p)
                                && !AfterDecision(p.stage.value) && p.stage.value != Decision
                             then SeenOf(p.stage.value)
                             else if tells then (if b.outcome == Favorable then SeenAccepted else SeenDeclined)
                             else a.visible)
            && b.followUp.assignedTo == (if p.assignedTo.Some? then p.assignedTo.value else a.followUp.assignedTo)
            && b.followUp.nextAction == (if p.nextAction.Some? then p.nextAction.value else a.followUp.nextAction)
            && b.followUp.nextDue == (if p.nextDue.Some? then p.nextDue.value else a.followUp.nextDue)
            && b == a.(outcome := b.outcome, stage := b.stage, communicatedAt := b.communicatedAt,
                       visible := b.visible, followUp := b.followUp)
  {
  }
}
