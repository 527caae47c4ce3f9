/** The promises of the recruitment routes over whole runs, and the two that do not hold. */
module RecruitmentRuns {
  import opened Wrappers
  import opened RecruitmentModel
  import opened RecruitmentInvariants

  lemma Reachable(es: seq<Event>)
    ensures Inv(Run(FILED, es))
  {
    RunKeeps(FILED, es);
  }

  // ---- What a step leaves alone ----

  function Target(e: Event): Option<nat> {
    if e.SendEvent? || e.UpdateEvent? || e.CancelEvent? || e.ArriveEvent? || e.OutcomeEvent? || e.ConfirmEvent?
       || e.ViewEvent?
    then Some(e.id) else None
  }

  lemma Untouched(a: Application, e: Event, k: nat)
    requires k < |a.interviews| && Target(e) != Some(k) && !e.WithdrawEvent?
    ensures k < |Do(a, e).0.interviews| && Do(a, e).0.interviews[k] == a.interviews[k]
  {
    hide Fill, CurrentVersion, StateOf, Requested, SentAtDate, Issue, Outdated;
    match e {
      case ProcessEvent(p, hired, now) => ProcessLeavesInterviews(a, p, hired, now);
      case _ =>
    }
  }

  predicate FileEvent(e: Event) { e.ProcessEvent? || e.PrepareEvent? || e.ContractEvent? || e.WithdrawEvent? }

  /** The steps about interviews raise the stage at most to the interview, and tell no decision. */
  lemma InterviewEvents(a: Application, e: Event)
    requires !FileEvent(e)
    ensures var b := Do(a, e).0;
            && b.outcome == a.outcome && b.communicatedAt == a.communicatedAt && b.contract == a.contract
            && b.withdrawnAt == a.withdrawnAt
            && (b.stage == a.stage || (StageRank(a.stage) < StageRank(b.stage) <= StageRank(InterviewStage)))
            && (b.visible == a.visible || b.visible == SeenInterview)
  {
    hide Fill, CurrentVersion, StateOf, Requested, SentAtDate, Issue, Outdated, MoveInterview, CancelInterview;
  }

  // ---- Documents ----

  /** The versions of an interview are exactly 1, 2, ... up to its current one; only the current one can be
      live; it is active exactly while the interview is proposed or confirmed, the others never are; and
      no document ever contradicts its interview. */
  lemma VersionHistory(es: seq<Event>, id: nat, k: nat)
    requires id < |Run(FILED, es).interviews| && k < |Run(FILED, es).interviews[id].versions|
    ensures var i := Run(FILED, es).interviews[id];
            && |i.versions| == i.version && i.versions[k].number == k + 1
            && (Live(i.versions[k]) ==> k == i.version - 1)
            && (StateOf(i, i.versions[k]) == StateActive <==> i.status in {Proposed, Confirmed} && k == i.version - 1)
            && StateOf(i, i.versions[k]) != StateOutdated
  {
    Reachable(es);
    NeverOutdated(Run(FILED, es).interviews[id], k);
  }

  /** A document once sent keeps its number, its content and its date; its ends of life are written once. */
  lemma DocumentsAreFrozen(a: Application, es: seq<Event>, id: nat, k: nat)
    requires Inv(a) && id < |a.interviews| && k < |a.interviews[id].versions|
    ensures id < |Run(a, es).interviews| && k < |Run(a, es).interviews[id].versions|
    ensures Frozen(a.interviews[id].versions[k], Run(a, es).interviews[id].versions[k])
  {
    RunKeeps(a, es);
    assert InterviewFollows(a.interviews[id], Run(a, es).interviews[id]);
  }

  /** Presence and dates agree, for every interview of every run. */
  lemma InterviewHistory(es: seq<Event>, id: nat)
    requires id < |Run(FILED, es).interviews|
    ensures var i := Run(FILED, es).interviews[id];
            && (i.status == NoShow ==> i.arrivedAt.None?)
            && (i.arrivedAt.Some? ==> DayOf(Local(i.arrivedAt.value)) == DayOf(i.startsAt))
            && (i.status == Confirmed ==> i.confirmedAt.Some?) && (i.status == Proposed ==> i.confirmedAt.None?)
            && i.viewedVersion <= i.version
  {
    Reachable(es);
    assert InterviewInv(Run(FILED, es).interviews[id]);
  }

  /** An interview becomes confirmed only by the candidate: a new date asks for a new confirmation. */
  lemma {:induction false} ConfirmedByCandidate(a: Application, es: seq<Event>, id: nat)
    requires Inv(a) && id < |a.interviews| && a.interviews[id].status != Confirmed
    requires id < |Run(a, es).interviews| && Run(a, es).interviews[id].status == Confirmed
    ensures exists k :: 0 <= k < |es| && es[k].ConfirmEvent? && es[k].id == id
    decreases |es|
  {
    StepKeeps(a, es[0]);
    if es[0].ConfirmEvent? && es[0].id == id {
    } else {
      NotConfirmed(a, es[0], id);
      ConfirmedByCandidate(Do(a, es[0]).0, es[1..], id);
      var k :| 0 <= k < |es[1..]| && es[1..][k].ConfirmEvent? && es[1..][k].id == id;
      assert es[k + 1] == es[1..][k];
    }
  }

  lemma NotConfirmed(a: Application, e: Event, id: nat)
    requires Inv(a) && id < |a.interviews| && a.interviews[id].status != Confirmed
    requires !(e.ConfirmEvent? && e.id == id)
    ensures id < |Do(a, e).0.interviews| && Do(a, e).0.interviews[id].status != Confirmed
  {
    hide Inv, Fill, StateOf, Outdated, Requested, SentAtDate, CancelVersions, Supersede;
    if Target(e) != Some(id) && !e.WithdrawEvent? {
      Untouched(a, e, id);
    }
  }

  lemma ProcessLeavesInterviews(a: Application, p: Processing, hired: bool, now: Time)
    ensures Processed(a, Process(a, p, hired, now)).0.interviews == a.interviews
    ensures Processed(a, Process(a, p, hired, now)).0.withdrawnAt == a.withdrawnAt
  {
  }

  /** A new date erases the confirmation and the arrival. */
  lemma MovedInterview(a: Application, id: nat, f: Form, offered: bool, printable: bool, now: Time)
    requires Inv(a) && id < |a.interviews| && a.interviews[id].status in {Proposed, Confirmed}
    requires Update(a, id, f, offered, printable, now).1.Ok?
    ensures var i, j := a.interviews[id], Update(a, id, f, offered, printable, now).0.interviews[id];
            if j.startsAt != i.startsAt
            then j.status == Proposed && j.confirmedAt.None? && j.arrivedAt.None?
                 && j.previousStartsAt == Some(i.startsAt)
            else j.status == i.status && j.confirmedAt == i.confirmedAt && j.arrivedAt == i.arrivedAt
    ensures var i, j := a.interviews[id], Update(a, id, f, offered, printable, now).0.interviews[id];
            j.version == i.version + if j.startsAt != i.startsAt || j.printed != i.printed then 1 else 0
  {
    hide Fill;
    assert InterviewInv(a.interviews[id]);
  }

  // ---- Doing the same thing again ----

  lemma SentTwice(a: Application, id: nat, printable: bool, printable': bool, now: Time, later: Time)
    requires Inv(a) && Send(a, id, printable, now).1 == Ok(Written(id))
    ensures Send(Send(a, id, printable, now).0, id, printable', later)
         == (Send(a, id, printable, now).0, Ok(AlreadyThere))
  {
    var b := Send(a, id, printable, now).0;
    SendKeeps(a, id, printable, now);
    SentOnce(a.interviews[id]);
    assert b.interviews[id].status == Proposed;
    SentOnce(b.interviews[id]);
  }

  /** However much happens in between, a request that was served adds no second interview. */
  lemma ServedOnce(a: Application, es: seq<Event>, id: nat, requestId: string, f: Form, draft: bool,
                   offered: bool, printable: bool, now: Time)
    requires Inv(a) && id < |a.interviews| && a.interviews[id].requestId == Some(requestId)
    ensures Propose(Run(a, es), f, Some(requestId), draft, offered, printable, now).0 == Run(a, es)
  {
    RunKeeps(a, es);
    assert InterviewFollows(a.interviews[id], Run(a, es).interviews[id]);
    assert Requested(Run(a, es).interviews, requestId);
  }

  /** A convocation sent at once never doubles another one in force at the same date. */
  lemma NoSecondAtSameDate(a: Application, f: Form, requestId: Option<string>, offered: bool, printable: bool,
                           now: Time, id: nat, k: nat)
    requires Propose(a, f, requestId, false, offered, printable, now).1 == Ok(Written(id))
    requires k < |a.interviews|
    ensures var b := Propose(a, f, requestId, false, offered, printable, now).0;
            && id == |a.interviews| && |b.interviews| == id + 1 && b.interviews[id].status == Proposed
            && b.interviews[k] == a.interviews[k]
            && (b.interviews[k].startsAt == b.interviews[id].startsAt ==> b.interviews[k].status in {Cancelled, Draft})
  {
    hide Fill, Issue;
    IssueMarks(NewInterview(ToMinute(f.startsAt), Fill(BLANK, f, offered).value, requestId).(status := Proposed), now);
  }

  lemma IssueMarks(i: Interview, now: Time)
    ensures Issue(i, now).status == i.status && Issue(i, now).startsAt == i.startsAt
    ensures |Issue(i, now).versions| == |i.versions| + 1
  {
  }

  function VersionCount(a: Application, k: nat): nat {
    if k < |a.interviews| then |a.interviews[k].versions| else 0
  }

  /** Whoever sends it, and whether it is new, changed or a draft: no document is sent for a date already
      more than five minutes past. */
  lemma SentInTime(a: Application, e: Event, k: nat)
    requires VersionCount(Do(a, e).0, k) > VersionCount(a, k)
    ensures e.ProposeEvent? || e.SendEvent? || e.UpdateEvent?
    ensures ToMinute(Do(a, e).0.interviews[k].startsAt) >= Local(e.now) - 5 * MINUTE
  {
    hide Fill, CurrentVersion, StateOf, Outdated, Requested, SentAtDate;
    if Target(e) != Some(k) && !e.WithdrawEvent? && k < |a.interviews| {
      hide Do;
      Untouched(a, e, k);
    }
    MinuteTwice(if e.ProposeEvent? || e.UpdateEvent? then e.f.startsAt else 0);
    hide ToMinute;
  }

  lemma MinuteTwice(t: Time)
    ensures ToMinute(ToMinute(t)) == ToMinute(t)
  {
  }

  // ---- Decisions ----

  lemma ContractHistory(es: seq<Event>)
    ensures var a := Run(FILED, es);
            && (a.contract.Some? ==> a.outcome == Favorable && a.communicatedAt.Some? && a.withdrawnAt.None?)
            && (a.stage in {Signature, Hired} ==> a.contract.Some?)
            && (a.stage == Hired ==> a.contract.value.state == Signed && a.contract.value.signedOn.Some?)
  {
    Reachable(es);
  }

  ghost predicate ContractFollows(a: Application, b: Application) {
    a.contract.Some? ==>
      && b.contract.Some? && ContractRank(a.contract.value.state) <= ContractRank(b.contract.value.state)
      && (a.contract.value.state == Signed ==> b.contract.value == a.contract.value.(shared := b.contract.value.shared))
  }

  lemma ContractStep(a: Application, e: Event)
    requires Inv(a)
    ensures ContractFollows(a, Do(a, e).0)
  {
    hide Inv, InterviewInv, Fill, CurrentVersion;
    if !FileEvent(e) { InterviewEvents(a, e); }
  }

  /** A contract never disappears nor goes back, and once it is signed nothing in it changes but whether the
      candidate may see it. */
  lemma {:induction false} ContractForward(a: Application, es: seq<Event>)
    requires Inv(a)
    ensures ContractFollows(a, Run(a, es))
    decreases |es|
  {
    if es == [] {
    } else {
      StepKeeps(a, es[0]);
      ContractStep(a, es[0]);
      ContractForward(Do(a, es[0]).0, es[1..]);
    }
  }

  lemma VisibleHistory(es: seq<Event>)
    ensures var a := Run(FILED, es);
            && (a.communicatedAt.Some? ==> a.visible == if a.outcome == Favorable then SeenAccepted else SeenDeclined)
            && (a.visible == SeenWithdrawn <==> a.withdrawnAt.Some?)
            && (a.communicatedAt.Some? ==> a.outcome in {Favorable, Unfavorable} && a.withdrawnAt.None?)
  {
    Reachable(es);
  }

  /** The candidate learns a decision only from its communication. */
  lemma OnlyCommunicationTells(a: Application, e: Event)
    requires Inv(a) && Do(a, e).0.visible in {SeenAccepted, SeenDeclined} && Do(a, e).0.visible != a.visible
    ensures e.ProcessEvent? && e.p.communicate == Some(true)
    ensures Do(a, e).0.communicatedAt == Some(e.now)
    ensures Do(a, e).0.outcome == if Do(a, e).0.visible == SeenAccepted then Favorable else Unfavorable
  {
    hide InterviewInv, Fill, CurrentVersion;
    if !FileEvent(e) { InterviewEvents(a, e); }
  }

  lemma WithdrawnStep(a: Application, e: Event)
    requires Inv(a) && a.withdrawnAt.Some?
    ensures var b := Do(a, e).0;
            && b.withdrawnAt == a.withdrawnAt && b.outcome == a.outcome && b.visible == a.visible
            && |b.interviews| == |a.interviews|
            && forall k | 0 <= k < |a.interviews| :: b.interviews[k].versions == a.interviews[k].versions
  {
    StepKeeps(a, e);
    forall k | 0 <= k < |a.interviews|
      ensures k < |Do(a, e).0.interviews| && Do(a, e).0.interviews[k].versions == a.interviews[k].versions
    {
      assert Retired(a.interviews[k]) && InterviewFollows(a.interviews[k], Do(a, e).0.interviews[k]);
    }
    hide InterviewInv, InterviewFollows, Fill, CurrentVersion;
  }

  lemma {:induction false} WithdrawnRun(a: Application, es: seq<Event>)
    requires Inv(a) && a.withdrawnAt.Some?
    ensures Run(a, es).withdrawnAt == a.withdrawnAt
    ensures |Run(a, es).interviews| == |a.interviews|
    ensures forall k | 0 <= k < |a.interviews| :: Run(a, es).interviews[k].versions == a.interviews[k].versions
    decreases |es|
  {
    if es == [] {
    } else {
      WithdrawnStep(a, es[0]);
      StepKeeps(a, es[0]);
      WithdrawnRun(Do(a, es[0]).0, es[1..]);
    }
  }

  /** After a withdrawal nothing is sent any more and no version is active, whatever is tried. */
  lemma WithdrawnForGood(a: Application, es: seq<Event>)
    requires Inv(a) && a.withdrawnAt.Some?
    ensures var b := Run(a, es);
            b.withdrawnAt == a.withdrawnAt && b.outcome == WithdrawnOutcome && b.visible == SeenWithdrawn
    ensures |Run(a, es).interviews| == |a.interviews|
    ensures forall k | 0 <= k < |a.interviews| ::
              && Run(a, es).interviews[k].versions == a.interviews[k].versions
              && forall v <- a.interviews[k].versions :: StateOf(Run(a, es).interviews[k], v) != StateActive
  {
    WithdrawnRun(a, es);
    RunKeeps(a, es);
    forall k, v | 0 <= k < |a.interviews| && v in a.interviews[k].versions
      ensures StateOf(Run(a, es).interviews[k], v) != StateActive
    {
      var i := Run(a, es).interviews[k];
      var n :| 0 <= n < |i.versions| && i.versions[n] == v;
      assert Retired(i);
      NeverOutdated(i, n);
    }
  }

  // ---- Two promises that do not hold, and when they do ----

  /** A stage past the decision is backed by a favourable decision the candidate knows. */
  predicate StageBacked(a: Application) {
    StageRank(a.stage) > StageRank(Decision) ==> a.outcome == Favorable && a.communicatedAt.Some?
  }

  /** The recruiter takes the decision back and leaves the stage where it is. */
  predicate TakesBack(a: Application, e: Event) {
    && e.ProcessEvent? && StageRank(a.stage) > StageRank(Decision)
    && a.withdrawnAt.None? && a.contract.None?
    && e.p.outcome in {Value(Pending), Value(Unfavorable)}
    && (e.p.communicate == Some(true) ==> e.p.outcome == Value(Unfavorable))
    && (e.p.stage in {Absent, Null, Value(a.stage)})
  }

  lemma OtherStages(a: Application, e: Event)
    requires Inv(a) && StageBacked(a) && !e.ProcessEvent?
    ensures StageBacked(Do(a, e).0)
  {
    hide InterviewInv;
    if !FileEvent(e) {
      hide Do;
      InterviewEvents(a, e);
    }
  }

  /** Moving to another stage checks the decision. */
  lemma MovedStage(a: Application, stage: Given<Stage>, hired: bool)
    requires MoveTo(a, stage, hired).Ok?
    ensures StageBacked(MoveTo(a, stage, hired).value)
       <==> StageBacked(a) || (stage.Value? && stage.value != a.stage)
  {
  }

  lemma DecidedStage(a: Application, p: Processing, now: Time)
    requires Inv(a) && StageBacked(a) && a.withdrawnAt.None?
    requires Decide(a, p.outcome).Ok?
    requires Communicate(Decide(a, p.outcome).value, p.communicate == Some(true), now).Ok?
    ensures var told := Communicate(Decide(a, p.outcome).value, p.communicate == Some(true), now).value;
            && (StageRank(a.stage) > StageRank(Decision) ==> told.stage == a.stage)
            && (StageBacked(told) <==>
                  !(StageRank(a.stage) > StageRank(Decision) && p.outcome.Value? && p.outcome.value != Favorable))
            && (!StageBacked(told) ==>
                  a.contract.None? && told.outcome != Favorable && p.outcome.value != WithdrawnOutcome)
  {
    hide InterviewInv;
  }

  lemma TakenBack(a: Application, e: Event)
    requires Inv(a) && StageBacked(a) && e.ProcessEvent?
    ensures StageBacked(Do(a, e).0) <==> !TakesBack(a, e)
  {
    var followed := a.(followUp := Follow(a.followUp, e.p));
    assert Inv(followed) by { FileInvs(a); FileKeeps(a, followed); }
    hide Inv;
    FileInvs(a);
    if a.withdrawnAt.None? && Decide(followed, e.p.outcome).Ok? {
      var decided := Decide(followed, e.p.outcome).value;
      if Communicate(decided, e.p.communicate == Some(true), e.now).Ok? {
        DecidedStage(followed, e.p, e.now);
        var told := Communicate(decided, e.p.communicate == Some(true), e.now).value;
        if MoveTo(told, e.p.stage, e.hired).Ok? {
          MovedStage(told, e.p.stage, e.hired);
        }
      }
    }
  }

  lemma FileInvs(a: Application)
    requires Inv(a)
    ensures ContractInv(a) && VisibleInv(a)
  {
  }

  /** Only taking a decision back, while no contract exists, leaves a stage without its decision. */
  lemma StageLosesDecision(a: Application, e: Event)
    requires Inv(a) && StageBacked(a)
    ensures StageBacked(Do(a, e).0) <==> !TakesBack(a, e)
  {
    if e.ProcessEvent? {
      TakenBack(a, e);
    } else {
      OtherStages(a, e);
    }
  }

  lemma StageOutlivesDecision()
    ensures exists es :: !StageBacked(Run(FILED, es)) && Run(FILED, es).stage == HiringFile
  {
    var told := ProcessEvent(Processing(Value(HiringFile), Value(Favorable), Some(true), None, None, None), false, 0);
    var back := ProcessEvent(Processing(Absent, Value(Unfavorable), None, None, None, None), false, 0);
    var a := Do(FILED, told).0;
    var b := Do(a, back).0;
    assert Run(b, []) == b;
    assert [back][1..] == [];
    assert Run(a, [back]) == b;
    assert [told, back][1..] == [back];
    assert Run(FILED, [told, back]) == b;
  }

  /** An update that will send a new document: the interview is open, the date not past, the society allowed,
      the text printable, and something printed changes. */
  predicate SendsByUpdate(a: Application, e: Event, k: nat)
    requires k < |a.interviews|
  {
    && e.UpdateEvent? && e.id == k && a.interviews[k].status in {Proposed, Confirmed}
    && !TooLate(e.f.startsAt, e.now) && !OutOfScope(e.f, e.offered) && e.printable
    && (ToMinute(e.f.startsAt) != a.interviews[k].startsAt
        || Filled(a.interviews[k].printed, e.f, e.offered) != a.interviews[k].printed)
  }

  lemma UpdateSends(a: Application, e: Event, k: nat)
    requires k < |a.interviews| && StatusInv(a.interviews[k]) && e.UpdateEvent? && e.id == k
    ensures |Do(a, e).0.interviews[k].versions| > |a.interviews[k].versions| <==> SendsByUpdate(a, e, k)
  {
    hide Filled, ToMinute, Outdated, CurrentVersion, StateOf;
  }

  lemma ClosedOthersSendNone(a: Application, e: Event, k: nat)
    requires Closed(a) && k < |a.interviews| && !e.UpdateEvent? && (Target(e) == Some(k) || e.WithdrawEvent?)
    ensures |Do(a, e).0.interviews| == |a.interviews|
    ensures |Do(a, e).0.interviews[k].versions| == |a.interviews[k].versions|
  {
    hide Filled, Requested, SentAtDate, CurrentVersion, StateOf, Outdated, ToMinute, Issue;
  }

  /** On a closed application no interview can be added, and a document is sent exactly by an update of an
      interview still open. */
  lemma ClosedApplicationSends(a: Application, e: Event, k: nat)
    requires Inv(a) && Closed(a) && k < |a.interviews|
    ensures |Do(a, e).0.interviews| == |a.interviews|
    ensures |Do(a, e).0.interviews[k].versions| > |a.interviews[k].versions| <==> SendsByUpdate(a, e, k)
  {
    assert StatusInv(a.interviews[k]) by { RowStatus(a.interviews[k]); }
    ClosedAddsNone(a, e);
    hide Inv, Do, Closed;
    if Target(e) != Some(k) && !e.WithdrawEvent? {
      Untouched(a, e, k);
    } else if e.UpdateEvent? {
      UpdateSends(a, e, k);
    } else {
      ClosedOthersSendNone(a, e, k);
    }
  }

  lemma ClosedAddsNone(a: Application, e: Event)
    requires Closed(a)
    ensures |Do(a, e).0.interviews| == |a.interviews|
  {
    hide Filled, Requested, SentAtDate, CurrentVersion, StateOf, Outdated, Issue;
    match e {
      case ProcessEvent(p, hired, now) => ProcessLeavesInterviews(a, p, hired, now);
      case _ =>
    }
  }

  lemma RowStatus(i: Interview)
    requires InterviewInv(i)
    ensures StatusInv(i)
  {
  }

  const SOMEWHERE := Form(0, "Alger", None, None, None, None, None, None, None, None, true)
  const ELSEWHERE := SOMEWHERE.(location := "Oran")
  const SENT := Do(FILED, ProposeEvent(SOMEWHERE, None, false, true, true, 0 - HOUR)).0
  const REFUSED :=
    Do(SENT, ProcessEvent(Processing(Absent, Value(Unfavorable), Some(true), None, None, None), false, 0)).0

  lemma FirstSent()
    ensures |SENT.interviews| == 1 && SENT.interviews[0].status == Proposed && SENT.interviews[0].version == 1
    ensures SENT.interviews[0].printed.location == "Alger" && SENT.interviews[0].startsAt == 0
    ensures SENT.withdrawnAt.None? && SENT.contract.None? && SENT.outcome == Pending && SENT.communicatedAt.None?
    ensures Inv(SENT)
  {
    StepKeeps(FILED, ProposeEvent(SOMEWHERE, None, false, true, true, 0 - HOUR));
    hide Inv;
  }

  lemma ThenRefused()
    ensures REFUSED.interviews == SENT.interviews && REFUSED.withdrawnAt.None? && Closed(REFUSED) && Inv(REFUSED)
  {
    FirstSent();
    StepKeeps(SENT, ProcessEvent(Processing(Absent, Value(Unfavorable), Some(true), None, None, None), false, 0));
    hide Inv, SENT;
  }

  /** A refused candidate whose interview is still open can be sent another document. */
  lemma ClosedApplicationStillSends()
    ensures Inv(REFUSED) && Closed(REFUSED) && |REFUSED.interviews| == 1
    ensures var b := Do(REFUSED, UpdateEvent(0, ELSEWHERE, true, true, 0 - HOUR)).0;
            |b.interviews| == 1 && |b.interviews[0].versions| > |REFUSED.interviews[0].versions|
  {
    FirstSent();
    ThenRefused();
    hide Inv, SENT, REFUSED;
    ClosedApplicationSends(REFUSED, UpdateEvent(0, ELSEWHERE, true, true, 0 - HOUR), 0);
    assert Filled(REFUSED.interviews[0].printed, ELSEWHERE, true).location == "Oran";
  }
}
