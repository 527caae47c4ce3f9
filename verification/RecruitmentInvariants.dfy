/** What every run of the recruitment routes keeps, from an application just filed. */
module RecruitmentInvariants {
  import opened Wrappers
  import opened RecruitmentModel

  // ---- The invariant ----

  /** Versions are numbered from 1 and only the last was not replaced. */
  ghost predicate VersionsInv(i: Interview) {
    && |i.versions| == i.version
    && (forall k | 0 <= k < |i.versions| :: i.versions[k].number == k + 1)
    && (forall k | 0 <= k < |i.versions| - 1 :: i.versions[k].supersededAt.Some? && i.versions[k].cancelledAt.None?)
    && (i.version > 0 ==> i.versions[i.version - 1].supersededAt.None?)
  }

  /** The last version says what the interview is, and is cancelled with it. */
  ghost predicate CurrentInv(i: Interview) {
    i.version > 0 && i.version == |i.versions| ==>
      var last := i.versions[i.version - 1];
      && last.startsAt == i.startsAt && last.printed == i.printed
      && (last.cancelledAt.Some? <==> i.status == Cancelled)
  }

  predicate StatusInv(i: Interview) {
    && (i.status == Draft ==> i.version == 0)
    && (i.status in {Proposed, Confirmed, Done, NoShow} ==> i.version > 0)
    && (i.version > 0 <==> i.sentAt.Some?)
    && (i.status == Cancelled <==> i.cancelledAt.Some?)
    && i.viewedVersion <= i.version
    && (i.status in {Draft, Proposed} ==> i.confirmedAt.None?)
    && (i.status == Confirmed ==> i.confirmedAt.Some?)
    && (i.status in {Draft, NoShow} ==> i.arrivedAt.None?)
    && (i.arrivedAt.Some? ==> DayOf(Local(i.arrivedAt.value)) == DayOf(i.startsAt))
  }

  ghost predicate InterviewInv(i: Interview) { VersionsInv(i) && CurrentInv(i) && StatusInv(i) }

  predicate ContractInv(a: Application) {
    && (a.contract.Some? ==> a.outcome == Favorable && a.communicatedAt.Some? && a.withdrawnAt.None?)
    && (a.stage in {Signature, Hired} ==> a.contract.Some?)
    && (a.stage == Hired ==> a.contract.value.state == Signed)
    && (a.contract.Some? && a.contract.value.state == Signed ==> a.contract.value.signedOn.Some?)
    && (a.contract.Some? && a.contract.value.state == Remitted ==> a.contract.value.remittedAt.Some?)
  }

  predicate VisibleInv(a: Application) {
    && (a.communicatedAt.Some? && a.outcome == Favorable ==> a.visible == SeenAccepted)
    && (a.communicatedAt.Some? && a.outcome == Unfavorable ==> a.visible == SeenDeclined)
    && (a.communicatedAt.Some? ==> a.outcome in {Favorable, Unfavorable})
    && (a.visible == SeenWithdrawn <==> a.withdrawnAt.Some?)
    && (a.outcome == WithdrawnOutcome <==> a.withdrawnAt.Some?)
  }

  predicate Retired(i: Interview) { i.status in {Cancelled, Done, NoShow} }

  ghost predicate RequestsInv(interviews: seq<Interview>) {
    forall j, k | 0 <= j < k < |interviews| && interviews[j].requestId.Some? ::
      interviews[j].requestId != interviews[k].requestId
  }

  ghost predicate Inv(a: Application) {
    && ContractInv(a) && VisibleInv(a) && RequestsInv(a.interviews)
    && (forall k | 0 <= k < |a.interviews| :: InterviewInv(a.interviews[k]))
    && (a.withdrawnAt.Some? ==> forall k | 0 <= k < |a.interviews| :: Retired(a.interviews[k]))
  }

  // ---- How an interview may change ----

  predicate WrittenOnce(before: Option<Time>, after: Option<Time>) { before.Some? ==> after == before }

  predicate Frozen(v: Version, w: Version) {
    && w.number == v.number && w.startsAt == v.startsAt && w.printed == v.printed && w.issuedAt == v.issuedAt
    && WrittenOnce(v.supersededAt, w.supersededAt) && WrittenOnce(v.cancelledAt, w.cancelledAt)
  }

  ghost predicate InterviewFollows(i: Interview, j: Interview) {
    && j.requestId == i.requestId && |i.versions| <= |j.versions|
    && (forall k | 0 <= k < |i.versions| :: Frozen(i.versions[k], j.versions[k]))
    && (i.status == Cancelled ==> j.status == Cancelled && j.versions == i.versions)
    && (i.status in {Done, NoShow} ==> j.status in {Done, NoShow} && j.versions == i.versions)
    && (i.status != Draft ==> j.status != Draft)
    && i.viewedVersion <= j.viewedVersion && WrittenOnce(i.sentAt, j.sentAt)
  }

  lemma FollowsTransitive(i: Interview, j: Interview, k: Interview)
    requires InterviewFollows(i, j) && InterviewFollows(j, k)
    ensures InterviewFollows(i, k)
  {
    forall n | 0 <= n < |i.versions| ensures Frozen(i.versions[n], k.versions[n]) {
      assert Frozen(i.versions[n], j.versions[n]) && Frozen(j.versions[n], k.versions[n]);
    }
  }

  /** Issuing adds one version, numbered next, that says what the interview is; it is the only live one, and
      the documents sent before are kept as they were. */
  lemma IssueVersions(i: Interview, now: Time)
    requires VersionsInv(i) && (i.version > 0 ==> i.versions[i.version - 1].cancelledAt.None?)
    ensures var j := Issue(i, now);
            && VersionsInv(j) && j.version == i.version + 1 && |j.versions| == |i.versions| + 1
            && (forall k | 0 <= k < |j.versions| :: Live(j.versions[k]) <==> k == j.version - 1)
            && j.versions[i.version].startsAt == i.startsAt && j.versions[i.version].printed == i.printed
    ensures forall k | 0 <= k < |i.versions| :: Frozen(i.versions[k], Issue(i, now).versions[k])
  {
  }

  /** A sent interview, or a draft being sent, takes a new version. */
  lemma IssueKeeps(i: Interview, now: Time)
    requires VersionsInv(i) && i.status in {Proposed, Confirmed}
    requires i.version > 0 ==> i.versions[i.version - 1].cancelledAt.None?
    requires i.version > 0 <==> i.sentAt.Some?
    requires StatusInv(i.(version := 1, sentAt := Some(now), viewedVersion := 0)) && i.viewedVersion <= i.version
    ensures InterviewInv(Issue(i, now)) && InterviewFollows(i, Issue(i, now))
  {
    IssueVersions(i, now);
  }

  lemma CancelKeeps(i: Interview, now: Time)
    requires InterviewInv(i)
    ensures InterviewInv(CancelInterview(i, now)) && InterviewFollows(i, CancelInterview(i, now))
    ensures Retired(CancelInterview(i, now))
  {
  }

  lemma CurrentIsLast(i: Interview)
    requires InterviewInv(i)
    ensures i.version > 0 ==> CurrentVersion(i) == Some(i.versions[i.version - 1])
    ensures i.version == 0 ==> CurrentVersion(i).None?
  {
  }

  /** No reachable interview has an outdated document, and only a sent, open one has an active document. */
  lemma NeverOutdated(i: Interview, k: nat)
    requires InterviewInv(i) && k < |i.versions|
    ensures StateOf(i, i.versions[k]) != StateOutdated
    ensures StateOf(i, i.versions[k]) == StateActive <==> i.status in {Proposed, Confirmed} && k == i.version - 1
  {
  }

  /** A sending of an open interview that has a version is refused as already done. */
  lemma SentOnce(i: Interview)
    requires InterviewInv(i) && i.status in {Draft, Proposed, Confirmed}
    ensures CurrentVersion(i).Some? && StateOf(i, CurrentVersion(i).value) != StateOutdated <==> i.status != Draft
  {
    CurrentIsLast(i);
    if i.version > 0 { NeverOutdated(i, i.version - 1); }
  }

  lemma SendRowKeeps(i: Interview, now: Time)
    requires InterviewInv(i) && i.status == Draft
    ensures InterviewInv(Issue(i.(status := Proposed), now)) && InterviewFollows(i, Issue(i.(status := Proposed), now))
  {
    IssueKeeps(i.(status := Proposed), now);
  }

  lemma UpdateRowKeeps(i: Interview, startsAt: Time, printed: Printed, now: Time)
    requires InterviewInv(i) && i.status in {Proposed, Confirmed}
    ensures var moved := MoveInterview(i, startsAt).(printed := printed);
            InterviewInv(Issue(moved, now)) && InterviewFollows(i, Issue(moved, now))
    ensures startsAt == i.startsAt && printed == i.printed ==> MoveInterview(i, startsAt).(printed := printed) == i
  {
    var moved := MoveInterview(i, startsAt).(printed := printed);
    IssueKeeps(moved, now);
    assert InterviewFollows(i, moved);
    FollowsTransitive(i, moved, Issue(moved, now));
  }

  /** Any other change of an open row's marks. */
  lemma MarksKeep(i: Interview, j: Interview)
    requires InterviewInv(i) && StatusInv(j)
    requires j.versions == i.versions && j.version == i.version && j.requestId == i.requestId && j.sentAt == i.sentAt
    requires (j.startsAt == i.startsAt && j.printed == i.printed) || i.version == 0
    requires i.viewedVersion <= j.viewedVersion
    requires i.status == Cancelled <==> j.status == Cancelled
    requires i.status in {Done, NoShow} ==> j.status in {Done, NoShow}
    requires i.status != Draft ==> j.status != Draft
    ensures InterviewInv(j) && InterviewFollows(i, j)
  {
  }

  // ---- Changing one interview of the application ----

  lemma OneInterview(a: Application, b: Application, id: nat, i: Interview)
    requires Inv(a) && id < |a.interviews| && b.interviews == a.interviews[id := i]
    requires ContractInv(b) && VisibleInv(b) && b.withdrawnAt == a.withdrawnAt
    requires InterviewInv(i) && InterviewFollows(a.interviews[id], i)
    ensures Inv(b)
    ensures forall k | 0 <= k < |a.interviews| :: InterviewFollows(a.interviews[k], b.interviews[k])
  {
    hide InterviewInv, ContractInv, VisibleInv;
    if a.withdrawnAt.Some? {
      assert Retired(a.interviews[id]);
    }
  }

  // ---- Every operation keeps the invariant ----

  ghost predicate Keeps(a: Application, b: Application) {
    && Inv(b) && |a.interviews| <= |b.interviews|
    && forall k | 0 <= k < |a.interviews| :: InterviewFollows(a.interviews[k], b.interviews[k])
  }

  lemma Same(a: Application)
    requires Inv(a)
    ensures Keeps(a, a)
  {
  }

  /** Changing the decision, the stage or the contract alone. */
  lemma FileKeeps(a: Application, b: Application)
    requires Inv(a) && ContractInv(b) && VisibleInv(b)
    requires b.interviews == a.interviews && b.withdrawnAt == a.withdrawnAt
    ensures Keeps(a, b)
  {
    hide InterviewInv, ContractInv, VisibleInv;
  }

  lemma ProcessKeeps(a: Application, p: Processing, hired: bool, now: Time)
    requires Inv(a)
    ensures Keeps(a, Processed(a, Process(a, p, hired, now)).0)
  {
    hide InterviewInv, RequestsInv;
    var b := Processed(a, Process(a, p, hired, now)).0;
    ProcessFile(a, p, hired, now);
    FileKeeps(a, b);
  }

  lemma ProcessFile(a: Application, p: Processing, hired: bool, now: Time)
    requires ContractInv(a) && VisibleInv(a)
    ensures var b := Processed(a, Process(a, p, hired, now)).0;
            ContractInv(b) && VisibleInv(b) && b.interviews == a.interviews && b.withdrawnAt == a.withdrawnAt
  {
    if !(a.withdrawnAt.Some? && TouchesDecision(p)) {
      var followed := a.(followUp := Follow(a.followUp, p));
      DecideFile(followed, p.outcome);
      match Decide(followed, p.outcome) {
        case Err(_) =>
        case Ok(decided) =>
          CommunicateFile(decided, p.communicate == Some(true), now);
          match Communicate(decided, p.communicate == Some(true), now) {
            case Err(_) =>
            case Ok(told) => MoveFile(told, p.stage, hired);
          }
      }
    }
  }

  lemma DecideFile(a: Application, outcome: Given<Outcome>)
    requires ContractInv(a) && VisibleInv(a) && (a.withdrawnAt.Some? ==> outcome.Absent?)
    ensures Decide(a, outcome).Ok? ==>
              var b := Decide(a, outcome).value;
              ContractInv(b) && VisibleInv(b) && b.interviews == a.interviews && b.withdrawnAt == a.withdrawnAt
  {
  }

  lemma CommunicateFile(a: Application, communicate: bool, now: Time)
    requires ContractInv(a) && VisibleInv(a)
    ensures Communicate(a, communicate, now).Ok? ==>
              var b := Communicate(a, communicate, now).value;
              ContractInv(b) && VisibleInv(b) && b.interviews == a.interviews && b.withdrawnAt == a.withdrawnAt
  {
  }

  lemma MoveFile(a: Application, stage: Given<Stage>, hired: bool)
    requires ContractInv(a) && VisibleInv(a) && (a.withdrawnAt.Some? ==> stage.Absent?)
    ensures MoveTo(a, stage, hired).Ok? ==>
              var b := MoveTo(a, stage, hired).value;
              ContractInv(b) && VisibleInv(b) && b.interviews == a.interviews && b.withdrawnAt == a.withdrawnAt
  {
  }

  lemma SendOutKeeps(a: Application, id: nat, now: Time)
    requires Inv(a) && id < |a.interviews| && a.interviews[id].status == Draft && a.withdrawnAt.None?
    ensures Keeps(a, SendOut(a, id, now))
  {
    var i := a.interviews[id];
    SendRowKeeps(i, now);
    OneInterview(a, SendOut(a, id, now), id, Issue(i.(status := Proposed), now));
  }

  lemma NotRequested(interviews: seq<Interview>, asked: string, j: nat)
    requires j < |interviews| && !Requested(interviews, asked)
    ensures interviews[j].requestId != Some(asked)
  {
  }

  lemma DraftKeeps(a: Application, i: Interview)
    requires Inv(a) && a.withdrawnAt.None? && InterviewInv(i)
    requires i.requestId.Some? ==> !Requested(a.interviews, i.requestId.value)
    ensures Keeps(a, a.(interviews := a.interviews + [i]))
  {
    hide InterviewInv;
    var b := a.(interviews := a.interviews + [i]);
    forall j, k | 0 <= j < k < |b.interviews| && b.interviews[j].requestId.Some?
      ensures b.interviews[j].requestId != b.interviews[k].requestId
    {
      if k == |a.interviews| && i.requestId.Some? {
        NotRequested(a.interviews, i.requestId.value, j);
      }
    }
  }

  lemma KeepsTransitive(a: Application, b: Application, c: Application)
    requires Keeps(a, b) && Keeps(b, c)
    ensures Keeps(a, c)
  {
    hide Inv, InterviewFollows;
    forall k | 0 <= k < |a.interviews| ensures InterviewFollows(a.interviews[k], c.interviews[k]) {
      FollowsTransitive(a.interviews[k], b.interviews[k], c.interviews[k]);
    }
  }

  lemma ProposeKeeps(a: Application, f: Form, requestId: Option<string>, draft: bool, offered: bool,
                     printable: bool, now: Time)
    requires Inv(a)
    ensures Keeps(a, Propose(a, f, requestId, draft, offered, printable, now).0)
  {
    hide Inv, InterviewInv, InterviewFollows;
    Same(a);
    var (b, r) := Propose(a, f, requestId, draft, offered, printable, now);
    if r.Ok? && r.value.Written? {
      var i := NewInterview(ToMinute(f.startsAt), Fill(BLANK, f, offered).value, requestId);
      assert InterviewInv(i) by { NewInterviewInv(ToMinute(f.startsAt), Fill(BLANK, f, offered).value, requestId); }
      var added := a.(interviews := a.interviews + [i]);
      DraftKeeps(a, i);
      if !draft {
        SendOutKeeps(added, |a.interviews|, now);
        KeepsTransitive(a, added, b);
      }
    }
  }

  lemma NewInterviewInv(startsAt: Time, printed: Printed, requestId: Option<string>)
    ensures InterviewInv(NewInterview(startsAt, printed, requestId))
  {
  }

  lemma SendKeeps(a: Application, id: nat, printable: bool, now: Time)
    requires Inv(a)
    ensures Keeps(a, Send(a, id, printable, now).0)
  {
    Same(a);
    if id < |a.interviews| && a.interviews[id].status in {Draft, Proposed, Confirmed} {
      SentOnce(a.interviews[id]);
      hide Inv, InterviewInv, InterviewFollows, CurrentVersion;
      if Send(a, id, printable, now).1 == Ok(Written(id)) {
        SendOutKeeps(a, id, now);
      }
    }
  }

  lemma UpdateKeeps(a: Application, id: nat, f: Form, offered: bool, printable: bool, now: Time)
    requires Inv(a)
    ensures Keeps(a, Update(a, id, f, offered, printable, now).0)
  {
    Same(a);
    var (b, r) := Update(a, id, f, offered, printable, now);
    if r.Ok? {
      var i := a.interviews[id];
      var startsAt, printed := ToMinute(f.startsAt), Fill(i.printed, f, offered).value;
      if i.status == Draft {
        MarksKeep(i, i.(startsAt := startsAt, printed := printed));
      } else {
        UpdateRowKeeps(i, startsAt, printed, now);
        assert InterviewFollows(i, i) && i.version > 0;
      }
      hide InterviewInv, InterviewFollows;
      OneInterview(a, b, id, b.interviews[id]);
    }
  }

  lemma CancelEventKeeps(a: Application, id: nat, now: Time)
    requires Inv(a)
    ensures Keeps(a, Cancel(a, id, now).0)
  {
    Same(a);
    if id < |a.interviews| {
      CancelKeeps(a.interviews[id], now);
      OneInterview(a, Cancel(a, id, now).0, id, CancelInterview(a.interviews[id], now));
    }
  }

  lemma ArriveKeeps(a: Application, id: nat, version: nat, now: Time)
    requires Inv(a)
    ensures Keeps(a, Arrive(a, id, version, now).0)
  {
    Same(a);
    var (b, r) := Arrive(a, id, version, now);
    if r == Ok(Written(id)) {
      MarksKeep(a.interviews[id], b.interviews[id]);
      OneInterview(a, b, id, b.interviews[id]);
    }
  }

  lemma OutcomeKeeps(a: Application, id: nat, present: bool, graded: bool, now: Time)
    requires Inv(a)
    ensures Keeps(a, RecordOutcome(a, id, present, graded, now).0)
  {
    Same(a);
    var (b, r) := RecordOutcome(a, id, present, graded, now);
    if r == Ok(Written(id)) {
      MarksKeep(a.interviews[id], b.interviews[id]);
      OneInterview(a, b, id, b.interviews[id]);
    }
  }

  lemma ContractKeeps(a: Application, terms: string, placed: bool, consistent: bool, state: ContractState,
                      signedOn: Option<Day>, share: Option<bool>, today: Day, now: Time)
    requires Inv(a)
    ensures Keeps(a, PrepareContract(a, terms, placed, consistent).0)
    ensures Keeps(a, SetContractState(a, state, signedOn, share, today, now).0)
  {
    hide InterviewInv, RequestsInv;
    FileKeeps(a, PrepareContract(a, terms, placed, consistent).0);
    FileKeeps(a, SetContractState(a, state, signedOn, share, today, now).0);
  }

  lemma WithdrawRowKeeps(i: Interview, now: Time)
    requires InterviewInv(i)
    ensures var j := WithdrawInterviews([i], now)[0];
            InterviewInv(j) && InterviewFollows(i, j) && Retired(j) && j.requestId == i.requestId
  {
    CancelKeeps(i, now);
    if i.status == Draft { assert CancelVersions(i.versions, now) == i.versions; }
  }

  lemma WithdrawKeeps(a: Application, now: Time)
    requires Inv(a)
    ensures Keeps(a, Withdraw(a, now).0)
  {
    Same(a);
    var (b, r) := Withdraw(a, now);
    if r.Ok? && a.withdrawnAt.None? {
      forall k | 0 <= k < |a.interviews|
        ensures InterviewInv(b.interviews[k]) && InterviewFollows(a.interviews[k], b.interviews[k])
        ensures Retired(b.interviews[k]) && b.interviews[k].requestId == a.interviews[k].requestId
      {
        WithdrawRowKeeps(a.interviews[k], now);
      }
    }
  }

  lemma CandidateKeeps(a: Application, id: nat, now: Time)
    requires Inv(a)
    ensures Keeps(a, Confirm(a, id, now).0)
    ensures Keeps(a, View(a, id).0)
  {
    Same(a);
    var b, c := Confirm(a, id, now), View(a, id);
    if b.1 == Ok(Written(id)) {
      MarksKeep(a.interviews[id], b.0.interviews[id]);
      OneInterview(a, b.0, id, b.0.interviews[id]);
    }
    if c.1.Ok? {
      MarksKeep(a.interviews[id], c.0.interviews[id]);
      OneInterview(a, c.0, id, c.0.interviews[id]);
    }
  }

  /** Whatever is done, by the staff or by the candidate. */
  lemma StepKeeps(a: Application, e: Event)
    requires Inv(a)
    ensures Keeps(a, Do(a, e).0)
  {
    match e {
      case ProcessEvent(p, hired, now) => ProcessKeeps(a, p, hired, now);
      case ProposeEvent(f, requestId, draft, offered, printable, now) =>
        ProposeKeeps(a, f, requestId, draft, offered, printable, now);
      case SendEvent(id, printable, now) => SendKeeps(a, id, printable, now);
      case UpdateEvent(id, f, offered, printable, now) => UpdateKeeps(a, id, f, offered, printable, now);
      case CancelEvent(id, now) => CancelEventKeeps(a, id, now);
      case ArriveEvent(id, version, now) => ArriveKeeps(a, id, version, now);
      case OutcomeEvent(id, present, graded, now) => OutcomeKeeps(a, id, present, graded, now);
      case PrepareEvent(terms, placed, consistent) =>
        ContractKeeps(a, terms, placed, consistent, Prepared, None, None, 0, 0);
      case ContractEvent(state, signedOn, share, today, now) =>
        ContractKeeps(a, "", true, true, state, signedOn, share, today, now);
      case WithdrawEvent(now) => WithdrawKeeps(a, now);
      case ConfirmEvent(id, now) => CandidateKeeps(a, id, now);
      case ViewEvent(id) => CandidateKeeps(a, id, 0);
    }
  }

  lemma {:induction false} RunKeeps(a: Application, es: seq<Event>)
    requires Inv(a)
    ensures Keeps(a, Run(a, es))
    decreases |es|
  {
    if es == [] {
      Same(a);
    } else {
      StepKeeps(a, es[0]);
      RunKeeps(Do(a, es[0]).0, es[1..]);
      KeepsTransitive(a, Do(a, es[0]).0, Run(a, es));
    }
  }
}
