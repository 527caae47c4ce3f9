/** The same routes as they run: fields are written one after the other, then committed or rolled back.
    Each method is proved to be the function of RecruitmentModel it stands for. */
module RecruitmentDesk {
  import opened Wrappers
  import opened RecruitmentModel

  class Desk {
    var stage: Stage
    var outcome: Outcome
    var communicatedAt: Option<Time>
    var visible: Visible
    var withdrawnAt: Option<Time>
    var contract: Option<Contract>
    var interviews: seq<Interview>
    var followUp: FollowUp
    /** The graph as last committed. */
    var saved: Application

    function Graph(): Application
      reads this
    {
      Application(stage, outcome, communicatedAt, visible, withdrawnAt, contract, interviews, followUp)
    }

    predicate Idle()
      reads this
    {
      saved == Graph()
    }

    constructor ()
      ensures Idle() && saved == FILED
    {
      stage, outcome, communicatedAt, visible := Received, Pending, None, SeenReceived;
      withdrawnAt, contract, interviews, followUp, saved := None, None, [], FollowUp(None, None, None), FILED;
    }

    method Commit()
      modifies this`saved
      ensures Idle()
    {
      saved := Graph();
    }

    method Rollback()
      modifies this
      ensures Idle() && saved == old(saved)
    {
      stage, outcome, communicatedAt, visible := saved.stage, saved.outcome, saved.communicatedAt, saved.visible;
      withdrawnAt, contract := saved.withdrawnAt, saved.contract;
      interviews, followUp := saved.interviews, saved.followUp;
    }

    method Refuse(status: int) returns (r: Result<Reply, Problem>)
      modifies this
      ensures Idle() && saved == old(saved) && r == Err(Problem(status))
    {
      Rollback();
      r := Err(Problem(status));
    }

    // ---- Processing ----

    method UpdateProcessing(p: Processing, hired: bool, now: Time) returns (r: Result<Reply, Problem>)
      requires Idle()
      modifies this
      ensures Idle() && (saved, r) == Processed(old(saved), Process(old(saved), p, hired, now))
    {
      if withdrawnAt.Some? && TouchesDecision(p) {
        r := Refuse(409);
        return;
      }
      WriteFollowUp(p);
      var ok, status := WriteOutcome(p.outcome);
      if !ok { r := Refuse(status); return; }
      if p.communicate == Some(true) {
        if outcome !in {Favorable, Unfavorable} { r := Refuse(409); return; }
        if communicatedAt.None? {
          communicatedAt := Some(now);
          SetVisible(if outcome == Favorable then SeenAccepted else SeenDeclined);
        }
      }
      ok, status := WriteStage(p.stage, hired);
      if !ok { r := Refuse(status); return; }
      Commit();
      r := Ok(Unchanged);
    }

    method WriteFollowUp(p: Processing)
      modifies this`followUp
      ensures followUp == Follow(old(followUp), p)
    {
      if p.assignedTo.Some? && p.assignedTo.value != followUp.assignedTo {
        followUp := followUp.(assignedTo := p.assignedTo.value);
      }
      if p.nextAction.Some? { followUp := followUp.(nextAction := p.nextAction.value); }
      if p.nextDue.Some? { followUp := followUp.(nextDue := p.nextDue.value); }
    }

    method SetVisible(status: Visible)
      modifies this`visible
      ensures visible == status
    {
      if visible != status { visible := status; }
    }

    method WriteOutcome(given: Given<Outcome>) returns (ok: bool, status: int)
      modifies this`outcome, this`communicatedAt, this`stage
      ensures ok ==> Decide(old(Graph()), given) == Ok(Graph())
      ensures !ok ==> Decide(old(Graph()), given) == Err(Problem(status))
    {
      if given.Absent? || given.Null? || given == Value(outcome) { return true, 0; }
      if given.Unknown? || given.value == WithdrawnOutcome { return false, 422; }
      if communicatedAt.Some? && outcome == Favorable && contract.Some? { return false, 409; }
      outcome, communicatedAt := given.value, None;
      if outcome != Pending && StageRank(stage) < StageRank(Decision) { stage := Decision; }
      return true, 0;
    }

    method WriteStage(given: Given<Stage>, hired: bool) returns (ok: bool, status: int)
      modifies this`stage, this`visible
      ensures ok ==> MoveTo(old(Graph()), given, hired) == Ok(Graph())
      ensures !ok ==> MoveTo(old(Graph()), given, hired) == Err(Problem(status))
    {
      if given.Absent? || given.Null? || given == Value(stage) { return true, 0; }
      if given.Unknown? { return false, 422; }
      var afterDecision := StageRank(given.value) > StageRank(Decision);
      if afterDecision && !(outcome == Favorable && communicatedAt.Some?) { return false, 409; }
      if given.value in {Signature, Hired} {
        if contract.None? { return false, 409; }
        if given.value == Hired && !(contract.value.state == Signed && hired) { return false, 409; }
      }
      stage := given.value;
      if StageVisible(stage).Some? && communicatedAt.None? { SetVisible(StageVisible(stage).value); }
      return true, 0;
    }

    // ---- Convocations ----

    /** Sends a new version of a row; a draft becomes an invitation. */
    method SendRow(id: nat, now: Time)
      requires id < |interviews|
      modifies this
      ensures Graph() == SendOut(old(Graph()), id, now) && saved == old(saved)
    {
      var row := interviews[id];
      if row.status == Draft { row := row.(status := Proposed); }
      row := IssueRow(row, now);
      interviews := interviews[id := row];
      if StageRank(stage) < StageRank(Convocation) { stage := Convocation; }
      if communicatedAt.None? { SetVisible(SeenInterview); }
    }

    method IssueRow(i: Interview, now: Time) returns (row: Interview)
      ensures row == Issue(i, now)
    {
      row := i.(versions := Supersede(i.versions, now));
      row := row.(version := row.version + 1);
      if row.sentAt.None? { row := row.(sentAt := Some(now)); }
      row := row.(versions := row.versions + [Version(row.version, row.startsAt, row.printed, now, None, None)]);
    }

    method ProposeInterview(f: Form, requestId: Option<string>, draft: bool, offered: bool, printable: bool, now: Time)
      returns (r: Result<Reply, Problem>)
      requires Idle()
      modifies this
      ensures Idle() && (saved, r) == Propose(old(saved), f, requestId, draft, offered, printable, now)
    {
      if Closed(Graph()) { r := Refuse(409); return; }
      if TooLate(f.startsAt, now) { r := Refuse(422); return; }
      var startsAt := ToMinute(f.startsAt);
      if requestId.Some? {
        var asked := AlreadyRequested(requestId.value);
        if asked { return Ok(AlreadyThere); }
      }
      var sent := AlreadySent(startsAt);
      if sent && !draft { return Ok(AlreadyThere); }
      var filled := Fill(BLANK, f, offered);
      if filled.Err? { r := Refuse(filled.error.status); return; }
      var id := |interviews|;
      interviews := interviews + [NewInterview(startsAt, filled.value, requestId)];
      if draft {
        Commit();
        return Ok(Written(id));
      }
      if !printable { r := Refuse(422); return; }
      SendRow(id, now);
      Commit();
      r := Ok(Written(id));
    }

    method AlreadyRequested(requestId: string) returns (found: bool)
      ensures found <==> Requested(interviews, requestId)
    {
      var k := 0;
      while k < |interviews|
        invariant 0 <= k <= |interviews|
        invariant forall j | 0 <= j < k :: interviews[j].requestId != Some(requestId)
      {
        if interviews[k].requestId == Some(requestId) { return true; }
        k := k + 1;
      }
      found := false;
    }

    method AlreadySent(startsAt: Time) returns (found: bool)
      ensures found <==> SentAtDate(interviews, startsAt)
    {
      var k := 0;
      while k < |interviews|
        invariant 0 <= k <= |interviews|
        invariant forall j | 0 <= j < k ::
                    !(interviews[j].startsAt == startsAt && interviews[j].status !in {Cancelled, Draft})
      {
        if interviews[k].startsAt == startsAt && interviews[k].status !in {Cancelled, Draft} { return true; }
        k := k + 1;
      }
      found := false;
    }

    method SendConvocation(id: nat, printable: bool, now: Time) returns (r: Result<Reply, Problem>)
      requires Idle()
      modifies this
      ensures Idle() && (saved, r) == Send(old(saved), id, printable, now)
    {
      if id >= |interviews| { r := Refuse(404); return; }
      var row := interviews[id];
      if row.status !in {Draft, Proposed, Confirmed} { r := Refuse(409); return; }
      var current := CurrentVersion(row);
      if current.Some? && StateOf(row, current.value) != StateOutdated { return Ok(AlreadyThere); }
      if Closed(Graph()) { r := Refuse(409); return; }
      if TooLate(row.startsAt, now) { r := Refuse(422); return; }
      if !printable { r := Refuse(422); return; }
      SendRow(id, now);
      Commit();
      r := Ok(Written(id));
    }

    method UpdateInterview(id: nat, f: Form, offered: bool, printable: bool, now: Time)
      returns (r: Result<Reply, Problem>)
      requires Idle()
      modifies this
      ensures Idle() && (saved, r) == Update(old(saved), id, f, offered, printable, now)
    {
      if id >= |interviews| { r := Refuse(404); return; }
      var row := interviews[id];
      if row.status in {Cancelled, Done, NoShow} { r := Refuse(409); return; }
      if TooLate(f.startsAt, now) { r := Refuse(422); return; }
      var startsAt := ToMinute(f.startsAt);
      var filled := Fill(row.printed, f, offered);
      if filled.Err? { r := Refuse(filled.error.status); return; }
      if row.status == Draft {
        row := row.(startsAt := startsAt);
        row := row.(printed := filled.value);
        interviews := interviews[id := row];
        Commit();
        return Ok(Written(id));
      }
      var before, moved := row, startsAt != row.startsAt;
      if moved {
        row := row.(previousStartsAt := Some(row.startsAt), startsAt := startsAt, status := Proposed,
                    confirmedAt := None);
        row := row.(arrivedAt := None);
      }
      row := row.(printed := filled.value);
      var changed := row.startsAt != before.startsAt || row.printed != before.printed;
      if changed && row.version > 0 {
        if !printable { r := Refuse(422); return; }
        row := IssueRow(row, now);
      }
      interviews := interviews[id := row];
      Commit();
      r := Ok(if changed then Written(id) else Unchanged);
    }

    method CancelConvocation(id: nat, now: Time) returns (r: Result<Reply, Problem>)
      requires Idle()
      modifies this
      ensures Idle() && (saved, r) == Cancel(old(saved), id, now)
    {
      if id >= |interviews| { r := Refuse(404); return; }
      var row := interviews[id];
      if row.status == Draft {
        row := row.(status := Cancelled, cancelledAt := Some(now));
      } else if row.status in {Proposed, Confirmed} {
        row := row.(status := Cancelled, cancelledAt := Some(now));
        row := row.(versions := CancelVersions(row.versions, now));
      }
      interviews := interviews[id := row];
      Commit();
      r := Ok(Written(id));
    }

    method ConfirmArrival(id: nat, version: nat, now: Time) returns (r: Result<Reply, Problem>)
      requires Idle()
      modifies this
      ensures Idle() && (saved, r) == Arrive(old(saved), id, version, now)
    {
      if id >= |interviews| { r := Refuse(404); return; }
      var row := interviews[id];
      if row.status !in {Proposed, Confirmed} { r := Refuse(409); return; }
      if version != row.version { r := Refuse(409); return; }
      var current := CurrentVersion(row);
      if current.None? || Outdated(row, current.value) { r := Refuse(409); return; }
      if DayOf(row.startsAt) != DayOf(Local(now)) { r := Refuse(409); return; }
      if row.arrivedAt.Some? { return Ok(Unchanged); }
      interviews := interviews[id := row.(arrivedAt := Some(now))];
      Commit();
      r := Ok(Written(id));
    }

    method RecordInterviewOutcome(id: nat, present: bool, graded: bool, now: Time) returns (r: Result<Reply, Problem>)
      requires Idle()
      modifies this
      ensures Idle() && (saved, r) == RecordOutcome(old(saved), id, present, graded, now)
    {
      if id >= |interviews| { r := Refuse(404); return; }
      var row := interviews[id];
      if row.status in {Cancelled, Draft} { r := Refuse(409); return; }
      if row.startsAt > Local(now) { r := Refuse(409); return; }
      if !present && row.arrivedAt.Some? { r := Refuse(409); return; }
      if present && !graded { r := Refuse(422); return; }
      interviews := interviews[id := row.(status := if present then Done else NoShow)];
      if present && StageRank(stage) < StageRank(InterviewStage) { stage := InterviewStage; }
      Commit();
      r := Ok(Written(id));
    }

    // ---- Contract ----

    method Prepare(terms: string, placed: bool, consistent: bool) returns (r: Result<Reply, Problem>)
      requires Idle()
      modifies this
      ensures Idle() && (saved, r) == PrepareContract(old(saved), terms, placed, consistent)
    {
      if !(outcome == Favorable && communicatedAt.Some?) { r := Refuse(409); return; }
      if !placed { r := Refuse(409); return; }
      if !consistent { r := Refuse(422); return; }
      if contract.Some? && contract.value.state == Signed { r := Refuse(409); return; }
      if contract.None? { contract := Some(Contract(Prepared, "", None, None, false)); }
      contract := Some(contract.value.(terms := terms));
      if StageRank(stage) < StageRank(ContractStage) { stage := ContractStage; }
      Commit();
      r := Ok(Unchanged);
    }

    method RecordContractState(state: ContractState, signedOn: Option<Day>, share: Option<bool>, today: Day, now: Time)
      returns (r: Result<Reply, Problem>)
      requires Idle()
      modifies this
      ensures Idle() && (saved, r) == SetContractState(old(saved), state, signedOn, share, today, now)
    {
      if contract.None? { r := Refuse(404); return; }
      var row := contract.value;
      if row.state == Signed && state != Signed { r := Refuse(409); return; }
      if state == Signed {
        if signedOn.None? || signedOn.value > today { r := Refuse(422); return; }
        if row.state != Signed {
          row := row.(signedOn := signedOn);
          stage := Signature;
        }
      } else if state == Remitted && row.state == Prepared {
        row := row.(remittedAt := Some(now));
      }
      if ContractRank(state) >= ContractRank(row.state) { row := row.(state := state); }
      if share.Some? && share.value != row.shared { row := row.(shared := share.value); }
      contract := Some(row);
      Commit();
      r := Ok(Unchanged);
    }

    // ---- Candidate ----

    method WithdrawApplication(now: Time) returns (r: Result<Reply, Problem>)
      requires Idle()
      modifies this
      ensures Idle() && (saved, r) == Withdraw(old(saved), now)
    {
      if outcome == Favorable && communicatedAt.Some? { r := Refuse(409); return; }
      if outcome == Unfavorable && communicatedAt.Some? { r := Refuse(409); return; }
      if withdrawnAt.None? {
        withdrawnAt, outcome := Some(now), WithdrawnOutcome;
        SetVisible(SeenWithdrawn);
        CancelOpenInterviews(now);
      }
      Commit();
      r := Ok(Unchanged);
    }

    method CancelOpenInterviews(now: Time)
      modifies this`interviews
      ensures interviews == WithdrawInterviews(old(interviews), now)
    {
      var k := 0;
      while k < |interviews|
        invariant 0 <= k <= |interviews| == |old(interviews)|
        invariant forall j | 0 <= j < k :: interviews[j] == WithdrawInterviews(old(interviews), now)[j]
        invariant forall j | k <= j < |interviews| :: interviews[j] == old(interviews)[j]
      {
        var row := interviews[k];
        if row.status in {Proposed, Confirmed, Draft} {
          row := row.(status := Cancelled, cancelledAt := Some(now));
          row := row.(versions := CancelVersions(row.versions, now));
        }
        interviews := interviews[k := row];
        k := k + 1;
      }
    }

    method ConfirmInterview(id: nat, now: Time) returns (r: Result<Reply, Problem>)
      requires Idle()
      modifies this
      ensures Idle() && (saved, r) == Confirm(old(saved), id, now)
    {
      if id >= |interviews| || interviews[id].status == Draft { r := Refuse(404); return; }
      var row := interviews[id];
      if row.status == Cancelled { r := Refuse(409); return; }
      if row.startsAt < Local(now) { r := Refuse(409); return; }
      if row.status != Proposed { return Ok(Unchanged); }
      row := row.(status := Confirmed, confirmedAt := Some(now));
      row := row.(viewedVersion := Max(row.viewedVersion, row.version));
      interviews := interviews[id := row];
      Commit();
      r := Ok(Written(id));
    }

    method ConvocationViewed(id: nat) returns (r: Result<Reply, Problem>)
      requires Idle()
      modifies this
      ensures Idle() && (saved, r) == View(old(saved), id)
    {
      if id >= |interviews| || interviews[id].status == Draft { r := Refuse(404); return; }
      if interviews[id].version > 0 && interviews[id].viewedVersion < interviews[id].version {
        interviews := interviews[id := interviews[id].(viewedVersion := interviews[id].version)];
      }
      assert interviews == old(interviews)[id := interviews[id]];
      Commit();
      r := Ok(Written(id));
    }
  }
}
