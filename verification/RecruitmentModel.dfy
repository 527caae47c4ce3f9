/** One application with its contract, its interviews and their convocation versions, as the staff and
    candidate routes change it (recruitment_engage_staff.py, recruitment_engage_public.py,
    recruitment_convocations.py). Each operation is one transaction: an error leaves everything as it was. */
module RecruitmentModel {
  import opened Wrappers

  // ---- The application ----

  datatype Stage =
    Received | Review | Shortlisted | Convocation | InterviewStage | Decision | HiringFile | ContractStage
    | Signature | Hired

  datatype Outcome = Pending | Favorable | Unfavorable | WithdrawnOutcome

  /** What the candidate sees. */
  datatype Visible =
    SeenReceived | SeenReview | SeenShortlisted | SeenInterview | SeenAccepted | SeenDeclined | SeenWithdrawn

  datatype ContractState = Prepared | Remitted | Signed

  /** Seconds, in universal time for the recorded moments, in Algiers time for interview dates. */
  type Time = int

  /** Days, as numbers. */
  type Day = int

  datatype Contract = Contract(
    state: ContractState, terms: string, remittedAt: Option<Time>, signedOn: Option<Day>, shared: bool)

  /** Who follows the application, and what comes next. */
  datatype FollowUp = FollowUp(assignedTo: Option<string>, nextAction: Option<string>, nextDue: Option<Day>)

  datatype Application = Application(
    stage: Stage, outcome: Outcome, communicatedAt: Option<Time>, visible: Visible, withdrawnAt: Option<Time>,
    contract: Option<Contract>, interviews: seq<Interview>, followUp: FollowUp)

  const FILED := Application(Received, Pending, None, SeenReceived, None, None, [], FollowUp(None, None, None))

  // ---- Interviews and the documents sent for them ----

  datatype Status = Draft | Proposed | Confirmed | Cancelled | Done | NoShow

  /** The printed fields other than the date. */
  datatype Printed = Printed(
    location: string, contact: Option<string>, note: Option<string>, address: Option<string>, mapUrl: Option<string>,
    contactDetails: Option<string>, purpose: Option<string>, documents: Option<string>, society: Option<string>)

  /** A document as sent; only its ends of life are written later. */
  datatype Version = Version(
    number: nat, startsAt: Time, printed: Printed, issuedAt: Time, supersededAt: Option<Time>,
    cancelledAt: Option<Time>)

  datatype Interview = Interview(
    startsAt: Time, printed: Printed, status: Status, requestId: Option<string>, confirmedAt: Option<Time>,
    cancelledAt: Option<Time>, previousStartsAt: Option<Time>, version: nat, sentAt: Option<Time>,
    viewedVersion: nat, arrivedAt: Option<Time>, versions: seq<Version>)

  datatype Problem = Problem(status: int)

  const MINUTE := 60
  const HOUR := 3600
  const DAY := 86400

  function Local(now: Time): Time { now + HOUR }

  function DayOf(local: Time): Day { local / DAY }

  function ToMinute(t: Time): Time { t - t % MINUTE }

  function StageRank(s: Stage): nat {
    match s
    case Received => 0
    case Review => 1
    case Shortlisted => 2
    case Convocation => 3
    case InterviewStage => 4
    case Decision => 5
    case HiringFile => 6
    case ContractStage => 7
    case Signature => 8
    case Hired => 9
  }

  function StageVisible(s: Stage): Option<Visible> {
    match s
    case Received => Some(SeenReceived)
    case Review => Some(SeenReview)
    case Shortlisted => Some(SeenShortlisted)
    case Convocation => Some(SeenInterview)
    case InterviewStage => Some(SeenInterview)
    case _ => None
  }

  function AtLeast(s: Stage, floor: Stage): Stage {
    if StageRank(s) < StageRank(floor) then floor else s
  }

  // ---- Processing by the recruiter ----

  /** A field of a request: not sent, sent empty, sent with a word the service does not know, or a value. */
  datatype Given<T> = Absent | Null | Unknown | Value(value: T)

  /** The follow-up fields hold None when they are not sent. */
  datatype Processing = Processing(
    stage: Given<Stage>, outcome: Given<Outcome>, communicate: Option<bool>,
    assignedTo: Option<Option<string>>, nextAction: Option<Option<string>>, nextDue: Option<Option<Day>>)

  /** A field that was not sent stays as it is. */
  function Kept<T>(sent: Option<T>, before: T): T { if sent.Some? then sent.value else before }

  function Follow(f: FollowUp, p: Processing): FollowUp {
    FollowUp(Kept(p.assignedTo, f.assignedTo), Kept(p.nextAction, f.nextAction), Kept(p.nextDue, f.nextDue))
  }

  predicate TouchesDecision(p: Processing) {
    !p.stage.Absent? || !p.outcome.Absent? || p.communicate.Some?
  }

  function Decide(a: Application, outcome: Given<Outcome>): Result<Application, Problem> {
    if outcome.Absent? || outcome.Null? || outcome == Value(a.outcome) then Ok(a)
    else if outcome.Unknown? || outcome.value == WithdrawnOutcome then Err(Problem(422))
    else if a.communicatedAt.Some? && a.outcome == Favorable && a.contract.Some? then Err(Problem(409))
    else Ok(a.(outcome := outcome.value, communicatedAt := None,
               stage := if outcome.value != Pending then AtLeast(a.stage, Decision) else a.stage))
  }

  function Communicate(a: Application, communicate: bool, now: Time): Result<Application, Problem> {
    if !communicate then Ok(a)
    else if a.outcome !in {Favorable, Unfavorable} then Err(Problem(409))
    else if a.communicatedAt.Some? then Ok(a)
    else Ok(a.(communicatedAt := Some(now), visible := if a.outcome == Favorable then SeenAccepted else SeenDeclined))
  }

  /** `hired` says that the personnel department opened the employee's file. */
  function MoveTo(a: Application, stage: Given<Stage>, hired: bool): Result<Application, Problem> {
    if stage.Absent? || stage.Null? || stage == Value(a.stage) then Ok(a)
    else if stage.Unknown? then Err(Problem(422))
    else
      var s := stage.value;
      if StageRank(s) > StageRank(Decision) && !(a.outcome == Favorable && a.communicatedAt.Some?)
      then Err(Problem(409))
      else if s in {Signature, Hired} && a.contract.None? then Err(Problem(409))
      else if s == Hired && !(a.contract.value.state == Signed && hired) then Err(Problem(409))
      else
        Ok(a.(stage := s,
              visible := if StageVisible(s).Some? && a.communicatedAt.None? then StageVisible(s).value else a.visible))
  }

  function Process(a: Application, p: Processing, hired: bool, now: Time): Result<Application, Problem> {
    if a.withdrawnAt.Some? && TouchesDecision(p) then Err(Problem(409))
    else
      match Decide(a.(followUp := Follow(a.followUp, p)), p.outcome)
      case Err(e) => Err(e)
      case Ok(decided) =>
        match Communicate(decided, p.communicate == Some(true), now)
        case Err(e) => Err(e)
        case Ok(told) => MoveTo(told, p.stage, hired)
  }

  // ---- Versions of a convocation ----

  predicate Live(v: Version) { v.supersededAt.None? && v.cancelledAt.None? }

  function Supersede(versions: seq<Version>, now: Time): seq<Version> {
    seq(|versions|, k requires 0 <= k < |versions| =>
      if Live(versions[k]) then versions[k].(supersededAt := Some(now)) else versions[k])
  }

  function CancelVersions(versions: seq<Version>, now: Time): seq<Version> {
    seq(|versions|, k requires 0 <= k < |versions| =>
      if Live(versions[k]) then versions[k].(cancelledAt := Some(now)) else versions[k])
  }

  function Issue(i: Interview, now: Time): Interview {
    i.(version := i.version + 1, sentAt := if i.sentAt.None? then Some(now) else i.sentAt,
       versions := Supersede(i.versions, now)
                   + [Version(i.version + 1, i.startsAt, i.printed, now, None, None)])
  }

  function FindVersion(versions: seq<Version>, number: nat): Option<Version> {
    if versions == [] then None
    else if versions[|versions| - 1].number == number then Some(versions[|versions| - 1])
    else FindVersion(versions[..|versions| - 1], number)
  }

  function CurrentVersion(i: Interview): Option<Version> {
    if i.version == 0 then None else FindVersion(i.versions, i.version)
  }

  predicate Outdated(i: Interview, v: Version) {
    v.startsAt != i.startsAt || v.printed.location != i.printed.location
  }

  datatype VersionState = StateCancelled | StateSuperseded | StateClosed | StateOutdated | StateActive

  /** What a version shown at the door is worth. */
  function StateOf(i: Interview, v: Version): VersionState {
    if v.cancelledAt.Some? || i.status == Cancelled then StateCancelled
    else if v.number != i.version || v.supersededAt.Some? then StateSuperseded
    else if i.status in {Done, NoShow} then StateClosed
    else if Outdated(i, v) then StateOutdated
    else StateActive
  }

  // ---- Interviews ----

  predicate Closed(a: Application) {
    a.withdrawnAt.Some? || (a.outcome == Unfavorable && a.communicatedAt.Some?)
  }

  /** The form of an interview; the five details and the society hold None when they are not sent. `scoped`
      says whether the society, when sent, is one the recruiter may use. */
  datatype Form = Form(
    startsAt: Time, location: string, contact: Option<string>, note: Option<string>,
    address: Option<Option<string>>, mapUrl: Option<Option<string>>, contactDetails: Option<Option<string>>,
    purpose: Option<Option<string>>, documents: Option<Option<string>>, society: Option<Option<string>>, scoped: bool)

  /** The society a recruiter may not use. */
  predicate OutOfScope(f: Form, offered: bool) {
    !offered && f.society.Some? && f.society.value.Some? && !f.scoped
  }

  function Filled(row: Printed, f: Form, offered: bool): Printed {
    Printed(f.location, f.contact, f.note, Kept(f.address, row.address), Kept(f.mapUrl, row.mapUrl),
            Kept(f.contactDetails, row.contactDetails), Kept(f.purpose, row.purpose), Kept(f.documents, row.documents),
            if offered then None else Kept(f.society, row.society))
  }

  /** The fields of the form over those of the row; the details that were not sent stay. `offered` says
      that the application answers an offer, whose society then prevails. */
  function Fill(row: Printed, f: Form, offered: bool): Result<Printed, Problem> {
    if OutOfScope(f, offered) then Err(Problem(422)) else Ok(Filled(row, f, offered))
  }

  predicate TooLate(startsAt: Time, now: Time) { ToMinute(startsAt) < Local(now) - 5 * MINUTE }

  const BLANK := Printed("", None, None, None, None, None, None, None, None)

  function NewInterview(startsAt: Time, printed: Printed, requestId: Option<string>): Interview {
    Interview(startsAt, printed, Draft, requestId, None, None, None, 0, None, 0, None, [])
  }

  predicate Requested(interviews: seq<Interview>, requestId: string) {
    exists k :: 0 <= k < |interviews| && interviews[k].requestId == Some(requestId)
  }

  predicate SentAtDate(interviews: seq<Interview>, startsAt: Time) {
    exists k ::
      0 <= k < |interviews| && interviews[k].startsAt == startsAt && interviews[k].status !in {Cancelled, Draft}
  }

  /** First sending: version, stage, visible state. */
  function SendOut(a: Application, id: nat, now: Time): Application
    requires id < |a.interviews|
  {
    var i := a.interviews[id];
    var sent := Issue(if i.status == Draft then i.(status := Proposed) else i, now);
    a.(interviews := a.interviews[id := sent], stage := AtLeast(a.stage, Convocation),
       visible := if a.communicatedAt.None? then SeenInterview else a.visible)
  }

  datatype Reply = Written(id: nat) | AlreadyThere | Unchanged

  /** `printable` says that every character of the document can be drawn. */
  function Propose(a: Application, f: Form, requestId: Option<string>, draft: bool, offered: bool,
                   printable: bool, now: Time): (Application, Result<Reply, Problem>)
  {
    var startsAt := ToMinute(f.startsAt);
    if Closed(a) then (a, Err(Problem(409)))
    else if TooLate(f.startsAt, now) then (a, Err(Problem(422)))
    else if requestId.Some? && Requested(a.interviews, requestId.value) then (a, Ok(AlreadyThere))
    else if SentAtDate(a.interviews, startsAt) && !draft then (a, Ok(AlreadyThere))
    else
      match Fill(BLANK, f, offered)
      case Err(e) => (a, Err(e))
      case Ok(printed) =>
        var id := |a.interviews|;
        var added := a.(interviews := a.interviews + [NewInterview(startsAt, printed, requestId)]);
        if draft then (added, Ok(Written(id)))
        else if !printable then (a, Err(Problem(422)))
        else (SendOut(added, id, now), Ok(Written(id)))
  }

  function Send(a: Application, id: nat, printable: bool, now: Time): (Application, Result<Reply, Problem>) {
    if id >= |a.interviews| then (a, Err(Problem(404)))
    else
      var i := a.interviews[id];
      var current := CurrentVersion(i);
      if i.status !in {Draft, Proposed, Confirmed} then (a, Err(Problem(409)))
      else if current.Some? && StateOf(i, current.value) != StateOutdated then (a, Ok(AlreadyThere))
      else if Closed(a) then (a, Err(Problem(409)))
      else if TooLate(i.startsAt, now) then (a, Err(Problem(422)))
      else if !printable then (a, Err(Problem(422)))
      else (SendOut(a, id, now), Ok(Written(id)))
  }

  /** A new date: the candidate has to confirm again, and nobody has arrived yet. */
  function MoveInterview(i: Interview, startsAt: Time): Interview {
    if startsAt == i.startsAt then i
    else i.(previousStartsAt := Some(i.startsAt), startsAt := startsAt, status := Proposed, confirmedAt := None,
            arrivedAt := None)
  }

  function Update(a: Application, id: nat, f: Form, offered: bool, printable: bool, now: Time)
    : (Application, Result<Reply, Problem>)
  {
    if id >= |a.interviews| then (a, Err(Problem(404)))
    else
      var i, startsAt := a.interviews[id], ToMinute(f.startsAt);
      if i.status in {Cancelled, Done, NoShow} then (a, Err(Problem(409)))
      else if TooLate(f.startsAt, now) then (a, Err(Problem(422)))
      else
        match Fill(i.printed, f, offered)
        case Err(e) => (a, Err(e))
        case Ok(printed) =>
          if i.status == Draft then
            (a.(interviews := a.interviews[id := i.(startsAt := startsAt, printed := printed)]), Ok(Written(id)))
          else
            var moved := MoveInterview(i, startsAt).(printed := printed);
            if startsAt == i.startsAt && printed == i.printed then
              (a.(interviews := a.interviews[id := moved]), Ok(Unchanged))
            else if i.version == 0 then (a.(interviews := a.interviews[id := moved]), Ok(Written(id)))
            else if !printable then (a, Err(Problem(422)))
            else (a.(interviews := a.interviews[id := Issue(moved, now)]), Ok(Written(id)))
  }

  function CancelInterview(i: Interview, now: Time): Interview {
    if i.status == Draft then i.(status := Cancelled, cancelledAt := Some(now))
    else if i.status in {Proposed, Confirmed} then
      i.(status := Cancelled, cancelledAt := Some(now), versions := CancelVersions(i.versions, now))
    else i
  }

  function Cancel(a: Application, id: nat, now: Time): (Application, Result<Reply, Problem>) {
    if id >= |a.interviews| then (a, Err(Problem(404)))
    else (a.(interviews := a.interviews[id := CancelInterview(a.interviews[id], now)]), Ok(Written(id)))
  }

  function Arrive(a: Application, id: nat, version: nat, now: Time): (Application, Result<Reply, Problem>) {
    if id >= |a.interviews| then (a, Err(Problem(404)))
    else
      var i := a.interviews[id];
      var current := CurrentVersion(i);
      if i.status !in {Proposed, Confirmed} || version != i.version then (a, Err(Problem(409)))
      else if current.None? || Outdated(i, current.value) then (a, Err(Problem(409)))
      else if DayOf(i.startsAt) != DayOf(Local(now)) then (a, Err(Problem(409)))
      else if i.arrivedAt.Some? then (a, Ok(Unchanged))
      else (a.(interviews := a.interviews[id := i.(arrivedAt := Some(now))]), Ok(Written(id)))
  }

  /** `graded` says that the marks, if any, are acceptable. */
  function RecordOutcome(a: Application, id: nat, present: bool, graded: bool, now: Time)
    : (Application, Result<Reply, Problem>)
  {
    if id >= |a.interviews| then (a, Err(Problem(404)))
    else
      var i := a.interviews[id];
      if i.status in {Cancelled, Draft} || i.startsAt > Local(now) then (a, Err(Problem(409)))
      else if !present && i.arrivedAt.Some? then (a, Err(Problem(409)))
      else if present && !graded then (a, Err(Problem(422)))
      else
        (a.(interviews := a.interviews[id := i.(status := if present then Done else NoShow)],
            stage := if present then AtLeast(a.stage, InterviewStage) else a.stage),
         Ok(Written(id)))
  }

  // ---- The contract ----

  function ContractRank(s: ContractState): nat {
    match s
    case Prepared => 0
    case Remitted => 1
    case Signed => 2
  }

  /** `placed`: a society is known. `consistent`: the dates are in order and the template exists. */
  function PrepareContract(a: Application, terms: string, placed: bool, consistent: bool)
    : (Application, Result<Reply, Problem>)
  {
    if !(a.outcome == Favorable && a.communicatedAt.Some?) || !placed then (a, Err(Problem(409)))
    else if !consistent then (a, Err(Problem(422)))
    else if a.contract.Some? && a.contract.value.state == Signed then (a, Err(Problem(409)))
    else
      var row := if a.contract.Some? then a.contract.value.(terms := terms)
                 else Contract(Prepared, terms, None, None, false);
      (a.(contract := Some(row), stage := AtLeast(a.stage, ContractStage)), Ok(Unchanged))
  }

  /** `share`: whether the candidate may see the contract, when sent. */
  function SetContractState(a: Application, state: ContractState, signedOn: Option<Day>, share: Option<bool>,
                            today: Day, now: Time)
    : (Application, Result<Reply, Problem>)
  {
    if a.contract.None? then (a, Err(Problem(404)))
    else
      var row := a.contract.value;
      if row.state == Signed && state != Signed then (a, Err(Problem(409)))
      else if state == Signed && (signedOn.None? || signedOn.value > today) then (a, Err(Problem(422)))
      else
        var dated := if state == Signed && row.state != Signed then row.(signedOn := signedOn)
                     else if state == Remitted && row.state == Prepared then row.(remittedAt := Some(now))
                     else row;
        var moved := if ContractRank(state) >= ContractRank(row.state) then dated.(state := state) else dated;
        (a.(contract := Some(moved.(shared := Kept(share, row.shared))),
            stage := if state == Signed && row.state != Signed then Signature else a.stage),
         Ok(Unchanged))
  }

  // ---- The candidate ----

  function WithdrawInterviews(interviews: seq<Interview>, now: Time): seq<Interview> {
    seq(|interviews|, k requires 0 <= k < |interviews| =>
      if interviews[k].status in {Proposed, Confirmed, Draft}
      then interviews[k].(status := Cancelled, cancelledAt := Some(now),
                          versions := CancelVersions(interviews[k].versions, now))
      else interviews[k])
  }

  function Withdraw(a: Application, now: Time): (Application, Result<Reply, Problem>) {
    if a.outcome in {Favorable, Unfavorable} && a.communicatedAt.Some? then (a, Err(Problem(409)))
    else if a.withdrawnAt.Some? then (a, Ok(Unchanged))
    else
      (a.(withdrawnAt := Some(now), outcome := WithdrawnOutcome, visible := SeenWithdrawn,
          interviews := WithdrawInterviews(a.interviews, now)), Ok(Unchanged))
  }

  function Max(x: nat, y: nat): nat { if x < y then y else x }

  function Confirm(a: Application, id: nat, now: Time): (Application, Result<Reply, Problem>) {
    if id >= |a.interviews| || a.interviews[id].status == Draft then (a, Err(Problem(404)))
    else
      var i := a.interviews[id];
      if i.status == Cancelled || i.startsAt < Local(now) then (a, Err(Problem(409)))
      else if i.status != Proposed then (a, Ok(Unchanged))
      else
        (a.(interviews := a.interviews[id := i.(status := Confirmed, confirmedAt := Some(now),
                                                viewedVersion := Max(i.viewedVersion, i.version))]),
         Ok(Written(id)))
  }

  function View(a: Application, id: nat): (Application, Result<Reply, Problem>) {
    if id >= |a.interviews| || a.interviews[id].status == Draft then (a, Err(Problem(404)))
    else
      var i := a.interviews[id];
      (a.(interviews := a.interviews[id := i.(viewedVersion := Max(i.viewedVersion, i.version))]), Ok(Written(id)))
  }

  // ---- Steps and runs ----

  datatype Event =
    | ProcessEvent(p: Processing, hired: bool, now: Time)
    | ProposeEvent(f: Form, requestId: Option<string>, draft: bool, offered: bool, printable: bool, now: Time)
    | SendEvent(id: nat, printable: bool, now: Time)
    | UpdateEvent(id: nat, f: Form, offered: bool, printable: bool, now: Time)
    | CancelEvent(id: nat, now: Time)
    | ArriveEvent(id: nat, version: nat, now: Time)
    | OutcomeEvent(id: nat, present: bool, graded: bool, now: Time)
    | PrepareEvent(terms: string, placed: bool, consistent: bool)
    | ContractEvent(state: ContractState, signedOn: Option<Day>, share: Option<bool>, today: Day, now: Time)
    | WithdrawEvent(now: Time)
    | ConfirmEvent(id: nat, now: Time)
    | ViewEvent(id: nat)

  function Processed(a: Application, r: Result<Application, Problem>): (Application, Result<Reply, Problem>) {
    match r
    case Ok(done) => (done, Ok(Unchanged))
    case Err(e) => (a, Err(e))
  }

  function Do(a: Application, e: Event): (Application, Result<Reply, Problem>) {
    match e
    case ProcessEvent(p, hired, now) => Processed(a, Process(a, p, hired, now))
    case ProposeEvent(f, requestId, draft, offered, printable, now) =>
      Propose(a, f, requestId, draft, offered, printable, now)
    case SendEvent(id, printable, now) => Send(a, id, printable, now)
    case UpdateEvent(id, f, offered, printable, now) => Update(a, id, f, offered, printable, now)
    case CancelEvent(id, now) => Cancel(a, id, now)
    case ArriveEvent(id, version, now) => Arrive(a, id, version, now)
    case OutcomeEvent(id, present, graded, now) => RecordOutcome(a, id, present, graded, now)
    case PrepareEvent(terms, placed, consistent) => PrepareContract(a, terms, placed, consistent)
    case ContractEvent(state, signedOn, share, today, now) => SetContractState(a, state, signedOn, share, today, now)
    case WithdrawEvent(now) => Withdraw(a, now)
    case ConfirmEvent(id, now) => Confirm(a, id, now)
    case ViewEvent(id) => View(a, id)
  }

  function Run(a: Application, es: seq<Event>): Application
    decreases |es|
  {
    if es == [] then a else Run(Do(a, es[0]).0, es[1..])
  }
}
