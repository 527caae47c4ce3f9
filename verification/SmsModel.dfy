/** One-time codes by SMS (app/modules/recruitment_sms_service.py), as functions on the two tables.
    Each function is one transaction: it maps the committed tables to the committed tables. */
module SmsModel {
  import opened Wrappers
  import opened Splitting

  const CODE_TTL := 300
  const SESSION_TTL := 7200
  const RESEND_DELAY := 60
  const MAX_ATTEMPTS := 5
  const MAX_SEND_ATTEMPTS := 3
  const SEND_LEASE := 45
  const MIN_REMAINING := 15
  const TRACK_WINDOW := 900
  const DAY := 86400
  const HOUR := 3600
  const PHONE_LIMIT := 5
  const IP_LIMIT := 20

  type Id = string
  type Phone = string
  type Token = string
  type Time = int

  /** The life of the code. The poll protocol alone produces CodeLeased, CodeSent and CodeFailed. */
  datatype CodeStatus =
    CodeQueued | CodeLeased | CodeSent | CodeFailed | CodeVerified | CodeSubmitted | CodeExpired

  /** How far the SMS got. */
  datatype Delivery = Queued | Sending | Accepted | Processed | Sent | Delivered | Failed | Expired

  /** A row of the challenge table. `code` stands for the digest of the code, `cipher` says whether the
      encrypted text is still there, and the gateway's message identifier is the row's own key. */
  datatype Challenge = Challenge(
    phone: Phone, firstName: string, lastName: string, code: string,
    createdAt: Time, expiresAt: Time, attempts: nat, status: CodeStatus,
    token: Option<Token>, tokenExpiresAt: Time, submittedReference: Option<string>,
    delivery: Delivery, error: Option<string>, cipher: bool,
    sendAttempts: nat, leaseUntil: Time, nextAttemptAt: Time, statusCheckedAt: Time,
    acceptedAt: Option<Time>, sentAt: Option<Time>, deliveredAt: Option<Time>)

  datatype RateKind = ByPhone | ByIp

  datatype RateKey = RateKey(kind: RateKind, value: string, hour: int)

  datatype Tables = Tables(challenges: map<Id, Challenge>, rates: map<RateKey, nat>)

  datatype Problem = Problem(status: int)

  datatype Issued = Issued(id: Id, phone: Phone)

  datatype Session = Session(token: Token, firstName: string, lastName: string, phone: Phone)

  // ---- Requesting a code ----

  function CountOf(rates: map<RateKey, nat>, key: RateKey): nat {
    if key in rates then rates[key] else 0
  }

  function PhoneKey(phone: Phone, now: Time): RateKey { RateKey(ByPhone, phone, now / HOUR) }

  function IpKey(ip: string, now: Time): RateKey { RateKey(ByIp, ip, now / HOUR) }

  /** A counter is kept until one hour after its hour has ended. */
  predicate KeptRate(key: RateKey, now: Time) { (key.hour + 1) * HOUR >= now - HOUR }

  predicate NameAllowed(name: string) { 2 <= |Strip(name)| <= 100 }

  predicate RequestedSince(challenges: map<Id, Challenge>, phone: Phone, since: Time) {
    exists id :: id in challenges && challenges[id].phone == phone && challenges[id].createdAt > since
  }

  /** A new request ends the older codes of the phone that were not verified. */
  function Superseded(r: Challenge, phone: Phone): Challenge {
    if r.phone == phone && r.token.None? then r.(status := CodeExpired, cipher := false) else r
  }

  function NewChallenge(phone: Phone, firstName: string, lastName: string, code: string, now: Time): Challenge {
    Challenge(phone, Strip(firstName), Strip(lastName), code, now, now + CODE_TTL, 0, CodeQueued,
              None, 0, None, Queued, None, true, 0, 0, 0, 0, None, None, None)
  }

  /** What a request leaves of the challenges: the older ones are purged. */
  function KeptChallenges(challenges: map<Id, Challenge>, phone: Phone, now: Time): map<Id, Challenge> {
    map id | id in challenges && challenges[id].createdAt >= now - DAY :: Superseded(challenges[id], phone)
  }

  function CountedRates(rates: map<RateKey, nat>, phone: Phone, ip: string, now: Time): map<RateKey, nat> {
    var phoneKey, ipKey := PhoneKey(phone, now), IpKey(ip, now);
    var counted := rates[phoneKey := CountOf(rates, phoneKey) + 1][ipKey := CountOf(rates, ipKey) + 1];
    map k | k in counted && KeptRate(k, now) :: counted[k]
  }

  /** Refused by a counter, or too soon after the previous request. */
  predicate TooMany(t: Tables, phone: Phone, ip: string, now: Time) {
    || CountOf(t.rates, PhoneKey(phone, now)) >= PHONE_LIMIT
    || CountOf(t.rates, IpKey(ip, now)) >= IP_LIMIT
    || RequestedSince(t.challenges, phone, now - RESEND_DELAY)
  }

  /** `phone` is None when the number is not an Algerian mobile number. */
  function RequestCode(t: Tables, phone: Option<Phone>, firstName: string, lastName: string, ip: string,
                       id: Id, code: string, now: Time): (Tables, Result<Issued, Problem>)
  {
    if phone.None? || !NameAllowed(firstName) || !NameAllowed(lastName) then (t, Err(Problem(422)))
    else if TooMany(t, phone.value, ip, now) then (t, Err(Problem(429)))
    else if id in t.challenges then (t, Err(Problem(500)))
    else
      var kept := KeptChallenges(t.challenges, phone.value, now);
      (Tables(kept[id := NewChallenge(phone.value, firstName, lastName, code, now)],
              CountedRates(t.rates, phone.value, ip, now)),
       Ok(Issued(id, phone.value)))
  }

  // ---- Verifying a code, using the access it gives ----

  predicate Usable(r: Challenge, now: Time) {
    && r.expiresAt > now && r.status in {CodeQueued, CodeLeased, CodeSent}
    && r.token.None? && r.attempts < MAX_ATTEMPTS
  }

  predicate TokenTaken(challenges: map<Id, Challenge>, token: Token) {
    exists id :: id in challenges && challenges[id].token == Some(token)
  }

  function VerifyCode(t: Tables, id: Id, code: string, token: Token, now: Time): (Tables, Result<Session, Problem>) {
    if id !in t.challenges || !Usable(t.challenges[id], now) then (t, Err(Problem(400)))
    else
      var tried := t.challenges[id].(attempts := t.challenges[id].attempts + 1);
      if code != tried.code then (t.(challenges := t.challenges[id := tried]), Err(Problem(400)))
      else if TokenTaken(t.challenges, token) then (t, Err(Problem(500)))
      else
        var done := tried.(token := Some(token), tokenExpiresAt := now + SESSION_TTL,
                           status := CodeVerified, cipher := false);
        (t.(challenges := t.challenges[id := done]),
         Ok(Session(token, done.firstName, done.lastName, done.phone)))
  }

  predicate Opens(r: Challenge, token: Token, now: Time) {
    r.token == Some(token) && r.tokenExpiresAt > now && r.status in {CodeVerified, CodeSubmitted}
  }

  /** The row a token gives access to. */
  ghost predicate Identifies(t: Tables, token: Token, now: Time, r: Result<Id, Problem>) {
    match r
    case Ok(id) => id in t.challenges && Opens(t.challenges[id], token, now)
    case Err(p) => p == Problem(401) && forall id :: id in t.challenges ==> !Opens(t.challenges[id], token, now)
  }

  /** Filing the application, once: `reference` is the reference the application receives. */
  function Submit(t: Tables, id: Id, reference: string): (Tables, string)
    requires id in t.challenges
  {
    var r := t.challenges[id];
    if r.submittedReference.Some? then (t, r.submittedReference.value)
    else (t.(challenges := t.challenges[id := r.(status := CodeSubmitted, submittedReference := Some(reference))]),
          reference)
  }

  // ---- Handing the SMS to the gateway ----

  predicate Pending(r: Challenge) { r.status == CodeQueued }

  /** Reserved by a worker that never recorded an answer in time. */
  predicate Lost(r: Challenge, now: Time) { r.delivery == Sending && r.leaseUntil < now }

  /** Too close to its end to be sent, or lost for the last time. */
  function Sweep(r: Challenge, now: Time): Challenge {
    if Pending(r) && r.expiresAt <= now + MIN_REMAINING && (r.delivery == Queued || Lost(r, now)) then
      r.(delivery := Expired, error := Some("code_expired"), cipher := false)
    else if Pending(r) && Lost(r, now) && r.sendAttempts >= MAX_SEND_ATTEMPTS then
      r.(delivery := Failed, error := Some("gateway_outcome_unknown"), cipher := false)
    else r
  }

  predicate Eligible(r: Challenge, now: Time) {
    && Pending(r) && r.expiresAt > now + MIN_REMAINING && r.sendAttempts < MAX_SEND_ATTEMPTS
    && ((r.delivery == Queued && r.nextAttemptAt <= now) || Lost(r, now))
  }

  function Pick(r: Challenge, now: Time): Challenge {
    r.(delivery := Sending, leaseUntil := now + SEND_LEASE, sendAttempts := r.sendAttempts + 1)
  }

  function ReserveRow(r: Challenge, picked: bool, now: Time): Challenge {
    if picked && Eligible(Sweep(r, now), now) then Pick(Sweep(r, now), now) else Sweep(r, now)
  }

  function Reserve(challenges: map<Id, Challenge>, picked: set<Id>, now: Time): map<Id, Challenge> {
    map id | id in challenges :: ReserveRow(challenges[id], id in picked, now)
  }

  /** The gateway's own states, as its adapter translates them. */
  datatype Report = ReportAccepted | ReportProcessed | ReportSent | ReportDelivered | ReportFailed

  /** The adapter's summary of one call. */
  datatype Reply = Took(report: Option<Report>) | Retry(error: string) | Rejected(error: string)

  function Stage(report: Report): Delivery {
    match report
    case ReportAccepted => Accepted
    case ReportProcessed => Processed
    case ReportSent => Sent
    case ReportDelivered => Delivered
    case ReportFailed => Failed
  }

  function RetryDelay(sendAttempts: nat): int {
    if sendAttempts == 1 then 5 else 15
  }

  /** Recording the reply. Only a row still `sending` is written, whoever holds its lease. */
  function Record(r: Challenge, reply: Reply, now: Time): Challenge {
    if r.delivery != Sending then r
    else match reply
      case Took(report) =>
        var state := if report.Some? && report != Some(ReportFailed) then Stage(report.value) else Accepted;
        r.(delivery := state, error := None, cipher := false, acceptedAt := Some(now), statusCheckedAt := now,
           sentAt := if state in {Sent, Delivered} then Some(now) else r.sentAt,
           deliveredAt := if state == Delivered then Some(now) else r.deliveredAt)
      case Retry(error) =>
        if r.sendAttempts < MAX_SEND_ATTEMPTS then
          r.(delivery := Queued, error := Some(error), nextAttemptAt := now + RetryDelay(r.sendAttempts))
        else r.(delivery := Failed, error := Some(error), cipher := false)
      case Rejected(error) => r.(delivery := Failed, error := Some(error), cipher := false)
  }

  // ---- Following the SMS ----

  /** DELIVERY_RANK, with the default 9 for the states it does not list. */
  function Rank(d: Delivery): int {
    match d
    case Queued => 0
    case Sending => 1
    case Accepted => 2
    case Processed => 3
    case Sent => 4
    case Delivered => 5
    case Failed => 9
    case Expired => 9
  }

  /** Python's `value or now`: a missing or zero time is replaced. */
  function OrNow(t: Option<Time>, now: Time): Option<Time> {
    if t.Some? && t.value != 0 then t else Some(now)
  }

  predicate Ignored(r: Challenge, report: Report) {
    var reached := if r.delivery in {Failed, Expired} && report in {ReportSent, ReportDelivered} then 1
                   else Rank(r.delivery);
    || r.delivery == Queued
    || (report == ReportFailed && r.delivery in {Delivered, Failed, Expired})
    || (report != ReportFailed && Rank(Stage(report)) <= reached)
  }

  /** A state reported by the gateway, by polling or by webhook. */
  function Apply(r: Challenge, report: Report, error: string, now: Time): Challenge {
    if Ignored(r, report) then r
    else if report == ReportFailed then r.(delivery := Failed, error := Some(error), cipher := false)
    else
      r.(delivery := Stage(report), error := None, cipher := false, acceptedAt := OrNow(r.acceptedAt, now),
         sentAt := if report in {ReportSent, ReportDelivered} then OrNow(r.sentAt, now) else r.sentAt,
         deliveredAt := if report == ReportDelivered then Some(now) else r.deliveredAt)
  }

  predicate Due(r: Challenge, now: Time) {
    && r.createdAt > now - TRACK_WINDOW
    && ((r.delivery in {Accepted, Processed} && r.statusCheckedAt <= now - 3)
        || (r.delivery == Sent && r.statusCheckedAt <= now - 15))
  }

  function Mark(challenges: map<Id, Challenge>, picked: set<Id>, now: Time): map<Id, Challenge> {
    map id | id in challenges
      :: if id in picked && Due(challenges[id], now) then challenges[id].(statusCheckedAt := now) else challenges[id]
  }
}
