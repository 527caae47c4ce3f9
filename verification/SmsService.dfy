/** The SMS service as it runs: statements change the session's view of the tables, a transaction ends
    with a commit or a rollback. Each public method is proved to be the function of SmsModel it stands for. */
module SmsService {
  import opened Wrappers
  import opened SmsModel

  datatype Message = Message(id: Id, phone: Phone, ttl: int)

  predicate Precedes(key: map<Id, Time>, id: Id, id': Id) {
    id in key && id' in key && key[id] <= key[id']
  }

  /** The first `limit` keys in increasing order, as a query with an order and a limit returns them. */
  ghost predicate FirstInOrder(key: map<Id, Time>, limit: nat, picked: seq<Id>) {
    && |picked| == (if limit < |key| then limit else |key|)
    && (forall k | 0 <= k < |picked| :: picked[k] in key)
    && (forall j, k | 0 <= j < k < |picked| :: picked[j] != picked[k] && Precedes(key, picked[j], picked[k]))
    && (forall id, k | id in key && id !in picked && 0 <= k < |picked| :: Precedes(key, picked[k], id))
  }

  method Earliest(key: map<Id, Time>, among: set<Id>) returns (first: Id)
    requires among <= key.Keys && among != {}
    ensures first in among && forall id | id in among :: Precedes(key, first, id)
  {
    first :| first in among;
    var rest := among - {first};
    while rest != {}
      invariant rest <= among && first in among
      invariant forall id | id in among && id !in rest :: Precedes(key, first, id)
      decreases rest
    {
      var id :| id in rest;
      if key[id] < key[first] { first := id; }
      rest := rest - {id};
    }
  }

  method SelectInOrder(key: map<Id, Time>, limit: nat) returns (picked: seq<Id>)
    ensures FirstInOrder(key, limit, picked)
  {
    picked := [];
    var rest := key.Keys;
    while |picked| < limit && rest != {}
      invariant rest <= key.Keys && |picked| + |rest| == |key| && |picked| <= limit
      invariant forall k | 0 <= k < |picked| :: picked[k] in key && picked[k] !in rest
      invariant forall id | id in key :: id in rest || id in picked
      invariant forall j, k | 0 <= j < k < |picked| :: picked[j] != picked[k] && Precedes(key, picked[j], picked[k])
      invariant forall id, k | id in rest && 0 <= k < |picked| :: Precedes(key, picked[k], id)
      decreases rest
    {
      var id := Earliest(key, rest);
      picked := picked + [id];
      rest := rest - {id};
    }
  }

  lemma SameTokens(cs: map<Id, Challenge>, cs': map<Id, Challenge>, token: Token)
    requires cs'.Keys == cs.Keys && forall id | id in cs :: cs'[id].token == cs[id].token
    ensures TokenTaken(cs, token) <==> exists id :: id in cs' && cs'[id].token == Some(token)
  {
    if id :| id in cs && cs[id].token == Some(token) {
      assert cs'[id].token == Some(token);
    }
  }

  function PurgedRates(rates: map<RateKey, nat>, now: Time): map<RateKey, nat> {
    map k | k in rates && KeptRate(k, now) :: rates[k]
  }

  lemma KeptOnceFiled(cs: map<Id, Challenge>, filed: map<Id, Challenge>, phone: Phone, id: Id,
                      row: Challenge, now: Time)
    requires id !in cs && row.createdAt == now
    requires filed == (map k | k in cs :: Superseded(cs[k], phone))[id := row]
    ensures (map k | k in filed && filed[k].createdAt >= now - DAY :: filed[k])
         == KeptChallenges(cs, phone, now)[id := row]
  {
  }

  class SmsService {
    var challenges: map<Id, Challenge>
    var rates: map<RateKey, nat>
    /** The tables as last committed. */
    var saved: Tables

    /** No transaction is open. */
    predicate Idle()
      reads this
    {
      saved == Tables(challenges, rates)
    }

    constructor ()
      ensures Idle() && saved == Tables(map[], map[])
    {
      challenges, rates, saved := map[], map[], Tables(map[], map[]);
    }

    method Commit()
      modifies this`saved
      ensures saved == Tables(challenges, rates)
    {
      saved := Tables(challenges, rates);
    }

    method Rollback()
      modifies this`challenges, this`rates
      ensures Idle()
    {
      challenges, rates := saved.challenges, saved.rates;
    }

    /** Counts one request, or rolls the whole transaction back. */
    method Rate(key: RateKey, maximum: nat) returns (allowed: bool)
      modifies this`challenges, this`rates
      ensures allowed <==> CountOf(old(rates), key) < maximum
      ensures allowed ==> challenges == old(challenges) && rates == old(rates)[key := CountOf(old(rates), key) + 1]
      ensures !allowed ==> Idle()
    {
      if key !in rates {
        rates := rates[key := 0];
      }
      if rates[key] < maximum {
        rates := rates[key := rates[key] + 1];
        allowed := true;
      } else {
        Rollback();
        allowed := false;
      }
    }

    /** The date of the phone's newest request. */
    method Latest(phone: Phone) returns (latest: Option<Time>)
      ensures forall since :: RequestedSince(challenges, phone, since) <==> latest.Some? && latest.value > since
    {
      latest := None;
      var rest := challenges.Keys;
      while rest != {}
        invariant rest <= challenges.Keys
        invariant latest.Some? ==> exists id :: id in challenges && challenges[id].phone == phone
                                                && challenges[id].createdAt == latest.value
        invariant forall id | id in challenges && id !in rest && challenges[id].phone == phone ::
                    latest.Some? && challenges[id].createdAt <= latest.value
        decreases rest
      {
        var id :| id in rest;
        if challenges[id].phone == phone && (latest.None? || challenges[id].createdAt > latest.value) {
          latest := Some(challenges[id].createdAt);
        }
        rest := rest - {id};
      }
    }

    method RequestCode(phone: Option<Phone>, firstName: string, lastName: string, ip: string,
                       id: Id, code: string, now: Time) returns (r: Result<Issued, Problem>)
      requires Idle()
      modifies this
      ensures Idle()
      ensures (saved, r) == SmsModel.RequestCode(old(saved), phone, firstName, lastName, ip, id, code, now)
    {
      hide NameAllowed, KeptRate, KeptChallenges, RequestedSince, CountedRates;
      if phone.None? || !NameAllowed(firstName) || !NameAllowed(lastName) {
        return Err(Problem(422));
      }
      var allowed := CountBoth(phone.value, ip, now);
      if !allowed { return Err(Problem(429)); }
      var latest := Latest(phone.value);
      if latest.Some? && latest.value > now - RESEND_DELAY {
        Rollback();
        return Err(Problem(429));
      }
      if id in challenges {
        Rollback();
        return Err(Problem(500));
      }
      File(phone.value, id, NewChallenge(phone.value, firstName, lastName, code, now), now);
      r := Ok(Issued(id, phone.value));
    }

    /** Both counters, the phone's first. */
    method CountBoth(phone: Phone, ip: string, now: Time) returns (allowed: bool)
      requires Idle()
      modifies this`challenges, this`rates
      ensures allowed <==> CountOf(old(rates), PhoneKey(phone, now)) < PHONE_LIMIT
                           && CountOf(old(rates), IpKey(ip, now)) < IP_LIMIT
      ensures !allowed ==> Idle()
      ensures challenges == old(challenges)
      ensures allowed ==> PurgedRates(rates, now) == CountedRates(old(rates), phone, ip, now)
    {
      allowed := Rate(PhoneKey(phone, now), PHONE_LIMIT);
      if allowed {
        allowed := Rate(IpKey(ip, now), IP_LIMIT);
      }
    }

    /** Ends the phone's older codes, files the new one, purges what is out of date. */
    method File(phone: Phone, id: Id, row: Challenge, now: Time)
      requires id !in challenges && row.createdAt == now
      modifies this
      ensures Idle()
      ensures challenges == KeptChallenges(old(challenges), phone, now)[id := row]
      ensures rates == PurgedRates(old(rates), now)
    {
      hide KeptRate, Superseded, KeptChallenges, PurgedRates;
      challenges := map k | k in challenges :: Superseded(challenges[k], phone);
      challenges := challenges[id := row];
      KeptOnceFiled(old(challenges), challenges, phone, id, row, now);
      Purge(now);
      Commit();
    }

    method Purge(now: Time)
      modifies this`challenges, this`rates
      ensures challenges == map k | k in old(challenges) && old(challenges)[k].createdAt >= now - DAY
                              :: old(challenges)[k]
      ensures rates == PurgedRates(old(rates), now)
    {
      challenges := map k | k in challenges && challenges[k].createdAt >= now - DAY :: challenges[k];
      rates := map k | k in rates && KeptRate(k, now) :: rates[k];
    }

    method VerifyCode(id: Id, code: string, token: Token, now: Time) returns (r: Result<Session, Problem>)
      requires Idle()
      modifies this
      ensures Idle()
      ensures (saved, r) == SmsModel.VerifyCode(old(saved), id, code, token, now)
    {
      if id !in challenges || !Usable(challenges[id], now) {
        Rollback();
        return Err(Problem(400));
      }
      challenges := challenges[id := challenges[id].(attempts := challenges[id].attempts + 1)];
      if code != challenges[id].code {
        Commit();
        return Err(Problem(400));
      }
      SameTokens(old(challenges), challenges, token);
      if exists k :: k in challenges && challenges[k].token == Some(token) {
        Rollback();
        return Err(Problem(500));
      }
      challenges := challenges[id := challenges[id].(token := Some(token), tokenExpiresAt := now + SESSION_TTL)];
      challenges := challenges[id := challenges[id].(status := CodeVerified, cipher := false)];
      assert challenges == old(challenges)[id := challenges[id]];
      Commit();
      r := Ok(Session(token, challenges[id].firstName, challenges[id].lastName, challenges[id].phone));
    }

    method Identity(token: Token, now: Time) returns (r: Result<Id, Problem>)
      ensures Identifies(Tables(challenges, rates), token, now, r)
    {
      if exists id :: id in challenges && Opens(challenges[id], token, now) {
        var id :| id in challenges && Opens(challenges[id], token, now);
        r := Ok(id);
      } else {
        r := Err(Problem(401));
      }
    }

    /** Reserves the oldest codes that can be sent and that no other worker holds. */
    method ReservePending(locked: set<Id>, limit: nat, now: Time) returns (jobs: seq<Message>, ghost rows: seq<Id>)
      requires Idle()
      modifies this
      ensures Idle() && saved.rates == old(saved.rates)
      ensures FirstInOrder(Sendable(old(challenges), locked, now), limit, rows)
      ensures saved.challenges == Reserve(old(challenges), Ids(rows), now)
      ensures |jobs| == |rows|
      ensures forall k | 0 <= k < |rows| ::
                rows[k] in old(challenges) && jobs[k] == JobOf(old(challenges), rows[k], now)
    {
      hide Eligible, Sweep, Pick;
      challenges := map id | id in challenges :: Sweep(challenges[id], now);
      ghost var swept := challenges;
      var key := map id | id in challenges && id !in locked && Eligible(challenges[id], now)
                 :: challenges[id].createdAt;
      SendableOnceSwept(old(challenges), challenges, locked, now);
      var picked := SelectInOrder(key, limit);
      rows := picked;
      jobs := TakeAll(picked, now);
      Commit();
      ReserveAll(old(challenges), swept, locked, rows, now);
    }

    /** Marks the selected rows one after the other. */
    method TakeAll(picked: seq<Id>, now: Time) returns (jobs: seq<Message>)
      requires forall k | 0 <= k < |picked| :: picked[k] in challenges
      requires forall j, k | 0 <= j < k < |picked| :: picked[j] != picked[k]
      modifies this`challenges
      ensures challenges == PickAll(old(challenges), Ids(picked), now)
      ensures |jobs| == |picked| && forall k | 0 <= k < |jobs| :: jobs[k] == JobOf(old(challenges), picked[k], now)
    {
      jobs := [];
      var k := 0;
      assert challenges == PickAll(old(challenges), Ids(picked[..0]), now);
      while k < |picked|
        invariant 0 <= k <= |picked| && |jobs| == k
        invariant challenges == PickAll(old(challenges), Ids(picked[..k]), now)
        invariant forall j | 0 <= j < k :: jobs[j] == JobOf(old(challenges), picked[j], now)
      {
        var id := picked[k];
        var r := challenges[id];
        assert r == old(challenges)[id];
        challenges := challenges[id := r.(delivery := Sending, leaseUntil := now + SEND_LEASE,
                                          sendAttempts := r.sendAttempts + 1)];
        jobs := jobs + [Message(id, r.phone, r.expiresAt - now)];
        assert Ids(picked[..k + 1]) == Ids(picked[..k]) + {id};
        k := k + 1;
      }
      assert picked[..k] == picked;
    }

    /** The reply of one call; the row may have been purged or settled meanwhile. */
    method RecordReply(id: Id, reply: Reply, now: Time)
      requires Idle()
      modifies this
      ensures Idle() && saved.rates == old(saved.rates)
      ensures saved.challenges == if id in old(challenges)
                                  then old(challenges)[id := Record(old(challenges)[id], reply, now)]
                                  else old(challenges)
    {
      if id !in challenges || challenges[id].delivery != Sending {
        Commit();
        return;
      }
      var r := challenges[id];
      if reply.Took? {
        var state := Accepted;
        if reply.report.Some? && reply.report.value != ReportFailed {
          state := Stage(reply.report.value);
        }
        r := r.(delivery := state, error := None, cipher := false);
        r := r.(acceptedAt := Some(now), statusCheckedAt := now);
        if state in {Sent, Delivered} { r := r.(sentAt := Some(now)); }
        if state == Delivered { r := r.(deliveredAt := Some(now)); }
      } else if reply.Retry? && r.sendAttempts < MAX_SEND_ATTEMPTS {
        r := r.(delivery := Queued, error := Some(reply.error), nextAttemptAt := now + RetryDelay(r.sendAttempts));
      } else {
        r := r.(delivery := Failed, error := Some(reply.error), cipher := false);
      }
      challenges := challenges[id := r];
      Commit();
    }

    method ApplyGatewayState(id: Id, report: Report, error: string, now: Time) returns (applied: bool)
      requires Idle()
      modifies this
      ensures Idle() && saved.rates == old(saved.rates)
      ensures applied <==> id in old(challenges) && !Ignored(old(challenges)[id], report)
      ensures saved.challenges == if id in old(challenges)
                                  then old(challenges)[id := Apply(old(challenges)[id], report, error, now)]
                                  else old(challenges)
    {
      var current := if id in challenges then challenges[id].delivery else Queued;
      var rank := if current in {Failed, Expired} && report in {ReportSent, ReportDelivered} then 1 else Rank(current);
      if current == Queued || (report == ReportFailed && current in {Delivered, Failed, Expired})
         || (report != ReportFailed && Rank(Stage(report)) <= rank)
      {
        Rollback();
        return false;
      }
      var r := challenges[id];
      if report == ReportFailed {
        r := r.(delivery := Failed, error := Some(error), cipher := false);
      } else {
        r := r.(delivery := Stage(report), error := None, cipher := false, acceptedAt := OrNow(r.acceptedAt, now));
        if report in {ReportSent, ReportDelivered} { r := r.(sentAt := OrNow(r.sentAt, now)); }
        if report == ReportDelivered { r := r.(deliveredAt := Some(now)); }
      }
      challenges := challenges[id := r];
      Commit();
      applied := true;
    }

    /** Marks the messages to ask about, those least recently checked first. */
    method MarkTracked(locked: set<Id>, limit: nat, now: Time) returns (rows: seq<Id>)
      requires Idle()
      modifies this
      ensures Idle() && saved.rates == old(saved.rates)
      ensures FirstInOrder(Trackable(old(challenges), locked, now), limit, rows)
      ensures saved.challenges == Mark(old(challenges), Ids(rows), now)
    {
      var key := map id | id in challenges && id !in locked && Due(challenges[id], now)
                 :: challenges[id].statusCheckedAt;
      assert key == Trackable(challenges, locked, now);
      hide Due;
      rows := SelectInOrder(key, limit);
      CheckAll(rows, now);
      Commit();
      MarkAll(old(challenges), locked, rows, now);
    }

    method CheckAll(rows: seq<Id>, now: Time)
      requires forall k | 0 <= k < |rows| :: rows[k] in challenges
      modifies this`challenges
      ensures challenges == CheckedAll(old(challenges), Ids(rows), now)
    {
      var k := 0;
      assert challenges == CheckedAll(old(challenges), Ids(rows[..0]), now);
      while k < |rows|
        invariant 0 <= k <= |rows|
        invariant challenges == CheckedAll(old(challenges), Ids(rows[..k]), now)
      {
        challenges := challenges[rows[k] := challenges[rows[k]].(statusCheckedAt := now)];
        assert Ids(rows[..k + 1]) == Ids(rows[..k]) + {rows[k]};
        k := k + 1;
      }
      assert rows[..k] == rows;
    }
  }

  function Ids(rows: seq<Id>): set<Id> { set k | 0 <= k < |rows| :: rows[k] }

  function PickAll(challenges: map<Id, Challenge>, picked: set<Id>, now: Time): map<Id, Challenge> {
    map id | id in challenges :: if id in picked then Pick(challenges[id], now) else challenges[id]
  }

  function CheckedAll(challenges: map<Id, Challenge>, picked: set<Id>, now: Time): map<Id, Challenge> {
    map id | id in challenges :: if id in picked then challenges[id].(statusCheckedAt := now) else challenges[id]
  }

  lemma SendableOnceSwept(before: map<Id, Challenge>, swept: map<Id, Challenge>, locked: set<Id>, now: Time)
    requires swept == map id | id in before :: Sweep(before[id], now)
    ensures (map id | id in swept && id !in locked && Eligible(swept[id], now) :: swept[id].createdAt)
         == Sendable(before, locked, now)
    ensures forall id | id in before ::
              JobOf(swept, id, now) == JobOf(before, id, now)
  {
    hide Eligible;
  }

  lemma ReserveAll(before: map<Id, Challenge>, swept: map<Id, Challenge>, locked: set<Id>, rows: seq<Id>, now: Time)
    requires swept == map id | id in before :: Sweep(before[id], now)
    requires forall k | 0 <= k < |rows| :: rows[k] in Sendable(before, locked, now)
    ensures PickAll(swept, Ids(rows), now) == Reserve(before, Ids(rows), now)
  {
    hide Eligible, Sweep, Pick;
  }

  lemma MarkAll(before: map<Id, Challenge>, locked: set<Id>, rows: seq<Id>, now: Time)
    requires forall k | 0 <= k < |rows| :: rows[k] in Trackable(before, locked, now)
    ensures CheckedAll(before, Ids(rows), now) == Mark(before, Ids(rows), now)
  {
    hide Due;
  }

  /** The rows a worker may reserve, with the date they are ordered by. */
  function Sendable(challenges: map<Id, Challenge>, locked: set<Id>, now: Time): map<Id, Time> {
    map id | id in challenges && id !in locked && Eligible(Sweep(challenges[id], now), now) :: challenges[id].createdAt
  }

  function Trackable(challenges: map<Id, Challenge>, locked: set<Id>, now: Time): map<Id, Time> {
    map id | id in challenges && id !in locked && Due(challenges[id], now) :: challenges[id].statusCheckedAt
  }

  function JobOf(challenges: map<Id, Challenge>, id: Id, now: Time): Message
    requires id in challenges
  {
    Message(id, challenges[id].phone, challenges[id].expiresAt - now)
  }
}
