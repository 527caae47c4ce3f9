/** Two interviews in force at one date. A new convocation sent at once never makes a second one
    (app/modules/recruitment_engage_staff.py); sending a draft and moving an interview make no such test. */
module RecruitmentDates {
  import opened Wrappers
  import opened RecruitmentModel
  import opened RecruitmentInvariants
  import opened RecruitmentRuns

  predicate InForce(i: Interview) { i.status !in {Cancelled, Draft} }

  predicate Twice(a: Application, j: nat, k: nat) {
    && j < |a.interviews| && k < |a.interviews| && InForce(a.interviews[j]) && InForce(a.interviews[k])
    && a.interviews[j].startsAt == a.interviews[k].startsAt
  }

  /** A draft that will be sent, or a sent interview that will change its date. */
  predicate Places(a: Application, e: Event, k: nat)
    requires k < |a.interviews|
  {
    var i := a.interviews[k];
    || (e.SendEvent? && e.id == k && i.status == Draft && !Closed(a) && !TooLate(i.startsAt, e.now) && e.printable)
    || (e.UpdateEvent? && e.id == k && i.status in {Proposed, Confirmed} && ToMinute(e.f.startsAt) != i.startsAt
        && !TooLate(e.f.startsAt, e.now) && !OutOfScope(e.f, e.offered) && e.printable)
  }

  /** The date it is then in force at. */
  function PlacedAt(a: Application, e: Event, k: nat): Time
    requires k < |a.interviews|
  {
    if e.UpdateEvent? then ToMinute(e.f.startsAt) else a.interviews[k].startsAt
  }

  predicate StaysPut(i: Interview, j: Interview) { InForce(j) ==> InForce(i) && j.startsAt == i.startsAt }

  lemma TargetPlaced(a: Application, e: Event, k: nat)
    requires k < |a.interviews| && StatusInv(a.interviews[k]) && Target(e) == Some(k)
    ensures k < |Do(a, e).0.interviews|
    ensures Places(a, e, k) <==> !StaysPut(a.interviews[k], Do(a, e).0.interviews[k])
    ensures Places(a, e, k) ==> InForce(Do(a, e).0.interviews[k])
                                && Do(a, e).0.interviews[k].startsAt == PlacedAt(a, e, k)
  {
    hide Filled, ToMinute, Outdated, StateOf;
  }

  lemma RowPlaced(a: Application, e: Event, k: nat)
    requires Inv(a) && k < |a.interviews|
    ensures k < |Do(a, e).0.interviews|
    ensures Places(a, e, k) <==> !StaysPut(a.interviews[k], Do(a, e).0.interviews[k])
    ensures Places(a, e, k) ==> InForce(Do(a, e).0.interviews[k])
                                && Do(a, e).0.interviews[k].startsAt == PlacedAt(a, e, k)
  {
    assert StatusInv(a.interviews[k]) by { RowStatus(a.interviews[k]); }
    hide Inv;
    if Target(e) == Some(k) {
      TargetPlaced(a, e, k);
    } else if e.WithdrawEvent? {
      hide StatusInv;
    } else {
      hide Do, StatusInv;
      Untouched(a, e, k);
    }
  }

  /** The interview placed falls on another one in force. */
  predicate FallsOn(a: Application, e: Event, j: nat, k: nat)
    requires j < |a.interviews| && k < |a.interviews|
  {
    Places(a, e, j) && InForce(a.interviews[k]) && a.interviews[k].startsAt == PlacedAt(a, e, j)
  }

  lemma KnownDoubled(a: Application, e: Event, j: nat, k: nat)
    requires Inv(a) && j < k < |a.interviews|
    ensures Twice(Do(a, e).0, j, k) && !Twice(a, j, k) <==> FallsOn(a, e, j, k) || FallsOn(a, e, k, j)
  {
    RowPlaced(a, e, j);
    RowPlaced(a, e, k);
    hide Inv, Do;
    if Places(a, e, j) {
      Untouched(a, e, k);
    }
    if Places(a, e, k) {
      Untouched(a, e, j);
    }
    hide Closed, TooLate, OutOfScope, ToMinute;
  }

  lemma AddedOne(a: Application, e: Event)
    ensures |a.interviews| <= |Do(a, e).0.interviews| <= |a.interviews| + 1
    ensures |Do(a, e).0.interviews| > |a.interviews| ==>
              && e.ProposeEvent? && Do(a, e).1 == Ok(Written(|a.interviews|))
              && (e.draft ==> Do(a, e).0.interviews[|a.interviews|].status == Draft)
  {
    hide Filled, Requested, SentAtDate, CurrentVersion, StateOf, Outdated, ToMinute, Issue;
    match e {
      case ProcessEvent(p, hired, now) => ProcessLeavesInterviews(a, p, hired, now);
      case _ =>
    }
  }

  lemma AddedDoublesNone(a: Application, e: Event, j: nat)
    requires j < |a.interviews| < |Do(a, e).0.interviews|
    ensures !Twice(Do(a, e).0, j, |a.interviews|)
  {
    AddedOne(a, e);
    if !e.draft {
      NoSecondAtSameDate(a, e.f, e.requestId, e.offered, e.printable, e.now, |a.interviews|, j);
      hide Propose;
    } else {
      hide Do;
    }
  }

  /** A step puts two interviews in force at one date exactly when it sends a draft, or moves an interview,
      to the date of another one in force. */
  lemma DateDoubles(a: Application, e: Event, j: nat, k: nat)
    requires Inv(a) && j < k < |Do(a, e).0.interviews|
    ensures Twice(Do(a, e).0, j, k) && !Twice(a, j, k)
       <==> k < |a.interviews| && (FallsOn(a, e, j, k) || FallsOn(a, e, k, j))
  {
    AddedOne(a, e);
    hide Inv, Do;
    if k < |a.interviews| {
      KnownDoubled(a, e, j, k);
    } else {
      AddedDoublesNone(a, e, j);
    }
  }

  // ---- Two drafts of one date, both sent ----

  const DRAFTED := ProposeEvent(SOMEWHERE, None, true, true, true, 0 - HOUR)
  const ONE_DRAFT := Do(FILED, DRAFTED).0
  const TWO_DRAFTS := Do(ONE_DRAFT, DRAFTED).0
  const ONE_SENT := Do(TWO_DRAFTS, SendEvent(0, true, 0 - HOUR)).0
  const BOTH_SENT := Do(ONE_SENT, SendEvent(1, true, 0 - HOUR)).0

  /** A draft of the first of January 1970, not sent. */
  predicate IsDraft(i: Interview) { i.status == Draft && i.startsAt == 0 && i.version == 0 }

  predicate Open(a: Application, n: nat) { |a.interviews| == n && !Closed(a) }

  lemma Drafts()
    ensures Open(TWO_DRAFTS, 2) && IsDraft(TWO_DRAFTS.interviews[0]) && IsDraft(TWO_DRAFTS.interviews[1])
  {
    assert Open(ONE_DRAFT, 1) && IsDraft(ONE_DRAFT.interviews[0]);
    hide ONE_DRAFT, Filled;
  }

  lemma DraftSent(a: Application, k: nat)
    requires k < |a.interviews| && IsDraft(a.interviews[k]) && !Closed(a)
    ensures var b := Do(a, SendEvent(k, true, 0 - HOUR)).0;
            && |b.interviews| == |a.interviews| && !Closed(b)
            && InForce(b.interviews[k]) && b.interviews[k].startsAt == 0
            && forall j | 0 <= j < |a.interviews| && j != k :: b.interviews[j] == a.interviews[j]
  {
    var i := a.interviews[k];
    assert !TooLate(i.startsAt, 0 - HOUR);
    hide TooLate, StateOf;
    IssueMarks(i.(status := Proposed), 0 - HOUR);
    hide Issue;
  }

  lemma SameDateTwice()
    ensures Twice(BOTH_SENT, 0, 1)
    ensures BOTH_SENT == Run(FILED, [DRAFTED, DRAFTED, SendEvent(0, true, 0 - HOUR), SendEvent(1, true, 0 - HOUR)])
  {
    Drafts();
    hide Do;
    DraftSent(TWO_DRAFTS, 0);
    DraftSent(ONE_SENT, 1);
    var send, again := SendEvent(0, true, 0 - HOUR), SendEvent(1, true, 0 - HOUR);
    assert [again][1..] == [] && [send, again][1..] == [again];
    assert [DRAFTED, send, again][1..] == [send, again];
    assert [DRAFTED, DRAFTED, send, again][1..] == [DRAFTED, send, again];
    assert Run(BOTH_SENT, []) == BOTH_SENT;
    assert Run(ONE_SENT, [again]) == BOTH_SENT;
    assert Run(TWO_DRAFTS, [send, again]) == BOTH_SENT;
    assert Run(ONE_DRAFT, [DRAFTED, send, again]) == BOTH_SENT;
  }
}
