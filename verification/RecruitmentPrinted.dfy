/** What a convocation says (app/modules/recruitment_engage_staff.py): the fields of the form, the details that
    were not sent as they were, the society of the offer when there is one; and the document sent says what
    the interview says. */
module RecruitmentPrinted {
  import opened Wrappers
  import opened RecruitmentModel
  import opened RecruitmentInvariants
  import opened RecruitmentRuns

  /** A detail follows the form when it was sent, and stays otherwise. */
  predicate Follows<T(==)>(sent: Option<T>, before: T, after: T) {
    match sent
    case Some(value) => after == value
    case None => after == before
  }

  /** p holds the fields of the form, over those of `before`. */
  predicate Carries(p: Printed, before: Printed, f: Form, offered: bool) {
    && p.location == f.location && p.contact == f.contact && p.note == f.note
    && Follows(f.address, before.address, p.address) && Follows(f.mapUrl, before.mapUrl, p.mapUrl)
    && Follows(f.contactDetails, before.contactDetails, p.contactDetails)
    && Follows(f.purpose, before.purpose, p.purpose) && Follows(f.documents, before.documents, p.documents)
    && (offered ==> p.society.None?) && (!offered ==> Follows(f.society, before.society, p.society))
  }

  /** An empty interview. */
  predicate Empty(p: Printed) {
    && p.location == "" && p.contact.None? && p.note.None? && p.address.None? && p.mapUrl.None?
    && p.contactDetails.None? && p.purpose.None? && p.documents.None? && p.society.None?
  }

  /** The date to the minute. */
  predicate Minute(t: Time, written: Time) { t % 60 == 0 && t <= written < t + 60 }

  /** The newest document of an interview says what the interview says. */
  predicate SentAs(i: Interview) {
    && i.version > 0 && |i.versions| == i.version && i.versions[i.version - 1].number == i.version
    && i.versions[i.version - 1].startsAt == i.startsAt && i.versions[i.version - 1].printed == i.printed
  }

  // ---- A new interview ----

  /** What a proposal is answered: closed, late, already there by its request or its date, a society out of
      scope, a text that cannot be drawn; otherwise it is written. */
  lemma ProposeAnswers(a: Application, e: Event)
    requires e.ProposeEvent?
    ensures var late := ToMinute(e.f.startsAt) < e.now + 3600 - 5 * 60;
            var asked := exists k :: 0 <= k < |a.interviews| && e.requestId.Some?
                                     && a.interviews[k].requestId == e.requestId;
            var doubled := exists k :: 0 <= k < |a.interviews| && a.interviews[k].status !in {Cancelled, Draft}
                                       && a.interviews[k].startsAt == ToMinute(e.f.startsAt);
            var foreign := !e.offered && e.f.society.Some? && e.f.society.value.Some? && !e.f.scoped;
            var there := asked || (doubled && !e.draft);
            && (Do(a, e).1 == Err(Problem(409)) <==> Closed(a))
            && (Do(a, e).1 == Ok(AlreadyThere) <==> !Closed(a) && !late && there)
            && (Do(a, e).1 == Err(Problem(422)) <==>
                  !Closed(a) && (late || (!there && (foreign || (!e.draft && !e.printable)))))
            && (Do(a, e).1 == Ok(Written(|a.interviews|)) <==>
                  !Closed(a) && !late && !there && !foreign && (e.draft || e.printable))
            && (Do(a, e).1 != Ok(Written(|a.interviews|)) ==> Do(a, e).0 == a)
  {
    RequestedIs(a.interviews, e.requestId);
    hide ToMinute, Closed, Issue, Filled, Requested;
  }

  lemma RequestedIs(interviews: seq<Interview>, requestId: Option<string>)
    ensures requestId.Some? && Requested(interviews, requestId.value)
       <==> exists k :: 0 <= k < |interviews| && requestId.Some? && interviews[k].requestId == requestId
  {
  }

  /** A proposal that is written adds one interview, at its date, with the fields of its form; a draft has no
      document, another one has a first document that says the same. */
  lemma ProposePrints(a: Application, e: Event)
    requires e.ProposeEvent? && Do(a, e).1 == Ok(Written(|a.interviews|))
    ensures var b, n := Do(a, e).0, |a.interviews|;
            && |b.interviews| == n + 1 && b.interviews[..n] == a.interviews
            && Minute(b.interviews[n].startsAt, e.f.startsAt) && b.interviews[n].requestId == e.requestId
            && (exists blank :: Empty(blank) && Carries(b.interviews[n].printed, blank, e.f, e.offered))
            && b.interviews[n].confirmedAt.None? && b.interviews[n].arrivedAt.None?
            && (if e.draft then b.interviews[n].status == Draft && b.interviews[n].versions == []
                else b.interviews[n].status == Proposed && b.interviews[n].version == 1 && SentAs(b.interviews[n])
                     && b.interviews[n].versions[0].issuedAt == e.now && Live(b.interviews[n].versions[0]))
  {
    hide SentAtDate, Requested;
    assert Empty(BLANK) && Carries(Filled(BLANK, e.f, e.offered), BLANK, e.f, e.offered);
    var i := NewInterview(ToMinute(e.f.startsAt), Filled(BLANK, e.f, e.offered), e.requestId);
    IssueVersions(i, e.now);
    hide Filled, Carries, Empty;
  }

  // ---- An interview changed ----

  lemma CarriesFilled(p: Printed, before: Printed, f: Form, offered: bool)
    ensures Carries(p, before, f, offered) <==> p == Filled(before, f, offered)
  {
  }

  /** The form asks for nothing new. */
  predicate AsItIs(i: Interview, f: Form, offered: bool) {
    Minute(i.startsAt, f.startsAt) && Carries(i.printed, i.printed, f, offered)
  }

  lemma AsItIsFilled(i: Interview, f: Form, offered: bool)
    ensures AsItIs(i, f, offered) <==> ToMinute(f.startsAt) == i.startsAt && Filled(i.printed, f, offered) == i.printed
  {
  }

  /** What an update is answered: unknown, closed, late, a society out of scope, a text that cannot be drawn when
      a document is due; unchanged when a sent interview is as asked already; otherwise it is written. */
  lemma UpdateAnswers(a: Application, e: Event)
    requires e.UpdateEvent? && Inv(a)
    ensures e.id >= |a.interviews| ==> Do(a, e) == (a, Err(Problem(404)))
    ensures e.id < |a.interviews| ==>
              var i := a.interviews[e.id];
              var late := ToMinute(e.f.startsAt) < e.now + 3600 - 5 * 60;
              var foreign := !e.offered && e.f.society.Some? && e.f.society.value.Some? && !e.f.scoped;
              var same := i.status != Draft && AsItIs(i, e.f, e.offered);
              && (Do(a, e).1 == Err(Problem(409)) <==> i.status in {Cancelled, Done, NoShow})
              && (Do(a, e).1 == Err(Problem(422)) <==>
                    i.status !in {Cancelled, Done, NoShow}
                    && (late || foreign || (i.status != Draft && !same && !e.printable)))
              && (Do(a, e).1 == Ok(Unchanged) <==>
                    i.status !in {Cancelled, Done, NoShow} && !late && !foreign && same)
              && (Do(a, e).1 == Ok(Written(e.id)) <==>
                    i.status !in {Cancelled, Done, NoShow} && !late && !foreign && !same
                    && (i.status == Draft || e.printable))
              && (Do(a, e).1 != Ok(Written(e.id)) ==> Do(a, e).0 == a)
  {
    if e.id < |a.interviews| {
      assert StatusInv(a.interviews[e.id]) by { RowStatus(a.interviews[e.id]); }
      AsItIsFilled(a.interviews[e.id], e.f, e.offered);
    }
    hide ToMinute, Filled, Issue, Inv, AsItIs;
  }

  /** The interview as an update that is written leaves it. */
  function Rewritten(i: Interview, e: Event): Interview
    requires e.UpdateEvent?
  {
    var startsAt, printed := ToMinute(e.f.startsAt), Filled(i.printed, e.f, e.offered);
    if i.status == Draft then i.(startsAt := startsAt, printed := printed)
    else Issue(MoveInterview(i, startsAt).(printed := printed), e.now)
  }

  lemma UpdateWrites(a: Application, e: Event)
    requires e.UpdateEvent? && e.id < |a.interviews| && Do(a, e).1 == Ok(Written(e.id))
    requires StatusInv(a.interviews[e.id])
    ensures Do(a, e).0 == a.(interviews := a.interviews[e.id := Rewritten(a.interviews[e.id], e)])
    ensures a.interviews[e.id].status in {Draft, Proposed, Confirmed}
  {
    hide ToMinute, Filled, Issue;
  }

  lemma RewrittenPrints(i: Interview, e: Event)
    requires e.UpdateEvent? && InterviewInv(i) && i.status in {Draft, Proposed, Confirmed}
    ensures var j := Rewritten(i, e);
            && Minute(j.startsAt, e.f.startsAt) && Carries(j.printed, i.printed, e.f, e.offered)
            && (i.status == Draft ==> j.status == Draft && j.versions == [])
            && (i.status != Draft ==>
                  j.version == i.version + 1 && SentAs(j) && j.versions[i.version].issuedAt == e.now
                  && Live(j.versions[i.version]) && j.versions[i.version - 1].supersededAt == Some(e.now))
            && j.viewedVersion == i.viewedVersion && j.sentAt == i.sentAt && j.requestId == i.requestId
  {
    CarriesFilled(Filled(i.printed, e.f, e.offered), i.printed, e.f, e.offered);
    if i.status != Draft {
      MovedVersions(i, e);
      IssueVersions(MoveInterview(i, ToMinute(e.f.startsAt)).(printed := Filled(i.printed, e.f, e.offered)), e.now);
    }
    hide Filled, Carries;
  }

  lemma MovedVersions(i: Interview, e: Event)
    requires e.UpdateEvent? && InterviewInv(i) && i.status in {Proposed, Confirmed}
    ensures var j := MoveInterview(i, ToMinute(e.f.startsAt)).(printed := Filled(i.printed, e.f, e.offered));
            && VersionsInv(j) && j.version == i.version && j.versions == i.versions && i.version > 0
            && i.versions[i.version - 1].cancelledAt.None?
  {
  }

  /** An update that is written leaves the date and the fields of its form on that interview, the other details
      as they were, and the other interviews alone; a draft stays without document, a sent interview has one
      document more, which says the same. */
  lemma UpdatePrints(a: Application, e: Event)
    requires Inv(a) && e.UpdateEvent? && e.id < |a.interviews| && Do(a, e).1 == Ok(Written(e.id))
    ensures var b, i := Do(a, e).0, a.interviews[e.id];
            && |b.interviews| == |a.interviews| && b == a.(interviews := b.interviews)
            && (forall k | 0 <= k < |a.interviews| && k != e.id :: b.interviews[k] == a.interviews[k])
            && var j := b.interviews[e.id];
               && Minute(j.startsAt, e.f.startsAt) && Carries(j.printed, i.printed, e.f, e.offered)
               && (i.status == Draft ==> j.status == Draft && j.versions == [])
               && (i.status != Draft ==>
                     j.version == i.version + 1 && SentAs(j) && j.versions[i.version].issuedAt == e.now
                     && Live(j.versions[i.version]) && j.versions[i.version - 1].supersededAt == Some(e.now))
               && j.viewedVersion == i.viewedVersion && j.sentAt == i.sentAt && j.requestId == i.requestId
  {
    assert InterviewInv(a.interviews[e.id]);
    UpdateWrites(a, e);
    RewrittenPrints(a.interviews[e.id], e);
    hide Do, Inv, InterviewInv, Rewritten, Carries, SentAs, Minute;
  }

  // ---- A draft sent ----

  lemma SendAnswers(a: Application, e: Event)
    requires Inv(a) && e.SendEvent? && e.id < |a.interviews|
    ensures var i := a.interviews[e.id];
            var late := ToMinute(i.startsAt) < e.now + 3600 - 5 * 60;
            && (Do(a, e).1 == Ok(Written(e.id)) <==> i.status == Draft && !Closed(a) && !late && e.printable)
            && (Do(a, e).1 == Ok(AlreadyThere) <==> i.status in {Proposed, Confirmed})
            && (Do(a, e).1 != Ok(Written(e.id)) ==> Do(a, e).0 == a)
            && (Do(a, e).1 == Ok(Written(e.id)) ==> Do(a, e).0 == SendOut(a, e.id, e.now))
  {
    var i := a.interviews[e.id];
    assert InterviewInv(i);
    if i.status in {Draft, Proposed, Confirmed} { SentOnce(i); }
    hide Inv, CurrentVersion, StateOf, ToMinute, Closed, Issue;
  }

  /** A draft that is sent becomes proposed, with a first document that says what the draft said. */
  lemma SendPrints(a: Application, e: Event)
    requires Inv(a) && e.SendEvent? && e.id < |a.interviews| && Do(a, e).1 == Ok(Written(e.id))
    ensures var b, i := Do(a, e).0, a.interviews[e.id];
            && |b.interviews| == |a.interviews|
            && (forall k | 0 <= k < |a.interviews| && k != e.id :: b.interviews[k] == a.interviews[k])
            && var j := b.interviews[e.id];
               && j.status == Proposed && j.version == 1 && SentAs(j) && Live(j.versions[0])
               && j.versions[0].issuedAt == e.now && j.startsAt == i.startsAt && j.printed == i.printed
               && j.sentAt == Some(e.now)
    ensures var b := Do(a, e).0;
            && b.stage == (if a.stage in {Received, Review, Shortlisted} then Convocation else a.stage)
            && b.visible == (if a.communicatedAt.Some? then a.visible else SeenInterview)
            && b == a.(interviews := b.interviews, stage := b.stage, visible := b.visible)
  {
    var i := a.interviews[e.id];
    assert InterviewInv(i);
    SendAnswers(a, e);
    IssueVersions(i.(status := Proposed), e.now);
    hide Do, Inv;
  }

  /** A proposal sent at once raises the stage and the visible state as sending a draft does. */
  lemma ProposeMoves(a: Application, e: Event)
    requires e.ProposeEvent? && Do(a, e).1 == Ok(Written(|a.interviews|))
    ensures var b := Do(a, e).0;
            && b.stage == (if !e.draft && a.stage in {Received, Review, Shortlisted} then Convocation else a.stage)
            && b.visible == (if e.draft || a.communicatedAt.Some? then a.visible else SeenInterview)
            && b == a.(interviews := b.interviews, stage := b.stage, visible := b.visible)
  {
    hide SentAtDate, Requested, Issue, Filled, ToMinute;
  }

  // ---- Whole runs ----

  /** In every run the newest document of an interview says what the interview says, date and fields. */
  lemma DocumentSaysInterview(es: seq<Event>, id: nat)
    requires id < |Run(FILED, es).interviews|
    ensures var i := Run(FILED, es).interviews[id];
            i.version > 0 ==> SentAs(i)
  {
    Reachable(es);
    assert InterviewInv(Run(FILED, es).interviews[id]);
    hide Run;
  }

  predicate OnMinutes(a: Application) { forall k | 0 <= k < |a.interviews| :: a.interviews[k].startsAt % 60 == 0 }

  lemma ToMinuteOnMinute(t: Time)
    ensures ToMinute(t) % 60 == 0
  {
  }

  lemma IssueKeepsDate(i: Interview, now: Time)
    ensures Issue(i, now).startsAt == i.startsAt
  {
  }

  lemma NewRowOnMinute(a: Application, e: Event)
    requires |Do(a, e).0.interviews| > |a.interviews|
    ensures e.ProposeEvent? && |Do(a, e).0.interviews| == |a.interviews| + 1
    ensures Do(a, e).0.interviews[|a.interviews|].startsAt == ToMinute(e.f.startsAt)
  {
    hide Filled, CurrentVersion, StateOf, Requested, SentAtDate, Outdated, ToMinute, Issue;
    if e.ProposeEvent? {
      var i := NewInterview(ToMinute(e.f.startsAt), Filled(BLANK, e.f, e.offered), e.requestId);
      IssueKeepsDate(i.(status := Proposed), e.now);
    }
    if e.ProcessEvent? { ProcessLeavesInterviews(a, e.p, e.hired, e.now); }
  }

  /** An update writes the date of its form, no other step writes one. */
  lemma TargetDate(a: Application, e: Event, k: nat)
    requires k < |a.interviews| && (Target(e) == Some(k) || e.WithdrawEvent?)
    ensures k < |Do(a, e).0.interviews|
    ensures Do(a, e).0.interviews[k].startsAt
         == if e.UpdateEvent? && Do(a, e).1.Ok? then ToMinute(e.f.startsAt) else a.interviews[k].startsAt
  {
    hide Filled, CurrentVersion, StateOf, Outdated, ToMinute, Issue, CancelVersions;
    if e.UpdateEvent? {
      IssueKeepsDate(MoveInterview(a.interviews[k], ToMinute(e.f.startsAt)).(
                       printed := Filled(a.interviews[k].printed, e.f, e.offered)), e.now);
    } else if e.SendEvent? {
      IssueKeepsDate(a.interviews[k].(status := Proposed), e.now);
      IssueKeepsDate(a.interviews[k], e.now);
    }
  }

  lemma RowOnMinute(a: Application, e: Event, k: nat)
    requires OnMinutes(a) && k < |Do(a, e).0.interviews|
    ensures Do(a, e).0.interviews[k].startsAt % 60 == 0
  {
    if e.ProposeEvent? || e.UpdateEvent? { ToMinuteOnMinute(e.f.startsAt); }
    hide Do, ToMinute;
    if k >= |a.interviews| {
      NewRowOnMinute(a, e);
    } else if Target(e) == Some(k) || e.WithdrawEvent? {
      TargetDate(a, e, k);
    } else {
      Untouched(a, e, k);
    }
  }

  lemma {:induction false} DatesOnMinutes(a: Application, es: seq<Event>)
    requires OnMinutes(a)
    ensures OnMinutes(Run(a, es))
    decreases |es|
  {
    if es == [] {
    } else {
      var b := Do(a, es[0]).0;
      forall k | 0 <= k < |b.interviews| ensures b.interviews[k].startsAt % 60 == 0 { RowOnMinute(a, es[0], k); }
      hide Do;
      DatesOnMinutes(b, es[1..]);
    }
  }

  // ---- The form of an interview as it is ----

  /** The form that repeats an interview; whether the society may be used no longer matters. */
  function OwnForm(i: Interview, scoped: bool): Form {
    Form(i.startsAt, i.printed.location, i.printed.contact, i.printed.note, Some(i.printed.address),
         Some(i.printed.mapUrl), Some(i.printed.contactDetails), Some(i.printed.purpose), Some(i.printed.documents),
         Some(i.printed.society), scoped)
  }

  /** Updating a sent, open interview of a run with its own form changes nothing, unless an offer takes the place
      of its society; nor does the form with its date, location, contact and note alone. */
  lemma OwnFormUnchanged(es: seq<Event>, id: nat, offered: bool, printable: bool, now: Time)
    requires id < |Run(FILED, es).interviews| && Run(FILED, es).interviews[id].status in {Proposed, Confirmed}
    requires Run(FILED, es).interviews[id].startsAt >= now + 3600 - 5 * 60
    ensures var a := Run(FILED, es);
            var i := a.interviews[id];
            var short := Form(i.startsAt, i.printed.location, i.printed.contact, i.printed.note,
                              None, None, None, None, None, None, false);
            && (Do(a, UpdateEvent(id, OwnForm(i, true), offered, printable, now)) == (a, Ok(Unchanged))
                <==> !(offered && i.printed.society.Some?))
            && (Do(a, UpdateEvent(id, short, offered, printable, now)) == (a, Ok(Unchanged))
                <==> !(offered && i.printed.society.Some?))
  {
    var a := Run(FILED, es);
    Reachable(es);
    DatesOnMinutes(FILED, es);
    var i := a.interviews[id];
    var short := Form(i.startsAt, i.printed.location, i.printed.contact, i.printed.note,
                      None, None, None, None, None, None, false);
    assert ToMinute(i.startsAt) == i.startsAt;
    hide Run;
    UpdateAnswers(a, UpdateEvent(id, OwnForm(i, true), offered, printable, now));
    UpdateAnswers(a, UpdateEvent(id, short, offered, printable, now));
    hide Do, Inv, OnMinutes;
  }

  /** What is printed when one field of an interview's own form is changed. */
  predicate PrintsOnly(a: Application, id: nat, f: Form, printed: Printed, startsAt: Time, now: Time)
    requires id < |a.interviews|
  {
    var b := Do(a, UpdateEvent(id, f, false, true, now));
    && b.1.Ok? && id < |b.0.interviews|
    && b.0.interviews[id].printed == printed && b.0.interviews[id].startsAt == startsAt
    && (b.0.interviews[id].version > 0 ==> SentAs(b.0.interviews[id]))
  }

  lemma FormPrints(a: Application, id: nat, f: Form, printed: Printed, startsAt: Time, now: Time)
    requires Inv(a) && id < |a.interviews| && a.interviews[id].status in {Draft, Proposed, Confirmed}
    requires !OutOfScope(f, false) && ToMinute(f.startsAt) >= now + 3600 - 5 * 60
    requires Carries(printed, a.interviews[id].printed, f, false) && Minute(startsAt, f.startsAt)
    ensures PrintsOnly(a, id, f, printed, startsAt, now)
  {
    var e := UpdateEvent(id, f, false, true, now);
    var i := a.interviews[id];
    assert InterviewInv(i);
    UpdateAnswers(a, e);
    CarriesFilled(printed, i.printed, f, false);
    if Do(a, e).1 == Ok(Written(id)) {
      UpdatePrints(a, e);
      CarriesFilled(Do(a, e).0.interviews[id].printed, i.printed, f, false);
    } else {
      CarriesFilled(i.printed, i.printed, f, false);
    }
    hide Do, Inv, Filled, Carries;
  }

  /** One field of a form, with its new value. */
  datatype Change =
    | Location(text: string) | Contact(value: Option<string>) | Note(value: Option<string>)
    | Address(value: Option<string>) | MapUrl(value: Option<string>) | ContactDetails(value: Option<string>)
    | Purpose(value: Option<string>) | Documents(value: Option<string>) | Society(value: Option<string>)
    | Date(startsAt: Time)

  function FormWith(f: Form, c: Change): Form {
    match c
    case Location(text) => f.(location := text)
    case Contact(value) => f.(contact := value)
    case Note(value) => f.(note := value)
    case Address(value) => f.(address := Some(value))
    case MapUrl(value) => f.(mapUrl := Some(value))
    case ContactDetails(value) => f.(contactDetails := Some(value))
    case Purpose(value) => f.(purpose := Some(value))
    case Documents(value) => f.(documents := Some(value))
    case Society(value) => f.(society := Some(value))
    case Date(startsAt) => f.(startsAt := startsAt)
  }

  function PrintedWith(p: Printed, c: Change): Printed {
    match c
    case Location(text) => p.(location := text)
    case Contact(value) => p.(contact := value)
    case Note(value) => p.(note := value)
    case Address(value) => p.(address := value)
    case MapUrl(value) => p.(mapUrl := value)
    case ContactDetails(value) => p.(contactDetails := value)
    case Purpose(value) => p.(purpose := value)
    case Documents(value) => p.(documents := value)
    case Society(value) => p.(society := value)
    case Date(_) => p
  }

  lemma ChangeCarries(i: Interview, c: Change)
    ensures Carries(PrintedWith(i.printed, c), i.printed, FormWith(OwnForm(i, true), c), false)
    ensures !OutOfScope(FormWith(OwnForm(i, true), c), false)
    ensures FormWith(OwnForm(i, true), c).startsAt == if c.Date? then c.startsAt else i.startsAt
  {
    match c {
      case Location(_) =>
      case Contact(_) =>
      case Note(_) =>
      case Address(_) =>
      case MapUrl(_) =>
      case ContactDetails(_) =>
      case Purpose(_) =>
      case Documents(_) =>
      case Society(_) =>
      case Date(_) =>
    }
  }

  /** In every run, changing one field of an interview's own form changes that field of what is printed, or the
      date, and no other. */
  lemma OneFieldChanges(es: seq<Event>, id: nat, now: Time, c: Change)
    requires id < |Run(FILED, es).interviews| && Run(FILED, es).interviews[id].status in {Draft, Proposed, Confirmed}
    requires (if c.Date? then c.startsAt else Run(FILED, es).interviews[id].startsAt) >= now + 3600 - 5 * 60
    requires c.Date? ==> c.startsAt % 60 == 0
    ensures var i := Run(FILED, es).interviews[id];
            PrintsOnly(Run(FILED, es), id, FormWith(OwnForm(i, true), c), PrintedWith(i.printed, c),
                       if c.Date? then c.startsAt else i.startsAt, now)
  {
    var a := Run(FILED, es);
    var i, t := a.interviews[id], if c.Date? then c.startsAt else a.interviews[id].startsAt;
    Reachable(es);
    DatesOnMinutes(FILED, es);
    assert t % 60 == 0 && ToMinute(t) == t;
    hide Run, Inv, PrintsOnly, FormWith, PrintedWith, OwnForm, Carries, OutOfScope, ToMinute, OnMinutes;
    ChangeCarries(i, c);
    FormPrints(a, id, FormWith(OwnForm(i, true), c), PrintedWith(i.printed, c), t, now);
  }
}
