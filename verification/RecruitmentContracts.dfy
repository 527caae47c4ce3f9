/** The life of a contract (app/modules/recruitment_engage_staff.py): prepared, remitted, signed on a date, and
    shared with the candidate; what each request does, and what a whole run of them leaves. */
module RecruitmentContracts {
  import opened Wrappers
  import opened RecruitmentModel
  import opened RecruitmentInvariants
  import opened RecruitmentRuns

  // ---- One request ----

  predicate IsSigned(a: Application) { a.contract.Some? && a.contract.value.state == Signed }

  predicate HasFavorable(a: Application) { a.outcome == Favorable && a.communicatedAt.Some? }

  /** A contract request is accepted exactly when there is a contract, a signed one is only signed again, and a
      signature bears a date, today at the latest. */
  lemma ContractAccepted(a: Application, e: Event)
    requires e.ContractEvent?
    ensures Do(a, e).1.Ok?
       <==> && a.contract.Some? && (IsSigned(a) ==> e.state == Signed)
            && (e.state == Signed ==> e.signedOn.Some? && e.signedOn.value <= e.today)
    ensures Do(a, e).1.Err? ==> Do(a, e).0 == a
  {
  }

  predicate Behind(s: ContractState, t: ContractState) {
    (s == Prepared && t != Prepared) || (s == Remitted && t == Signed)
  }

  /** An accepted request puts the contract in the state asked for, unless it is behind the present one. The
      first signature writes its date and moves the application to its stage; the first remittance writes its
      moment; the sharing changes when sent; nothing else changes. */
  lemma ContractMoves(a: Application, e: Event)
    requires e.ContractEvent? && Do(a, e).1.Ok?
    ensures var b := Do(a, e).0;
            var c, d := a.contract.value, b.contract.value;
            var signing := e.state == Signed && c.state != Signed;
            && b.contract.Some?
            && d.state == (if Behind(e.state, c.state) then c.state else e.state)
            && d.signedOn == (if signing then e.signedOn else c.signedOn)
            && d.remittedAt == (if e.state == Remitted && c.state == Prepared then Some(e.now) else c.remittedAt)
            && d.shared == (if e.share.Some? then e.share.value else c.shared) && d.terms == c.terms
            && b == a.(contract := b.contract, stage := if signing then Signature else a.stage)
  {
  }

  /** A contract is prepared exactly after a favourable decision told to the candidate, for a society, with
      consistent dates, and while it is not signed. */
  lemma PrepareAccepted(a: Application, e: Event)
    requires e.PrepareEvent?
    ensures Do(a, e).1.Ok? <==> HasFavorable(a) && e.placed && e.consistent && !IsSigned(a)
    ensures Do(a, e).1.Err? ==> Do(a, e).0 == a
  {
  }

  /** Preparing writes the terms: on the contract there is, which keeps its state, dates and sharing, or on a new
      one, neither remitted, signed nor shared. The stage is raised to the contract. */
  lemma PrepareMoves(a: Application, e: Event)
    requires e.PrepareEvent? && Do(a, e).1.Ok?
    ensures var b := Do(a, e).0;
            && b.contract == Some(if a.contract.Some? then a.contract.value.(terms := e.terms)
                                  else Contract(Prepared, e.terms, None, None, false))
            && b.stage == (if a.stage in {ContractStage, Signature, Hired} then a.stage else ContractStage)
            && b == a.(contract := b.contract, stage := b.stage)
  {
  }

  // ---- Whole runs ----

  /** The step signs the contract for the first time. */
  predicate Signs(a: Application, e: Event) {
    && e.ContractEvent? && e.state == Signed && a.contract.Some? && !IsSigned(a)
    && e.signedOn.Some? && e.signedOn.value <= e.today
  }

  /** The step remits a contract that was only prepared. */
  predicate Remits(a: Application, e: Event) {
    e.ContractEvent? && e.state == Remitted && a.contract.Some? && a.contract.value.state == Prepared
  }

  /** The step writes the terms. */
  predicate Prepares(a: Application, e: Event) {
    e.PrepareEvent? && HasFavorable(a) && e.placed && e.consistent && !IsSigned(a)
  }

  /** The dates of the signatures of a run, in order. */
  function Signatures(a: Application, es: seq<Event>): seq<Day>
    decreases |es|
  {
    if es == [] then []
    else (if Signs(a, es[0]) then [es[0].signedOn.value] else []) + Signatures(Do(a, es[0]).0, es[1..])
  }

  function Remittances(a: Application, es: seq<Event>): seq<Time>
    decreases |es|
  {
    if es == [] then []
    else (if Remits(a, es[0]) then [es[0].now] else []) + Remittances(Do(a, es[0]).0, es[1..])
  }

  /** The terms written in a run, in order. */
  function TermsWritten(a: Application, es: seq<Event>): seq<string>
    decreases |es|
  {
    if es == [] then []
    else (if Prepares(a, es[0]) then [es[0].terms] else []) + TermsWritten(Do(a, es[0]).0, es[1..])
  }

  /** The contract says what was signed, remitted and written so far. */
  predicate Tells(a: Application, signed: seq<Day>, remitted: seq<Time>, terms: seq<string>) {
    && (a.contract.Some? <==> terms != [])
    && (a.contract.None? ==> signed == [] && remitted == [])
    && |signed| <= 1 && |remitted| <= 1
    && (a.contract.Some? ==>
          var c := a.contract.value;
          && c.terms == terms[|terms| - 1]
          && (c.state == Signed <==> signed != []) && (c.state == Remitted <==> signed == [] && remitted != [])
          && c.signedOn == (if signed == [] then None else Some(signed[0]))
          && c.remittedAt == (if remitted == [] then None else Some(remitted[0])))
  }

  lemma OtherContracts(a: Application, e: Event)
    requires !e.ContractEvent? && !e.PrepareEvent?
    ensures Do(a, e).0.contract == a.contract
  {
    if FileEvent(e) {
      hide CancelVersions, WithdrawInterviews;
    } else {
      InterviewEvents(a, e);
    }
  }

  lemma TellsStep(a: Application, e: Event, signed: seq<Day>, remitted: seq<Time>, terms: seq<string>)
    requires Tells(a, signed, remitted, terms)
    ensures Tells(Do(a, e).0, signed + if Signs(a, e) then [e.signedOn.value] else [],
                  remitted + if Remits(a, e) then [e.now] else [],
                  terms + if Prepares(a, e) then [e.terms] else [])
  {
    match e {
      case ContractEvent(_, _, _, _, _) =>
        ContractAccepted(a, e);
        if Do(a, e).1.Ok? { ContractMoves(a, e); }
        hide Do;
      case PrepareEvent(_, _, _) =>
        PrepareAccepted(a, e);
        if Do(a, e).1.Ok? { PrepareMoves(a, e); }
        hide Do;
      case _ =>
        OtherContracts(a, e);
        hide Do;
    }
  }

  lemma Regroup<T>(xs: seq<T>, ys: seq<T>, zs: seq<T>)
    ensures xs + ys + zs == xs + (ys + zs)
  {
  }

  lemma {:induction false} TellsRun(a: Application, es: seq<Event>, signed: seq<Day>, remitted: seq<Time>,
                                    terms: seq<string>)
    requires Tells(a, signed, remitted, terms)
    ensures Tells(Run(a, es), signed + Signatures(a, es), remitted + Remittances(a, es), terms + TermsWritten(a, es))
    decreases |es|
  {
    if es == [] {
      assert signed + [] == signed && remitted + [] == remitted && terms + [] == terms;
    } else {
      var e, b := es[0], Do(a, es[0]).0;
      var s := if Signs(a, e) then [e.signedOn.value] else [];
      var r := if Remits(a, e) then [e.now] else [];
      var t := if Prepares(a, e) then [e.terms] else [];
      TellsStep(a, e, signed, remitted, terms);
      hide Do, Tells, Signs, Remits, Prepares;
      TellsRun(b, es[1..], signed + s, remitted + r, terms + t);
      Regroup(signed, s, Signatures(b, es[1..]));
      Regroup(remitted, r, Remittances(b, es[1..]));
      Regroup(terms, t, TermsWritten(b, es[1..]));
    }
  }

  /** In every run from filing: a contract exists exactly when terms were written, and holds the last ones; it is
      signed exactly when a signature was accepted, on the date of that one; it is remitted exactly when it was
      remitted and not signed; each happens once at most. */
  lemma ContractTells(es: seq<Event>)
    ensures var a := Run(FILED, es);
            var signed, remitted, terms := Signatures(FILED, es), Remittances(FILED, es), TermsWritten(FILED, es);
            && |signed| <= 1 && |remitted| <= 1 && (a.contract.Some? <==> terms != [])
            && (IsSigned(a) <==> signed != [])
            && (a.contract.Some? ==>
                  var c := a.contract.value;
                  && c.terms == terms[|terms| - 1]
                  && (c.state == Remitted <==> signed == [] && remitted != [])
                  && c.signedOn == (if signed == [] then None else Some(signed[0]))
                  && c.remittedAt == (if remitted == [] then None else Some(remitted[0])))
  {
    TellsRun(FILED, es, [], [], []);
    assert [] + Signatures(FILED, es) == Signatures(FILED, es);
    assert [] + Remittances(FILED, es) == Remittances(FILED, es);
    assert [] + TermsWritten(FILED, es) == TermsWritten(FILED, es);
    hide Run, Signatures, Remittances, TermsWritten;
  }
}
