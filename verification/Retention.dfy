/** What is due for deletion (app/modules/recruitment_retention.py): the cutoff test against the due date
    shown, and the walk over the dossiers. */
module Retention {
  import opened Wrappers
  import opened Calendar

  const RETENTION_MONTHS := 24
  const MAX_ITEMS := 500

  function Due(reference: Date): Option<Date> { MonthsBefore(reference, -RETENTION_MONTHS) }

  function Cutoff(today: Date): Option<Date> { MonthsBefore(today, RETENTION_MONTHS) }

  predicate LeapDay(d: Date) { d.month == 2 && d.day == 29 }

  /** Two years earlier or later by `years`, in the same month. */
  lemma SameMonthOtherYear(d: Date, years: int)
    requires Valid(d) && years in {2, -2}
    ensures var r := MonthsBefore(d, 12 * years);
            && (r.Some? <==> 1 <= d.year - years && (d.year - years < 9999 || (d.year - years == 9999 && d.month < 12)))
            && (r.Some? ==> r.value.year == d.year - years && r.value.month == d.month
                            && r.value.day == Min(d.day, LastDay(d.year - years, d.month)))
  {
    MonthsBeforeIs(d, 12 * years);
    hide MonthsBefore, LastDay;
    var r := MonthsBefore(d, 12 * years);
    if r.Some? { SameMonth(r.value, d.(year := d.year - years)); }
  }

  /** The only day that another year of the calendar may lack. */
  lemma ClampedDay(d: Date, year: int)
    requires Valid(d)
    ensures Min(d.day, LastDay(year, d.month)) == if LeapDay(d) && !Leap(year) then 28 else d.day
  {
    hide Leap;
  }

  lemma TwoYears(d: Date)
    requires Valid(d)
    ensures Cutoff(d).Some? <==> d.year >= 3
    ensures Due(d).Some? <==> d.year <= 9996 || (d.year == 9997 && d.month < 12)
    ensures Cutoff(d).Some? ==> Cutoff(d).value.year == d.year - 2 && Cutoff(d).value.month == d.month
    ensures Due(d).Some? ==> Due(d).value.year == d.year + 2 && Due(d).value.month == d.month
    ensures Cutoff(d).Some? ==> Cutoff(d).value.day == if LeapDay(d) && !Leap(d.year - 2) then 28 else d.day
    ensures Due(d).Some? ==> Due(d).value.day == if LeapDay(d) && !Leap(d.year + 2) then 28 else d.day
  {
    hide MonthsBefore, LastDay, Leap;
    SameMonthOtherYear(d, 2);
    SameMonthOtherYear(d, -2);
    ClampedDay(d, d.year - 2);
    ClampedDay(d, d.year + 2);
  }

  /** A dossier is listed exactly when its due date has come, but for a 29 February on its due date: it is
      listed one day later than shown. */
  lemma ListedWhenDue(reference: Date, today: Date)
    requires Valid(reference) && Valid(today) && Cutoff(today).Some? && Due(reference).Some?
    ensures Le(reference, Cutoff(today).value) <==>
              Le(Due(reference).value, today) && !(LeapDay(reference) && today == Due(reference).value)
  {
    TwoYears(reference);
    TwoYears(today);
    LeapIsRare(reference.year);
    hide Cutoff, Due, Leap;
  }

  lemma LeapIsRare(year: int)
    ensures Leap(year) ==> !Leap(year + 2) && !Leap(year - 2)
  {
  }

  /** What is listed is due, and what is not yet listed is due today at the earliest. */
  lemma ListedIsDue(reference: Date, today: Date)
    requires Valid(reference) && Valid(today) && Cutoff(today).Some? && Due(reference).Some?
    ensures Le(reference, Cutoff(today).value) ==> Le(Due(reference).value, today)
    ensures !Le(reference, Cutoff(today).value) ==> Le(today, Due(reference).value)
    ensures !Le(reference, Cutoff(today).value) && today == Due(reference).value ==> LeapDay(reference)
  {
    ListedWhenDue(reference, today);
  }

  lemma LeapDayListedLate()
    ensures Due(Date(2024, 2, 29)) == Some(Date(2026, 2, 28))
    ensures Cutoff(Date(2026, 2, 28)) == Some(Date(2024, 2, 28))
    ensures !Le(Date(2024, 2, 29), Date(2024, 2, 28))
  {
    TwoYears(Date(2024, 2, 29));
    TwoYears(Date(2026, 2, 28));
  }

  /** A listed dossier always has a due date to show, except in December 9999. */
  lemma ListedHasDue(reference: Date, today: Date)
    requires Valid(reference) && Valid(today) && Cutoff(today).Some? && Le(reference, Cutoff(today).value)
    requires !(today.year == 9999 && today.month == 12)
    ensures Due(reference).Some?
  {
    TwoYears(reference);
    TwoYears(today);
  }

  // ---- The dossiers ----

  datatype Employee = Employee(departed: bool, exits: seq<Option<Date>>)

  /** `declined`: the advice was unfavourable. `tracked`: an application of the candidate already says so. */
  datatype Dossier = Dossier(
    id: nat, hired: bool, employee: Option<Employee>, declined: bool, tracked: bool, advisedOn: Option<Date>)

  datatype Entry = Entry(id: nat, reference: Date, due: Date)

  /** The first recorded exit date. */
  function FirstDate(dates: seq<Option<Date>>): Option<Date> {
    if dates == [] then None else if dates[0].Some? then dates[0] else FirstDate(dates[1..])
  }

  datatype Reason = Retained | UndatedExit | UndatedAdvice | Departed(on: Date) | Declined(on: Date)

  function Classify(d: Dossier, cutoff: Date): Reason {
    if d.hired then
      if d.employee.None? || !d.employee.value.departed then Retained
      else
        var left := FirstDate(d.employee.value.exits);
        if left.None? then UndatedExit
        else if Le(left.value, cutoff) then Departed(left.value)
        else Retained
    else if d.declined && !d.tracked then
      if d.advisedOn.None? then UndatedAdvice
      else if Le(d.advisedOn.value, cutoff) then Declined(d.advisedOn.value)
      else Retained
    else Retained
  }

  predicate DueKnown(reason: Reason) { reason.Departed? || reason.Declined? ==> Due(reason.on).Some? }

  function DepartedOf(rows: seq<Dossier>, cutoff: Date): seq<Entry>
    requires forall k | 0 <= k < |rows| :: DueKnown(Classify(rows[k], cutoff))
  {
    if rows == [] then []
    else
      var n := |rows| - 1;
      var reason := Classify(rows[n], cutoff);
      assert DueKnown(reason);
      DepartedOf(rows[..n], cutoff)
      + if reason.Departed? then [Entry(rows[n].id, reason.on, Due(reason.on).value)] else []
  }

  function DeclinedOf(rows: seq<Dossier>, cutoff: Date): seq<Entry>
    requires forall k | 0 <= k < |rows| :: DueKnown(Classify(rows[k], cutoff))
  {
    if rows == [] then []
    else
      var n := |rows| - 1;
      var reason := Classify(rows[n], cutoff);
      assert DueKnown(reason);
      DeclinedOf(rows[..n], cutoff)
      + if reason.Declined? then [Entry(rows[n].id, reason.on, Due(reason.on).value)] else []
  }

  function UndatedOf(rows: seq<Dossier>, cutoff: Date): seq<nat> {
    if rows == [] then []
    else
      var n := |rows| - 1;
      UndatedOf(rows[..n], cutoff)
      + if Classify(rows[n], cutoff) in {UndatedExit, UndatedAdvice} then [rows[n].id] else []
  }

  function RetainedOf(rows: seq<Dossier>, cutoff: Date): seq<nat> {
    if rows == [] then []
    else
      var n := |rows| - 1;
      RetainedOf(rows[..n], cutoff) + if Classify(rows[n], cutoff).Retained? then [rows[n].id] else []
  }

  function First<T>(xs: seq<T>, limit: nat): seq<T> { if |xs| <= limit then xs else xs[..limit] }

  /** The walk over the dossiers; None when a due date cannot be built. */
  method Dossiers(rows: seq<Dossier>, cutoff: Date)
    returns (r: Option<(seq<Entry>, seq<Entry>, seq<nat>)>)
    ensures r.Some? <==> forall k | 0 <= k < |rows| :: DueKnown(Classify(rows[k], cutoff))
    ensures r.Some? ==> r.value.0 == First(DeclinedOf(rows, cutoff), 500)
    ensures r.Some? ==> r.value.1 == First(DepartedOf(rows, cutoff), 500)
    ensures r.Some? ==> r.value.2 == First(UndatedOf(rows, cutoff), 500)
  {
    var declined: seq<Entry>, departed: seq<Entry>, undated: seq<nat> := [], [], [];
    var k := 0;
    while k < |rows|
      invariant 0 <= k <= |rows|
      invariant forall j | 0 <= j < k :: DueKnown(Classify(rows[j], cutoff))
      invariant declined == DeclinedOf(rows[..k], cutoff) && departed == DepartedOf(rows[..k], cutoff)
      invariant undated == UndatedOf(rows[..k], cutoff)
    {
      var row := rows[k];
      assert rows[..k + 1][..k] == rows[..k];
      if row.hired {
        if row.employee.Some? && row.employee.value.departed {
          var left := FirstDate(row.employee.value.exits);
          if left.None? {
            undated := undated + [row.id];
          } else if Le(left.value, cutoff) {
            var due := Due(left.value);
            if due.None? { return None; }
            departed := departed + [Entry(row.id, left.value, due.value)];
          }
        }
      } else if row.declined && !row.tracked {
        if row.advisedOn.None? {
          undated := undated + [row.id];
        } else if Le(row.advisedOn.value, cutoff) {
          var due := Due(row.advisedOn.value);
          if due.None? { return None; }
          declined := declined + [Entry(row.id, row.advisedOn.value, due.value)];
        }
      }
      k := k + 1;
    }
    assert rows[..k] == rows;
    r := Some((First(declined, MAX_ITEMS), First(departed, MAX_ITEMS), First(undated, MAX_ITEMS)));
  }

  predicate ValidDates(d: Dossier) {
    && (d.advisedOn.Some? ==> Valid(d.advisedOn.value))
    && (d.employee.Some? ==> forall k | 0 <= k < |d.employee.value.exits| ::
          d.employee.value.exits[k].Some? ==> Valid(d.employee.value.exits[k].value))
  }

  lemma {:induction false} FirstDateValid(dates: seq<Option<Date>>)
    requires forall k | 0 <= k < |dates| :: dates[k].Some? ==> Valid(dates[k].value)
    ensures FirstDate(dates).Some? ==> Valid(FirstDate(dates).value)
  {
    if dates == [] {
    } else {
      FirstDateValid(dates[1..]);
    }
  }

  lemma ReasonIsDue(d: Dossier, today: Date)
    requires Valid(today) && Cutoff(today).Some? && !(today.year == 9999 && today.month == 12) && ValidDates(d)
    ensures DueKnown(Classify(d, Cutoff(today).value))
    ensures var reason := Classify(d, Cutoff(today).value);
            reason.Departed? || reason.Declined? ==> Valid(reason.on) && Le(Due(reason.on).value, today)
  {
    if d.employee.Some? { FirstDateValid(d.employee.value.exits); }
    var reason := Classify(d, Cutoff(today).value);
    if reason.Departed? || reason.Declined? {
      ListedHasDue(reason.on, today);
      ListedIsDue(reason.on, today);
    }
  }

  /** Before December 9999 the walk never fails, and everything it lists is due. */
  lemma {:induction false} EverythingListedIsDue(rows: seq<Dossier>, today: Date)
    requires Valid(today) && Cutoff(today).Some? && !(today.year == 9999 && today.month == 12)
    requires forall k | 0 <= k < |rows| :: ValidDates(rows[k])
    ensures forall k | 0 <= k < |rows| :: DueKnown(Classify(rows[k], Cutoff(today).value))
    ensures forall e <- DeclinedOf(rows, Cutoff(today).value) + DepartedOf(rows, Cutoff(today).value) ::
              Due(e.reference) == Some(e.due) && Le(e.due, today)
  {
    forall k | 0 <= k < |rows| ensures DueKnown(Classify(rows[k], Cutoff(today).value)) { ReasonIsDue(rows[k], today); }
    if rows == [] {
    } else {
      ReasonIsDue(rows[|rows| - 1], today);
      EverythingListedIsDue(rows[..|rows| - 1], today);
    }
  }

  /** Every dossier goes to exactly one place. */
  lemma {:induction false} NothingLost(rows: seq<Dossier>, cutoff: Date)
    requires forall k | 0 <= k < |rows| :: DueKnown(Classify(rows[k], cutoff))
    ensures |DeclinedOf(rows, cutoff)| + |DepartedOf(rows, cutoff)|
            + |UndatedOf(rows, cutoff)| + |RetainedOf(rows, cutoff)|
         == |rows|
  {
    if rows == [] {
    } else {
      NothingLost(rows[..|rows| - 1], cutoff);
    }
  }

  // ---- Who is listed ----

  /** The first exit date that is recorded. */
  predicate FirstRecorded(dates: seq<Option<Date>>, d: Date) {
    exists k :: 0 <= k < |dates| && dates[k] == Some(d) && forall j | 0 <= j < k :: dates[j].None?
  }

  lemma {:induction false} FirstDateIs(dates: seq<Option<Date>>)
    ensures FirstDate(dates).None? <==> forall k | 0 <= k < |dates| :: dates[k].None?
    ensures forall d :: FirstDate(dates) == Some(d) <==> FirstRecorded(dates, d)
  {
    if dates == [] {
    } else {
      FirstDateIs(dates[1..]);
      forall d ensures FirstDate(dates) == Some(d) <==> FirstRecorded(dates, d) {
        if k :| 0 <= k < |dates| && dates[k] == Some(d) && forall j | 0 <= j < k :: dates[j].None? {
          if k > 0 {
            assert dates[1..][k - 1] == Some(d);
            assert forall j | 0 <= j < k - 1 :: dates[1..][j] == dates[j + 1];
            assert FirstRecorded(dates[1..], d);
          }
        }
        if dates[0].None? && FirstRecorded(dates[1..], d) {
          var k :| 0 <= k < |dates[1..]| && dates[1..][k] == Some(d) && forall j | 0 <= j < k :: dates[1..][j].None?;
          assert dates[k + 1] == Some(d);
          assert forall j | 1 <= j < k + 1 :: dates[j] == dates[1..][j - 1];
        } else if dates[0] == Some(d) {
          assert FirstRecorded(dates, d);
        }
      }
    }
  }

  /** A person recruited, whose employee left. */
  predicate Left(d: Dossier) { d.hired && d.employee.Some? && d.employee.value.departed }

  /** A candidate with an unfavourable advice, not recruited and without an application that says so. */
  predicate TurnedDown(d: Dossier) { !d.hired && d.declined && !d.tracked }

  /** A dossier is classified by the first exit date of a person who left, or by the date of the advice, when it is
      not after the cutoff; as undated when that date is missing; and kept in every other case. */
  lemma ClassifiedExactly(d: Dossier, cutoff: Date)
    ensures forall on :: Classify(d, cutoff) == Departed(on)
                         <==> Left(d) && FirstRecorded(d.employee.value.exits, on) && Le(on, cutoff)
    ensures forall on :: Classify(d, cutoff) == Declined(on)
                         <==> TurnedDown(d) && d.advisedOn == Some(on) && Le(on, cutoff)
    ensures Classify(d, cutoff) == UndatedExit
       <==> Left(d) && forall k | 0 <= k < |d.employee.value.exits| :: d.employee.value.exits[k].None?
    ensures Classify(d, cutoff) == UndatedAdvice <==> TurnedDown(d) && d.advisedOn.None?
  {
    if d.employee.Some? { FirstDateIs(d.employee.value.exits); }
    hide FirstDate, FirstRecorded, Le;
  }

  /** The entry of a dossier in a list: its reference date and the day its two years are over. */
  lemma {:induction false} DepartedExactly(rows: seq<Dossier>, cutoff: Date, e: Entry)
    requires forall k | 0 <= k < |rows| :: DueKnown(Classify(rows[k], cutoff))
    ensures e in DepartedOf(rows, cutoff)
       <==> exists k :: 0 <= k < |rows| && rows[k].id == e.id && Classify(rows[k], cutoff) == Departed(e.reference)
                        && Due(e.reference) == Some(e.due)
  {
    hide Classify, Due;
    if rows == [] {
    } else {
      var n := |rows| - 1;
      DepartedExactly(rows[..n], cutoff, e);
      assert DueKnown(Classify(rows[n], cutoff));
      if k :| 0 <= k < |rows| && rows[k].id == e.id && Classify(rows[k], cutoff) == Departed(e.reference)
              && Due(e.reference) == Some(e.due) {
        assert k < n ==> rows[..n][k] == rows[k];
      }
      if e in DepartedOf(rows[..n], cutoff) {
        var k :| 0 <= k < n && rows[..n][k].id == e.id && Classify(rows[..n][k], cutoff) == Departed(e.reference)
                 && Due(e.reference) == Some(e.due);
        assert rows[k] == rows[..n][k];
      }
    }
  }

  lemma {:induction false} DeclinedExactly(rows: seq<Dossier>, cutoff: Date, e: Entry)
    requires forall k | 0 <= k < |rows| :: DueKnown(Classify(rows[k], cutoff))
    ensures e in DeclinedOf(rows, cutoff)
       <==> exists k :: 0 <= k < |rows| && rows[k].id == e.id && Classify(rows[k], cutoff) == Declined(e.reference)
                        && Due(e.reference) == Some(e.due)
  {
    hide Classify, Due;
    if rows == [] {
    } else {
      var n := |rows| - 1;
      DeclinedExactly(rows[..n], cutoff, e);
      assert DueKnown(Classify(rows[n], cutoff));
      if k :| 0 <= k < |rows| && rows[k].id == e.id && Classify(rows[k], cutoff) == Declined(e.reference)
              && Due(e.reference) == Some(e.due) {
        assert k < n ==> rows[..n][k] == rows[k];
      }
      if e in DeclinedOf(rows[..n], cutoff) {
        var k :| 0 <= k < n && rows[..n][k].id == e.id && Classify(rows[..n][k], cutoff) == Declined(e.reference)
                 && Due(e.reference) == Some(e.due);
        assert rows[k] == rows[..n][k];
      }
    }
  }

  lemma {:induction false} UndatedExactly(rows: seq<Dossier>, cutoff: Date, id: nat)
    ensures id in UndatedOf(rows, cutoff)
       <==> exists k :: 0 <= k < |rows| && rows[k].id == id && Classify(rows[k], cutoff) in {UndatedExit, UndatedAdvice}
  {
    hide Classify;
    if rows == [] {
    } else {
      var n := |rows| - 1;
      UndatedExactly(rows[..n], cutoff, id);
      if k :| 0 <= k < |rows| && rows[k].id == id && Classify(rows[k], cutoff) in {UndatedExit, UndatedAdvice} {
        assert k < n ==> rows[..n][k] == rows[k];
      }
      if id in UndatedOf(rows[..n], cutoff) {
        var k :| 0 <= k < n && rows[..n][k].id == id && Classify(rows[..n][k], cutoff) in {UndatedExit, UndatedAdvice};
        assert rows[k] == rows[..n][k];
      }
    }
  }

  predicate RowsAscend(rows: seq<Dossier>) { forall j, k | 0 <= j < k < |rows| :: rows[j].id < rows[k].id }

  predicate EntriesAscend(es: seq<Entry>) { forall j, k | 0 <= j < k < |es| :: es[j].id < es[k].id }

  predicate IdsAscend(ids: seq<nat>) { forall j, k | 0 <= j < k < |ids| :: ids[j] < ids[k] }

  /** The lists are in the order of the dossiers, each dossier once at most. */
  lemma {:induction false} ListsInOrder(rows: seq<Dossier>, cutoff: Date)
    requires (forall k | 0 <= k < |rows| :: DueKnown(Classify(rows[k], cutoff))) && RowsAscend(rows)
    ensures EntriesAscend(DepartedOf(rows, cutoff)) && EntriesAscend(DeclinedOf(rows, cutoff))
    ensures IdsAscend(UndatedOf(rows, cutoff))
  {
    hide Classify, Due;
    if rows == [] {
    } else {
      var n := |rows| - 1;
      ListsInOrder(rows[..n], cutoff);
      assert DueKnown(Classify(rows[n], cutoff));
      ListsAmong(rows[..n], cutoff, rows[n].id);
    }
  }

  lemma {:induction false} ListsAmong(rows: seq<Dossier>, cutoff: Date, bound: nat)
    requires forall k | 0 <= k < |rows| :: DueKnown(Classify(rows[k], cutoff)) && rows[k].id < bound
    ensures forall k | 0 <= k < |DepartedOf(rows, cutoff)| :: DepartedOf(rows, cutoff)[k].id < bound
    ensures forall k | 0 <= k < |DeclinedOf(rows, cutoff)| :: DeclinedOf(rows, cutoff)[k].id < bound
    ensures forall k | 0 <= k < |UndatedOf(rows, cutoff)| :: UndatedOf(rows, cutoff)[k] < bound
  {
    hide Classify, Due;
    if rows == [] {
    } else {
      var n := |rows| - 1;
      ListsAmong(rows[..n], cutoff, bound);
      assert DueKnown(Classify(rows[n], cutoff));
    }
  }
}
