/**
 * The staff vacation console (`src/components/admin/VacationManagement.tsx`): the
 * end-before-start check on submission, the list sorted by start date, the inclusive
 * day count, the past / current / upcoming classification, and form reset and delete.
 *
 * Dates are the milliseconds `new Date(text).getTime()` gives for a `YYYY-MM-DD` text,
 * i.e. UTC midnight at the start of that day; the `vacations` collection is the field `store`.
 */
module VacationManagement {
  import opened Types
  import opened Seqs
  import opened StableSort

  /** `1000 * 60 * 60 * 24` */
  const MsPerDay: int := 1000 * 60 * 60 * 24

  function Abs(x: int): nat
  {
    if x < 0 then -x else x
  }

  /** `Math.ceil(a / b)` for a non-negative `a` and positive `b`. */
  function CeilDiv(a: nat, b: nat): (q: nat)
    requires b > 0
    ensures (q - 1) * b < a <= q * b
  {
    (a + b - 1) / b
  }

  /** `getDuration`: the day count shown on a vacation card. */
  function Duration(start: int, end: int): (r: int)
    ensures r >= 1
    ensures (r - 2) * MsPerDay < Abs(end - start) <= (r - 1) * MsPerDay
  {
    CeilDiv(Abs(end - start), MsPerDay) + 1
  }

  /** The count ignores which date comes first; it is 1 exactly when the dates coincide. */
  lemma DurationSymmetric(start: int, end: int)
    ensures Duration(start, end) == Duration(end, start)
    ensures Duration(start, end) == 1 <==> start == end
  {
    assert Abs(end - start) == Abs(start - end);
  }

  /** For dates `d` whole days apart the count is `|d| + 1`: both ends are counted. */
  lemma DurationOfWholeDays(start: int, d: int)
    ensures Duration(start, start + d * MsPerDay) == Abs(d) + 1
  {
    assert Abs(d * MsPerDay) == Abs(d) * MsPerDay;
  }

  // ---------------------------------------------------------------------------
  // Past / current / upcoming
  // ---------------------------------------------------------------------------

  /** `new Date(endDate) < new Date()` */
  predicate IsPast(v: Vacation, now: int)
  {
    v.endDate < now
  }

  /** `new Date(startDate) > new Date()` */
  predicate IsUpcoming(v: Vacation, now: int)
  {
    v.startDate > now
  }

  predicate IsCurrent(v: Vacation, now: int)
  {
    !IsPast(v, now) && !IsUpcoming(v, now)
  }

  datatype Phase = Past | Current | Upcoming

  /** The card class `isPast ? 'past' : isCurrent ? 'current' : 'upcoming'`. For a vacation
      whose end is not before its start, exactly one of the three flags holds and the card
      class names it. */
  function CardPhase(v: Vacation, now: int): (r: Phase)
    ensures r == Past <==> IsPast(v, now)
    ensures r == Current <==> IsCurrent(v, now)
    ensures v.startDate <= v.endDate ==> (r == Upcoming <==> IsUpcoming(v, now))
    ensures v.startDate <= v.endDate ==> !(IsPast(v, now) && IsUpcoming(v, now))
  {
    if IsPast(v, now) then Past else if IsCurrent(v, now) then Current else Upcoming
  }

  /** As written, a vacation counts as past from UTC midnight at the start of its end
      date, so during the last day that `Duration` counts, the card already says "past":
      for every vacation of whole days and every moment of that last day. */
  lemma LastDayShownAsPast(v: Vacation, now: int, d: nat)
    requires v.endDate == v.startDate + d * MsPerDay
    requires v.endDate < now < v.endDate + MsPerDay
    ensures Duration(v.startDate, v.endDate) == d + 1
    ensures v.startDate <= now < v.startDate + Duration(v.startDate, v.endDate) * MsPerDay
    ensures CardPhase(v, now) == Past
  {
    DurationOfWholeDays(v.startDate, d);
    assert (d + 1) * MsPerDay == d * MsPerDay + MsPerDay;
  }

  /** Past once the whole end day is over. */
  predicate IsPastInclusive(v: Vacation, now: int)
  {
    v.endDate + MsPerDay <= now
  }

  /** The classification with the end date counted inclusively, as `Duration` counts it. */
  function CardPhaseInclusive(v: Vacation, now: int): (r: Phase)
    ensures r == Past <==> IsPastInclusive(v, now)
    ensures r == Upcoming <==> !IsPastInclusive(v, now) && IsUpcoming(v, now)
    ensures v.startDate <= v.endDate ==> (r == Current <==> v.startDate <= now < v.endDate + MsPerDay)
  {
    if IsPastInclusive(v, now) then Past
    else if IsUpcoming(v, now) then Upcoming
    else Current
  }

  /** With the inclusive end, a vacation is current exactly during the `Duration` days
      that start at its start date. */
  lemma CurrentExactlyDuringDuration(v: Vacation, now: int, d: nat)
    requires v.endDate == v.startDate + d * MsPerDay
    ensures CardPhaseInclusive(v, now) == Current
        <==> v.startDate <= now < v.startDate + Duration(v.startDate, v.endDate) * MsPerDay
  {
    DurationOfWholeDays(v.startDate, d);
    assert (d + 1) * MsPerDay == d * MsPerDay + MsPerDay;
  }

  // ---------------------------------------------------------------------------
  // Loading order
  // ---------------------------------------------------------------------------

  function StartKey(v: Vacation): int
  {
    v.startDate
  }

  /** The loaded list: a permutation of the fetched list in ascending start date. */
  function EarliestFirst(fetched: seq<Vacation>): (r: seq<Vacation>)
    ensures multiset(r) == multiset(fetched)
    ensures forall i, j :: 0 <= i < j < |r| ==> r[i].startDate <= r[j].startDate
  {
    InsertionSortPermutes(fetched, StartKey);
    InsertionSortSorted(fetched, StartKey);
    InsertionSort(fetched, StartKey)
  }

  function StartsOn(t: int): Vacation -> bool
  {
    (v: Vacation) => v.startDate == t
  }

  /** Vacations with the same start date keep their fetch order. */
  lemma EarliestFirstKeepsTies(fetched: seq<Vacation>, t: int)
    ensures Seqs.Filter(EarliestFirst(fetched), StartsOn(t)) == Seqs.Filter(fetched, StartsOn(t))
  {
    InsertionSortStable(fetched, StartKey, t);
    forall v: Vacation ensures StartsOn(t)(v) == HasKey(StartKey, t)(v) {
      assert StartsOn(t)(v) == (v.startDate == t);
      assert HasKey(StartKey, t)(v) == (StartKey(v) == t);
    }
    FilterCongruent(EarliestFirst(fetched), StartsOn(t), HasKey(StartKey, t));
    FilterCongruent(fetched, StartsOn(t), HasKey(StartKey, t));
  }

  // ---------------------------------------------------------------------------
  // The form
  // ---------------------------------------------------------------------------

  /** The form fields; a date field is None while its input is the empty text. */
  datatype VacationForm = VacationForm(startDate: Option<int>, endDate: Option<int>, reason: string)

  const EmptyForm: VacationForm := VacationForm(None, None, "")

  /** The submission check `new Date(endDate) < new Date(startDate)` rejects. */
  predicate EndsBeforeStart(form: VacationForm)
    requires form.startDate.Some? && form.endDate.Some?
  {
    form.endDate.value < form.startDate.value
  }

  /** The document `handleSubmit` writes. */
  function NewVacation(form: VacationForm, id: string, createdAt: Timestamp): (v: Vacation)
    requires form.startDate.Some? && form.endDate.Some?
    requires !EndsBeforeStart(form)
    ensures v.startDate == form.startDate.value && v.endDate == form.endDate.value
    ensures v.startDate <= v.endDate
    ensures v.id == id && v.reason == form.reason && v.createdAt == createdAt
  {
    Vacation(id, form.startDate.value, form.endDate.value, form.reason, createdAt)
  }

  /** A single-day vacation (end date equal to start date) is accepted: the check is strict. */
  lemma SameDayAccepted(day: int, reason: string)
    ensures !EndsBeforeStart(VacationForm(Some(day), Some(day), reason))
    ensures Duration(day, day) == 1
  {
  }

  /** The component state and the `vacations` collection it reads and writes. */
  class VacationManagement {
    var store: seq<Vacation>
    var vacations: seq<Vacation>
    var loading: bool
    var showForm: bool
    var form: VacationForm

    /** Document ids are unique within the collection. */
    ghost predicate Valid()
      reads this
    {
      DistinctBy(store, VacationId)
    }

    constructor (remote: seq<Vacation>)
      requires DistinctBy(remote, VacationId)
      ensures Valid()
      ensures store == remote && vacations == [] && loading && !showForm && form == EmptyForm
    {
      store := remote;
      vacations := [];
      loading := true;
      showForm := false;
      form := EmptyForm;
    }

    /** `loadVacations`: fetch, sort in place by start date, replace the list. */
    method LoadVacations()
      requires Valid()
      modifies this
      ensures Valid()
      ensures vacations == EarliestFirst(store) && !loading
      ensures store == old(store) && showForm == old(showForm) && form == old(form)
    {
      var fetched := store;
      var a := new Vacation[|fetched|](i requires 0 <= i < |fetched| => fetched[i]);
      assert a[..] == fetched;
      SortInPlace(a, StartKey);
      vacations := a[..];
      loading := false;
    }

    /** The header button `setShowForm(!showForm)`. */
    method ToggleForm()
      modifies this
      ensures showForm == !old(showForm)
      ensures store == old(store) && vacations == old(vacations) && form == old(form) && loading == old(loading)
    {
      showForm := !showForm;
    }

    /** `resetForm`: all three fields back to the empty text, form hidden. */
    method ResetForm()
      modifies this
      ensures form == EmptyForm && !showForm
      ensures store == old(store) && vacations == old(vacations) && loading == old(loading)
    {
      form := EmptyForm;
      showForm := false;
    }

    /** `handleSubmit`. Both date inputs are `required`, so the browser submits only with
        both filled. An end before the start is rejected and nothing changes; otherwise the
        vacation is written (the collection decides where it appears in a fetch, `at`), the
        form is reset and the list reloaded. */
    method HandleSubmit(newId: string, serverTime: Timestamp, at: nat) returns (accepted: bool)
      requires Valid()
      requires form.startDate.Some? && form.endDate.Some?
      requires !HasKeyValue(store, VacationId, newId) && at <= |store|
      modifies this
      ensures Valid()
      ensures accepted == !EndsBeforeStart(old(form))
      ensures !accepted ==>
        store == old(store) && vacations == old(vacations) && form == old(form) && showForm == old(showForm)
        && loading == old(loading)
      ensures accepted ==>
        store == old(store)[..at] + [NewVacation(old(form), newId, serverTime)] + old(store)[at..]
        && form == EmptyForm && !showForm && vacations == EarliestFirst(store) && !loading
    {
      if EndsBeforeStart(form) {
        return false;
      }
      var v := NewVacation(form, newId, serverTime);
      InsertFreshDistinct(store, VacationId, v, at);
      store := store[..at] + [v] + store[at..];
      ResetForm();
      LoadVacations();
      accepted := true;
    }

    /** `deleteVacation`: declining the confirmation changes nothing; otherwise the
        vacation with that id is removed and the list reloaded. */
    method DeleteVacation(id: string, confirmed: bool)
      requires Valid()
      modifies this
      ensures Valid()
      ensures !confirmed ==> store == old(store) && vacations == old(vacations) && loading == old(loading)
      ensures confirmed ==>
        store == Seqs.Filter(old(store), KeyIsNot(VacationId, id)) && vacations == EarliestFirst(store) && !loading
      ensures form == old(form) && showForm == old(showForm)
    {
      if !confirmed {
        return;
      }
      FilterDistinct(store, KeyIsNot(VacationId, id), VacationId);
      store := Seqs.Filter(store, KeyIsNot(VacationId, id));
      LoadVacations();
    }
  }
}
