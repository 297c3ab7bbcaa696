/**
 * The order calendar (`src/components/admin/CalendarView.tsx`): every fetched order
 * becomes one calendar event dated by its delivery date, else its creation time, else
 * the time of loading; selecting an event opens its details and closing clears them.
 *
 * The order total is held in cents, so `total.toFixed(2)` is the exact decimal text of
 * those cents.
 */
module CalendarView {
  import opened Types

  // ---------------------------------------------------------------------------
  // Decimal text of an amount
  // ---------------------------------------------------------------------------

  predicate IsDigit(c: char)
  {
    '0' <= c <= '9'
  }

  function DigitChar(d: nat): (c: char)
    requires d < 10
    ensures IsDigit(c)
  {
    ('0' as int + d) as char
  }

  function DigitValue(c: char): nat
    requires IsDigit(c)
  {
    c as int - '0' as int
  }

  /** The decimal text of `n`, without leading zeros. */
  function NatToDecimal(n: nat): (r: string)
    ensures |r| > 0
    ensures forall i :: 0 <= i < |r| ==> IsDigit(r[i])
    decreases n
  {
    if n < 10 then [DigitChar(n)] else NatToDecimal(n / 10) + [DigitChar(n % 10)]
  }

  /** The number a text of digits denotes. */
  function DecimalValue(s: string): nat
    requires forall i :: 0 <= i < |s| ==> IsDigit(s[i])
    decreases |s|
  {
    if s == [] then 0 else DecimalValue(s[..|s| - 1]) * 10 + DigitValue(s[|s| - 1])
  }

  lemma {:induction false} DecimalRoundTrip(n: nat)
    ensures DecimalValue(NatToDecimal(n)) == n
    decreases n
  {
    if n >= 10 {
      DecimalRoundTrip(n / 10);
      var s := NatToDecimal(n);
      assert s[..|s| - 1] == NatToDecimal(n / 10);
    }
  }

  /** `toFixed(2)` of an amount of `cents / 100`. */
  function FormatCents(cents: nat): (r: string)
    ensures |r| >= 4 && r[|r| - 3] == '.'
    ensures IsDigit(r[|r| - 2]) && IsDigit(r[|r| - 1])
    ensures forall i :: 0 <= i < |r| - 3 ==> IsDigit(r[i])
  {
    NatToDecimal(cents / 100) + "." + [DigitChar(cents % 100 / 10), DigitChar(cents % 10)]
  }

  /** Reads back the cents from a text of the form `digits.dd`. */
  function ParseCents(s: string): nat
    requires |s| >= 4 && s[|s| - 3] == '.'
    requires IsDigit(s[|s| - 2]) && IsDigit(s[|s| - 1])
    requires forall i :: 0 <= i < |s| - 3 ==> IsDigit(s[i])
  {
    DecimalValue(s[..|s| - 3]) * 100 + DigitValue(s[|s| - 2]) * 10 + DigitValue(s[|s| - 1])
  }

  /** The amount shown is exactly the order's total. */
  lemma FormatCentsRoundTrip(cents: nat)
    ensures ParseCents(FormatCents(cents)) == cents
  {
    var r := FormatCents(cents);
    assert r[..|r| - 3] == NatToDecimal(cents / 100);
    DecimalRoundTrip(cents / 100);
  }

  // ---------------------------------------------------------------------------
  // Events
  // ---------------------------------------------------------------------------

  /** The event date: the delivery date if set; else the creation time if its seconds
      are present and non-zero; else `now`, the time of loading. */
  function EventDate(o: Order, now: int): (d: int)
    ensures o.deliveryDate.Some? ==> d == o.deliveryDate.value
    ensures o.deliveryDate.None? && o.createdAt.Some? && o.createdAt.value.seconds != 0
            ==> d == o.createdAt.value.seconds * 1000
    ensures o.deliveryDate.None? && (o.createdAt.None? || o.createdAt.value.seconds == 0) ==> d == now
  {
    match o.deliveryDate
    case Some(day) => day
    case None =>
      if o.createdAt.Some? && o.createdAt.value.seconds != 0 then o.createdAt.value.seconds * 1000
      else now
  }

  /** `email - amount€ (status)` */
  function Title(o: Order): string
  {
    o.userEmail + " - " + FormatCents(o.total) + "€ (" + StatusName(o.status) + ")"
  }

  /** The title starts with the customer's email, shows the total and ends with the status
      in parentheses. */
  lemma TitleShowsOrder(o: Order)
    ensures var t, e, a, s := Title(o), |o.userEmail|, FormatCents(o.total), StatusName(o.status);
            |t| == e + 3 + |a| + 3 + |s| + 1
            && t[..e] == o.userEmail
            && ParseCents(t[e + 3..e + 3 + |a|]) == o.total
            && t[|t| - |s| - 2] == '('
            && t[|t| - |s| - 1..|t| - 1] == s
            && t[|t| - 1] == ')'
  {
    var t, e, a, s := Title(o), |o.userEmail|, FormatCents(o.total), StatusName(o.status);
    assert t == o.userEmail + " - " + a + "€ (" + s + ")";
    assert t[..e] == o.userEmail;
    assert t[e + 3..e + 3 + |a|] == a;
    assert t[|t| - |s| - 1..|t| - 1] == s;
    FormatCentsRoundTrip(o.total);
  }

  /** The event of one order. */
  function ToEvent(o: Order, now: int): (e: CalendarEvent)
    ensures e.id == o.id && e.orderId == Some(o.id) && e.eventType == OrderEvent
    ensures e.start == e.end == EventDate(o, now)
    ensures e.title == Title(o)
  {
    var d := EventDate(o, now);
    CalendarEvent(o.id, Title(o), d, d, Some(o.id), OrderEvent)
  }

  /** `orders.map(...)`: one event per order, in order. */
  function EventsFor(orders: seq<Order>, now: int): (events: seq<CalendarEvent>)
    ensures |events| == |orders|
    ensures forall i :: 0 <= i < |orders| ==> events[i] == ToEvent(orders[i], now)
  {
    seq(|orders|, i requires 0 <= i < |orders| => ToEvent(orders[i], now))
  }

  /** Every event is a single instant, belongs to its order and is an order event. */
  lemma EventsMatchOrders(orders: seq<Order>, now: int, i: nat)
    requires i < |orders|
    ensures var e := EventsFor(orders, now)[i];
            e.start == e.end && e.id == orders[i].id && e.orderId == Some(orders[i].id)
            && e.eventType == OrderEvent
  {
  }

  /** Events for a list built from two parts are the events of the parts, in order. */
  lemma {:induction false} EventsForAppend(a: seq<Order>, b: seq<Order>, now: int)
    ensures EventsFor(a + b, now) == EventsFor(a, now) + EventsFor(b, now)
  {
    var l, r := EventsFor(a + b, now), EventsFor(a, now) + EventsFor(b, now);
    assert |l| == |r|;
    forall i | 0 <= i < |l| ensures l[i] == r[i] {
      if i < |a| {
        assert (a + b)[i] == a[i];
      } else {
        assert (a + b)[i] == b[i - |a|];
      }
    }
  }

  // ---------------------------------------------------------------------------
  // Component state
  // ---------------------------------------------------------------------------

  datatype CalendarState = CalendarState(
    events: seq<CalendarEvent>,
    loading: bool,
    selected: Option<CalendarEvent>)

  const Initial: CalendarState := CalendarState([], true, None)

  /** The end of `loadOrders`: the events replace the list and loading stops. */
  function Loaded(st: CalendarState, orders: seq<Order>, now: int): (r: CalendarState)
    ensures r.events == EventsFor(orders, now) && !r.loading && r.selected == st.selected
  {
    st.(events := EventsFor(orders, now), loading := false)
  }

  /** On mount the calendar is empty, loading and shows no details; the first load then
      shows one event per fetched order and still no details. */
  lemma FirstLoad(orders: seq<Order>, now: int)
    ensures Initial.events == [] && Initial.loading && Initial.selected == None
    ensures var st := Loaded(Initial, orders, now);
            |st.events| == |orders| && st.events == EventsFor(orders, now)
            && !st.loading && st.selected == None
  {
  }

  /** `handleSelectEvent`: the details panel shows that event. */
  function SelectEvent(st: CalendarState, e: CalendarEvent): (r: CalendarState)
    ensures r.selected == Some(e) && r.events == st.events && r.loading == st.loading
  {
    st.(selected := Some(e))
  }

  /** The close button, or a click on the backdrop: nothing is selected. */
  function CloseDetails(st: CalendarState): (r: CalendarState)
    ensures r.selected == None && r.events == st.events && r.loading == st.loading
  {
    st.(selected := None)
  }

  /** Opening then closing the details returns to the state before the selection,
      whenever nothing was selected then. */
  lemma CloseUndoesSelect(st: CalendarState, e: CalendarEvent)
    requires st.selected == None
    ensures CloseDetails(SelectEvent(st, e)) == st
  {
  }
}
