/**
 * The staff order console (`src/components/admin/OrderManagement.tsx`): the loaded order
 * list sorted newest first, the status filter and its counts, the forward-only status
 * actions, and targeted status update and delete against the `orders` collection.
 *
 * The remote collection is the field `store`, in the order a full fetch returns it.
 */
module OrderManagement {
  import opened Types
  import opened Seqs
  import opened StableSort

  // ---------------------------------------------------------------------------
  // Status lifecycle
  // ---------------------------------------------------------------------------

  /** Position of a status along pending → confirmed → ready → completed. */
  function Rank(s: Status): int
  {
    match s
    case Pending => 0
    case Confirmed => 1
    case Ready => 2
    case Completed => 3
    case Cancelled => -1
  }

  /** The status an order's advance button writes, if the order has such a button. */
  function NextAction(s: Status): (r: Option<Status>)
    ensures r.Some? <==> s == Pending || s == Confirmed || s == Ready
    ensures r.Some? ==> r.value != Cancelled && r.value != Pending
    ensures r.Some? ==> Rank(r.value) == Rank(s) + 1
  {
    match s
    case Pending => Some(Confirmed)
    case Confirmed => Some(Ready)
    case Ready => Some(Completed)
    case Completed => None
    case Cancelled => None
  }

  /** The status reached by pressing the offered action `n` times, or None when it runs out. */
  function Run(s: Status, n: nat): Option<Status>
    decreases n
  {
    if n == 0 then Some(s)
    else match NextAction(s)
      case None => None
      case Some(t) => Run(t, n - 1)
  }

  /** Each press moves exactly one step forward, so `n` presses move `n` steps. */
  lemma {:induction false} RunAdvancesRank(s: Status, n: nat, t: Status)
    requires Run(s, n) == Some(t)
    ensures Rank(t) == Rank(s) + n
    ensures n > 0 ==> t != Cancelled && t != Pending
    decreases n
  {
    if n > 0 {
      var u := NextAction(s).value;
      if n > 1 {
        RunAdvancesRank(u, n - 1, t);
      }
    }
  }

  /** No sequence of offered actions ever produces `cancelled`. */
  lemma NeverCancelled(s: Status, n: nat)
    requires n > 0
    ensures Run(s, n) != Some(Cancelled)
  {
    if Run(s, n).Some? {
      RunAdvancesRank(s, n, Run(s, n).value);
    }
  }

  /** From pending, the actions pass through confirmed and ready and reach completed in
      exactly three presses; no other number of presses reaches completed. */
  lemma PendingToCompleted(n: nat)
    ensures Run(Pending, 1) == Some(Confirmed)
    ensures Run(Pending, 2) == Some(Ready)
    ensures Run(Pending, 3) == Some(Completed)
    ensures Run(Pending, n) == Some(Completed) <==> n == 3
  {
    assert Run(Completed, 0) == Some(Completed);
    assert Run(Ready, 1) == Some(Completed);
    assert Run(Confirmed, 2) == Some(Completed);
    if Run(Pending, n) == Some(Completed) {
      RunAdvancesRank(Pending, n, Completed);
    }
  }

  /** `getStatusColor`: the badge colour of each status, as a `#rrggbb` text. */
  function StatusColor(s: Status): (r: string)
    ensures |r| == 7 && r[0] == '#'
    ensures forall i :: 1 <= i < 7 ==> r[i] in "0123456789abcdef"
  {
    match s
    case Pending => "#f59e0b"
    case Confirmed => "#3b82f6"
    case Ready => "#8b5cf6"
    case Completed => "#10b981"
    case Cancelled => "#ef4444"
  }

  /** Every status has its own colour. */
  lemma StatusColorsDistinct(s: Status, t: Status)
    ensures StatusColor(s) == StatusColor(t) ==> s == t
  {
    if StatusColor(s) == StatusColor(t) {
      assert StatusColor(s)[1] == StatusColor(t)[1];
      assert StatusColor(s)[2] == StatusColor(t)[2];
    }
  }

  // ---------------------------------------------------------------------------
  // Filter and counts
  // ---------------------------------------------------------------------------

  datatype Filter = All | Only(status: Status)

  /** The filter state admits 'all' and the four non-cancelled statuses. */
  type OrderFilter = f: Filter | f != Only(Cancelled) witness All

  function HasStatus(s: Status): Order -> bool
  {
    (o: Order) => o.status == s
  }

  /** `filteredOrders`: the whole list for 'all', otherwise the orders of that status. */
  function FilterOrders(orders: seq<Order>, f: OrderFilter): (r: seq<Order>)
    ensures f == All ==> r == orders
    ensures forall i :: 0 <= i < |r| ==> r[i] in orders && (f.Only? ==> r[i].status == f.status)
  {
    if f == All then orders else Seqs.Filter(orders, HasStatus(f.status))
  }

  /** A status filter keeps exactly the orders of that status, each as often as fetched,
      in their original relative order; cancelled orders appear only under 'all'. */
  lemma FilterOrdersExact(orders: seq<Order>, f: OrderFilter, o: Order)
    requires f.Only?
    ensures IsSubsequence(FilterOrders(orders, f), orders)
    ensures o in FilterOrders(orders, f) <==> o in orders && o.status == f.status
    ensures multiset(FilterOrders(orders, f))[o] == if o.status == f.status then multiset(orders)[o] else 0
    ensures o.status == Cancelled ==> o !in FilterOrders(orders, f)
  {
    FilterIsSubsequence(orders, HasStatus(f.status));
    FilterMembership(orders, HasStatus(f.status), o);
    FilterMultiset(orders, HasStatus(f.status), o);
  }

  /** Number of orders with status `s`. */
  function StatusCount(orders: seq<Order>, s: Status): nat
  {
    |Seqs.Filter(orders, HasStatus(s))|
  }

  /** The number shown on a filter button. */
  function ButtonCount(orders: seq<Order>, f: OrderFilter): (r: nat)
    ensures r == |FilterOrders(orders, f)|
    ensures r <= |orders|
  {
    if f == All then |orders| else StatusCount(orders, f.status)
  }

  /** The five statuses partition the orders: the four status buttons plus the cancelled
      orders add up to the 'all' button. */
  lemma {:induction false} CountsPartition(orders: seq<Order>)
    ensures ButtonCount(orders, Only(Pending)) + ButtonCount(orders, Only(Confirmed))
          + ButtonCount(orders, Only(Ready)) + ButtonCount(orders, Only(Completed))
          + StatusCount(orders, Cancelled) == ButtonCount(orders, All)
    decreases |orders|
  {
    if orders != [] {
      CountsPartition(orders[1..]);
    }
  }

  // ---------------------------------------------------------------------------
  // Loading order
  // ---------------------------------------------------------------------------

  /** `createdAt?.seconds || 0`: a missing timestamp counts as time 0. */
  function CreatedSeconds(o: Order): int
  {
    match o.createdAt
    case None => 0
    case Some(t) => t.seconds
  }

  /** The comparator `timeB - timeA` sorts ascending on the negated time. */
  function NewestFirstKey(o: Order): int
  {
    -CreatedSeconds(o)
  }

  /** The loaded list: a permutation of the fetched list in descending `createdAt.seconds`. */
  function NewestFirst(fetched: seq<Order>): (r: seq<Order>)
    ensures multiset(r) == multiset(fetched)
    ensures forall i, j :: 0 <= i < j < |r| ==> CreatedSeconds(r[i]) >= CreatedSeconds(r[j])
  {
    InsertionSortPermutes(fetched, NewestFirstKey);
    InsertionSortSorted(fetched, NewestFirstKey);
    InsertionSort(fetched, NewestFirstKey)
  }

  function CreatedAtSecond(t: int): Order -> bool
  {
    (o: Order) => CreatedSeconds(o) == t
  }

  /** Orders with the same time (including all orders without one) keep their fetch order. */
  lemma NewestFirstKeepsTies(fetched: seq<Order>, t: int)
    ensures Seqs.Filter(NewestFirst(fetched), CreatedAtSecond(t)) == Seqs.Filter(fetched, CreatedAtSecond(t))
  {
    var r := NewestFirst(fetched);
    InsertionSortStable(fetched, NewestFirstKey, -t);
    forall o: Order ensures CreatedAtSecond(t)(o) == HasKey(NewestFirstKey, -t)(o) {
      assert CreatedAtSecond(t)(o) == (CreatedSeconds(o) == t);
      assert HasKey(NewestFirstKey, -t)(o) == (NewestFirstKey(o) == -t);
    }
    FilterCongruent(r, CreatedAtSecond(t), HasKey(NewestFirstKey, -t));
    FilterCongruent(fetched, CreatedAtSecond(t), HasKey(NewestFirstKey, -t));
  }

  // ---------------------------------------------------------------------------
  // The `orders` collection: targeted update and delete
  // ---------------------------------------------------------------------------

  predicate HasId(store: seq<Order>, id: string)
  {
    HasKeyValue(store, OrderId, id)
  }

  /** `updateDoc(orders/id, { status, updatedAt })` applied to the collection. */
  function SetStatus(store: seq<Order>, id: string, status: Status, now: int): (r: seq<Order>)
    ensures |r| == |store|
    ensures forall i :: 0 <= i < |r| ==>
      r[i] == store[i].(status := r[i].status, updatedAt := r[i].updatedAt)
    ensures forall i :: 0 <= i < |r| && store[i].id == id ==>
      r[i].status == status && r[i].updatedAt == Some(now)
    ensures forall i :: 0 <= i < |r| && store[i].id != id ==> r[i] == store[i]
  {
    seq(|store|, i requires 0 <= i < |store| =>
      if store[i].id == id then store[i].(status := status, updatedAt := Some(now)) else store[i])
  }

  /** `deleteDoc(orders/id)` applied to the collection. */
  function RemoveOrder(store: seq<Order>, id: string): (r: seq<Order>)
    ensures forall i :: 0 <= i < |r| ==> r[i].id != id && r[i] in store
  {
    Seqs.Filter(store, KeyIsNot(OrderId, id))
  }

  /** Deleting removes exactly the order with that id: every other order stays, in order,
      and the collection shrinks by one exactly when the id was present. */
  lemma RemoveOrderExact(store: seq<Order>, id: string)
    requires DistinctBy(store, OrderId)
    ensures IsSubsequence(RemoveOrder(store, id), store)
    ensures forall o :: o in store && o.id != id ==> o in RemoveOrder(store, id)
    ensures |RemoveOrder(store, id)| == |store| - if HasId(store, id) then 1 else 0
  {
    RemoveKeyExact(store, OrderId, id);
  }

  /** The component state and the `orders` collection it reads and writes. */
  class OrderManagement {
    var store: seq<Order>
    var orders: seq<Order>
    var loading: bool
    var filter: OrderFilter

    /** Document ids are unique within the collection. */
    ghost predicate Valid()
      reads this
    {
      DistinctBy(store, OrderId)
    }

    /** Mount: empty list, loading, filter 'all'. */
    constructor (remote: seq<Order>)
      requires DistinctBy(remote, OrderId)
      ensures Valid()
      ensures store == remote && orders == [] && loading && filter == All
    {
      store := remote;
      orders := [];
      loading := true;
      filter := All;
    }

    /** `loadOrders`: fetch, sort in place newest first, replace the list. */
    method LoadOrders()
      requires Valid()
      modifies this
      ensures Valid()
      ensures orders == NewestFirst(store) && !loading
      ensures store == old(store) && filter == old(filter)
    {
      var fetched := store;
      var a := new Order[|fetched|](i requires 0 <= i < |fetched| => fetched[i]);
      assert a[..] == fetched;
      SortInPlace(a, NewestFirstKey);
      orders := a[..];
      loading := false;
    }

    /** The list shown under the current filter: the loaded list under 'all', otherwise
        exactly the loaded orders of the chosen status, never a cancelled one. */
    function FilteredOrders(): (r: seq<Order>)
      reads this
      ensures filter == All ==> r == orders
      ensures filter.Only? ==> forall o :: o in r <==> o in orders && o.status == filter.status
      ensures filter.Only? ==> forall o :: o in r ==> o.status != Cancelled
    {
      assert filter.Only? ==> forall o :: o in FilterOrders(orders, filter) <==> o in orders && o.status == filter.status by {
        if filter.Only? {
          forall o
            ensures o in FilterOrders(orders, filter) <==> o in orders && o.status == filter.status
          {
            FilterOrdersExact(orders, filter, o);
          }
        }
      }
      FilterOrders(orders, filter)
    }

    method SetFilter(f: OrderFilter)
      modifies this
      ensures filter == f
      ensures store == old(store) && orders == old(orders) && loading == old(loading)
    {
      filter := f;
    }

    /** `updateOrderStatus`: writes `status` and `updatedAt` of that order only, then
        reloads; an unknown id makes the write fail and nothing changes. */
    method UpdateOrderStatus(orderId: string, status: Status, now: int)
      requires Valid()
      modifies this
      ensures Valid()
      ensures HasId(old(store), orderId) ==>
        store == SetStatus(old(store), orderId, status, now) && orders == NewestFirst(store) && !loading
      ensures !HasId(old(store), orderId) ==>
        store == old(store) && orders == old(orders) && loading == old(loading)
      ensures filter == old(filter)
    {
      if HasId(store, orderId) {
        var updated := SetStatus(store, orderId, status, now);
        assert forall i :: 0 <= i < |store| ==> updated[i].id == store[i].id;
        store := updated;
        LoadOrders();
      }
    }

    /** The advance button on a displayed order: present only for pending, confirmed
        and ready orders, and it never writes `cancelled`. */
    method AdvanceOrder(order: Order, now: int)
      requires Valid()
      modifies this
      ensures Valid()
      ensures NextAction(order.status).Some? && HasId(old(store), order.id) ==>
        store == SetStatus(old(store), order.id, NextAction(order.status).value, now)
        && orders == NewestFirst(store) && !loading
      ensures NextAction(order.status).None? || !HasId(old(store), order.id) ==>
        store == old(store) && orders == old(orders) && loading == old(loading)
      ensures filter == old(filter)
      ensures forall i :: 0 <= i < |store| && store[i].status == Cancelled ==>
        i < |old(store)| && old(store)[i].status == Cancelled
    {
      match NextAction(order.status)
      case None =>
      case Some(next) =>
        UpdateOrderStatus(order.id, next, now);
    }

    /** `deleteOrder`: declining the confirmation changes nothing; otherwise the order
        with that id is removed and the list reloaded. */
    method DeleteOrder(orderId: string, confirmed: bool)
      requires Valid()
      modifies this
      ensures Valid()
      ensures !confirmed ==> store == old(store) && orders == old(orders) && loading == old(loading)
      ensures confirmed ==> store == RemoveOrder(old(store), orderId) && orders == NewestFirst(store) && !loading
      ensures filter == old(filter)
    {
      if !confirmed {
        return;
      }
      FilterDistinct(store, KeyIsNot(OrderId, orderId), OrderId);
      store := RemoveOrder(store, orderId);
      LoadOrders();
    }
  }
}
