/** The order-list screen: the status workflow behind the "advance status"
    button, and the list view (filter by status, newest first). */
module OrderList {
  import opened Base
  import opened Domain
  import opened JsText
  import opened RestaurantService

  /** The workflow, in order: open, in preparation, ready, paid, cancelled. */
  const Statuses: seq<string> := [StatusOpen, StatusPreparing, StatusReady, StatusPaid, StatusCancelled]
  const StatusPreparing: string := "Em Preparo"
  const StatusReady: string := "Pronto"
  /** The two statuses that cannot be advanced. */
  const StatusPaid: string := "Pago"
  const StatusCancelled: string := "Cancelado"
  /** The filter value that shows every order. */
  const AllOrders: string := "Todos"

  /** The next status `handleChangeStatus` proposes: None (refused) for a
      paid or cancelled order; otherwise the status after the current one in
      the workflow list, wrapping round, where a status not in the list
      counts as position -1. */
  function NextStatus(current: string): (r: Option<string>)
    ensures r.None? <==> current == StatusPaid || current == StatusCancelled
    ensures r.Some? ==> r.value in Statuses
  {
    if current != StatusPaid && current != StatusCancelled then
      var i := IndexOf(Statuses, current);
      Some(Statuses[(i + 1) % |Statuses|])
    else None
  }

  /** The three advances of the linear workflow, and the refusal of the two
      terminal statuses. */
  lemma NextStatusTable()
    ensures NextStatus(StatusOpen) == Some(StatusPreparing)
    ensures NextStatus(StatusPreparing) == Some(StatusReady)
    ensures NextStatus(StatusReady) == Some(StatusPaid)
    ensures NextStatus(StatusPaid) == None && NextStatus(StatusCancelled) == None
  {
    StatusesDistinct();
    NextStatusStep(StatusOpen);
    NextStatusStep(StatusPreparing);
    NextStatusStep(StatusReady);
    assert IndexOf(Statuses, StatusOpen) == 0;
    assert IndexOf(Statuses, StatusPreparing) == 1 by {
      assert StatusPreparing !in Statuses[..1];
    }
    assert IndexOf(Statuses, StatusReady) == 2 by {
      assert StatusReady !in Statuses[..2];
    }
  }

  /** The five workflow statuses are different strings. */
  lemma StatusesDistinct()
    ensures forall p, q :: 0 <= p < q < |Statuses| ==> Statuses[p] != Statuses[q]
  {
    assert Statuses[0][0] == 'A' && Statuses[1][0] == 'E' && Statuses[2][0] == 'P';
    assert Statuses[3][0] == 'P' && Statuses[4][0] == 'C';
    assert Statuses[2][1] == 'r' && Statuses[3][1] == 'a';
  }

  /** Advancing moves a status in the workflow one step along it, and a
      status outside the workflow back to open. */
  lemma NextStatusStep(current: string)
    requires current != StatusPaid && current != StatusCancelled
    ensures current in Statuses ==>
      IndexOf(Statuses, current) <= 2 && NextStatus(current) == Some(Statuses[IndexOf(Statuses, current) + 1])
    ensures current !in Statuses ==> NextStatus(current) == Some(StatusOpen)
  {
    var i := IndexOf(Statuses, current);
    if current in Statuses {
      assert Statuses[i] == current;
      assert Statuses[3] == StatusPaid && Statuses[4] == StatusCancelled;
      assert (i + 1) % |Statuses| == i + 1;
    } else {
      assert (i + 1) % |Statuses| == 0;
    }
  }

  /** Advancing never cancels an order and never leaves its status as it
      was. */
  lemma NextStatusNeverCancels(current: string)
    ensures NextStatus(current) != Some(StatusCancelled)
    ensures NextStatus(current) != Some(current)
  {
    if current != StatusPaid && current != StatusCancelled {
      NextStatusStep(current);
      var i := IndexOf(Statuses, current);
      if current in Statuses {
        assert Statuses[i + 1] != StatusCancelled;
        assert Statuses[i + 1] != Statuses[i];
      }
    }
  }

  /** What a press of the "advance status" button ends in. */
  datatype ChangeOutcome =
    | Final                    // the order is paid or cancelled: refused
    | Declined(next: string)   // the user dismissed the confirmation
    | Changed(next: string)    // the store was asked to set `next`

  /** `handleChangeStatus`: a paid or cancelled order is refused; otherwise
      the next status is proposed and, when the user confirms, handed to the
      store for the order. The status it starts from is the one shown on the
      screen, not re-read from the store. */
  method HandleChangeStatus(store: Store, orderId: string, currentStatus: string, confirmed: bool, io: Io)
    returns (outcome: ChangeOutcome)
    modifies store
    ensures NextStatus(currentStatus).None? ==> outcome == Final
    ensures NextStatus(currentStatus).Some? && !confirmed ==> outcome == Declined(NextStatus(currentStatus).value)
    ensures NextStatus(currentStatus).Some? && confirmed ==> outcome == Changed(NextStatus(currentStatus).value)
    ensures outcome.Changed? && io.writeOk ==>
      store.orders == SetStatus(Loaded(old(store.orders), io), orderId, outcome.next)
    ensures !outcome.Changed? || !io.writeOk ==> store.orders == old(store.orders)
    ensures store.menu == old(store.menu)
  {
    var next := NextStatus(currentStatus);
    if next.None? {
      return Final;
    }
    if !confirmed {
      return Declined(next.value);
    }
    store.UpdateOrderStatus(orderId, next.value, io);
    outcome := Changed(next.value);
  }

  /** The list view's filter: every order for `AllOrders`, otherwise the
      orders whose status is the filter, in stored order. */
  function FilterByStatus(orders: seq<Order>, filter: string): (r: seq<Order>)
    ensures filter == AllOrders ==> r == orders
    ensures forall o :: o in r <==> o in orders && (filter == AllOrders || o.status == filter)
    ensures forall o :: multiset(r)[o] == if filter == AllOrders || o.status == filter then multiset(orders)[o] else 0
  {
    if filter == AllOrders then orders else WithStatus(orders, filter)
  }

  /** `orders.filter(o => o.status === status)`. */
  function WithStatus(orders: seq<Order>, status: string): (r: seq<Order>)
    ensures forall o :: o in r <==> o in orders && o.status == status
    ensures forall o :: multiset(r)[o] == if o.status == status then multiset(orders)[o] else 0
  {
    if orders == [] then []
    else
      var rest := WithStatus(orders[1..], status);
      assert orders == [orders[0]] + orders[1..];
      if orders[0].status == status then [orders[0]] + rest else rest
  }

  /** Newest first: timestamps never increase along the list. */
  predicate NewestFirst(s: seq<Order>)
  {
    forall i, j :: 0 <= i < j < |s| ==> s[i].timestamp >= s[j].timestamp
  }

  /** Timestamps do not increase along `a[lo..hi]`. */
  predicate SortedSlice(a: array<Order>, lo: int, hi: int)
    reads a
    requires 0 <= lo <= hi <= a.Length
  {
    forall p, q :: lo <= p < q < hi ==> a[p].timestamp >= a[q].timestamp
  }

  /** The list view's `sort` by descending timestamp, in place (an insertion
      sort). */
  method SortNewestFirst(a: array<Order>)
    modifies a
    ensures NewestFirst(a[..])
    ensures multiset(a[..]) == multiset(old(a[..]))
  {
    if a.Length == 0 {
      return;
    }
    var i := 1;
    while i < a.Length
      invariant 1 <= i <= a.Length
      invariant SortedSlice(a, 0, i)
      invariant multiset(a[..]) == multiset(old(a[..]))
    {
      Insert(a, i);
      i := i + 1;
    }
  }

  /** Moves `a[i]` left past every newer-than-it neighbour, so that a sorted
      `a[..i]` becomes a sorted `a[..i + 1]`. */
  method Insert(a: array<Order>, i: int)
    requires 0 < i < a.Length
    requires SortedSlice(a, 0, i)
    modifies a
    ensures SortedSlice(a, 0, i + 1)
    ensures multiset(a[..]) == multiset(old(a[..]))
  {
    var j := i;
    while j > 0 && a[j - 1].timestamp < a[j].timestamp
      invariant 0 <= j <= i
      invariant forall p, q :: 0 <= p < q <= i && p != j && q != j ==> a[p].timestamp >= a[q].timestamp
      invariant forall q :: j < q <= i ==> a[j].timestamp > a[q].timestamp
      invariant multiset(a[..]) == multiset(old(a[..]))
    {
      Swap(a, j - 1, j);
      j := j - 1;
    }
  }

  /** Exchanges two elements. */
  method Swap(a: array<Order>, p: int, q: int)
    requires 0 <= p < q < a.Length
    modifies a
    ensures a[p] == old(a[q]) && a[q] == old(a[p])
    ensures forall m :: 0 <= m < a.Length && m != p && m != q ==> a[m] == old(a[m])
    ensures multiset(a[..]) == multiset(old(a[..]))
  {
    a[p], a[q] := a[q], a[p];
  }

  /** `loadOrders`: reads the orders, keeps those the filter selects and
      shows them newest first. */
  method LoadOrders(store: Store, filter: string, io: Io) returns (shown: seq<Order>)
    ensures NewestFirst(shown)
    ensures multiset(shown) == multiset(FilterByStatus(Loaded(store.orders, io), filter))
  {
    var all := store.GetOrders(io);
    var filtered := FilterByStatus(all, filter);
    var a := new Order[|filtered|](k requires 0 <= k < |filtered| => filtered[k]);
    assert a[..] == filtered;
    SortNewestFirst(a);
    shown := a[..];
  }

  /** Every order the list shows is a stored order the filter selects, and
      with the "all" filter every stored order is shown as often as it is
      stored. */
  lemma ShownOrders(stored: seq<Order>, filter: string, shown: seq<Order>)
    requires multiset(shown) == multiset(FilterByStatus(stored, filter))
    ensures forall o :: o in shown <==> o in stored && (filter == AllOrders || o.status == filter)
    ensures filter == AllOrders ==> |shown| == |stored|
  {
    var r := FilterByStatus(stored, filter);
    forall o ensures o in shown <==> o in r {
      assert o in shown <==> o in multiset(shown);
      assert o in r <==> o in multiset(r);
    }
    if filter == AllOrders {
      assert |multiset(shown)| == |multiset(stored)|;
    }
  }
}
