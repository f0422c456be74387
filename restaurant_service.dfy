/** The local store: two flat collections, menu items and orders, each kept
    as one stored list. Every mutating call reads the whole list, computes a
    new one and writes the whole list back. A read that fails yields the
    empty list; a write that fails is swallowed and leaves the stored list
    as it was. */
module RestaurantService {
  import opened Base
  import opened Domain

  /** What a read of a stored list returns: the list, or the empty list when
      the read fails. */
  function Loaded<T>(stored: seq<T>, io: Io): (r: seq<T>)
    ensures io.readOk ==> r == stored
    ensures !io.readOk ==> r == []
  {
    if io.readOk then stored else []
  }

  /** No two menu items share an id. */
  predicate UniqueItemIds(items: seq<MenuItem>)
  {
    forall i, j :: 0 <= i < j < |items| ==> items[i].id != items[j].id
  }

  /** No two orders share an id. */
  predicate UniqueOrderIds(orders: seq<Order>)
  {
    forall i, j :: 0 <= i < j < |orders| ==> orders[i].id != orders[j].id
  }

  /** The item `addMenuItem` stores for `draft` under the generated `id`: the
      generated id replaces any id the caller passed, the optional fields
      fall back to their defaults when absent or falsy, and the rest is
      copied. */
  function StampItem(draft: ItemDraft, id: string): (r: MenuItem)
    ensures r.id == id
    ensures r.name == draft.name && r.description == draft.description && r.price == draft.price
    ensures r.category == (if draft.category.Some? && draft.category.value != "" then draft.category.value else "")
    ensures r.isSpecial <==> draft.isSpecial == Some(true)
    ensures r.availability == (if draft.availability.Some? && draft.availability.value != "" then draft.availability.value else Available)
  {
    MenuItem(id, draft.name, draft.description, draft.price,
             StringOr(draft.category, ""), BoolOr(draft.isSpecial), StringOr(draft.availability, Available))
  }

  /** `items.map(item => item.id === u.id ? u : item)`. */
  function ReplaceById(items: seq<MenuItem>, u: MenuItem): (r: seq<MenuItem>)
    ensures |r| == |items|
    ensures forall i :: 0 <= i < |items| ==> r[i] == (if items[i].id == u.id then u else items[i])
  {
    if items == [] then []
    else [if items[0].id == u.id then u else items[0]] + ReplaceById(items[1..], u)
  }

  /** `items.filter(item => item.id !== id)`. */
  function RemoveById(items: seq<MenuItem>, id: string): (r: seq<MenuItem>)
    ensures |r| <= |items|
    ensures forall x :: x in r <==> x in items && x.id != id
  {
    if items == [] then []
    else if items[0].id == id then RemoveById(items[1..], id)
    else [items[0]] + RemoveById(items[1..], id)
  }

  /** `orders.map(o => o.id === id ? { ...o, status } : o)`. */
  function SetStatus(orders: seq<Order>, id: string, status: string): (r: seq<Order>)
    ensures |r| == |orders|
    ensures forall i :: 0 <= i < |orders| ==>
      r[i] == (if orders[i].id == id then orders[i].(status := status) else orders[i])
  {
    if orders == [] then []
    else [if orders[0].id == id then orders[0].(status := status) else orders[0]] + SetStatus(orders[1..], id, status)
  }

  /** The order `recordNewOrder` stores: it starts open, keeps the caller's
      lines and total as given (nothing is recomputed), and falls back to the
      counter label and to no notes when those are absent or empty. */
  function RecordedOrder(data: OrderData, id: string, timestamp: int): (o: Order)
    ensures o.id == id && o.timestamp == timestamp
    ensures o.status == StatusOpen
    ensures o.items == data.items && o.totalOrderPrice == data.totalOrderPrice
    ensures o.tableNumber == (if data.tableNumber.Some? && data.tableNumber.value != "" then data.tableNumber.value else CounterTable)
    ensures o.notes == (if data.notes.Some? && data.notes.value != "" then data.notes.value else "")
  {
    Order(id, data.items, data.totalOrderPrice, StringOr(data.tableNumber, CounterTable),
          StatusOpen, timestamp, StringOr(data.notes, ""))
  }

  // ---- Properties of the collection updates ----

  /** An update whose id matches nothing leaves the list as it was. */
  lemma ReplaceByIdNoMatch(items: seq<MenuItem>, u: MenuItem)
    requires forall x :: x in items ==> x.id != u.id
    ensures ReplaceById(items, u) == items
  {
    var r := ReplaceById(items, u);
    forall i | 0 <= i < |items| ensures r[i] == items[i] {
      assert items[i] in items;
    }
  }

  /** Applying the same update twice is applying it once. */
  lemma ReplaceByIdIdempotent(items: seq<MenuItem>, u: MenuItem)
    ensures ReplaceById(ReplaceById(items, u), u) == ReplaceById(items, u)
  {
    var r := ReplaceById(items, u);
    var rr := ReplaceById(r, u);
    forall i | 0 <= i < |items| ensures rr[i] == r[i] { }
  }

  /** An update changes no id, so the ids stay unique. */
  lemma ReplaceByIdKeepsIds(items: seq<MenuItem>, u: MenuItem)
    ensures forall i :: 0 <= i < |items| ==> ReplaceById(items, u)[i].id == items[i].id
    ensures UniqueItemIds(items) ==> UniqueItemIds(ReplaceById(items, u))
  {
  }

  /** After an update that matched, the list holds the new record. */
  lemma ReplaceByIdStores(items: seq<MenuItem>, u: MenuItem, k: int)
    requires 0 <= k < |items| && items[k].id == u.id
    ensures u in ReplaceById(items, u)
    ensures UniqueItemIds(items) ==> forall x :: x in ReplaceById(items, u) && x.id == u.id ==> x == u
  {
    assert ReplaceById(items, u)[k] == u;
  }

  /** A delete of an id no item has leaves the list as it was. */
  lemma {:induction false} RemoveByIdAbsent(items: seq<MenuItem>, id: string)
    requires forall x :: x in items ==> x.id != id
    ensures RemoveById(items, id) == items
  {
    if items != [] {
      assert items[0] in items;
      RemoveByIdAbsent(items[1..], id);
    }
  }

  /** Delete works element by element, so the items it keeps stay in their
      relative order. */
  lemma {:induction false} RemoveByIdConcat(a: seq<MenuItem>, b: seq<MenuItem>, id: string)
    ensures RemoveById(a + b, id) == RemoveById(a, id) + RemoveById(b, id)
  {
    if a == [] {
      assert a + b == b;
    } else {
      assert (a + b)[1..] == a[1..] + b;
      RemoveByIdConcat(a[1..], b, id);
    }
  }

  /** With unique ids, deleting an id that is present removes exactly one
      item. */
  lemma {:induction false} RemoveByIdCount(items: seq<MenuItem>, id: string)
    requires UniqueItemIds(items)
    requires exists x :: x in items && x.id == id
    ensures |RemoveById(items, id)| == |items| - 1
  {
    if items[0].id == id {
      forall x | x in items[1..] ensures x.id != id {
        var j :| 0 <= j < |items[1..]| && items[1..][j] == x;
        assert items[j + 1] == x;
      }
      RemoveByIdAbsent(items[1..], id);
    } else {
      var x :| x in items && x.id == id;
      assert x in items[1..];
      RemoveByIdCount(items[1..], id);
    }
  }

  /** Delete keeps ids unique. */
  lemma {:induction false} RemoveByIdKeepsUnique(items: seq<MenuItem>, id: string)
    requires UniqueItemIds(items)
    ensures UniqueItemIds(RemoveById(items, id))
  {
    if items != [] {
      RemoveByIdKeepsUnique(items[1..], id);
      var t := RemoveById(items[1..], id);
      if items[0].id != id {
        var r := [items[0]] + t;
        forall j | 0 < j < |r| ensures r[0].id != r[j].id {
          assert r[j] in t;
          var m :| 0 <= m < |items[1..]| && items[1..][m] == r[j];
          assert items[m + 1] == r[j];
        }
      }
    }
  }

  /** A status change touches only the `status` field of the matching orders;
      every other field, and every other order, is unchanged. */
  lemma SetStatusOnlyStatus(orders: seq<Order>, id: string, status: string)
    ensures forall i :: 0 <= i < |orders| ==>
      SetStatus(orders, id, status)[i].(status := orders[i].status) == orders[i]
    ensures forall i :: 0 <= i < |orders| ==>
      SetStatus(orders, id, status)[i].status == (if orders[i].id == id then status else orders[i].status)
    ensures UniqueOrderIds(orders) ==> UniqueOrderIds(SetStatus(orders, id, status))
  {
  }

  /** Appending an item whose id is fresh keeps menu ids unique. */
  lemma AppendKeepsUniqueItems(items: seq<MenuItem>, x: MenuItem)
    requires UniqueItemIds(items)
    requires forall y :: y in items ==> y.id != x.id
    ensures UniqueItemIds(items + [x])
  {
    var r := items + [x];
    forall i, j | 0 <= i < j < |r| ensures r[i].id != r[j].id {
      if j == |items| {
        assert r[i] in items;
      }
    }
  }

  /** Appending an order whose id is fresh keeps order ids unique. */
  lemma AppendKeepsUniqueOrders(orders: seq<Order>, o: Order)
    requires UniqueOrderIds(orders)
    requires forall y :: y in orders ==> y.id != o.id
    ensures UniqueOrderIds(orders + [o])
  {
    var r := orders + [o];
    forall i, j | 0 <= i < j < |r| ensures r[i].id != r[j].id {
      if j == |orders| {
        assert r[i] in orders;
      }
    }
  }

  /** The store. The two fields are the two stored lists; a list that was
      never written reads as empty, exactly like an empty stored list. */
  class Store {
    var menu: seq<MenuItem>
    var orders: seq<Order>

    /** A fresh installation: neither key exists yet. */
    constructor ()
      ensures menu == [] && orders == []
    {
      menu := [];
      orders := [];
    }

    /** `getMenuItems`: the stored list, or the empty list when the read
        fails. */
    method GetMenuItems(io: Io) returns (items: seq<MenuItem>)
      ensures items == Loaded(menu, io)
    {
      items := if io.readOk then menu else [];
    }

    /** `saveMenuItems`: overwrites the stored list; a failed write changes
        nothing. */
    method SaveMenuItems(items: seq<MenuItem>, io: Io)
      modifies this
      ensures menu == (if io.writeOk then items else old(menu))
      ensures orders == old(orders)
    {
      if io.writeOk {
        menu := items;
      }
    }

    /** `addMenuItem`: appends the stamped item at the end of the list read,
        and returns it. */
    method AddMenuItem(newItem: ItemDraft, id: string, io: Io) returns (fullItem: MenuItem)
      modifies this
      ensures fullItem == StampItem(newItem, id)
      ensures io.writeOk ==> menu == Loaded(old(menu), io) + [fullItem]
      ensures !io.writeOk ==> menu == old(menu)
      ensures orders == old(orders)
      ensures old(UniqueItemIds(menu)) && (forall y :: y in old(menu) ==> y.id != id) ==> UniqueItemIds(menu)
    {
      var items := GetMenuItems(io);
      fullItem := StampItem(newItem, id);
      if UniqueItemIds(menu) && (forall y :: y in menu ==> y.id != id) {
        AppendKeepsUniqueItems(items, fullItem);
      }
      items := items + [fullItem];
      SaveMenuItems(items, io);
    }

    /** `updateMenuItem`: every item with the same id is replaced wholesale. */
    method UpdateMenuItem(updatedItem: MenuItem, io: Io)
      modifies this
      ensures io.writeOk ==> menu == ReplaceById(Loaded(old(menu), io), updatedItem)
      ensures !io.writeOk ==> menu == old(menu)
      ensures orders == old(orders)
      ensures old(UniqueItemIds(menu)) ==> UniqueItemIds(menu)
    {
      var items := GetMenuItems(io);
      ReplaceByIdKeepsIds(items, updatedItem);
      items := ReplaceById(items, updatedItem);
      SaveMenuItems(items, io);
    }

    /** `deleteMenuItem`: every item with the id is dropped. */
    method DeleteMenuItem(itemId: string, io: Io)
      modifies this
      ensures io.writeOk ==> menu == RemoveById(Loaded(old(menu), io), itemId)
      ensures !io.writeOk ==> menu == old(menu)
      ensures orders == old(orders)
      ensures old(UniqueItemIds(menu)) ==> UniqueItemIds(menu)
    {
      var items := GetMenuItems(io);
      if UniqueItemIds(items) {
        RemoveByIdKeepsUnique(items, itemId);
      }
      items := RemoveById(items, itemId);
      SaveMenuItems(items, io);
    }

    /** `getOrders`: the stored list, or the empty list when the read fails. */
    method GetOrders(io: Io) returns (result: seq<Order>)
      ensures result == Loaded(orders, io)
    {
      result := if io.readOk then orders else [];
    }

    /** `saveOrders`: overwrites the stored list; a failed write changes
        nothing. */
    method SaveOrders(list: seq<Order>, io: Io)
      modifies this
      ensures orders == (if io.writeOk then list else old(orders))
      ensures menu == old(menu)
    {
      if io.writeOk {
        orders := list;
      }
    }

    /** `recordNewOrder`: appends a new open order built from `orderData`
        and returns it. */
    method RecordNewOrder(orderData: OrderData, id: string, timestamp: int, io: Io) returns (newOrder: Order)
      modifies this
      ensures newOrder == RecordedOrder(orderData, id, timestamp)
      ensures io.writeOk ==> orders == Loaded(old(orders), io) + [newOrder]
      ensures !io.writeOk ==> orders == old(orders)
      ensures menu == old(menu)
      ensures old(UniqueOrderIds(orders)) && (forall y :: y in old(orders) ==> y.id != id) ==> UniqueOrderIds(orders)
    {
      var list := GetOrders(io);
      newOrder := RecordedOrder(orderData, id, timestamp);
      if UniqueOrderIds(orders) && (forall y :: y in orders ==> y.id != id) {
        AppendKeepsUniqueOrders(list, newOrder);
      }
      list := list + [newOrder];
      SaveOrders(list, io);
    }

    /** `updateOrderStatus`: sets the status of every order with the id to
        `newStatus`, whatever string it is: the store checks no transition. */
    method UpdateOrderStatus(orderId: string, newStatus: string, io: Io)
      modifies this
      ensures io.writeOk ==> orders == SetStatus(Loaded(old(orders), io), orderId, newStatus)
      ensures !io.writeOk ==> orders == old(orders)
      ensures menu == old(menu)
      ensures old(UniqueOrderIds(orders)) ==> UniqueOrderIds(orders)
    {
      var list := GetOrders(io);
      SetStatusOnlyStatus(list, orderId, newStatus);
      list := SetStatus(list, orderId, newStatus);
      SaveOrders(list, io);
    }
  }
}
