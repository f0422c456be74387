/** The new-order screen's draft: lines built from menu items, their running
    total, and the hand-off of a finished draft to the store. */
module NewOrder {
  import opened Base
  import opened Domain
  import opened JsText
  import opened RestaurantService

  /** The items offered for ordering: those whose availability is the
      "available" label, in store order. */
  function AvailableItems(all: seq<MenuItem>): (r: seq<MenuItem>)
    ensures forall x :: x in r <==> x in all && x.availability == Available
    ensures forall x :: multiset(r)[x] == if x.availability == Available then multiset(all)[x] else 0
  {
    if all == [] then []
    else
      var rest := AvailableItems(all[1..]);
      assert all == [all[0]] + all[1..];
      if all[0].availability == Available then [all[0]] + rest else rest
  }

  /** `lines.findIndex(l => l.menuItemId === id)`: the first line for `id`,
      or -1 when there is none. */
  function FindLine(lines: seq<OrderLine>, id: string): (k: int)
    ensures -1 <= k < |lines|
    ensures k == -1 <==> forall j :: 0 <= j < |lines| ==> lines[j].menuItemId != id
    ensures 0 <= k ==> lines[k].menuItemId == id && forall j :: 0 <= j < k ==> lines[j].menuItemId != id
  {
    if lines == [] then -1
    else if lines[0].menuItemId == id then 0
    else
      var k := FindLine(lines[1..], id);
      if k < 0 then -1 else k + 1
  }

  /** The line a menu item gets when it is first added: one unit at the
      item's current name and price. */
  function FirstLine(item: MenuItem): (l: OrderLine)
    ensures l.menuItemId == item.id && l.name == item.name && l.quantity == 1
    ensures l.unitPrice == item.price && l.itemTotalPrice == item.price
  {
    OrderLine(item.id, item.name, 1, item.price, item.price * 1.0)
  }

  /** A line with its quantity set to `q` and its total recomputed. */
  function WithQuantity(l: OrderLine, q: int): (r: OrderLine)
    ensures r.quantity == q && r.itemTotalPrice == q as real * l.unitPrice
    ensures r.(quantity := l.quantity, itemTotalPrice := l.itemTotalPrice) == l
  {
    l.(quantity := q, itemTotalPrice := q as real * l.unitPrice)
  }

  /** `addItemToOrder`: a menu item that already has a line gets one more
      unit on that line; otherwise a new line is appended at the end. */
  function AddItemToOrder(lines: seq<OrderLine>, item: MenuItem): (r: seq<OrderLine>)
    ensures FindLine(lines, item.id) >= 0 ==>
      var k := FindLine(lines, item.id);
      |r| == |lines|
      && r[k] == lines[k].(quantity := lines[k].quantity + 1,
                           itemTotalPrice := (lines[k].quantity + 1) as real * lines[k].unitPrice)
      && forall j :: 0 <= j < |lines| && j != k ==> r[j] == lines[j]
    ensures FindLine(lines, item.id) < 0 ==> r == lines + [FirstLine(item)]
  {
    var k := FindLine(lines, item.id);
    if k > -1 then lines[k := WithQuantity(lines[k], lines[k].quantity + 1)]
    else lines + [FirstLine(item)]
  }

  /** `updateQuantityInOrder`: every line for `id` has its quantity moved by
      `change`; a line whose new quantity is not positive is dropped. */
  function UpdateQuantity(lines: seq<OrderLine>, id: string, change: int): (r: seq<OrderLine>)
    ensures |r| <= |lines|
  {
    if lines == [] then []
    else
      var rest := UpdateQuantity(lines[1..], id, change);
      var l := lines[0];
      if l.menuItemId != id then [l] + rest
      else if l.quantity + change > 0 then [WithQuantity(l, l.quantity + change)] + rest
      else rest
  }

  /** Lines for other menu items are kept as they were, and every line left
      for `id` holds at least one unit. */
  lemma {:induction false} UpdateQuantityKeepsOthers(lines: seq<OrderLine>, id: string, change: int)
    ensures forall l: OrderLine :: l.menuItemId != id ==> (l in UpdateQuantity(lines, id, change) <==> l in lines)
    ensures forall l :: l in UpdateQuantity(lines, id, change) && l.menuItemId == id ==> l.quantity >= 1
  {
    if lines != [] {
      UpdateQuantityKeepsOthers(lines[1..], id, change);
      assert lines == [lines[0]] + lines[1..];
    }
  }

  /** The order total: the sum of the line totals (the screen's `reduce`). */
  function Total(lines: seq<OrderLine>): real
  {
    if lines == [] then 0.0 else lines[0].itemTotalPrice + Total(lines[1..])
  }

  /** Lines with non-negative totals add up to a non-negative total. */
  lemma {:induction false} TotalNonNegative(lines: seq<OrderLine>)
    requires forall i :: 0 <= i < |lines| ==> lines[i].itemTotalPrice >= 0.0
    ensures Total(lines) >= 0.0
  {
    if lines != [] {
      TotalNonNegative(lines[1..]);
    }
  }

  /** The draft's invariant: one line per menu item, every quantity at least
      one, and every line total equal to quantity times unit price. */
  predicate WellFormed(lines: seq<OrderLine>)
  {
    UniqueLineIds(lines) && forall i :: 0 <= i < |lines| ==> LineOk(lines[i])
  }

  /** No two lines are for the same menu item. */
  predicate UniqueLineIds(lines: seq<OrderLine>)
  {
    forall i, j :: 0 <= i < j < |lines| ==> lines[i].menuItemId != lines[j].menuItemId
  }

  /** A line holds at least one unit and its total is quantity times unit
      price. */
  predicate LineOk(l: OrderLine)
  {
    l.quantity >= 1 && l.itemTotalPrice == l.quantity as real * l.unitPrice
  }

  /** `tableNumber.trim() || 'Balcão'`: the trimmed table label, or the
      counter label when nothing but whitespace was typed. */
  function TableLabel(table: string): (r: string)
    ensures r == (if |Trim(table)| == 0 then CounterTable else Trim(table))
  {
    StringOr(Some(Trim(table)), CounterTable)
  }

  /** `handleFinalizeOrder`'s order data: refused (None) for an empty draft;
      otherwise the lines and total as they are, the trimmed table label or
      the counter label when that is empty, and the trimmed notes. */
  function FinalizeData(lines: seq<OrderLine>, total: real, table: string, notes: string): (r: Option<OrderData>)
    ensures r.None? <==> lines == []
    ensures r.Some? ==> r.value.items == lines && r.value.totalOrderPrice == total
    ensures r.Some? ==> r.value.tableNumber == Some(TableLabel(table))
    ensures r.Some? ==> r.value.notes == Some(Trim(notes))
  {
    if |lines| == 0 then None
    else Some(OrderData(lines, total, Some(TableLabel(table)), Some(Trim(notes))))
  }

  // ---- Total ----

  /** The total of two runs of lines is the sum of their totals. */
  lemma {:induction false} TotalConcat(a: seq<OrderLine>, b: seq<OrderLine>)
    ensures Total(a + b) == Total(a) + Total(b)
  {
    if a == [] {
      assert a + b == b;
    } else {
      assert (a + b)[1..] == a[1..] + b;
      TotalConcat(a[1..], b);
    }
  }

  /** Replacing one line changes the total by the difference of the two line
      totals. */
  lemma {:induction false} TotalUpdate(lines: seq<OrderLine>, k: int, l: OrderLine)
    requires 0 <= k < |lines|
    ensures Total(lines[k := l]) == Total(lines) - lines[k].itemTotalPrice + l.itemTotalPrice
  {
    var pre, post := lines[..k], lines[k + 1..];
    assert lines == pre + ([lines[k]] + post);
    SplitAt(lines, k, l);
    TotalSplit(pre, lines[k], post);
    TotalSplit(pre, l, post);
  }

  /** Removing one line lowers the total by that line's total. */
  lemma {:induction false} TotalRemove(lines: seq<OrderLine>, k: int)
    requires 0 <= k < |lines|
    ensures Total(lines[..k] + lines[k + 1..]) == Total(lines) - lines[k].itemTotalPrice
  {
    var pre, post := lines[..k], lines[k + 1..];
    assert lines == pre + ([lines[k]] + post);
    TotalSplit(pre, lines[k], post);
    TotalConcat(pre, post);
  }

  /** The total of a run with one line singled out. */
  lemma {:induction false} TotalSplit(pre: seq<OrderLine>, l: OrderLine, post: seq<OrderLine>)
    ensures Total(pre + ([l] + post)) == Total(pre) + l.itemTotalPrice + Total(post)
  {
    TotalConcat(pre, [l] + post);
    assert ([l] + post)[1..] == post;
  }

  // ---- addItemToOrder ----

  /** Adding an item raises the total by one unit price: the existing line's
      price snapshot, or the item's price for a new line. */
  lemma AddItemTotal(lines: seq<OrderLine>, item: MenuItem)
    requires WellFormed(lines)
    ensures FindLine(lines, item.id) >= 0 ==>
      Total(AddItemToOrder(lines, item)) == Total(lines) + lines[FindLine(lines, item.id)].unitPrice
    ensures FindLine(lines, item.id) < 0 ==>
      Total(AddItemToOrder(lines, item)) == Total(lines) + item.price
  {
    var k := FindLine(lines, item.id);
    if k >= 0 {
      TotalUpdate(lines, k, WithQuantity(lines[k], lines[k].quantity + 1));
    } else {
      TotalConcat(lines, [FirstLine(item)]);
    }
  }

  /** Adding an item keeps the draft well formed. */
  lemma AddItemKeepsWellFormed(lines: seq<OrderLine>, item: MenuItem)
    requires WellFormed(lines)
    ensures WellFormed(AddItemToOrder(lines, item))
  {
    var r := AddItemToOrder(lines, item);
    var k := FindLine(lines, item.id);
    if k >= 0 {
      forall i | 0 <= i < |r|
        ensures r[i].quantity >= 1 && r[i].itemTotalPrice == r[i].quantity as real * r[i].unitPrice
      {
      }
    }
  }

  /** Adding the same item twice to an empty draft gives one line of two
      units, not two lines. */
  lemma AddTwiceToEmpty(item: MenuItem)
    ensures AddItemToOrder(AddItemToOrder([], item), item)
         == [OrderLine(item.id, item.name, 2, item.price, 2.0 * item.price)]
  {
    var once := AddItemToOrder([], item);
    assert once == [FirstLine(item)];
    assert FindLine(once, item.id) == 0;
  }

  // ---- updateQuantityInOrder ----

  /** Changing a quantity works line by line. */
  lemma {:induction false} UpdateQuantityConcat(a: seq<OrderLine>, b: seq<OrderLine>, id: string, change: int)
    ensures UpdateQuantity(a + b, id, change) == UpdateQuantity(a, id, change) + UpdateQuantity(b, id, change)
  {
    if a == [] {
      assert a + b == b;
    } else {
      assert (a + b)[1..] == a[1..] + b;
      UpdateQuantityConcat(a[1..], b, id, change);
    }
  }

  /** Lines for other items are left alone. */
  lemma {:induction false} UpdateQuantityNoMatch(lines: seq<OrderLine>, id: string, change: int)
    requires forall j :: 0 <= j < |lines| ==> lines[j].menuItemId != id
    ensures UpdateQuantity(lines, id, change) == lines
  {
    if lines != [] {
      UpdateQuantityNoMatch(lines[1..], id, change);
    }
  }

  /** In a well-formed draft, changing the quantity of the line for `id`
      either drops that line (new quantity not positive) or updates its
      quantity and total in place; every other line stays, in order. */
  lemma {:induction false} UpdateQuantityAt(lines: seq<OrderLine>, id: string, change: int)
    requires UniqueLineIds(lines)
    ensures FindLine(lines, id) < 0 ==> UpdateQuantity(lines, id, change) == lines
    ensures FindLine(lines, id) >= 0 ==>
      var k := FindLine(lines, id);
      var q := lines[k].quantity + change;
      UpdateQuantity(lines, id, change)
        == if q > 0 then lines[k := WithQuantity(lines[k], q)] else lines[..k] + lines[k + 1..]
  {
    var k := FindLine(lines, id);
    if k < 0 {
      UpdateQuantityNoMatch(lines, id, change);
    } else {
      forall j | 0 <= j < |lines| && j != k ensures lines[j].menuItemId != id {
        if j > k {
          assert lines[k].menuItemId != lines[j].menuItemId;
        }
      }
      UpdateQuantityOnly(lines, k, id, change);
      var q := lines[k].quantity + change;
      if q > 0 {
        SplitAt(lines, k, WithQuantity(lines[k], q));
      } else {
        assert [] + lines[k + 1..] == lines[k + 1..];
      }
    }
  }

  /** When only line `k` is for `id`, the change touches that line alone. */
  lemma {:induction false} UpdateQuantityOnly(lines: seq<OrderLine>, k: int, id: string, change: int)
    requires 0 <= k < |lines| && lines[k].menuItemId == id
    requires forall j :: 0 <= j < |lines| && j != k ==> lines[j].menuItemId != id
    ensures UpdateQuantity(lines, id, change)
         == lines[..k] + ((if lines[k].quantity + change > 0 then [WithQuantity(lines[k], lines[k].quantity + change)] else [])
                          + lines[k + 1..])
  {
    var pre, l, post := lines[..k], lines[k], lines[k + 1..];
    assert lines == pre + ([l] + post);
    UpdateQuantityConcat(pre, [l] + post, id, change);
    UpdateQuantityConcat([l], post, id, change);
    forall j | 0 <= j < |pre| ensures pre[j].menuItemId != id {
      assert pre[j] == lines[j];
    }
    UpdateQuantityNoMatch(pre, id, change);
    forall j | 0 <= j < |post| ensures post[j].menuItemId != id {
      assert post[j] == lines[k + 1 + j];
    }
    UpdateQuantityNoMatch(post, id, change);
    UpdateQuantityOne(l, id, change);
  }

  /** Replacing the element at `k` is cutting the sequence around it. */
  lemma SplitAt<T>(s: seq<T>, k: int, x: T)
    requires 0 <= k < |s|
    ensures s[k := x] == s[..k] + ([x] + s[k + 1..])
  {
    var r := s[..k] + ([x] + s[k + 1..]);
    assert |r| == |s|;
    forall i | 0 <= i < |s| ensures s[k := x][i] == r[i] {
      if i > k {
        assert r[i] == s[k + 1..][i - k - 1];
      }
    }
  }

  /** A one-line draft for the item: the line is adjusted or dropped. */
  lemma UpdateQuantityOne(l: OrderLine, id: string, change: int)
    requires l.menuItemId == id
    ensures UpdateQuantity([l], id, change)
         == if l.quantity + change > 0 then [WithQuantity(l, l.quantity + change)] else []
  {
    assert [l][1..] == [];
  }

  /** Changing a quantity keeps the draft well formed. */
  lemma {:induction false} UpdateQuantityKeepsWellFormed(lines: seq<OrderLine>, id: string, change: int)
    requires WellFormed(lines)
    ensures WellFormed(UpdateQuantity(lines, id, change))
  {
    UpdateQuantityAt(lines, id, change);
    var k := FindLine(lines, id);
    if k >= 0 {
      var q := lines[k].quantity + change;
      if q > 0 {
        ReplaceLineKeepsWellFormed(lines, k, WithQuantity(lines[k], q));
      } else {
        RemoveLineKeepsWellFormed(lines, k);
      }
    }
  }

  /** Putting a sound line for the same item in place of line `k` keeps the
      draft well formed. */
  lemma ReplaceLineKeepsWellFormed(lines: seq<OrderLine>, k: int, l: OrderLine)
    requires WellFormed(lines) && 0 <= k < |lines|
    requires l.menuItemId == lines[k].menuItemId && LineOk(l)
    ensures WellFormed(lines[k := l])
  {
  }

  /** Dropping line `k` keeps the draft well formed. */
  lemma RemoveLineKeepsWellFormed(lines: seq<OrderLine>, k: int)
    requires WellFormed(lines) && 0 <= k < |lines|
    ensures WellFormed(lines[..k] + lines[k + 1..])
  {
    var r := lines[..k] + lines[k + 1..];
    forall i | 0 <= i < |r| ensures r[i] == lines[if i < k then i else i + 1] {
    }
  }

  /** The total after a quantity change: the old line total is replaced by
      the new one, or removed with its line. */
  lemma UpdateQuantityTotal(lines: seq<OrderLine>, id: string, change: int)
    requires WellFormed(lines)
    ensures FindLine(lines, id) >= 0 ==>
      var l := lines[FindLine(lines, id)];
      Total(UpdateQuantity(lines, id, change))
        == Total(lines) - l.itemTotalPrice
           + (if l.quantity + change > 0 then (l.quantity + change) as real * l.unitPrice else 0.0)
    ensures FindLine(lines, id) < 0 ==> Total(UpdateQuantity(lines, id, change)) == Total(lines)
  {
    UpdateQuantityAt(lines, id, change);
    var k := FindLine(lines, id);
    if k >= 0 {
      var q := lines[k].quantity + change;
      if q > 0 {
        TotalUpdate(lines, k, WithQuantity(lines[k], q));
      } else {
        TotalRemove(lines, k);
      }
    }
  }

  /** Taking a line's whole quantity away removes it, and the total no longer
      counts it. */
  lemma RemoveWholeQuantity(lines: seq<OrderLine>, k: int)
    requires WellFormed(lines) && 0 <= k < |lines|
    ensures forall l :: l in UpdateQuantity(lines, lines[k].menuItemId, -lines[k].quantity) ==>
      l.menuItemId != lines[k].menuItemId
    ensures Total(UpdateQuantity(lines, lines[k].menuItemId, -lines[k].quantity)) == Total(lines) - lines[k].itemTotalPrice
  {
    var id := lines[k].menuItemId;
    assert FindLine(lines, id) == k;
    UpdateQuantityAt(lines, id, -lines[k].quantity);
    UpdateQuantityTotal(lines, id, -lines[k].quantity);
    var r := lines[..k] + lines[k + 1..];
    forall l | l in r ensures l.menuItemId != id {
      var i :| 0 <= i < |r| && r[i] == l;
      assert r[i] == lines[if i < k then i else i + 1];
    }
  }

  /** A worked draft: an item priced 35.50 added once, then one more unit,
      gives a single line of two units worth 71.00, and that is the total. */
  lemma AcaiScenario(item: MenuItem)
    requires item.price == 35.50
    ensures var lines := UpdateQuantity(AddItemToOrder([], item), item.id, 1);
      lines == [OrderLine(item.id, item.name, 2, 35.50, 71.00)] && Total(lines) == 71.00
  {
    var once := AddItemToOrder([], item);
    assert once == [FirstLine(item)];
    UpdateQuantityOne(FirstLine(item), item.id, 1);
    var lines := UpdateQuantity(once, item.id, 1);
    assert lines == [OrderLine(item.id, item.name, 2, 35.50, 71.00)];
    assert lines[1..] == [];
  }

  // ---- handleFinalizeOrder ----

  /** A finished, well-formed draft becomes an open order whose total is the
      sum of its lines, with a non-blank table label and trimmed notes. */
  lemma FinalizedOrderConsistent(lines: seq<OrderLine>, table: string, notes: string, id: string, timestamp: int)
    requires WellFormed(lines) && lines != []
    ensures FinalizeData(lines, Total(lines), table, notes).Some?
    ensures var o := RecordedOrder(FinalizeData(lines, Total(lines), table, notes).value, id, timestamp);
      && o.status == StatusOpen
      && o.items == lines && WellFormed(o.items)
      && o.totalOrderPrice == Total(o.items)
      && o.tableNumber == (if IsBlank(table) then CounterTable else Trim(table))
      && o.tableNumber != ""
      && o.notes == Trim(notes)
  {
    TrimSpec(table);
    TrimSpec(notes);
  }

  /** The draft being composed on the screen. `totalOrderPrice` is the
      screen's separate total, recomputed after every change of the lines. */
  class Draft {
    var lines: seq<OrderLine>
    var totalOrderPrice: real
    var tableNumber: string
    var notes: string

    /** The total is the sum of the lines, and the lines are well formed. */
    predicate Valid()
      reads this
    {
      WellFormed(lines) && totalOrderPrice == Total(lines)
    }

    /** An empty draft, as the screen starts. */
    constructor ()
      ensures Valid()
      ensures lines == [] && totalOrderPrice == 0.0 && tableNumber == "" && notes == ""
    {
      lines := [];
      totalOrderPrice := 0.0;
      tableNumber := "";
      notes := "";
    }

    /** A tap on a menu item. */
    method AddItem(item: MenuItem)
      requires Valid()
      modifies this
      ensures Valid()
      ensures lines == AddItemToOrder(old(lines), item)
      ensures tableNumber == old(tableNumber) && notes == old(notes)
    {
      AddItemKeepsWellFormed(lines, item);
      lines := AddItemToOrder(lines, item);
      totalOrderPrice := Total(lines);
    }

    /** A tap on a line's "+" (change 1) or "-" (change -1). */
    method ChangeQuantity(menuItemId: string, change: int)
      requires Valid()
      modifies this
      ensures Valid()
      ensures lines == UpdateQuantity(old(lines), menuItemId, change)
      ensures tableNumber == old(tableNumber) && notes == old(notes)
    {
      UpdateQuantityKeepsWellFormed(lines, menuItemId, change);
      lines := UpdateQuantity(lines, menuItemId, change);
      totalOrderPrice := Total(lines);
    }

    /** `handleFinalizeOrder`: an empty draft is refused and nothing is
        recorded; otherwise the order data goes to the store and the draft is
        cleared. */
    method Finalize(store: Store, id: string, timestamp: int, io: Io) returns (recorded: Option<Order>)
      requires Valid()
      modifies this, store
      ensures Valid()
      ensures old(lines) == [] ==> recorded.None? && unchanged(this) && unchanged(store)
      ensures old(lines) != [] ==>
        var data := FinalizeData(old(lines), old(totalOrderPrice), old(tableNumber), old(notes)).value;
        && recorded == Some(RecordedOrder(data, id, timestamp))
        && (io.writeOk ==> store.orders == Loaded(old(store.orders), io) + [recorded.value])
        && (!io.writeOk ==> store.orders == old(store.orders))
        && store.menu == old(store.menu)
        && lines == [] && tableNumber == "" && notes == ""
    {
      if |lines| == 0 {
        return None;
      }
      var data := FinalizeData(lines, totalOrderPrice, tableNumber, notes).value;
      var order := store.RecordNewOrder(data, id, timestamp, io);
      recorded := Some(order);
      Clear();
    }

    /** Empties the draft after an order is recorded. */
    method Clear()
      modifies this
      ensures Valid()
      ensures lines == [] && totalOrderPrice == 0.0 && tableNumber == "" && notes == ""
    {
      lines, totalOrderPrice, tableNumber, notes := [], 0.0, "", "";
    }
  }
}
