/** The records the app stores and passes around: menu items, order lines
    and orders, with the fixed labels the code compares against. */
module Domain {
  import opened Base

  /** Availability label of a menu item that can be ordered. */
  const Available: string := "Disponível"
  /** Table label used when an order names no table ("counter"). */
  const CounterTable: string := "Balcão"
  /** Status every newly recorded order starts in ("open"). */
  const StatusOpen: string := "Aberto"

  /** A stored menu item. Prices are exact decimals. */
  datatype MenuItem = MenuItem(
    id: string,
    name: string,
    description: string,
    price: real,
    category: string,
    isSpecial: bool,
    availability: string)

  /** The object handed to the store to create a menu item: its optional
      properties may be absent (`None`, JavaScript `undefined`). */
  datatype ItemDraft = ItemDraft(
    id: Option<string>,
    name: string,
    description: string,
    price: real,
    category: Option<string>,
    isSpecial: Option<bool>,
    availability: Option<string>)

  /** One line of an order: a snapshot of a menu item and a quantity. */
  datatype OrderLine = OrderLine(
    menuItemId: string,
    name: string,
    quantity: int,
    unitPrice: real,
    itemTotalPrice: real)

  /** The object handed to the store to record an order. */
  datatype OrderData = OrderData(
    items: seq<OrderLine>,
    totalOrderPrice: real,
    tableNumber: Option<string>,
    notes: Option<string>)

  /** A stored order; `timestamp` is its creation instant in milliseconds. */
  datatype Order = Order(
    id: string,
    items: seq<OrderLine>,
    totalOrderPrice: real,
    tableNumber: string,
    status: string,
    timestamp: int,
    notes: string)

  /** JavaScript `s || fallback` on an optional string: absent and empty
      strings are falsy. */
  function StringOr(s: Option<string>, fallback: string): (r: string)
    ensures r == fallback || (s == Some(r) && r != "")
    ensures s.Some? && s.value != "" ==> r == s.value
  {
    if s.Some? && s.value != "" then s.value else fallback
  }

  /** JavaScript `b || false` on an optional boolean. */
  function BoolOr(b: Option<bool>): (r: bool)
    ensures r <==> b == Some(true)
  {
    b.Some? && b.value
  }
}
