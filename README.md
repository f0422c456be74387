# Order management for a food stand: a Dafny model

The app keeps a menu catalogue and a queue of customer orders for one food
stand, stored on the device. This project models its logic and proves
properties of that model:

- **The local store** (`services/restaurantService.js`) is the class
  `RestaurantService.Store`. Its fields `menu` and `orders` are the two stored
  lists. Every mutating method does what the source does: it reads the whole
  list, computes a new one and writes it back. The `Io` parameter says whether
  the read and the write succeed. A failed read yields the empty list, as in
  `getMenuItems`/`getOrders`. So a mutating call after a failed read writes
  back a list built from nothing. A failed write is swallowed and leaves the
  stored list as it was. The `map`/`filter` recomputations are the functions
  `ReplaceById`, `RemoveById` and `SetStatus`. The records that `addMenuItem`
  and `recordNewOrder` build are `StampItem` and `RecordedOrder`.
- **The draft-order composer** (`screens/NewOrderScreen.js`) has pure
  functions for adding an item (`AddItemToOrder`), changing a quantity
  (`UpdateQuantity`), the total (`Total`), the available-item filter
  (`AvailableItems`) and the order data built on finalising (`FinalizeData`).
  The class `NewOrder.Draft` holds the screen's draft state. Its invariant is:
  one line per menu item, every quantity at least 1, every line total equal to
  quantity times unit price, and the shown total equal to the sum of the
  lines.
- **The order list** (`screens/OrderListScreen.js`) has the next-status rule
  (`NextStatus`, index arithmetic over the fixed five-status list), the
  confirm-and-update flow (`HandleChangeStatus`), the status filter
  (`FilterByStatus`), an in-place sort of an array by descending timestamp
  (`SortNewestFirst`), and `LoadOrders`, which combines them.
- **The menu-item form** (`screens/AddMenuItemScreen.js`) has the starting
  values (`InitialForm`), the validation and add/update choice
  (`ValidateForm`), and `HandleSaveItem`, which calls the store.
- **JavaScript primitives** the code relies on are in `JsText`: `indexOf`,
  `replace` with a string pattern (first occurrence only), and `trim` (the
  full ECMAScript whitespace and line-terminator set).

Prices are exact `real` numbers, so the line-total and sum identities hold
exactly. Quantities are unbounded integers. A timestamp is an integer count of
milliseconds. Generated ids and timestamps come from the clock, so they are
parameters. `parseFloat` is a parameter of type `string -> Option<real>`,
where `None` stands for NaN.

Where the app's intended design and its code differ, the model follows the
code:

- There is no cancel operation.
- The store checks no status transition: `updateOrderStatus` sets any string.
  Only the screen refuses to advance a paid or cancelled order.
- The store never recomputes totals: `recordNewOrder` keeps the caller's lines
  and total as given. `FinalizedOrderConsistent` proves that the draft screen
  hands over a consistent total.
- Deleting an id removes every item with that id. The count drops by exactly
  one when exactly one item has the id; `RemoveByIdCount` proves this for
  lists with unique ids.
- The code does not make ids unique: two ids taken in the same millisecond are
  equal. Uniqueness of ids is therefore a precondition of the lemmas that keep
  it (`AppendKeepsUniqueItems`, `AppendKeepsUniqueOrders`), not a theorem.

## Model

| member | source | states |
|---|---|---|
| `Domain.StringOr` | screens/AddMenuItemScreen.js:9-14 | JavaScript's logical-or default on an optional string: the value when present and non-empty, otherwise the fallback |
| `Domain.BoolOr` | services/restaurantService.js:33 | the logical-or default `false` on an optional flag is true exactly when the flag is present and true |
| `JsText.IndexOf` | screens/OrderListScreen.js:33 | `indexOf` gives -1 exactly when the value is absent, otherwise the position of its first occurrence |
| `JsText.ReplaceFirst` | screens/AddMenuItemScreen.js:24 | `replace` with a one-character pattern keeps the length, and leaves the input as it is when the pattern is absent |
| `JsText.ReplaceFirstAtIndex` | screens/AddMenuItemScreen.js:24 | when the pattern occurs, the result is the input with only its first occurrence replaced |
| `JsText.ReplaceFirstRemovesOne` | screens/AddMenuItemScreen.js:24 | after the replacement the pattern occurs exactly once less often, so a second comma survives |
| `JsText.TrimStart` | screens/NewOrderScreen.js:71-72 | the result is a suffix of the input, only whitespace was cut, and it does not start with whitespace |
| `JsText.TrimEnd` | screens/NewOrderScreen.js:71-72 | the result is a prefix of the input, only whitespace was cut, and it does not end with whitespace |
| `JsText.Trim` | screens/NewOrderScreen.js:71-72 | `trim` as `TrimEnd` after `TrimStart`; `TrimSpec` states what it returns |
| `JsText.TrimSpec` | screens/NewOrderScreen.js:71-72 | `trim` returns a contiguous slice with blank text cut on both sides and no whitespace at either end; it is empty exactly when the input is blank |
| `JsText.TrimCutsBlanks` | screens/NewOrderScreen.js:71-72 | `trim` keeps a slice of its input and cuts only whitespace before and after it |
| `JsText.TrimEdges` | screens/NewOrderScreen.js:71-72 | the trimmed text neither starts nor ends with whitespace |
| `JsText.TrimEmptyIffBlank` | screens/NewOrderScreen.js:71 | `trim` gives the empty string exactly when the input is blank, which is when the counter label takes over |
| `JsText.TrimIdempotent` | screens/NewOrderScreen.js:71-72 | trimming twice equals trimming once |
| `RestaurantService.Loaded` | services/restaurantService.js:8-16 | a read returns the stored list, or the empty list when the read fails |
| `RestaurantService.StampItem` | services/restaurantService.js:29-35 | the stored new item has the generated id, whatever id was passed; category `''`, isSpecial false and availability `Disponível` when those are absent or falsy; name, description and price copied |
| `RestaurantService.ReplaceById` | services/restaurantService.js:43 | the update keeps the length and order; each item with the updated id is replaced wholesale and every other item is kept |
| `RestaurantService.RemoveById` | services/restaurantService.js:49 | an item is kept exactly when it was in the list and its id differs from the deleted id |
| `RestaurantService.SetStatus` | services/restaurantService.js:91-93 | length and order are kept; each order with the id gets the new status and all other orders are unchanged |
| `RestaurantService.RecordedOrder` | services/restaurantService.js:75-83 | a new order is open, has the generated id and timestamp, and keeps the caller's lines and total verbatim; the table defaults to `Balcão` and the notes to `''` when falsy |
| `RestaurantService.ReplaceByIdNoMatch` | services/restaurantService.js:41-45 | an update whose id matches no item leaves the list unchanged |
| `RestaurantService.ReplaceByIdIdempotent` | services/restaurantService.js:41-45 | applying the same update twice equals applying it once |
| `RestaurantService.ReplaceByIdKeepsIds` | services/restaurantService.js:43 | an update changes no id, so unique ids stay unique |
| `RestaurantService.ReplaceByIdStores` | services/restaurantService.js:43 | after an update that matched, the list holds the new record, and with unique ids it is the only item with that id |
| `RestaurantService.RemoveByIdAbsent` | services/restaurantService.js:47-51 | deleting an id that no item has is a no-op |
| `RestaurantService.RemoveByIdConcat` | services/restaurantService.js:49 | delete distributes over concatenation, so the kept items stay in their relative order |
| `RestaurantService.RemoveByIdCount` | services/restaurantService.js:47-51 | with unique ids, deleting a present id shortens the list by exactly one |
| `RestaurantService.RemoveByIdKeepsUnique` | services/restaurantService.js:49 | delete keeps ids unique |
| `RestaurantService.SetStatusOnlyStatus` | services/restaurantService.js:89-95 | a status change touches only the status field of matching orders, sets it to any given string, and keeps ids unique |
| `RestaurantService.AppendKeepsUniqueItems` | services/restaurantService.js:30-36 | appending an item with a fresh id keeps menu ids unique |
| `RestaurantService.AppendKeepsUniqueOrders` | services/restaurantService.js:76-84 | appending an order with a fresh id keeps order ids unique |
| `RestaurantService.Store.constructor` | services/restaurantService.js:11 | a store whose keys were never written reads as two empty lists |
| `RestaurantService.Store.GetMenuItems` | services/restaurantService.js:8-16 | returns `Loaded` of the stored menu: the menu, or the empty list when the read fails |
| `RestaurantService.Store.SaveMenuItems` | services/restaurantService.js:18-25 | overwrites the stored menu; a failed write changes nothing |
| `RestaurantService.Store.AddMenuItem` | services/restaurantService.js:27-39 | appends exactly one stamped item after the items read, keeps the rest unchanged and in order, and returns that item; orders untouched; a fresh id keeps ids unique |
| `RestaurantService.Store.UpdateMenuItem` | services/restaurantService.js:41-45 | the new menu is `ReplaceById` of the menu read; orders untouched; ids stay unique |
| `RestaurantService.Store.DeleteMenuItem` | services/restaurantService.js:47-51 | the new menu is `RemoveById` of the menu read; orders untouched; ids stay unique |
| `RestaurantService.Store.GetOrders` | services/restaurantService.js:54-62 | returns `Loaded` of the stored orders: the orders, or the empty list when the read fails |
| `RestaurantService.Store.SaveOrders` | services/restaurantService.js:64-71 | overwrites the stored orders; a failed write changes nothing |
| `RestaurantService.Store.RecordNewOrder` | services/restaurantService.js:73-87 | appends exactly one new open order (`RecordedOrder`) after the orders read and returns it; menu untouched |
| `RestaurantService.Store.UpdateOrderStatus` | services/restaurantService.js:89-95 | the new order list is `SetStatus` of the orders read, with no transition check; menu untouched |
| `NewOrder.AvailableItems` | screens/NewOrderScreen.js:15 | the items offered are exactly those whose availability is `Disponível`, each kept as many times as it is stored |
| `NewOrder.FindLine` | screens/NewOrderScreen.js:26 | `findIndex` gives -1 exactly when no line has the id, otherwise the first line that does |
| `NewOrder.FirstLine` | screens/NewOrderScreen.js:38-44 | a new line has quantity 1 and copies the id, name and price of the item, with total equal to the price |
| `NewOrder.WithQuantity` | screens/NewOrderScreen.js:55 | a requantified line has total quantity times unit price and otherwise equals the old line |
| `NewOrder.AddItemToOrder` | screens/NewOrderScreen.js:25-46 | an item that has a line gets one more unit on that line with total `(q+1)*unitPrice`, and all other lines and the line count are unchanged; otherwise a first line is appended at the end |
| `NewOrder.TableLabel` | screens/NewOrderScreen.js:71 | the table label is the trimmed text, or `Balcão` when that is empty |
| `NewOrder.FinalizeData` | screens/NewOrderScreen.js:63-73 | an empty draft is refused; otherwise the order data carries the lines and total unchanged, the table label and the trimmed notes |
| `NewOrder.Total` | screens/NewOrderScreen.js:20-23 | the `reduce` sum of the line totals; its properties are `TotalConcat`, `TotalUpdate`, `TotalRemove` and `TotalNonNegative` |
| `NewOrder.TotalNonNegative` | screens/NewOrderScreen.js:20-23 | lines with non-negative totals sum to a non-negative order total |
| `NewOrder.TotalConcat` | screens/NewOrderScreen.js:20-23 | the total of two runs of lines is the sum of their totals |
| `NewOrder.TotalUpdate` | screens/NewOrderScreen.js:20-23 | replacing one line changes the total by the difference of the two line totals |
| `NewOrder.TotalRemove` | screens/NewOrderScreen.js:20-23 | removing one line lowers the total by that line's total |
| `NewOrder.AddItemTotal` | screens/NewOrderScreen.js:20-46 | adding an item raises the total by one unit price: the line's own price snapshot, or the item's price for a new line |
| `NewOrder.AddItemKeepsWellFormed` | screens/NewOrderScreen.js:25-46 | adding keeps line ids distinct, quantities at least 1 and line totals equal to quantity times unit price |
| `NewOrder.AddTwiceToEmpty` | screens/NewOrderScreen.js:25-46 | adding the same item twice to an empty draft gives one line with quantity 2 and total `2*price` |
| `NewOrder.UpdateQuantity` | screens/NewOrderScreen.js:50-61 | the `map` then `filter` never adds lines; what it does to each line is fixed by `UpdateQuantityConcat`, `UpdateQuantityNoMatch`, `UpdateQuantityOne`, `UpdateQuantityAt` and `UpdateQuantityKeepsOthers` |
| `NewOrder.UpdateQuantityKeepsOthers` | screens/NewOrderScreen.js:51-60 | lines for other menu items are kept exactly, and every line kept for the item holds at least one unit |
| `NewOrder.UpdateQuantityConcat` | screens/NewOrderScreen.js:50-61 | changing a quantity works line by line, so the relative order of kept lines is preserved |
| `NewOrder.UpdateQuantityNoMatch` | screens/NewOrderScreen.js:50-61 | lines for other items are left alone; with no line for the id the draft is unchanged |
| `NewOrder.UpdateQuantityAt` | screens/NewOrderScreen.js:50-61 | in a draft with distinct line ids, the line for the id is dropped when its new quantity is at most 0 and otherwise gets the new quantity and total in place; the other lines stay, in order |
| `NewOrder.UpdateQuantityOnly` | screens/NewOrderScreen.js:50-61 | when only one line is for the id, the change touches that line alone |
| `NewOrder.UpdateQuantityOne` | screens/NewOrderScreen.js:52-57 | a single line for the id is adjusted when the new quantity is positive, and dropped otherwise |
| `NewOrder.UpdateQuantityKeepsWellFormed` | screens/NewOrderScreen.js:50-61 | changing a quantity keeps the draft's three invariants |
| `NewOrder.ReplaceLineKeepsWellFormed` | screens/NewOrderScreen.js:55 | putting a sound line for the same item in place of a line keeps the invariants |
| `NewOrder.RemoveLineKeepsWellFormed` | screens/NewOrderScreen.js:57-60 | dropping a line keeps the invariants |
| `NewOrder.UpdateQuantityTotal` | screens/NewOrderScreen.js:20-23 | after a quantity change, the total replaces the old line total with the new one, or drops it with the line |
| `NewOrder.RemoveWholeQuantity` | screens/NewOrderScreen.js:50-61 | taking away a line's whole quantity removes the line, and the total no longer counts it |
| `NewOrder.AcaiScenario` | screens/NewOrderScreen.js:25-61 | an item at 35.50 added once and then raised by one gives a single line of 2 units worth 71.00, which is also the total |
| `NewOrder.FinalizedOrderConsistent` | screens/NewOrderScreen.js:63-75 | a non-empty well-formed draft becomes an open order whose total is the sum of its lines, whose table is `Balcão` when the typed table is blank and the trimmed text otherwise (never empty), and whose notes are trimmed |
| `NewOrder.Draft.constructor` | screens/NewOrderScreen.js:8-11 | the draft starts with no lines, total 0, and empty table and notes |
| `NewOrder.Draft.AddItem` | screens/NewOrderScreen.js:20-48 | the lines become `AddItemToOrder` of the old lines, and the total is kept equal to their sum |
| `NewOrder.Draft.ChangeQuantity` | screens/NewOrderScreen.js:50-61 | the lines become `UpdateQuantity` of the old lines, and the total is kept equal to their sum |
| `NewOrder.Draft.Finalize` | screens/NewOrderScreen.js:63-84 | an empty draft is refused with nothing recorded and nothing changed; otherwise exactly the `FinalizeData` order is recorded in the store and the draft is cleared |
| `NewOrder.Draft.Clear` | screens/NewOrderScreen.js:77-79 | after recording, the draft has no lines, a zero total and empty table and notes, and is still valid |
| `OrderList.NextStatus` | screens/OrderListScreen.js:32-41 | advancing is refused exactly for `Pago` and `Cancelado`; otherwise it proposes a status from the five-status list |
| `OrderList.StatusesDistinct` | screens/OrderListScreen.js:11 | the five workflow statuses are different strings, so each has one position in the list |
| `OrderList.NextStatusTable` | screens/OrderListScreen.js:11 | `Aberto` advances to `Em Preparo`, `Em Preparo` to `Pronto`, `Pronto` to `Pago`; `Pago` and `Cancelado` are refused |
| `OrderList.NextStatusStep` | screens/OrderListScreen.js:33-37 | a non-terminal status in the list moves one position along it; a status missing from the list (`indexOf` is -1) advances to `Aberto` |
| `OrderList.NextStatusNeverCancels` | screens/OrderListScreen.js:36-37 | advancing never yields `Cancelado` and never leaves the status as it was |
| `OrderList.HandleChangeStatus` | screens/OrderListScreen.js:32-60 | a terminal order is refused with no store call; a declined confirmation makes no store call; a confirmed advance sets exactly the proposed status through the store |
| `OrderList.FilterByStatus` | screens/OrderListScreen.js:16-21 | `Todos` returns all orders; any other filter returns exactly the orders with that status, each kept as many times as it is stored |
| `OrderList.WithStatus` | screens/OrderListScreen.js:20 | the filtered orders are exactly the stored orders with the status, each kept as many times as it is stored |
| `OrderList.SortNewestFirst` | screens/OrderListScreen.js:22 | after the in-place sort, timestamps do not increase along the array and the array holds a permutation of its old contents |
| `OrderList.Insert` | screens/OrderListScreen.js:22 | one insertion step extends the sorted prefix by one element and keeps the contents a permutation |
| `OrderList.Swap` | screens/OrderListScreen.js:22 | exchanges two elements and touches nothing else |
| `OrderList.LoadOrders` | screens/OrderListScreen.js:13-24 | the shown list is sorted newest first and is a permutation of the filtered orders |
| `OrderList.ShownOrders` | screens/OrderListScreen.js:16-22 | every shown order is a stored order the filter selects, and with `Todos` every stored order is shown |
| `AddMenuItem.InitialForm` | screens/AddMenuItemScreen.js:9-14 | a new item's form starts empty, not special and `Disponível`; in edit mode the fields come from the edited item |
| `AddMenuItem.PriceInput` | screens/AddMenuItemScreen.js:24 | only the first comma of the price text becomes a dot; everything else is kept |
| `AddMenuItem.ValidateForm` | screens/AddMenuItemScreen.js:19-38 | an empty name or price text is refused first; then a price that does not parse or is not above 0 is refused; a form is accepted exactly when the name and price text are non-empty and the price parses to a number above 0; an accepted form becomes an update that keeps the edited item's id in edit mode, otherwise a new-item draft |
| `AddMenuItem.AcceptedIsValid` | screens/AddMenuItemScreen.js:20-46 | every accepted submission stores an item with a non-empty name and a price above 0, in both modes |
| `AddMenuItem.BlankNameAccepted` | screens/AddMenuItemScreen.js:20 | names are not trimmed, so a name made only of a space is accepted |
| `AddMenuItem.PriceInputExample` | screens/AddMenuItemScreen.js:24 | `35,50` becomes `35.50` |
| `AddMenuItem.PriceInputFirstCommaOnly` | screens/AddMenuItemScreen.js:24 | in `1,2,3` only the first comma becomes a dot: `1.2,3` |
| `AddMenuItem.HandleSaveItem` | screens/AddMenuItemScreen.js:19-53 | a refused form reaches no store call; an accepted one updates the edited item in edit mode, or adds the stamped new item otherwise |

## Left out

- Storage and serialisation: AsyncStorage and `JSON.stringify`/`JSON.parse` are replaced by the two fields of `Store`. A key that was never written and a stored empty list read the same way, so both are modelled as the empty list. The console logging of failures is not modelled.
- Clock: `Date.now().toString()` ids and `new Date().toISOString()` timestamps are parameters. A timestamp is a millisecond count, and `new Date(b) - new Date(a)` is integer subtraction.
- Number handling: JavaScript floating point and `toFixed(2)` display are not modelled. Prices are exact reals. `parseFloat` is a parameter; values it can return that are not reals (Infinity) are not modelled.
- Name sorting with `localeCompare` in the new-order screen's menu (screens/NewOrderScreen.js:15) is locale dependent, so it is not modelled. `AvailableItems` keeps store order.
- SortNewestFirst: proves that the result is sorted and a permutation. It does not prove that orders with equal timestamps keep their relative order, which `Array.prototype.sort` guarantees.
- UpdateQuantity: its own contract only bounds the length. Its meaning is proved in `UpdateQuantityAt` for drafts with distinct line ids, which is the only kind the screen builds.
- The error branches of `handleFinalizeOrder` and `handleSaveItem` (`catch` around the store call) are not modelled. The store swallows every storage error, so those calls never throw.
- The confirmation dialog of `handleChangeStatus` is the `confirmed` parameter. The reload after a status change is `LoadOrders`, called separately.
- React state hooks, focus effects, alerts, navigation and styles are not modelled. The text inputs for table and notes are direct assignments to the `Draft` fields.
- screens/ManageMenuScreen.js, screens/HomeScreen.js and navigation/AppNavigator.js are UI and routing only; they are not part of this model.
