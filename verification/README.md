# Restaurant ordering site: the business rules, in Dafny

This project models the business rules of a small restaurant site that takes pickup orders. The
site is written in TypeScript and React, and the rules are stated here as pure Dafny functions.
Money is in integer cents and time is in whole minutes since today's midnight.

- **Shared cart** (`CartStore`). The cart is an ordered list of lines keyed by dish id. It
  supports add, remove, set-quantity and clear. The item count and price total are folds over
  the lines.
- **Cart panel** (`LocalCart`). The slide-out panel keeps its own list. Its quantity rule
  differs from the shared cart's: asking for fewer than one item is ignored there, where the
  shared cart removes the line.
- **Checkout** (`PickupSlots`, `Checkout`). "Now" is rounded up to a 15-minute boundary and
  moved into the 11:00–22:00 window (or, after closing, to tomorrow's opening, which leaves no
  slots today), and the slots are listed from there. Each slot becomes an
  `HH:mm` value that is read back when the order is placed. The details step is gated. An
  order is written as one `orders` row plus one `order_items` row per cart line.
- **Orders** (`OrderBook`, `OrdersPage`). The five statuses are shared by the customer's
  order page and the staff dashboard. Both split orders into an in-progress list and a
  finished list, and the customer page shows a status badge and an action button.
- **Staff dashboard** (`Staff`). It covers:
  - the access guard;
  - the status buttons, which form a small state machine with two terminal states;
  - the sales figures: completed and cancelled counts, total sales, and sales per month;
  - the toggle-active payload of a dish, and the dish form's state.
- **Menu** (`Menu`). The search box and category tabs.
- **Home page widgets** (`Testimonials`, `PopularDishes`). The testimonial carousel index and
  the popular-dishes scroll position.

`Seqs` holds the two list primitives the pages are built on: `filter` (`Filter`) and
`reduce`-to-a-sum (`Sum`), along with the facts about them that the proofs use. `Wrappers`
holds `Option`, which stands for `null`, `undefined` and failed parses.

Some points of the design:

- The month key of an order (`format(created_at, 'MMM yyyy')`) is kept abstract as a string
  field of the order.
- The monthly figures are an association list in first-seen order. That is the iteration order
  of a JavaScript object with such keys.
- A status string outside the five known statuses is in neither order list. The badge lookup
  falls back to "Processing" for such a status, but since the page lists only the two tabs'
  orders, that fallback is never displayed.
- The popular-dishes strip defines a left and a right scroll handler, but attaches neither to an
  element and never renders the position. The model is of the handlers as written.
- The staff page's access outcome `Denied` stands for "render, then redirect". Once loading
  is over, the page returns the dashboard markup for every visitor, and its order and dish
  fetches start on mount. A denied visitor is sent away by an effect that runs after that render.
- Adding a dish that is already in the cart raises the price total by the price stored on the
  line, not by the price on the dish passed in.
- The "Add New Dish" button resets the form and then flips the visibility value it saw at
  click time. So on an open form it closes the form rather than reopening it on a fresh draft.
- The "-" button at quantity one behaves differently in the two carts. In the shared cart it
  removes the line. In the panel it does nothing.

## Model

| member | source | states |
|---|---|---|
| CartStore.Find | src/hooks/useCart.tsx:48 | the result is the position of the first line with the id, or None exactly when no line has it |
| CartStore.AddToCart | src/hooks/useCart.tsx:46-66 | a dish not in the cart is appended as one new line with quantity 1, and every earlier line is kept; a dish already in the cart adds 1 to the quantity of its line, and the length and every other line stay the same |
| CartStore.RemoveFromCart | src/hooks/useCart.tsx:68-70 | no remaining line has the id; every line with another id is kept; the result keeps the original order (a subsequence), and its length is the number of lines with another id, so every such line survives once per occurrence |
| CartStore.UpdateQuantity | src/hooks/useCart.tsx:72-83 | below one it is exactly `removeFromCart`; otherwise only the lines with the id get the new quantity, and the length and the other lines are unchanged |
| CartStore.ClearCart | src/hooks/useCart.tsx:85-91 | the result has zero items and zero price, and adding any dish to it gives a one-line cart |
| CartStore.TotalItems | src/hooks/useCart.tsx:93 | the empty cart holds no items, a one-line cart holds its line's quantity, and with every quantity at one or more the count is at least the number of lines |
| CartStore.TotalPrice | src/hooks/useCart.tsx:95-98 | the empty cart costs nothing, a one-line cart costs its price times its quantity, and with no negative price or quantity the total is not negative |
| CartStore.AddExistingRewritesOneLine | src/hooks/useCart.tsx:48-55 | when ids are unique, adding a dish that is present rewrites exactly its own line, with quantity plus one |
| CartStore.AddToCartTotals | src/hooks/useCart.tsx:46-98 | adding a dish raises the item count by exactly 1 and the price total by the price of the line that grew |
| CartStore.AddNewTotals | src/hooks/useCart.tsx:56-98 | a new dish raises the item count by 1 and the total by the dish's price |
| CartStore.AddExistingTotals | src/hooks/useCart.tsx:50-98 | a dish already present raises the item count by 1 and the total by the price stored on its line |
| CartStore.RemoveDeletesOneLine | src/hooks/useCart.tsx:68-98 | when ids are unique, removing a present id deletes exactly that position, and both totals drop by exactly that line's share |
| CartStore.RemoveAbsentIsIdentity | src/hooks/useCart.tsx:69 | removing an id that no line carries leaves the cart unchanged |
| CartStore.UpdateAbsentIsIdentity | src/hooks/useCart.tsx:72-83 | setting any quantity for an id that is in no line leaves the cart unchanged |
| CartStore.UpdateQuantityTotals | src/hooks/useCart.tsx:78-98 | setting a quantity of one or more replaces exactly one line, and both totals change by that line's difference alone |
| CartStore.MinusAtOneRemovesLine | src/pages/CartPage.tsx:73 | the "-" button on a line with quantity 1 deletes that line from the cart |
| CartStore.TotalItemsAtLeastLines | src/hooks/useCart.tsx:93 | in a valid cart the item count is at least the number of lines, and it is zero exactly for the empty cart |
| CartStore.FilterKeepsUniqueIds | src/hooks/useCart.tsx:69 | filtering lines out of a cart with unique ids keeps the ids unique |
| CartStore.ApplyKeepsValid | src/hooks/useCart.tsx:46-91 | each of add, remove, update and clear keeps the ids unique and every quantity at one or more |
| CartStore.RunKeepsValid | src/hooks/useCart.tsx:46-91 | any sequence of cart operations keeps the ids unique and every quantity at one or more |
| CartStore.ExampleTotals | src/hooks/useCart.tsx:93-98 | one biryani at 14.99 plus two naan at 2.99 make 3 items and 20.97 |
| LocalCart.UpdateQuantity | src/components/Cart.tsx:26-32 | below one the list is returned unchanged; otherwise only the lines with the id get the new quantity, and the length and the other lines are unchanged |
| LocalCart.RemoveItem | src/components/Cart.tsx:34-36 | no remaining line has the id; every other line is kept, in order, once per occurrence (the length is the number of lines with another id); removing an id no line carries leaves the list unchanged |
| LocalCart.Subtotal | src/components/Cart.tsx:38 | the empty list costs nothing, a one-line list costs its price times its quantity, and with no negative price or quantity the subtotal is not negative |
| LocalCart.RemoveItemSubtotal | src/components/Cart.tsx:34-38 | with unique ids, removing a present id deletes exactly its line, and the subtotal drops by that line's price times quantity |
| LocalCart.InitialPanel | src/components/Cart.tsx:13-27 | the panel opens on one line with a subtotal of 14.99, and the "-" button on it leaves the list as it is |
| LocalCart.UpdateQuantitySubtotal | src/components/Cart.tsx:29-38 | setting a quantity of one or more rewrites exactly one line, and the subtotal moves by that line's difference |
| LocalCart.MirrorsSameTotal | src/components/Cart.tsx:38 | a panel list showing the same lines as a shared cart has a subtotal equal to the cart's total price |
| LocalCart.MirrorsUnderPointUpdate | src/components/Cart.tsx:29-31 | setting the same quantity on the same line of two mirrored lists keeps them mirrored |
| LocalCart.UpdateAgreesFromOne | src/components/Cart.tsx:26-32 | for a quantity of one or more, the panel and the shared cart update alike, showing the same lines and the same money total |
| LocalCart.MinusAtOneDiverges | src/components/Cart.tsx:26-32 | at quantity 1 the "-" button removes the line and its money from the shared cart, while the panel's list stays exactly as it was |
| PickupSlots.RoundedStart | src/pages/Checkout.tsx:51-53 | the start is a multiple of 15, at or after the current minute and less than 15 minutes after it |
| PickupSlots.FirstSlot | src/pages/Checkout.tsx:55-64 | the first candidate is a multiple of 15 and not before opening; before closing it is the later of the rounded start and opening; exactly at closing it stays at closing; after closing it is tomorrow's opening |
| PickupSlots.AvailableTimeSlots | src/pages/Checkout.tsx:41-79 | every slot is a multiple of 15, from opening and strictly before closing, and not before the rounded start; the slots are strictly increasing, 15 minutes apart, and start at the later of the rounded start and opening; the list is empty exactly when the rounded start is at or after closing; every boundary in that window is listed |
| PickupSlots.SlotValue | src/pages/Checkout.tsx:72 | a slot's value is five characters: two digits, ':', two digits |
| PickupSlots.SlotLabel | src/pages/Checkout.tsx:73 | the label ends in "AM" exactly for slots before noon and in "PM" exactly for slots from noon on, after a single space; before that come ':' and the two-digit minute; it starts with the hour on a 12-hour clock, 12 for noon and midnight, written without a leading zero, and the hour digits run right up to the ':' |
| PickupSlots.Split | src/pages/Checkout.tsx:113 | splitting gives at least one piece, and no piece contains the separator |
| PickupSlots.JoinSplit | src/pages/Checkout.tsx:113 | joining the pieces of a split with the separator gives the text back |
| PickupSlots.LeadingDigits | src/pages/Checkout.tsx:115-116 | the result is the longest prefix made only of digits |
| PickupSlots.ParseInt | src/pages/Checkout.tsx:115-116 | parsing fails exactly when the text does not start with a digit |
| PickupSlots.PickupMinute | src/pages/Checkout.tsx:112-118 | a pickup time exists exactly when the text has at least two ':'-separated parts and both of the first two parse; it is then the first times 60 plus the second, which is what setting the hours and minutes of today gives |
| PickupSlots.TwoDigitsParse | src/pages/Checkout.tsx:115-116 | a two-digit field followed by a non-digit parses back to its number |
| PickupSlots.ParseDigits | src/pages/Checkout.tsx:115-116 | a non-empty run of digits followed by a non-digit or nothing parses to the decimal value of the run |
| PickupSlots.LeadingDigitsOfRun | src/pages/Checkout.tsx:115-116 | the digits `parseInt` reads from a run of digits followed by a non-digit are exactly that run |
| PickupSlots.SplitSlotValue | src/pages/Checkout.tsx:72-113 | a slot's value splits into exactly its hour field and its minute field |
| PickupSlots.SlotValueRoundTrip | src/pages/Checkout.tsx:72-116 | reading a slot's value back as a pickup time gives exactly that slot's minute of the day |
| Checkout.SubmitDetails | src/pages/Checkout.tsx:83-103 | no toast is shown exactly when time, name and phone are all given, and then the step is 2; a missing time is reported first, then a missing name or phone; after a toast the step is unchanged |
| Checkout.DetailsStepGate | src/pages/Checkout.tsx:86-102 | from step 1 the form reaches step 2 exactly when time, name and phone are all non-empty, and otherwise stays at step 1 |
| Checkout.UserIdOrNull | src/pages/Checkout.tsx:125 | the order carries an account id exactly when a user with a non-empty id is signed in, and then it is that id |
| Checkout.OrderItems | src/pages/Checkout.tsx:139-144 | there is one item row per cart line, in cart order, with the order's id and the line's dish id, quantity and price |
| Checkout.OrderItemsTotal | src/pages/Checkout.tsx:126-144 | the item rows' price-times-quantity sum equals the cart's total price |
| Checkout.PlaceOrder | src/pages/Checkout.tsx:105-144 | nothing is written exactly when the chosen time does not parse; otherwise the order row is "pending", with the cart's total, the user id or null, the parsed pickup time, the notes and the code, and the item rows are one per cart line |
| Checkout.PlaceOrderForSlot | src/pages/Checkout.tsx:72-144 | placing an order for any offered slot succeeds for exactly that slot; the item rows add up to the order total; a guest's order has no account |
| OrderBook.Parse | src/pages/Orders.tsx:33-39 | a parsed status has exactly the raw string as its name, and parsing fails exactly when no status has that name |
| OrderBook.ParseName | src/pages/Orders.tsx:33-39 | the names of the statuses are distinct, and parsing reads each one back |
| OrderBook.ListsSplitStatuses | src/pages/Staff.tsx:394-481 | the in-progress strings are exactly pending, preparing and ready, and the finished ones exactly completed and cancelled; no string is both, and a string is in one of them exactly when it is a known status |
| OrderBook.InProgress | src/pages/Staff.tsx:394 | the list holds exactly the orders whose status is pending, preparing or ready, in fetch order, and as many as there are such orders |
| OrderBook.Finished | src/pages/Staff.tsx:481-487 | the list holds exactly the orders whose status is completed or cancelled, in fetch order, and as many as there are such orders |
| OrderBook.ListsDisjoint | src/pages/Staff.tsx:394-487 | no order is in both lists |
| OrderBook.PartitionCount | src/pages/Staff.tsx:394-487 | the two lengths add up to the number of orders with a known status |
| OrdersPage.UpcomingOrders | src/pages/Orders.tsx:45-47 | the list holds exactly the pending, preparing and ready orders, in order, and as many as there are such orders |
| OrdersPage.PastOrders | src/pages/Orders.tsx:49-51 | the list holds exactly the completed and cancelled orders, in order, and as many as there are such orders |
| OrdersPage.TabsPartitionKnownOrders | src/pages/Orders.tsx:45-51 | the two tabs share no order, and together they hold as many orders as have a known status |
| OrdersPage.StatusLabel | src/pages/Orders.tsx:33-111 | the badge is "Processing" exactly for an unknown status; otherwise it is the status's own label |
| OrdersPage.StatusLabelsDistinct | src/pages/Orders.tsx:33-39 | distinct known statuses get distinct badges |
| OrdersPage.ActionLabel | src/pages/Orders.tsx:121 | the button reads "View QR Code" exactly when the status is "ready", and "Track Order" otherwise |
| OrdersPage.QrCodeWhenReadyForPickup | src/pages/Orders.tsx:111-121 | the action button reads "View QR Code" exactly on orders whose badge reads "Ready for Pickup" |
| Staff.AccessFor | src/pages/Staff.tsx:51-58 | the spinner shows exactly while loading; the visitor is sent away exactly when loading is done and they are signed out or not staff; the dashboard shows otherwise |
| Staff.OfferedTransitions | src/pages/Staff.tsx:413-449 | every offered target is a legal move from a known status; every legal move is offered, once; "Cancel", when shown, is the last button; completed and cancelled orders get no buttons |
| Staff.OfferedMovesForward | src/pages/Staff.tsx:413-449 | every offered target ranks strictly above the current status |
| Staff.PathRankClimbs | src/pages/Staff.tsx:413-449 | along a history of offered moves, the rank climbs by at least one per step |
| Staff.OfferedPathNeverRevisits | src/pages/Staff.tsx:413-449 | a history of offered moves never repeats a status and has at most four entries |
| Staff.UpdateOrderStatus | src/pages/Staff.tsx:178-183 | the update sets the status and changes no other field |
| Staff.UpdateLeavesInProgress | src/pages/Staff.tsx:394-487 | only in-progress orders have buttons; a button moves the order to the finished list exactly when it completes or cancels it |
| Staff.FindMonth | src/pages/Staff.tsx:98 | the result is the position of the first entry for the month, or None exactly when the month has no entry |
| Staff.AddSale | src/pages/Staff.tsx:98-102 | a new month is appended with the amount as its figure; for a month already present the falsy reset has no effect and its entry grows by the amount in place |
| Staff.MonthlySales | src/pages/Staff.tsx:91-103 | the figures have at most one entry per completed order, and at least one when there is any |
| Staff.AddSaleKeys | src/pages/Staff.tsx:98-102 | after a sale is added, a month has an entry exactly when it had one before or is the sale's month |
| Staff.AddSaleUnique | src/pages/Staff.tsx:98-102 | adding a sale keeps one entry per month |
| Staff.AddSaleSales | src/pages/Staff.tsx:98-102 | adding a sale credits its own month with the amount and leaves every other month's figure unchanged |
| Staff.AddSaleSum | src/pages/Staff.tsx:98-102 | adding a sale grows the sum of all entries by exactly the amount |
| Staff.MonthlySalesUnique | src/pages/Staff.tsx:91-103 | the monthly figures hold one entry per month |
| Staff.MonthlySalesMonth | src/pages/Staff.tsx:91-103 | each month's figure equals the total of the orders created in that month |
| Staff.MonthlySalesPerMonth | src/pages/Staff.tsx:91-103 | the monthly figures hold one entry per month, each equal to that month's order total |
| Staff.MonthlySalesKeys | src/pages/Staff.tsx:91-103 | a month has an entry exactly when some order was created in it |
| Staff.MonthlySalesSum | src/pages/Staff.tsx:91-103 | together the monthly figures add up to the total of all the orders |
| Staff.ComputeMetrics | src/pages/Staff.tsx:81-103 | the completed count is the number of completed orders and the cancelled count the number of cancelled ones, each counted one per order; together they are at most the number of orders; total sales is the sum over completed orders only; the monthly figures hold one entry per month, add up to total sales, and give each month the total of its completed orders |
| Staff.SalesIgnoreUnfinished | src/pages/Staff.tsx:86-94 | an order that is not completed changes neither total sales nor any monthly figure |
| Staff.ToggleActivePayload | src/pages/Staff.tsx:312 | the payload is the opposite of the dish's current flag |
| Staff.ToggleTwiceRestores | src/pages/Staff.tsx:312 | two toggles give the dish back unchanged, and one toggle changes the flag and nothing else |
| Staff.ResetForm | src/pages/Staff.tsx:331-341 | no dish is being edited, the form is hidden, and the draft is empty with the first category ("biryani") selected |
| Staff.EditDish | src/pages/Staff.tsx:303-306 | the dish becomes the one being edited and the form is shown, with the draft untouched |
| Staff.AddNewDishClick | src/pages/Staff.tsx:533 | the click leaves no dish being edited and a fresh draft, and flips the visibility seen at click time |
| Staff.AfterSubmit | src/pages/Staff.tsx:234-301 | after a save no dish is being edited and the form is hidden; an edit keeps the draft, a creation leaves the default draft |
| Staff.ResetFormFacts | src/pages/Staff.tsx:260-341 | resetting is idempotent and forgets any dish being edited; after a new dish is saved the form equals the reset form; after an edit is saved the draft is kept and the form is hidden |
| Staff.AddNewDishToggles | src/pages/Staff.tsx:533 | the button opens a hidden form on a fresh draft and closes an open one; two clicks restore the visibility |
| Menu.MenuTabsMatchDishCategories | src/pages/Menu.tsx:12-20 | the tabs are "all" followed by exactly the dashboard's dish categories, in order |
| Menu.Lower | src/pages/Menu.tsx:104-105 | lowercasing keeps the length and leaves no capital letter; each capital becomes the letter 32 code points later, and every other character is unchanged |
| Menu.LowerIdempotent | src/pages/Menu.tsx:104-105 | lowercasing twice is the same as lowercasing once |
| Menu.Contains | src/pages/Menu.tsx:104-105 | the empty text occurs in every text, every text occurs in itself, and nothing longer than a text occurs in it |
| Menu.ContainsIff | src/pages/Menu.tsx:104-105 | `includes` holds exactly when the text occurs at some position |
| Menu.FilteredMenu | src/pages/Menu.tsx:103-109 | the result keeps menu order; it holds exactly the matching items, as many as match; with a tab other than "all" every result is in that category |
| Menu.MatchesIff | src/pages/Menu.tsx:104-108 | an item matches exactly when the lowercased search text occurs in its lowercased name or description, and the tab is "all" or the item's category |
| Menu.EmptySearchListsAll | src/pages/Menu.tsx:104-106 | an empty search on the "all" tab lists the whole menu |
| Menu.SearchIgnoresCase | src/pages/Menu.tsx:104-105 | two search texts with the same lowercase form list the same items |
| Menu.TabNarrowsAll | src/pages/Menu.tsx:106 | a category tab lists exactly the items of the "all" tab that are in that category |
| Testimonials.JsRem | src/components/Testimonials.tsx:35-39 | the remainder takes the dividend's sign and is smaller than the divisor in magnitude; below twice the divisor it is the plain reduction |
| Testimonials.Next | src/components/Testimonials.tsx:34-36 | from a valid index, the next index is valid and wraps from the last to the first |
| Testimonials.Prev | src/components/Testimonials.tsx:38-40 | from a valid index, the previous index is valid and wraps from the first to the last |
| Testimonials.NextPrevInverse | src/components/Testimonials.tsx:34-40 | next then prev, and prev then next, return to the same index |
| Testimonials.RunStaysInRange | src/components/Testimonials.tsx:34-121 | any mix of arrow clicks, dot clicks and timer ticks keeps the index on a testimonial, and when a dot click comes last, the index is exactly that dot |
| Testimonials.HomeCarousel | src/components/Testimonials.tsx:7-49 | started on the first of its three testimonials, the home page's carousel always shows one of them, and three timer ticks in a row bring it back to the one it showed |
| PopularDishes.ScrollLeft | src/components/PopularDishes.tsx:41-45 | it moves back by one unless at the first dish, where it stays |
| PopularDishes.ScrollRight | src/components/PopularDishes.tsx:47-51 | it moves on by one unless at the last dish, where it stays |
| PopularDishes.LeftUndoesRight | src/components/PopularDishes.tsx:41-51 | a right scroll that moved is undone by a left scroll |
| PopularDishes.RunStaysInRange | src/components/PopularDishes.tsx:39-51 | any sequence of handler calls keeps the position between the first and the last dish; right scrolls alone advance one dish per call until the last |
| PopularDishes.FromStartStaysInRange | src/components/PopularDishes.tsx:39-51 | from the initial position every sequence of handler calls stays on one of the four dishes |

## Left out

- Backend calls are not modelled: the Supabase queries, inserts, updates, realtime channels and session listeners. Only the payloads built for them and the values computed from their results are modelled. A failed insert or update is not modelled.
- Loading and saving the cart in `localStorage` (src/hooks/useCart.tsx:30-44) is I/O and is not modelled. A loaded cart can break the id and quantity invariants, so the invariant lemmas start from a valid cart.
- `src/hooks/useAuth.tsx` and `src/pages/Auth.tsx` are not part of this model: they are session glue over an external service. The signed-in and staff flags enter `Staff.AccessFor` as parameters.
- The cart page's routing and the checkout page's empty-cart redirect (src/pages/Checkout.tsx:36-39) are navigation only.
- Floating-point money is not modelled: `toFixed`, `parseFloat` in the dish form, and the dish form's price payloads. Prices are integer cents throughout.
- `Date`, time zones and date-fns formatting are not modelled, except the two slot formats `'HH:mm'` (`PickupSlots.SlotValue`) and `'h:mm a'` (`PickupSlots.SlotLabel`) at src/pages/Checkout.tsx:72-73. The current moment is an hour and a minute, a pickup time is a count of minutes after today's midnight, and an order's month key (`'MMM yyyy'`) is an abstract string.
- `Checkout.PlaceOrder`: it stops at the two inserts. After they succeed the source calls `clearCart()` (src/pages/Checkout.tsx:158), which empties the shared cart as `CartStore.ClearCart` states, and then navigates to the orders page. The function's result does not carry the emptied cart.
- The random QR code (src/pages/Checkout.tsx:110) and the order id assigned by the backend are parameters of `Checkout.PlaceOrder`.
- The five-second rotation timer (src/components/Testimonials.tsx:43-49) is modelled as a `Tick` event, with no notion of time.
- React state batching and re-render timing are not modelled. Each handler is one step from the state it saw.
- Success and error toasts, and the navigation after an order is placed or the cart is cleared, are not modelled, except the two checkout validation messages.
- `getStatusColor` and the badge colours are not modelled; they are presentation only.
- `PickupSlots.ParseInt`: its own contract states only when parsing fails; the value it returns is stated by `PickupSlots.ParseDigits`. It does not model `parseInt`'s skipping of leading blanks or its sign, because the times it reads come from the slot values, which have neither.
- `Menu.Lower`: it lowercases only the Latin capitals A to Z, not the full Unicode case mapping of `toLowerCase`.
- `Testimonials.JsRem`: its contract states the result exactly only for dividends below twice the divisor, which covers every dividend that the arrows produce from a valid index. For all other dividends it states only the sign and the range.
