# Cart store model

This project models the client-side shopping cart store of the storefront, defined
in `src/contexts/cart.ts`, and proves the properties it promises. The store holds an
ordered sequence of line items (`id`, `title`, `price`, `image`, `quantity`) and a
stored `total`. Four operations replace that state:

- `addItem` merges the item into the line with the same id, or appends it.
- `removeItem` filters out every line with the id.
- `updateQuantity` overwrites the quantity of every line with the id.
- `clearCart` resets the state.

The first three recompute the total with
`reduce((sum, i) => sum + i.price * i.quantity, 0)`.

The project has three modules:

- `CartItems` (`cart_items.dfy`) holds the values and the pure updates. These are the
  `find`, `map`, `filter` and spread expressions that each operation uses to build its
  new item array, plus the `reduce` that computes the total.
- `CartProperties` (`cart_properties.dfy`) holds the lemmas about those updates:
  - the recomputed total;
  - one line per id;
  - insertion order;
  - absent ids;
  - that only the named line changes.
- `Cart` (`cart_store.dfy`) holds the store itself. It is a class whose fields `items`
  and `total` are reassigned by one method per operation. A ghost `notices` log
  records the toasts.

The two invariants are "`total` equals the sum over the items" and "one line per id".
`CartStore.Valid()` states both. Every operation preserves them:

- The total invariant holds unconditionally, because each operation recomputes or
  resets the total.
- The uniqueness invariant holds whenever ids were unique beforehand.

Ids are `string | number` and are compared with `===`. The datatype
`ItemId = Str(...) | Num(...)` models them, so the string `"1"` never matches the
number `1`. Prices and quantities are integers. `updateQuantity` accepts any value,
including zero and negative quantities.

The specification of the system says that a quantity is always at least 1. The code
does not enforce this: `updateQuantity` (`src/contexts/cart.ts:67-79`) stores whatever
number it receives. The model follows the code, so `quantity` is an unconstrained `int`
and no member requires it to be positive.

The `map` calls in `addItem` and `updateQuantity` update every line carrying the id,
and the `filter` in `removeItem` drops every such line. The general lemmas
(`MergeEach`, `UpdateEach`, `AddTotal`, `RemoveTotal`, `UpdateTotal`, `FindAfterAdd`,
`FindAfterRemove`, `FindAfterUpdate`) follow the code exactly and need no uniqueness.
The `...At` lemmas restate them for a cart with one line per id, the state the store
keeps.

## Model

| member | source | states |
|---|---|---|
| CartItems.Find | src/contexts/cart.ts:30 | `find` by strict id: it returns nothing exactly when no line carries the id; otherwise it returns a line of the cart with that id |
| CartItems.MergeQuantity | src/contexts/cart.ts:32-36 | the merging `map` of `addItem` keeps the ids of the lines, in order |
| CartItems.MergeItem | src/contexts/cart.ts:30-37 | after `addItem` the id is present; the ids are unchanged if it was already present, otherwise the new id is appended at the end |
| CartItems.FilterOut | src/contexts/cart.ts:52 | after the `filter` of `removeItem` no line carries the id; a line is kept exactly when it was in the cart with a different id; the cart never grows |
| CartItems.SetQty | src/contexts/cart.ts:69-71 | the `map` of `updateQuantity` keeps the ids of the lines, in order |
| CartProperties.SumAppend | src/contexts/cart.ts:43-46 | the `reduce` total of a concatenation is the sum of the totals of its parts |
| CartProperties.LinesOfUnique | src/contexts/cart.ts:43-46 | in a cart with one line per id, the price and the contribution to the total collected for an id are those of its single line |
| CartProperties.LinesOfAbsent | src/contexts/cart.ts:43-46 | an id with no line has no price and contributes nothing to the total |
| CartProperties.FindUnique | src/contexts/cart.ts:30 | in a cart with one line per id, looking up a line's id finds that very line |
| CartProperties.MergeQuantityAbsent | src/contexts/cart.ts:32-36 | the merging `map` changes nothing when no line carries the incoming id |
| CartProperties.MergeEach | src/contexts/cart.ts:32-36 | line by line, the merge adds the incoming quantity to every line with the incoming id, keeps that line's title, price and image, and leaves every other line as it was; the length is kept |
| CartProperties.MergeQuantityAt | src/contexts/cart.ts:32-36 | in a cart with one line per id, the merge changes only the matching line, whose quantity becomes old plus incoming |
| CartProperties.AddNewAppends | src/contexts/cart.ts:30-37 | `addItem` with a new id grows the cart by one, keeps every earlier line in place, puts the item last, and keeps ids unique |
| CartProperties.AddExistingMerges | src/contexts/cart.ts:30-36 | `addItem` with an id already present in a cart with one line per id gives the old cart with only that line's quantity raised by the incoming quantity; its title, price and image are kept |
| CartProperties.AddPreservesUnique | src/contexts/cart.ts:30-37 | `addItem` keeps one line per id |
| CartProperties.AddSameIdTwice | src/contexts/cart.ts:30-37 | adding the same new id twice gives one appended line whose quantity is the sum of both |
| CartProperties.FindAfterAdd | src/contexts/cart.ts:30-37 | after `addItem` every other id finds what it found before; the incoming id finds the old line with the quantities added, or the item itself when it was new |
| CartProperties.MergeQuantityTotal | src/contexts/cart.ts:32-46 | the total after the merge grows by the incoming quantity times the unit prices of the matching lines |
| CartProperties.AddTotal | src/contexts/cart.ts:28-48 | the total after `addItem` is the old sum plus the incoming quantity at the matching lines' unit prices, or plus the new line's price times quantity when the id was absent |
| CartProperties.AddTotalAt | src/contexts/cart.ts:28-48 | in a cart with one line per id, adding to the line at k raises the total by that line's price times the incoming quantity |
| CartProperties.RemoveAbsent | src/contexts/cart.ts:52 | removing an id that is not in the cart leaves the items unchanged |
| CartProperties.RemoveKeepsOrder | src/contexts/cart.ts:52 | the filter distributes over concatenation, so the remaining lines keep their relative order |
| CartProperties.RemoveAt | src/contexts/cart.ts:52 | in a cart with one line per id, `removeItem` cuts out exactly the matching line and keeps the rest in order |
| CartProperties.RemoveIdempotent | src/contexts/cart.ts:52 | removing the same id twice gives the same items as removing it once |
| CartProperties.RemovePreservesUnique | src/contexts/cart.ts:52 | `removeItem` keeps one line per id |
| CartProperties.FindAfterRemove | src/contexts/cart.ts:52 | after `removeItem` the id finds nothing and every other id finds what it found before |
| CartProperties.RemoveTotal | src/contexts/cart.ts:50-65 | the total after `removeItem` is the old sum less what the removed lines contributed |
| CartProperties.RemoveTotalAt | src/contexts/cart.ts:50-65 | in a cart with one line per id, removing the line at k lowers the total by that line's price times quantity |
| CartProperties.UpdateAbsent | src/contexts/cart.ts:69-71 | updating an id that is not in the cart leaves the items unchanged |
| CartProperties.UpdateEach | src/contexts/cart.ts:69-71 | line by line, `updateQuantity` gives every line with the id the new quantity and keeps its other fields; every other line is kept; the length is kept |
| CartProperties.UpdateAt | src/contexts/cart.ts:69-71 | in a cart with one line per id, `updateQuantity` changes only the matching line's quantity |
| CartProperties.UpdatePreservesUnique | src/contexts/cart.ts:69-71 | `updateQuantity` keeps one line per id |
| CartProperties.UpdateLastWins | src/contexts/cart.ts:69-71 | a second `updateQuantity` of the same id overrides the first |
| CartProperties.FindAfterUpdate | src/contexts/cart.ts:69-71 | after `updateQuantity` the id finds its old line with the new quantity, and every other id finds what it found before |
| CartProperties.UpdateTotal | src/contexts/cart.ts:67-79 | the total after `updateQuantity` is the old sum less the matching lines' contribution plus their unit prices times the new quantity |
| CartProperties.UpdateTotalAt | src/contexts/cart.ts:67-79 | in a cart with one line per id, setting the quantity of the line at k moves the total by its price times the change in quantity |
| CartProperties.RemoveExample | src/contexts/cart.ts:50-65 | lines 1 (5 x 2) and 2 (3 x 1) total 13; removing id 1 leaves line 2 and total 3 |
| CartProperties.StrictIdExample | src/contexts/cart.ts:50-71 | the string id "1" neither removes nor updates the line whose id is the number 1 |
| Cart.CartStore.constructor | src/contexts/cart.ts:25-26 | the store starts with no items, total 0 and no toasts, and satisfies both invariants |
| Cart.CartStore.AddItem | src/contexts/cart.ts:28-48 | the items become the merge of the old items with the item; the total is their sum, that is, the old sum plus the added amount; one toast is logged; ids stay unique |
| Cart.CartStore.RemoveItem | src/contexts/cart.ts:50-65 | the items become the old items without the id; the total is their sum, that is, the old sum less the removed lines; one toast is logged even for an absent id; an absent id changes neither the items nor, in a valid store, the total; ids stay unique |
| Cart.CartStore.UpdateQuantity | src/contexts/cart.ts:67-79 | the matching lines get the new quantity; the total is the new sum, moved by the quantity change; no toast; an absent id leaves the items unchanged; ids stay unique |
| Cart.CartStore.ClearCart | src/contexts/cart.ts:81 | the store is empty with total 0 and satisfies both invariants; no toast |
| Cart.ClearCartTwice | src/contexts/cart.ts:81 | clearing twice leaves the same state as clearing once: no items and total 0 |
| Cart.MergeOnAdd | src/contexts/cart.ts:28-48 | adding id "p1" at price 10 with quantity 1 and then with quantity 2 leaves one line of quantity 3, total 30 and two toasts |

## Left out

- Toasts (`src/contexts/cart.ts:39`, `54-56`): the message text and the `sonner` library call are not modelled. The ghost `notices` log records only which operation raised a toast for which id.
- Persistence through zustand `persist` and `createJSONStorage(() => localStorage)` (`src/contexts/cart.ts:83-86`) is not modelled. It is browser storage plus serialisation inside a library whose code is not part of this model.
- The zustand `create`/`set` machinery and subscriber notification (`src/contexts/cart.ts:22-24`) are not modelled. Each operation is an atomic reassignment of `items`, `total` and `notices`.
- JavaScript numbers are modelled as unbounded integers:
  - `price` and `quantity` are `int`, so floating-point rounding of fractional prices is not modelled.
  - Numeric ids are `int`, so ids that are fractional, `NaN` or negative zero are not modelled.
- The truthiness test on the result of `find` (`src/contexts/cart.ts:31`) is modelled as "a line was found". A found line is an object, so it is always truthy.
- The user-interface files (`SearchProduct.tsx`, `floating-navbar.tsx`, `Footer.tsx`, `page.tsx`) are not part of this model. They hold presentation, network and animation code, not cart logic.
