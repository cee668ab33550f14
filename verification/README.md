# Cart state container, modelled in Dafny

The storefront keeps its shopping cart in a React context provider
(`src/context/CartContext.jsx`). The cart is an ordered list of line items.
Each line item is a product record plus a `quantity`. The provider exposes
two updaters, and each one replaces the whole list through
`setCart(prev => ...)`:

- `addToCart(product)` looks for a line item with the product's `id`. If it
  finds one, it maps over the list and gives every line item with that id one
  more unit, keeping the fields it was first added with. Otherwise it appends
  `{...product, quantity: 1}`.
- `updateQuantity(id, quantity)` maps over the list and writes `quantity`, as
  given, into every line item with that id. It does not clamp the value or
  remove the line item, and an unknown id changes nothing.

The cart's first value comes from the saved slot. When nothing (or the empty
text) is saved, the cart is `[]`. Otherwise it is whatever `JSON.parse` makes
of the saved text.

`cart_context.dfy` (module `CartContext`) models all of this as values:
`Item(id, quantity, fields)` is a line item, `Cart = seq<Item>` is the cart,
and `Id` and `Snapshot` are abstract types. `Id` is compared with `==`, as
the source compares with `===`; `Snapshot` holds every product field other
than `id` and `quantity`. `prev.find` and `prev.map` become `Find` and
`MapItems`. The two arrow functions mapped over the list become
`BumpMatching` and `RequantifyMatching`, which apply `BumpIfMatching` and
`RequantifyIfMatching` to each line item. The JSON decoder and encoder are
parameters. `cart_provider.dfy` (module `CartProvider`) wraps the updaters
in a class whose single `cart` field each method replaces with the
updater's result.

Three behaviours are worth stating, because a cart might be expected to do
otherwise:

- `updateQuantity` with a quantity below 1 keeps the line item and stores that
  quantity (`ZeroQuantityIsKept`). It does not remove the line item.
- A saved text that the decoder rejects makes the initialiser throw. It is not
  read as an empty cart: `InitialCart` returns `Err(MalformedSaved)`.
- The code has no `removeFromCart` and no `clearCart`, so neither is modelled.

## Model

| member | source | states |
|---|---|---|
| CartContext.Find | src/context/CartContext.jsx:17 | `prev.find` finds nothing exactly when no line item has the id; what it finds is a line item of the cart that has the id (`FindFirst` adds that it is the first) |
| CartContext.FindFirst | src/context/CartContext.jsx:17 | what `prev.find` returns is the FIRST line item with the id: no line item before it has the id |
| CartContext.MapItems | src/context/CartContext.jsx:26 | `prev.map(f)` keeps the length, and the item at each position is `f` of the old item at that position |
| CartContext.BumpIfMatching | src/context/CartContext.jsx:19 | the arrow function of `addToCart` (`BumpMatching`): a matching line item gets exactly one more unit, keeping its id and fields; any other is returned as it is; the `AddToCart` contract states its effect on the whole cart |
| CartContext.RequantifyIfMatching | src/context/CartContext.jsx:26 | the arrow function of `updateQuantity` (`RequantifyMatching`): a matching line item gets exactly the given quantity, keeping its id and fields; any other is returned as it is; the `UpdateQuantity` contract states its effect on the whole cart |
| CartContext.NewItem | src/context/CartContext.jsx:21 | `{...product, quantity: 1}` has the product's id and fields and quantity 1 |
| CartContext.AddToCart | src/context/CartContext.jsx:15-23 | the length grows by one exactly when the id is new; every old position keeps its id and fields; only the matching positions gain one unit; a new id's item sits at the end with quantity 1 |
| CartContext.UpdateQuantity | src/context/CartContext.jsx:25-27 | the length, ids and fields are kept; matching positions hold exactly the given quantity and the other positions keep theirs |
| CartContext.InitialCart | src/context/CartContext.jsx:6-9 | a missing or empty saved text gives `[]`; a non-empty one gives the decoded cart, and a decoder failure gives an error instead of an empty cart |
| CartContext.AddNewAppends | src/context/CartContext.jsx:17-21 | adding an id the cart lacks returns the old cart with exactly one item appended, which has quantity 1 and the product's fields |
| CartContext.AddExistingBumps | src/context/CartContext.jsx:17-19 | when exactly one item has the id, the length stays, that item gains exactly one unit and keeps its original fields (not the new product's), and every other item is unchanged |
| CartContext.AddKeepsUnique | src/context/CartContext.jsx:17-21 | adding to a cart with unique ids leaves the ids unique |
| CartContext.AddIds | src/context/CartContext.jsx:17-21 | adding keeps the id order; a new id is appended last and an existing id adds nothing to the list of ids |
| CartContext.TotalAfterAdd | src/context/CartContext.jsx:19-21 | adding raises the sum of quantities by 1 for a new id and by the number of items that have the id otherwise |
| CartContext.TotalAfterAddUnique | src/context/CartContext.jsx:19-21 | on a cart with unique ids, adding raises the sum of quantities by exactly 1 |
| CartContext.UpdateUnknownIsNoOp | src/context/CartContext.jsx:26 | updating an id that no item has returns the cart unchanged |
| CartContext.UpdateShape | src/context/CartContext.jsx:26 | updating keeps the ids in order; matching items become `Item(id, q, fields)` for any `q`, including `q <= 0`; other items are unchanged |
| CartContext.UpdateKeepsUnique | src/context/CartContext.jsx:26 | updating a cart with unique ids leaves the ids unique |
| CartContext.UpdateIdempotent | src/context/CartContext.jsx:26 | updating twice with the same id and quantity is the same as updating once |
| CartContext.TotalAfterUpdateUnique | src/context/CartContext.jsx:26 | on a cart with unique ids, updating the item at `k` changes the sum of quantities by the new quantity minus the old one |
| CartContext.AddAllDistinct | src/context/CartContext.jsx:15-23 | adding products with distinct ids that the cart lacks appends their items in order, each with quantity 1 |
| CartContext.AddAllDistinctFromEmpty | src/context/CartContext.jsx:15-23 | starting empty, n products with distinct ids give n items, each with quantity 1 |
| CartContext.AddRepeatedly | src/context/CartContext.jsx:15-23 | adding the same product n times to a cart that lacks its id gives one item for it, at the end, with quantity n |
| CartContext.ZeroQuantityIsKept | src/context/CartContext.jsx:15-27 | empty, then add, add again, set 5, set 0: the quantities go 1, 2, 5, 0, and the item is still there at the end |
| CartContext.ReloadAfterSave | src/context/CartContext.jsx:6-13 | if the codec round-trips, reloading the text the effect saved gives back the same cart; with JSON as a parameter, all this adds is that a non-empty saved text is decoded rather than defaulted to `[]` |
| CartProvider.CartStore.constructor | src/context/CartContext.jsx:6-9 | the cart starts as the initialiser's value, and as `[]` when nothing is saved |
| CartProvider.CartStore.AddToCart | src/context/CartContext.jsx:15-23 | the cart is replaced by the `addToCart` updater's result; unique ids stay unique and the total rises by exactly 1 |
| CartProvider.CartStore.UpdateQuantity | src/context/CartContext.jsx:25-27 | the cart is replaced by the `updateQuantity` updater's result; length and unique ids are kept |

## Left out

- Storage: `localStorage.getItem` and `setItem` (src/context/CartContext.jsx:7, 12) are browser I/O. The saved text is a parameter of `InitialCart`, and the save effect appears only as the encoder in `ReloadAfterSave`.
- JSON: `JSON.parse` and `JSON.stringify` are library calls, so they are parameters. A decoder that returns something other than an array of line items is folded into the decoder's result.
- React plumbing: `createContext`, `useState`, `useEffect`, the provider component and `useCart` are not modelled. `setCart(prev => f(prev))` is modelled as replacing the cart with `f(cart)`.
- Numbers: quantities are unbounded integers. JavaScript numbers are doubles, which can be `NaN` (from `parseInt` in src/pages/Cart.jsx:41) or lose precision above 2^53. Neither is modelled.
- The cart page: the total and subtotal (src/pages/Cart.jsx:6, 33, 48) are floating-point `price * quantity` sums, formatted for display. The `min="1"` attribute is a browser hint that `updateQuantity` does not enforce.
- Fetching with axios, navigation and rendering (src/pages/ProductDetail.jsx, src/pages/ProductList.jsx, src/components/ProductCard.jsx, src/App.js) are I/O and views, not cart logic.
- CartProvider.CartStore.constructor: requires the initialiser to succeed. When the saved text does not decode, the provider throws during its first render and no store exists; that failure is stated by `InitialCart` instead.
- CartContext.TotalAfterAddUnique: requires unique ids. With duplicate ids, which only loaded data could bring in, the total rises by the number of matching items, as `TotalAfterAdd` states.
- CartContext.TotalAfterUpdateUnique: requires unique ids. With duplicate ids, every matching item takes the new quantity.
