# Easy Shop cart, modelled in Dafny

Easy Shop is an iOS storefront. Its in-memory shopping cart lives in
`Easy_Shop/Product.swift`. This project models that cart and proves what it does.

- A `Product` record has an integer id, a name, a description, a price and an image name.
- There is a fixed catalog of ten products, with ids 1 to 10.
- The product list screen owns the cart. The cart is a plain array of products.
  "Add to Cart" appends the tapped product to the array.
- The cart screen gets a binding to that same array. It shows the total, which is a
  fold of the prices starting from 0. A swipe-to-delete removes the entries at a set
  of offsets.

Modules:

- `Catalog` (`catalog.dfy`): the `Product` datatype, which models the `Product`
  struct (`Easy_Shop/Product.swift:29-35`) field for field, and the ten-product catalog.
- `Offsets` (`offsets.dfy`): what `remove(atOffsets:)` does to a sequence.
  `RemoveAt` gives the entries that stay and `EntriesAt` gives the entries removed.
  `Positions` lists the indices below a length that are in, or not in, the offsets, ascending.
- `Pricing` (`pricing.dfy`): the reference sum `Total` and the left fold
  `FoldPrices` that `totalPrice` runs. It also holds the lemmas on appending,
  reordering and removal.
- `Shop` (`shop.dfy`): the two screens as classes.
  - `CartState` is the storage behind the list's `@State` cart.
  - `ProductListView` holds that storage and appends to it.
  - Its `OpenCart` hands the same object to a `CartView`. This is how the model
    captures the `@Binding`: both screens see one shared array.
  - `CartWalkthrough` is a client. It adds products `p`, `q`, `p`, opens the cart
    and deletes row 0. It shows that the duplicate is priced twice and that the
    other copy stays.

Prices are Swift `Double`s. Here they are exact `real`s.

## Model

| member | source | states |
|---|---|---|
| `Catalog.CatalogShape` | Easy_Shop/Product.swift:45-56 | the catalog has ten products with ids 1 to 10 in order, so the ids are distinct; every product has a name and a price above zero |
| `Pricing.FoldPrices` | Easy_Shop/Product.swift:146-148 | the `reduce` fold of the prices from accumulator `acc` equals `acc` plus the sum of every entry's price |
| `Shop.CartView.TotalPrice` | Easy_Shop/Product.swift:146-148 | `totalPrice()` equals the sum of `price` over every entry of the shared cart; an empty cart totals 0 |
| `Pricing.TotalConcat` | Easy_Shop/Product.swift:147 | the total of two carts laid end to end is the sum of their totals |
| `Pricing.TotalAppend` | Easy_Shop/Product.swift:100-102 | appending one product raises the total by exactly that product's price |
| `Pricing.TotalPermutation` | Easy_Shop/Product.swift:147 | the total depends only on the multiset of entries: any rearrangement of the cart has the same total |
| `Pricing.AddTwiceCountsTwice` | Easy_Shop/Product.swift:101 | adding the same product twice leaves two entries for it at the end, its multiplicity grows by two, and the total grows by twice its price |
| `Pricing.RemoveAtTotal` | Easy_Shop/Product.swift:150-152 | after removal at a set of offsets, the total is the old total minus the prices of the removed entries |
| `Offsets.RemoveAt` | Easy_Shop/Product.swift:151 | what `remove(atOffsets:)` leaves: entry `j` is the original entry at the `j`-th index outside the offsets (completed by `RemoveAtSpec`) |
| `Offsets.EntriesAt` | Easy_Shop/Product.swift:151 | the entries `remove(atOffsets:)` takes out: entry `j` is the original entry at the `j`-th index in the offsets |
| `Offsets.RemoveAtSpec` | Easy_Shop/Product.swift:150-152 | with every offset a valid index, removal drops the length by the number of distinct offsets; survivor `j` is the entry at the `j`-th index outside the offsets; those indices ascend, so order is kept; every index outside the offsets survives |
| `Offsets.RemoveAtPartition` | Easy_Shop/Product.swift:151 | every entry either survives or is removed, never both: the survivors and the removed entries together are the original multiset |
| `Offsets.EntriesAtCount` | Easy_Shop/Product.swift:151 | with every offset a valid index, exactly as many entries are removed as there are offsets |
| `Offsets.PositionsSpec` | Easy_Shop/Product.swift:151 | the selected indices ascend strictly and are exactly the indices below the length that are in the offsets (or, for survivors, not in them) |
| `Offsets.FilterAtPositions` | Easy_Shop/Product.swift:151 | entry `j` of the removal result (or of the removed entries) is the original entry at the `j`-th selected index |
| `Offsets.RemoveAtSingle` | Easy_Shop/Product.swift:150-152 | deleting the single row `i` leaves the entries before `i` followed by the entries after it |
| `Offsets.RemoveAtNone` | Easy_Shop/Product.swift:151 | offsets that miss every index leave the cart as it was |
| `Shop.CartState.constructor` | Easy_Shop/Product.swift:43 | the cart storage starts empty |
| `Shop.ProductListView.constructor` | Easy_Shop/Product.swift:41-56 | the screen shows the fixed catalog and owns a fresh, empty cart whose total is 0 |
| `Shop.ProductListView.AddToCart` | Easy_Shop/Product.swift:100-102 | the new cart is the old cart with the product appended: the length grows by one, the last entry is the product, earlier entries are unchanged, and the total grows by its price |
| `Shop.ProductListView.OpenCart` | Easy_Shop/Product.swift:94 | the cart screen gets the list's own cart object (a binding), not a copy |
| `Shop.CartView.constructor` | Easy_Shop/Product.swift:109-110 | the cart screen works on the cart storage it is given |
| `Shop.CartView.DeleteProduct` | Easy_Shop/Product.swift:150-152 | requires every offset to be a valid index; the new cart is exactly the old one without the entries at the offsets; the length drops by the number of offsets; the total drops by the prices of the removed entries |

## Left out

- SwiftUI layout is not modelled: the `body` views, `NavigationView`/`NavigationLink`
  routing and the `Cart (n)` badge. These are presentation with no behaviour to prove.
- The unused `WelcomePagee` view is not modelled, for the same reason.
- The `%.2f` price formatting (`Easy_Shop/Product.swift:70`, `119`, `127`) is not
  modelled, because it only affects display.
- IEEE-754 rounding in the `Double` sum is not modelled. Prices are exact reals, so
  the claim that order does not change the total holds only for this abstraction.
- `Shop.CartView.DeleteProduct`: `remove(atOffsets:)` traps on an offset outside
  the array. This is stated as a precondition. The trap itself is not modelled.
- Offsets are a set of non-negative integers. Swift's `IndexSet` of `Int` is
  represented by `set<nat>`.
- The width of Swift's `Int` id is not modelled. Ids are only stored and compared.
- The checkout button is not modelled, because its action is empty
  (`Easy_Shop/Product.swift:131-133`).
- Quantities, duplicate merging, orders and order history are not modelled.
  None of them exist in this code.
- `ProductListView.userEmail` is stored but never used by the cart.
- `ForEach(cart)` keys rows by `id`, so a product added twice gets two rows with
  the same identity. SwiftUI's handling of that is not modelled.
- `Easy_Shop/admin.swift` is not part of this model. It is Firestore/Storage calls
  around a `name`/`price` guard, and it uses a `String` id that conflicts with
  `Product.swift`'s `Int` id.
- `Easy_Shop/ContentView.swift` and `Easy_Shop/login-and-signup.swift` are not part
  of this model. They are app entry and authentication screens that delegate to
  the hosted auth provider.
