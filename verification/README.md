# Cart store model

A Dafny model of the shopping-cart store in `src/hooks/cart.tsx`. The store
holds an ordered list of line items (`Product`: id, title, image URL, price,
quantity). It offers three mutations, `increment(id)`, `decrement(id)` and
`addToCart(product)`, and copies the list to device storage under the single
key `@GoMarketplace:products`. When it starts, it hydrates the list from that
key.

The model removes the React and storage wiring and keeps:

- `Cart` (cart.dfy): the line item and the three list transitions as pure
  functions on `seq<Product>`. These are built from the same three list
  primitives the code uses: the first-match `find`, the quantity-changing
  `map` and the id-removing `filter`.
- `CartProperties` (cart_properties.dfy): the filter keeps its survivors in
  order. On a cart with unique ids, each transition edits, removes or
  appends exactly one position. All three transitions preserve the cart
  invariants: ids unique and quantities at least one.
- `Store` (store.dfy): the pair `State(mem, stored)` of the in-memory cart and
  the decoded copy last written to storage. It also holds hydration, one step
  function per mutation that updates `stored` the way the code writes it,
  sessions of mutations (`Run`), and what a restart hydrates.

Two behaviours of the code are modelled as written:

- **Stale write in `addToCart`.** For a new product, the cart is committed
  with the product appended, but the storage write that follows stores the
  list from *before* the append. Storage therefore lags memory by that last
  item until the next mutation. The intended design keeps the stored copy
  equal to memory after every mutation. The model follows the code and
  records the difference under Findings.
- **Absent id in `decrement`.** With no matching item, `product?.quantity <= 1`
  compares `undefined` with 1, which is false. Control falls through to the
  map branch, which changes nothing but still writes the list. As a side
  effect, such a no-op write re-synchronises storage after a stale write.

## Model

| member | source | states |
|---|---|---|
| Cart.FindIndex | src/hooks/cart.tsx:65 | The lookup is `None` exactly when no item carries the id. Otherwise it is a position carrying the id, with no earlier position carrying it. |
| Cart.Find | src/hooks/cart.tsx:100 | The found product is present exactly when the id is in the cart. It carries that id and is the first item of the cart that does, as `Array.prototype.find` returns. |
| Cart.Adjust | src/hooks/cart.tsx:46-51 | The quantity map keeps length and order. Every item carrying the id has its quantity shifted by delta; every other item is identical. Its per-item callback `Bump` is the map's arrow function, and the map serves both `increment` (+1) and the second branch of `decrement` (-1). |
| Cart.Without | src/hooks/cart.tsx:68 | The filter leaves no item carrying the id. An item survives exactly when it was in the cart with another id. An absent id leaves the cart unchanged. |
| Cart.Increment | src/hooks/cart.tsx:44-51 | Length and ids are position-wise unchanged. Matching items gain exactly one unit, others are untouched, and an absent id changes nothing. |
| Cart.Decrement | src/hooks/cart.tsx:63-84 | An absent id changes nothing. If the first match has quantity at most one, the result is the order-keeping filter: every item with that id is removed and only those. Otherwise, matching items lose exactly one unit and nothing else changes. The guard is `AtMostOneGuard`, false for a missing product. |
| Cart.AddToCart | src/hooks/cart.tsx:98-107 | The id is present afterwards. For an existing id, that item gains one unit with its stored fields kept and the length unchanged. For a new id, the old cart is a prefix followed by the candidate with quantity 1 (the spread built by `NewLine`). |
| CartProperties.WithoutAppend | src/hooks/cart.tsx:68 | Filtering distributes over concatenation, so the surviving items keep their relative order. |
| CartProperties.WithoutKeepsUnique | src/hooks/cart.tsx:68 | Filtering a cart with unique ids leaves the ids unique. |
| CartProperties.FindUnique | src/hooks/cart.tsx:65 | With unique ids, the lookup finds the one position that carries the id. |
| CartProperties.WithoutSplice | src/hooks/cart.tsx:68 | With unique ids, the filter removes exactly the one item carrying the id and keeps everything before and after it in order. |
| CartProperties.IncrementUpdatesOne | src/hooks/cart.tsx:46-51 | With unique ids, `increment` replaces the one matching position by the same item with quantity + 1. |
| CartProperties.DecrementRemovesAtOne | src/hooks/cart.tsx:65-69 | With unique ids, decrementing an item of quantity at most one splices it out. Length drops by one and the other items keep their order. |
| CartProperties.DecrementLowersOne | src/hooks/cart.tsx:79-84 | With unique ids, decrementing an item of quantity above one replaces it by the same item with quantity - 1. Nothing else changes. |
| CartProperties.AbsentIdTakesMapBranch | src/hooks/cart.tsx:65-84 | For an absent id the guard `product?.quantity <= 1` is false, so `decrement` runs the map branch, which leaves the cart unchanged. |
| CartProperties.DecrementRemovalKeepsOrder | src/hooks/cart.tsx:67-68 | When the guard holds, for any split of the cart (repeated ids included) the result is the survivors of the first part followed by the survivors of the second, each in order. |
| CartProperties.AddExistingIsIncrement | src/hooks/cart.tsx:100-104 | Re-adding a present id is exactly `increment` of that id, with no condition on the rest of the cart. |
| CartProperties.AddExistingIncrements | src/hooks/cart.tsx:100-104 | With unique ids, re-adding a present id bumps the stored item by one, keeps its display fields and creates no duplicate. |
| CartProperties.IncrementPreservesWellFormed | src/hooks/cart.tsx:44-51 | `increment` keeps ids unique and quantities positive. |
| CartProperties.DecrementPreservesWellFormed | src/hooks/cart.tsx:63-84 | `decrement` keeps ids unique and quantities positive. |
| CartProperties.AddToCartPreservesWellFormed | src/hooks/cart.tsx:98-107 | `addToCart` keeps ids unique and quantities positive. |
| Store.Hydrate | src/hooks/cart.tsx:31-38 | A stored payload becomes the in-memory cart, and memory and storage agree. With no payload, the cart is empty and nothing is stored. |
| Store.IncrementStep | src/hooks/cart.tsx:44-58 | After `increment`, storage equals the new cart. For an absent id, the cart is unchanged but still written. |
| Store.DecrementStep | src/hooks/cart.tsx:63-91 | After either branch of `decrement`, storage equals the new cart. For an absent id, the cart is unchanged but still written. |
| Store.AddToCartStep | src/hooks/cart.tsx:98-111 | After adding an existing id, storage equals memory. After adding a new id, storage holds the pre-append cart: memory minus its last item, never equal to memory. |
| Store.RunPreservesWellFormed | src/hooks/cart.tsx:44-114 | Every session of mutations that starts from a well-formed cart keeps ids unique and quantities positive. |
| Store.RunLeavesStorageAtMostOneBehind | src/hooks/cart.tsx:44-114 | After any non-empty session, storage holds either the in-memory cart or that cart without its last item. |
| Store.RunEndingInCountChangeIsSynced | src/hooks/cart.tsx:53-91 | A session whose last mutation is `increment` or `decrement` ends with storage equal to memory. |
| Store.ReachableCoherent | src/hooks/cart.tsx:31-114 | Every state reached by hydrating from any payload and then running any session has storage equal to memory, one item behind, or both empty with nothing stored. |
| Store.RestartLosesAtMostLast | src/hooks/cart.tsx:33-38 | After hydrating from any payload and running any session, a restart hydrates the in-memory cart or that cart without its last item. |
| Store.StaleWriteLosesNewItem | src/hooks/cart.tsx:107-111 | On a first start, adding a product and then restarting yields an empty cart, though memory held the product. |
| Store.IntendedAddToCartStep | src/hooks/cart.tsx:107-111 | The corrected `addToCart` commits the same cart as the code and stores exactly that cart. |
| Store.RunIntendedSynced | src/hooks/cart.tsx:107-111 | With the corrected write, every session computes the same carts as the code. After at least one mutation, storage equals memory, so a restart loses nothing. |

## Left out

- React plumbing (context creation, `useState`, `useCallback`, `useMemo`, the Provider element, the `useCart` throw outside a provider): framework glue with no cart logic.
- The storage device and async scheduling: `stored` is a plain field, updated at the point each write is issued. Write failures are not modelled.
- `JSON.stringify` / `JSON.parse`: the payload is treated as already decoded (`Option<seq<Product>>`). A malformed payload, which makes `JSON.parse` throw inside hydration, is not modelled. The truthiness test on the raw string is modelled as "payload present".
- Races between un-awaited mutations: each mutation runs atomically on the current snapshot. This covers the un-awaited `increment` inside `addToCart`, stale closures over `products`, and hydration completing after an early mutation.
- In-place mutation of items (`p.quantity += 1`, `p.quantity -= 1`) and the aliasing it causes with earlier snapshots: the model uses value semantics.
- `price` is a JavaScript number. It is modelled as an opaque `real` that is copied and never computed with. `quantity` is an unbounded integer; floating-point limits on it are not modelled.
- The values `decrement` returns (the pre-mutation list): no caller in the store uses them.

## Findings

| source | as written | input that shows it | evidently intended | confidence | as-written member | corrected member |
|---|---|---|---|---|---|---|
| src/hooks/cart.tsx:107-111 | After appending a new product, `addToCart` writes `products`, the list before the append | First start with nothing stored, then `addToCart(p)` for any product `p`, then restart: memory held `[p with quantity 1]`, but hydration returns `[]` | Write the appended list, so storage equals memory after every mutation | high (proved in the model; not executed) | Store.StaleWriteLosesNewItem | Store.RunIntendedSynced |

The session model (`Store.Run`) keeps the as-written step, because it describes the code's behaviour. `Store.RunIntended` is the same session with the corrected write. `Store.RunIntendedSynced` proves that both compute identical carts, and that only the storage relation differs.
