# Shopping-cart state container

A model of the cart hook of a small e-commerce front end (`CartProvider` in
`src/hooks/useCart.tsx`). The cart is an ordered list of products, each with a
quantity (`amount`), and ids are meant to be unique. Three guarded mutations change it:

- `addProduct` fetches the product and its stock. It gives up if the stock is below one or
  if the catalog answered with another product. Otherwise it appends the product with
  amount 1, or adds one to the entry already there, and writes the fetched stock less
  one back to the catalog.
- `removeProduct` gives up with an error if the id is not in the cart. Otherwise it
  filters the entry out.
- `updateProductAmount` returns silently for an amount below one. It fetches the stock
  and gives up if the amount exceeds it. Otherwise it sets the amount of the entry with
  that id and writes the fetched stock less the new amount back to the catalog.

Every successful mutation is a commit: the in-memory cart and the persisted copy are set
to the same new list.

`cart_list.dfy` (module `CartList`) holds the line items and the list transforms the hook
uses: `some` (`Has`), `find` (`Find`), the two `map`s (`Bump`, `WithAmount`) and `filter`
(`Without`). Each is a recursive function. The contracts of `Has`, `Find` and the two
`map`s say what they compute index by index. The contract of `Without` states only which
entries the result holds; `WithoutConcat` adds the order and the multiplicity. The
lemmas show that filtering removes exactly one entry of a cart with unique ids and keeps
the rest in order. They also show that each transform keeps the
cart invariant (unique ids, amounts of at least one).

`cart_provider.dfy` (module `CartProvider`) has three parts:

- Each mutation as a pure transition (`AddOutcome`, `RemoveOutcome`, `UpdateOutcome`). A
  transition returns `Failed(error)`, `Skipped` (the silent early return) or
  `Committed(newCart, stockWrite)`.
- The lemmas that state each transition's guards and effects.
- The class `CartStore`, with fields `cart` and `stored`. Its methods follow the source's
  early returns and commit both fields together. Each method is proved equal to its
  transition, and each keeps the invariant and the agreement `stored == cart`.

The remote catalog is never called. The fetched product and stock are parameters of type
`Option`, where `None` means the request failed and the handler's `catch` branch runs. The
stock value the source would `PUT` is part of the result. The error messages
(`toast.error`) are the `Notice` values given by `Notices`.

The two stock-writing operations treat the remote stock differently. `addProduct` takes
one unit off the fetched stock, so the cart amount plus the remote stock is conserved
(`AddLedger`). `updateProductAmount` overwrites the stock with the fetched stock less the
whole new amount (`UpdateLedger`). The model keeps both behaviours as written.

## Model

| member | source | states |
|---|---|---|
| CartList.Has | src/hooks/useCart.tsx:56 | `some` is true exactly when some index holds an entry with that id |
| CartList.Find | src/hooks/useCart.tsx:86-88 | `find` finds nothing exactly when no entry has the id. Otherwise it returns the entry at the first index with that id |
| CartList.Bump | src/hooks/useCart.tsx:70-73 | the add `map` keeps the length. It adds one to the amount of every entry with the id, keeps its other fields, and leaves all other entries unchanged |
| CartList.WithAmount | src/hooks/useCart.tsx:122-125 | the update `map` keeps the length. It sets the amount of every entry with the id and leaves all other entries unchanged |
| CartList.Without | src/hooks/useCart.tsx:94 | the `filter` result has no entry with the id. It keeps every other entry and adds nothing |
| CartList.WithoutConcat | src/hooks/useCart.tsx:94 | filtering distributes over concatenation, so kept entries stay in their relative order |
| CartList.WithoutShrinks | src/hooks/useCart.tsx:94 | filtering out an id that is present makes the cart strictly shorter |
| CartList.WithoutAbsent | src/hooks/useCart.tsx:94 | filtering out an id that is not present returns the cart unchanged |
| CartList.WithoutSplice | src/hooks/useCart.tsx:94 | in a cart with unique ids, filtering the id at index k yields exactly `cart[..k] + cart[k+1..]` |
| CartList.BumpKeepsWellFormed | src/hooks/useCart.tsx:70-73 | the add `map` keeps ids unique and amounts at least one |
| CartList.WithAmountKeepsWellFormed | src/hooks/useCart.tsx:122-125 | the update `map` with an amount of at least one keeps the invariant |
| CartList.WithoutKeepsWellFormed | src/hooks/useCart.tsx:94 | the `filter` keeps the invariant |
| CartList.AppendKeepsWellFormed | src/hooks/useCart.tsx:58-64 | appending an absent id with a positive amount keeps the invariant |
| CartProvider.Notices | src/hooks/useCart.tsx:46-136 | every failure shows one or two messages, two exactly for a failed request in `addProduct`, where the add error comes before the stock message. The stock message is shown exactly for out-of-stock (line 47), exceeds-stock (line 118) and the add `catch` (line 80). The add error is shown exactly for the id mismatch (line 52) and the add `catch` (line 79). The remove error is shown exactly for an absent id (line 89). The update error is shown exactly for a failed update request (line 136) |
| CartProvider.AddOutcome | src/hooks/useCart.tsx:35-82 | the add never skips silently. A commit needs a successful fetch of the requested id. It leaves the id in the cart, adds an entry exactly when the id was absent, and writes the fetched stock less one, which is not negative |
| CartProvider.RemoveOutcome | src/hooks/useCart.tsx:84-98 | the removal commits exactly when the id is in the cart and otherwise fails with `NotInCart`. A commit leaves no entry with the id, shortens the cart and writes no stock |
| CartProvider.UpdateOutcome | src/hooks/useCart.tsx:105-133 | the update skips exactly when the amount is below one. A commit needs a successful fetch, keeps the length and the id at every index, and writes the fetched stock less the amount, which is not negative |
| CartProvider.AddGuards | src/hooks/useCart.tsx:38-54 | a failed fetch, stock below one, or a product id other than the requested one abandons the add, in that order. The add commits exactly when the fetch succeeds, the stock is at least one and the ids match |
| CartProvider.AddAppendsNew | src/hooks/useCart.tsx:56-67 | for an absent id, the add appends one entry (the fetched product with amount 1) after the unchanged earlier entries. It writes stock-1 |
| CartProvider.AddIncrementsExisting | src/hooks/useCart.tsx:70-77 | for a present id, the add keeps the length, adds exactly one to that entry's amount, leaves the others unchanged and writes stock-1 |
| CartProvider.AddKeepsWellFormed | src/hooks/useCart.tsx:46-77 | a committed add keeps ids unique and amounts positive. The stock value it writes is not negative |
| CartProvider.AddLedger | src/hooks/useCart.tsx:56-77 | after a committed add, the id's cart amount plus the stock written equals its cart amount before plus the stock fetched |
| CartProvider.AddTwice | src/hooks/useCart.tsx:56-77 | adding the same absent id twice gives one entry with amount 2, not two entries |
| CartProvider.RemoveAbsent | src/hooks/useCart.tsx:86-91 | removing an absent id fails with `NotInCart` |
| CartProvider.RemovePresent | src/hooks/useCart.tsx:94-98 | removing the id at index k of a cart with unique ids commits exactly `cart[..k] + cart[k+1..]` with no stock write. No entry with that id remains |
| CartProvider.RemoveKeepsWellFormed | src/hooks/useCart.tsx:94-98 | a committed removal keeps the invariant and shortens the cart by exactly one |
| CartProvider.UpdateGuards | src/hooks/useCart.tsx:111-120 | an amount below one is `Skipped`, with no fetch and no write. A failed fetch, or an amount above the fetched stock, abandons the update. The update commits exactly when the amount is between one and the stock |
| CartProvider.UpdateSetsAmount | src/hooks/useCart.tsx:122-133 | a committed update keeps the length, sets the entries with that id to the amount, leaves the others unchanged and writes stock-amount, which is not negative |
| CartProvider.UpdateAbsentStillCommits | src/hooks/useCart.tsx:122-133 | for an absent id the update still commits, with the cart unchanged, and still writes stock-amount |
| CartProvider.UpdateKeepsWellFormed | src/hooks/useCart.tsx:111-129 | a committed update keeps the invariant |
| CartProvider.UpdateLedger | src/hooks/useCart.tsx:117-133 | after a committed update of a present id, the new amount plus the stock written equals the stock fetched |
| CartProvider.CartStore.constructor | src/hooks/useCart.tsx:25-33 | the cart starts as the persisted cart, or empty when there is none. The persisted copy agrees with it |
| CartProvider.CartStore.Commit | src/hooks/useCart.tsx:64-65 | a commit sets the in-memory cart and the persisted copy to the same list |
| CartProvider.CartStore.AddProduct | src/hooks/useCart.tsx:35-82 | returns `AddOutcome` of the old cart. A commit sets `cart` and `stored` to the new cart; any other outcome leaves both unchanged. The invariant and `stored == cart` are preserved |
| CartProvider.CartStore.RemoveProduct | src/hooks/useCart.tsx:84-103 | returns `RemoveOutcome` of the old cart, commits both fields on success and changes nothing otherwise. It preserves the invariant and `stored == cart` |
| CartProvider.CartStore.UpdateProductAmount | src/hooks/useCart.tsx:105-138 | returns `UpdateOutcome` of the old cart. It commits both fields on success and changes nothing when skipped or failed. It preserves the invariant and `stored == cart` |

## Left out

- The HTTP calls (`api.get`, `api.put`) and the concurrency of `Promise.all` are not modelled. This is remote I/O: the fetched values are parameters, and the stock value to write is returned.
- A failure of the trailing stock `PUT` is not modelled. It happens after the commit, so the source's `catch` would show its messages with the new cart already committed. The model reports the commit.
- A storage write that throws in `addProduct` or `updateProductAmount` is not modelled. There `setCart` has already run (lines 64-65, 75-76, 129-132), so the source would keep the new cart in memory and the old one in storage. In the model a commit always writes both, which is why the methods can promise that `stored == cart` is preserved.
- The `catch` of `removeProduct` is not modelled. Its `try` block makes no remote call, so only the storage write could throw.
- Two mutations started before either commits, both working on the same stale cart, are not modelled. This is concurrency: the model runs each operation to completion.
- `localStorage` and JSON serialisation are not modelled. The persisted copy is the field `stored`. A missing or empty storage entry is modelled as an empty persisted cart, and a `JSON.parse` failure is not modelled.
- `toast.error` is not called. The message it would show is the value of `Notices` for the error kind.
- `Product.price` is a floating-point number. It is a `real` that is only ever copied.
- The in-place update `product.amount += 1` at line 72 also changes the entry object held by the previous cart. That aliasing is not modelled; only the new amount is.
- Ids and amounts are JavaScript numbers. They are modelled as unbounded integers, so fractional amounts are not covered.
- The React plumbing (`createContext`, `useState`, the context provider, `useCart`) and `console.log` are not modelled, because they are framework glue.
