# Shopping-cart state merge, in Dafny

This project models the cart hook of a React Native storefront (`src/hooks/cart.tsx`).
The hook keeps an ordered list of line items (`Product`: id, title, image URL, price,
quantity), keyed by id, in two places:

- the in-memory `products` state that consumers read;
- the list stored under the cart's key in device storage.

Three mutations rewrite both lists. `addToCart` merges a product in: a known id has its
quantity bumped, a new id is appended with quantity 1. `increment(id)` adds one to the
matching lines. `decrement(id)` subtracts one from them. Each mutation first updates the
in-memory list, then reads the stored list back, updates it, and writes the result.
`addToCart` updates the stored list with the same `loadNewProduct` merge it applies in
memory. `increment` and `decrement` repeat their own `map` for the stored list.

- `cart_merge.dfy`, module `CartMerge`: the pure merge and update functions
  (`LoadNewProduct`, `Increment`, `DecrementInMemory`, `DecrementStored`), the mutations
  as an `Op` datatype, replay of a run of operations on either copy, and the lemmas
  relating them.
- `cart_store.dfy`, module `CartStore`: class `CartProvider`, whose fields `products`
  and `stored` are the two copies. Its methods `Load`, `AddToCart`, `Increment` and
  `Decrement` replace both fields and state the new values through the `CartMerge`
  functions. Ghost fields record the lists at the last load and the operations since
  then; `Valid()` says both fields are the replay of that log. The mutators keep those
  starting lists and extend the log by their own operation. When the two starting lists
  are equal and no logged decrement hit a line at quantity 0 or less, each mutator
  guarantees the copies are in sync (by `ReplaysAgree`).

The two copies do not use the same decrement. The in-memory decrement only lowers a
quantity that is above 0. The stored copy's decrement (`src/hooks/cart.tsx:139-145`) has
no such guard. So decrement is floored at 0 only in memory; a stored quantity of 0 becomes
-1. The model follows the code. `DecrementsAgreeIff` and `DivergenceStep` prove that this
is the only way the two copies can drift apart under sequential calls, and
`CartStore.DecrementBelowZeroClient` walks a fresh cart to in-memory quantity 0 against
stored quantity -1.

The -1 does not stay in storage. The next start of the app loads the stored list into
memory, so the in-memory list can then hold a negative quantity too.
`CartStore.RestartAfterStoredNegativeClient` shows that load. From then on,
`ReplayInMemoryNonNegative` no longer applies, because it requires a starting list with
no negative quantity.

An absent storage key is the `Absent` value of `Stored`. A mutation reads it back as the
empty list (the `|| '[]'` fallback) and always writes `Present(...)`.

## Model

| member | source | states |
|---|---|---|
| CartMerge.LoadNewProduct | src/hooks/cart.tsx:46-67 | A known id: length, ids and order are kept; each matching line gains exactly 1 and keeps title, image URL and price; other lines are unchanged. A new id: the old list is an untouched prefix, followed by one line that is the input with quantity 1. Either way the id is present afterwards. Unique ids and non-negative quantities are preserved. |
| CartMerge.Increment | src/hooks/cart.tsx:89-99 | Length, ids and order are kept. Exactly the lines with the id gain 1; all other lines are unchanged. An absent id (the empty list included) leaves the list equal. Non-negative quantities and unique ids are preserved. |
| CartMerge.DecrementInMemory | src/hooks/cart.tsx:122-132 | Length, ids and order are kept, and no line is removed. A line with the id loses 1 only if its quantity is > 0. Every other line, including one at 0, is unchanged. A non-negative quantity stays non-negative. An absent id is a no-op. |
| CartMerge.DecrementStored | src/hooks/cart.tsx:139-145 | Length, ids and order are kept. Every line with the id loses 1 regardless of its quantity; other lines are unchanged. An absent id is a no-op. |
| CartMerge.DecrementsAgreeIff | src/hooks/cart.tsx:122-150 | The in-memory and stored decrements give the same list if and only if every line with the id has quantity > 0. |
| CartMerge.StoredDecrementGoesNegative | src/hooks/cart.tsx:139-145 | A line at quantity 0 becomes -1 in the stored copy and stays 0 in memory, so the stored list then has a negative quantity and differs from the in-memory one. |
| CartMerge.AddTwiceFromEmpty | src/hooks/cart.tsx:50-66 | Adding the same product twice to an empty cart gives exactly one line: that product with quantity 2. |
| CartMerge.AddIncrementDecrementScenario | src/hooks/cart.tsx:45-152 | Add, increment, then three decrements on one product end at quantity 0 in memory (1, 2, 1, 0, 0) and at -1 in storage (1, 2, 1, 0, -1). |
| CartMerge.ReplayInMemoryNonNegative | src/hooks/cart.tsx:55-132 | From a list whose quantities are all >= 0, any run of addToCart, increment and decrement leaves all in-memory quantities >= 0. |
| CartMerge.ReplayKeepsUniqueIds | src/hooks/cart.tsx:50-66 | From a list without duplicate ids, any run keeps ids unique in both the in-memory and the stored copy. |
| CartMerge.ReplaysAgree | src/hooks/cart.tsx:69-150 | Starting from the same list, the two copies stay equal after any run in which no decrement hits a line whose quantity is 0 or less. |
| CartMerge.DivergenceStep | src/hooks/cart.tsx:122-150 | After a run that kept the copies equal, one more operation keeps them equal if and only if it is not a decrement of a line at quantity 0 or less. |
| CartStore.CartProvider.constructor | src/hooks/cart.tsx:28-29 | A new provider starts with an empty in-memory list and the storage as found, with an empty log; the recorded starting lists are the empty list and what storage reads back. |
| CartStore.CartProvider.Load | src/hooks/cart.tsx:31-43 | A stored list replaces the in-memory list, which leaves the copies in sync with equal starting lists. An absent key leaves the in-memory list as it was. Storage is unchanged. The log restarts from the current lists. |
| CartStore.CartProvider.AddToCart | src/hooks/cart.tsx:45-86 | The in-memory list becomes the merge of the old one with the item. Storage becomes the merge of the read-back list (absent reads as empty). The item's id is present afterwards. Unique ids, non-negativity and being in sync are preserved. The operation is appended to the log and the starting lists are kept. From equal starting lists with no zero-quantity decrement in the log, the copies are in sync. |
| CartStore.CartProvider.Increment | src/hooks/cart.tsx:88-119 | Both copies become their increments. Non-negativity and being in sync are preserved. The operation is appended to the log and the starting lists are kept. From equal starting lists with no zero-quantity decrement in the log, the copies are in sync. |
| CartStore.CartProvider.Decrement | src/hooks/cart.tsx:121-152 | The in-memory list takes the guarded decrement and storage the unguarded one. Non-negativity of the in-memory list is preserved. Copies in sync before stay in sync if and only if every line with the id had quantity > 0. The operation is appended to the log and the starting lists are kept. From equal starting lists with no zero-quantity decrement in the log, the copies are in sync. |

## Left out

- Device storage I/O (`AsyncStorage.getItem` / `setItem`): modelled as the `stored` field, read and written synchronously.
- JSON serialisation (`JSON.parse` / `JSON.stringify`): the stored value is the list itself; a serialise/parse round trip would only restate the library.
- Stored text that parses to a falsy value (`null`, `0`, `false`, `""`): addToCart then writes just the input product (the `else` branch at `src/hooks/cart.tsx:80-85`), and increment and decrement write nothing (their `if (asyncStorageProduct)` at `src/hooks/cart.tsx:105` and `:138`). No mutation writes such text, and `Stored` cannot hold it.
- Malformed stored text, a parse failure and storage failures: not modelled; the source does not handle them either.
- Interleaving of overlapping asynchronous calls, and the lost updates it can cause in the stored copy: only strictly sequential calls are modelled.
- React plumbing (`createContext`, `useState`, `useEffect`, `useCallback`, `useMemo`, the provider element) and the `useCart` outside-provider error at `src/hooks/cart.tsx:162-170`.
- Numbers: `price` is carried as a `real` that is never computed on; `quantity` is an unbounded `int`, so JavaScript's loss of integer precision above 2^53 is not modelled.
