/**
 * The cart's list-merge logic: the pure functions that the cart hook applies
 * to the ordered list of line items, once to the in-memory list and once to
 * the copy read back from device storage.
 */
module CartMerge {

  /** One line of the cart. `price` is carried along and never computed on. */
  datatype Product = Product(id: string, title: string, imageUrl: string, price: real, quantity: int)

  /** Everything about a line except its quantity. */
  predicate SameLine(a: Product, b: Product) {
    a.id == b.id && a.title == b.title && a.imageUrl == b.imageUrl && a.price == b.price
  }

  /** The ids of a list, in display order. */
  function Ids(s: seq<Product>): seq<string> {
    seq(|s|, i requires 0 <= i < |s| => s[i].id)
  }

  /** The `find` by id of the source: some line carries `id`. */
  predicate HasId(s: seq<Product>, id: string) {
    exists i :: 0 <= i < |s| && s[i].id == id
  }

  /** No two lines share an id. */
  predicate UniqueIds(s: seq<Product>) {
    forall i, j :: 0 <= i < j < |s| ==> s[i].id != s[j].id
  }

  predicate AllNonNegative(s: seq<Product>) {
    forall i :: 0 <= i < |s| ==> s[i].quantity >= 0
  }

  /** Every line whose id is `id` has a positive quantity. */
  predicate PositiveAt(s: seq<Product>, id: string) {
    forall i :: 0 <= i < |s| && s[i].id == id ==> s[i].quantity > 0
  }

  /** The `map` callback of increment (and of the existing-product branch of addToCart). */
  function Bump(p: Product, id: string): Product {
    if p.id == id then p.(quantity := p.quantity + 1) else p
  }

  /**
   * increment(id), applied alike to the in-memory and the stored list:
   * every line with that id gains one, nothing else changes.
   */
  function Increment(s: seq<Product>, id: string): (r: seq<Product>)
    ensures |r| == |s| && Ids(r) == Ids(s)
    ensures forall i :: 0 <= i < |s| ==> SameLine(r[i], s[i])
    ensures forall i :: 0 <= i < |s| && s[i].id == id ==> r[i].quantity == s[i].quantity + 1
    ensures forall i :: 0 <= i < |s| && s[i].id != id ==> r[i] == s[i]
    ensures !HasId(s, id) ==> r == s
    ensures AllNonNegative(s) ==> AllNonNegative(r)
    ensures UniqueIds(r) <==> UniqueIds(s)
  {
    seq(|s|, i requires 0 <= i < |s| => Bump(s[i], id))
  }

  /**
   * loadNewProduct of addToCart: an id already present has its quantity
   * bumped (its other fields kept as first stored); a new id is appended
   * at the end with quantity 1, whatever quantity the input carried.
   */
  function LoadNewProduct(prev: seq<Product>, newProduct: Product): (r: seq<Product>)
    ensures HasId(prev, newProduct.id) ==>
      |r| == |prev| && Ids(r) == Ids(prev) &&
      (forall i :: 0 <= i < |prev| ==> SameLine(r[i], prev[i])) &&
      (forall i :: 0 <= i < |prev| && prev[i].id == newProduct.id ==> r[i].quantity == prev[i].quantity + 1) &&
      (forall i :: 0 <= i < |prev| && prev[i].id != newProduct.id ==> r[i] == prev[i])
    ensures !HasId(prev, newProduct.id) ==>
      |r| == |prev| + 1 && r[..|prev|] == prev && r[|prev|] == newProduct.(quantity := 1)
    ensures HasId(r, newProduct.id)
    ensures UniqueIds(prev) ==> UniqueIds(r)
    ensures AllNonNegative(prev) ==> AllNonNegative(r)
  {
    if HasId(prev, newProduct.id) then
      Increment(prev, newProduct.id)
    else
      var r := prev + [newProduct.(quantity := 1)];
      assert r[|prev|].id == newProduct.id;
      r
  }

  /** The in-memory `map` callback of decrement: guarded by quantity > 0. */
  function DropGuarded(p: Product, id: string): Product {
    if p.id == id && p.quantity > 0 then p.(quantity := p.quantity - 1) else p
  }

  /** The stored-copy `map` callback of decrement: no guard. */
  function DropUnguarded(p: Product, id: string): Product {
    if p.id == id then p.(quantity := p.quantity - 1) else p
  }

  /**
   * decrement(id) on the in-memory list: a line with that id loses one
   * only while its quantity is positive; no line is ever removed.
   */
  function DecrementInMemory(s: seq<Product>, id: string): (r: seq<Product>)
    ensures |r| == |s| && Ids(r) == Ids(s)
    ensures forall i :: 0 <= i < |s| ==> SameLine(r[i], s[i])
    ensures forall i :: 0 <= i < |s| && s[i].id == id && s[i].quantity > 0 ==> r[i].quantity == s[i].quantity - 1
    ensures forall i :: 0 <= i < |s| && (s[i].id != id || s[i].quantity <= 0) ==> r[i] == s[i]
    ensures forall i :: 0 <= i < |s| && s[i].quantity >= 0 ==> r[i].quantity >= 0
    ensures !HasId(s, id) ==> r == s
    ensures UniqueIds(r) <==> UniqueIds(s)
  {
    seq(|s|, i requires 0 <= i < |s| => DropGuarded(s[i], id))
  }

  /**
   * decrement(id) on the stored copy: every line with that id loses one,
   * so a stored quantity of 0 becomes -1.
   */
  function DecrementStored(s: seq<Product>, id: string): (r: seq<Product>)
    ensures |r| == |s| && Ids(r) == Ids(s)
    ensures forall i :: 0 <= i < |s| ==> SameLine(r[i], s[i])
    ensures forall i :: 0 <= i < |s| && s[i].id == id ==> r[i].quantity == s[i].quantity - 1
    ensures forall i :: 0 <= i < |s| && s[i].id != id ==> r[i] == s[i]
    ensures !HasId(s, id) ==> r == s
    ensures UniqueIds(r) <==> UniqueIds(s)
  {
    seq(|s|, i requires 0 <= i < |s| => DropUnguarded(s[i], id))
  }

  /** The two decrements agree exactly when no line with that id has a quantity of 0 or less. */
  lemma DecrementsAgreeIff(s: seq<Product>, id: string)
    ensures DecrementInMemory(s, id) == DecrementStored(s, id) <==> PositiveAt(s, id)
  {
  }

  /** A stored line at quantity 0 goes to -1, while the in-memory line stays at 0. */
  lemma StoredDecrementGoesNegative(s: seq<Product>, id: string, k: nat)
    requires k < |s| && s[k].id == id && s[k].quantity == 0
    ensures DecrementStored(s, id)[k].quantity == -1
    ensures DecrementInMemory(s, id)[k].quantity == 0
    ensures !AllNonNegative(DecrementStored(s, id))
    ensures DecrementInMemory(s, id) != DecrementStored(s, id)
  {
  }

  /** Adding the same product twice to an empty cart yields one line with quantity 2. */
  lemma AddTwiceFromEmpty(p: Product)
    ensures LoadNewProduct(LoadNewProduct([], p), p) == [p.(quantity := 2)]
  {
  }

  /** Each mutation on a one-line cart whose line carries `id`. */
  lemma OneLine(q: Product, id: string)
    requires q.id == id
    ensures Increment([q], id) == [q.(quantity := q.quantity + 1)]
    ensures DecrementInMemory([q], id) == [q.(quantity := if q.quantity > 0 then q.quantity - 1 else q.quantity)]
    ensures DecrementStored([q], id) == [q.(quantity := q.quantity - 1)]
  {
  }

  /**
   * The add/increment/decrement walk-through on one product: quantities
   * 1, 2, 1, 0, 0 in memory and 1, 2, 1, 0, -1 in storage.
   */
  lemma AddIncrementDecrementScenario(p: Product)
    ensures DecrementInMemory(DecrementInMemory(DecrementInMemory(
              Increment(LoadNewProduct([], p), p.id), p.id), p.id), p.id) == [p.(quantity := 0)]
    ensures DecrementStored(DecrementStored(DecrementStored(
              Increment(LoadNewProduct([], p), p.id), p.id), p.id), p.id) == [p.(quantity := -1)]
  {
    assert LoadNewProduct([], p) == [p.(quantity := 1)];
    OneLine(p.(quantity := 1), p.id);
    OneLine(p.(quantity := 2), p.id);
    OneLine(p.(quantity := 0), p.id);
  }

  // ---------------------------------------------------------------------------
  // Sequential calls: the three mutations as operations, and the in-memory
  // and stored lists obtained by applying a run of them one after another.
  // ---------------------------------------------------------------------------

  datatype Op = Add(item: Product) | Inc(id: string) | Dec(id: string)

  function ApplyInMemory(s: seq<Product>, op: Op): seq<Product> {
    match op
    case Add(p) => LoadNewProduct(s, p)
    case Inc(id) => Increment(s, id)
    case Dec(id) => DecrementInMemory(s, id)
  }

  function ApplyStored(s: seq<Product>, op: Op): seq<Product> {
    match op
    case Add(p) => LoadNewProduct(s, p)
    case Inc(id) => Increment(s, id)
    case Dec(id) => DecrementStored(s, id)
  }

  /** The in-memory list after the run `ops`, applied in order, starting from `s`. */
  function ReplayInMemory(s: seq<Product>, ops: seq<Op>): seq<Product> {
    if ops == [] then s else ApplyInMemory(ReplayInMemory(s, ops[..|ops| - 1]), ops[|ops| - 1])
  }

  /** The stored list after the run `ops`, applied in order, starting from `s`. */
  function ReplayStored(s: seq<Product>, ops: seq<Op>): seq<Product> {
    if ops == [] then s else ApplyStored(ReplayStored(s, ops[..|ops| - 1]), ops[|ops| - 1])
  }

  /** The step `op` does not decrement a line whose quantity is 0 or less. */
  predicate SafeStep(s: seq<Product>, op: Op) {
    op.Dec? ==> PositiveAt(s, op.id)
  }

  /** No step of the run decrements a line at quantity 0 or less (judged on the in-memory list). */
  predicate NoZeroDecrement(s: seq<Product>, ops: seq<Op>) {
    ops == [] ||
    (NoZeroDecrement(s, ops[..|ops| - 1]) && SafeStep(ReplayInMemory(s, ops[..|ops| - 1]), ops[|ops| - 1]))
  }

  lemma ReplayInMemoryAppend(s: seq<Product>, ops: seq<Op>, op: Op)
    ensures ReplayInMemory(s, ops + [op]) == ApplyInMemory(ReplayInMemory(s, ops), op)
    ensures ReplayStored(s, ops + [op]) == ApplyStored(ReplayStored(s, ops), op)
    ensures NoZeroDecrement(s, ops + [op]) <==> NoZeroDecrement(s, ops) && SafeStep(ReplayInMemory(s, ops), op)
  {
  }

  /** Starting from non-negative quantities, the in-memory list stays non-negative under any run. */
  lemma {:induction false} ReplayInMemoryNonNegative(s: seq<Product>, ops: seq<Op>)
    requires AllNonNegative(s)
    ensures AllNonNegative(ReplayInMemory(s, ops))
  {
    if ops != [] {
      ReplayInMemoryNonNegative(s, ops[..|ops| - 1]);
    }
  }

  /** Both copies keep ids unique under any run. */
  lemma {:induction false} ReplayKeepsUniqueIds(s: seq<Product>, ops: seq<Op>)
    requires UniqueIds(s)
    ensures UniqueIds(ReplayInMemory(s, ops))
    ensures UniqueIds(ReplayStored(s, ops))
  {
    if ops != [] {
      ReplayKeepsUniqueIds(s, ops[..|ops| - 1]);
    }
  }

  /** Started from the same list, the two copies stay equal as long as no zero-quantity line is decremented. */
  lemma {:induction false} ReplaysAgree(s: seq<Product>, ops: seq<Op>)
    requires NoZeroDecrement(s, ops)
    ensures ReplayInMemory(s, ops) == ReplayStored(s, ops)
  {
    if ops != [] {
      var init, last := ops[..|ops| - 1], ops[|ops| - 1];
      ReplaysAgree(s, init);
      if last.Dec? {
        DecrementsAgreeIff(ReplayInMemory(s, init), last.id);
      }
    }
  }

  /**
   * After a run that kept the copies equal, one more step keeps them equal
   * exactly when it is not a decrement of a zero-quantity line: that step
   * is where they first diverge.
   */
  lemma DivergenceStep(s: seq<Product>, ops: seq<Op>, op: Op)
    requires NoZeroDecrement(s, ops)
    ensures ReplayInMemory(s, ops + [op]) == ReplayStored(s, ops + [op]) <==> SafeStep(ReplayInMemory(s, ops), op)
  {
    ReplaysAgree(s, ops);
    ReplayInMemoryAppend(s, ops, op);
    if op.Dec? {
      DecrementsAgreeIff(ReplayInMemory(s, ops), op.id);
    }
  }
}
