/**
 * The cart provider: the in-memory `products` state and the list kept under
 * the cart's storage key, both rewritten by every mutation.
 */
module CartStore {
  import opened CartMerge

  /** What the storage key holds: nothing yet, or a list written by an earlier mutation. */
  datatype Stored = Absent | Present(items: seq<Product>)

  /** The list a mutation reads back from storage: an absent key reads as the empty list. */
  function ReadBack(st: Stored): seq<Product> {
    match st
    case Absent => []
    case Present(items) => items
  }

  class CartProvider {
    /** The in-memory list shown to consumers. */
    var products: seq<Product>
    /** The value under the storage key. */
    var stored: Stored

    // The lists at the last load, and the mutations since then.
    ghost var memBase: seq<Product>
    ghost var storedBase: seq<Product>
    ghost var log: seq<Op>

    /** Both copies are what the mutations since the last load made of their starting lists. */
    ghost predicate Valid()
      reads this
    {
      products == ReplayInMemory(memBase, log) && ReadBack(stored) == ReplayStored(storedBase, log)
    }

    /** The in-memory list equals what storage would give back. */
    ghost predicate InSync()
      reads this
    {
      products == ReadBack(stored)
    }

    /** A fresh provider: empty in-memory list, storage as the device left it. */
    constructor (storage: Stored)
      ensures Valid() && log == []
      ensures products == [] && stored == storage
      ensures memBase == [] && storedBase == ReadBack(storage)
    {
      products := [];
      stored := storage;
      memBase, storedBase, log := [], ReadBack(storage), [];
    }

    /** The initial load: a stored list replaces the in-memory one; an absent key leaves it as is. */
    method Load()
      requires Valid()
      modifies this
      ensures Valid() && log == []
      ensures stored == old(stored)
      ensures products == if stored.Present? then stored.items else old(products)
      ensures memBase == products && storedBase == ReadBack(stored)
      ensures stored.Present? ==> InSync() && memBase == storedBase
    {
      if stored.Present? {
        products := stored.items;
      }
      memBase, storedBase, log := products, ReadBack(stored), [];
    }

    /** addToCart(item): the same merge applied to the in-memory list and to the list read back from storage. */
    method AddToCart(item: Product)
      requires Valid()
      modifies this
      ensures Valid() && log == old(log) + [Add(item)]
      ensures memBase == old(memBase) && storedBase == old(storedBase)
      ensures memBase == storedBase && NoZeroDecrement(memBase, log) ==> InSync()
      ensures products == LoadNewProduct(old(products), item)
      ensures stored == Present(LoadNewProduct(ReadBack(old(stored)), item))
      ensures HasId(products, item.id)
      ensures UniqueIds(old(products)) ==> UniqueIds(products)
      ensures AllNonNegative(old(products)) ==> AllNonNegative(products)
      ensures old(InSync()) ==> InSync()
    {
      ReplayInMemoryAppend(memBase, log, Add(item));
      var read := ReadBack(stored);
      var next, nextStored := LoadNewProduct(products, item), LoadNewProduct(read, item);
      assert products == read ==> next == nextStored;
      products, stored := next, Present(nextStored);
      log := log + [Add(item)];
      if memBase == storedBase && NoZeroDecrement(memBase, log) {
        ReplaysAgree(memBase, log);
      }
    }

    /** increment(id) on both copies. */
    method Increment(id: string)
      requires Valid()
      modifies this
      ensures Valid() && log == old(log) + [Inc(id)]
      ensures memBase == old(memBase) && storedBase == old(storedBase)
      ensures memBase == storedBase && NoZeroDecrement(memBase, log) ==> InSync()
      ensures products == CartMerge.Increment(old(products), id)
      ensures stored == Present(CartMerge.Increment(ReadBack(old(stored)), id))
      ensures AllNonNegative(old(products)) ==> AllNonNegative(products)
      ensures old(InSync()) ==> InSync()
    {
      ReplayInMemoryAppend(memBase, log, Inc(id));
      var read := ReadBack(stored);
      var next, nextStored := CartMerge.Increment(products, id), CartMerge.Increment(read, id);
      assert products == read ==> next == nextStored;
      products, stored := next, Present(nextStored);
      log := log + [Inc(id)];
      if memBase == storedBase && NoZeroDecrement(memBase, log) {
        ReplaysAgree(memBase, log);
      }
    }

    /**
     * decrement(id): guarded on the in-memory list, unguarded on the stored
     * copy, so copies in sync stay in sync exactly when no line with that id
     * is at quantity 0 or less.
     */
    method Decrement(id: string)
      requires Valid()
      modifies this
      ensures Valid() && log == old(log) + [Dec(id)]
      ensures memBase == old(memBase) && storedBase == old(storedBase)
      ensures memBase == storedBase && NoZeroDecrement(memBase, log) ==> InSync()
      ensures products == DecrementInMemory(old(products), id)
      ensures stored == Present(DecrementStored(ReadBack(old(stored)), id))
      ensures AllNonNegative(old(products)) ==> AllNonNegative(products)
      ensures old(InSync()) ==> (InSync() <==> PositiveAt(old(products), id))
    {
      ReplayInMemoryAppend(memBase, log, Dec(id));
      DecrementsAgreeIff(products, id);
      var read := ReadBack(stored);
      var next, nextStored := DecrementInMemory(products, id), DecrementStored(read, id);
      assert products == read ==> (next == nextStored <==> PositiveAt(products, id));
      products, stored := next, Present(nextStored);
      log := log + [Dec(id)];
      if memBase == storedBase && NoZeroDecrement(memBase, log) {
        ReplaysAgree(memBase, log);
      }
    }
  }

  /** A client: one product added, incremented and decremented three times on a fresh device. */
  method DecrementBelowZeroClient(p: Product)
  {
    var cart := new CartProvider(Absent);
    cart.Load();
    assert cart.products == [] && cart.stored == Absent;
    cart.AddToCart(p);
    assert cart.products == [p.(quantity := 1)] && cart.stored == Present([p.(quantity := 1)]);
    OneLine(p.(quantity := 1), p.id);
    cart.Increment(p.id);
    assert cart.products == [p.(quantity := 2)] && cart.stored == Present([p.(quantity := 2)]);
    OneLine(p.(quantity := 2), p.id);
    cart.Decrement(p.id);
    assert cart.products == [p.(quantity := 1)] && cart.stored == Present([p.(quantity := 1)]);
    cart.Decrement(p.id);
    assert cart.products == [p.(quantity := 0)] && cart.stored == Present([p.(quantity := 0)]);
    OneLine(p.(quantity := 0), p.id);
    cart.Decrement(p.id);
    assert cart.products == [p.(quantity := 0)];
    assert cart.stored == Present([p.(quantity := -1)]);
    assert !cart.InSync();
  }

  /**
   * A client: the app restarted on the storage the client above left
   * behind; the load brings the stored -1 into memory.
   */
  method RestartAfterStoredNegativeClient(p: Product)
  {
    var cart := new CartProvider(Present([p.(quantity := -1)]));
    cart.Load();
    assert cart.products == [p.(quantity := -1)];
    assert !AllNonNegative(cart.products) by { assert cart.products[0].quantity < 0; }
  }
}
