/** The cart state container: the three guarded mutations of the cart hook
    (`addProduct`, `removeProduct`, `updateProductAmount`) as pure transitions
    with their properties, and the `CartStore` object whose methods commit them
    to the in-memory cart and to its persisted copy.

    The remote catalog is not called: what the source fetches (the product and
    its stock) is a parameter, `None` when the request failed, and the stock
    value the source would write back is part of the result. */
module CartProvider {
  import opened CartList

  /** Why a mutation was abandoned. */
  datatype CartError =
    | OutOfStock           // addProduct: the catalog has no unit left
    | ProductMismatch      // addProduct: the catalog answered with another product
    | AddRequestFailed     // addProduct: fetching the product or its stock failed
    | NotInCart            // removeProduct: no entry with that id
    | ExceedsStock         // updateProductAmount: more units asked for than in stock
    | UpdateRequestFailed  // updateProductAmount: fetching the stock failed

  /** The error messages shown to the user. */
  datatype Notice = OutOfStockNotice | AddErrorNotice | RemoveErrorNotice | UpdateErrorNotice

  /** What a fetch for `addProduct` returns: the product record and its stock. */
  datatype Catalog = Catalog(product: Product, stock: Stock)

  /** The result of one mutation: abandoned with an error, returned early without
      doing anything, or committed with the new cart and, when the source writes
      one, the stock value sent back to the catalog. */
  datatype Outcome =
    | Failed(error: CartError)
    | Skipped
    | Committed(cart: seq<Product>, stockWrite: Option<int>)

  /** The notices shown for each error: one each, except the failed request in
      `addProduct`, whose handler shows both the add error and the stock error
      whatever the cause. */
  function Notices(e: CartError): (n: seq<Notice>)
    ensures 1 <= |n| <= 2
    ensures |n| == 2 <==> e == AddRequestFailed
    ensures e in {OutOfStock, ExceedsStock} ==> n == [OutOfStockNotice]
    ensures e == AddRequestFailed ==> n == [AddErrorNotice, OutOfStockNotice]
    ensures OutOfStockNotice in n <==> e in {OutOfStock, ExceedsStock, AddRequestFailed}
    ensures AddErrorNotice in n <==> e in {ProductMismatch, AddRequestFailed}
    ensures RemoveErrorNotice in n <==> e == NotInCart
    ensures UpdateErrorNotice in n <==> e == UpdateRequestFailed
  {
    match e
    case OutOfStock => [OutOfStockNotice]
    case ProductMismatch => [AddErrorNotice]
    case AddRequestFailed => [AddErrorNotice, OutOfStockNotice]
    case NotInCart => [RemoveErrorNotice]
    case ExceedsStock => [OutOfStockNotice]
    case UpdateRequestFailed => [UpdateErrorNotice]
  }

  /** `addProduct(productId)`: check the stock, then the product id; append a
      new entry with amount 1 or add one to the existing entry; write back the
      fetched stock less one. */
  function AddOutcome(cart: seq<Product>, productId: int, fetched: Option<Catalog>): (r: Outcome)
    ensures !r.Skipped?
    ensures r.Committed? ==>
      && fetched.Some? && fetched.value.product.id == productId
      && Has(r.cart, productId)
      && |r.cart| == (if Has(cart, productId) then |cart| else |cart| + 1)
      && r.stockWrite == Some(fetched.value.stock.amount - 1)
      && r.stockWrite.value >= 0
  {
    match fetched
    case None => Failed(AddRequestFailed)
    case Some(Catalog(product, stock)) =>
      if stock.amount < 1 then Failed(OutOfStock)
      else if productId != product.id then Failed(ProductMismatch)
      else if !Has(cart, productId) then
        var next := cart + [product.(amount := 1)];
        assert next[|cart|].id == productId;
        Committed(next, Some(stock.amount - 1))
      else
        Committed(Bump(cart, productId), Some(stock.amount - 1))
  }

  /** `removeProduct(productId)`: refuse an id that is not in the cart, otherwise
      filter it out. No stock is written. */
  function RemoveOutcome(cart: seq<Product>, productId: int): (r: Outcome)
    ensures r.Committed? <==> Has(cart, productId)
    ensures r.Failed? ==> r.error == NotInCart
    ensures !Has(cart, productId) ==> r == Failed(NotInCart)
    ensures r.Committed? ==> !Has(r.cart, productId) && |r.cart| < |cart| && r.stockWrite.None?
  {
    if Find(cart, productId).None? then Failed(NotInCart)
    else
      WithoutShrinks(cart, productId);
      Committed(Without(cart, productId), None)
  }

  /** `updateProductAmount({productId, amount})`: return silently on an amount
      below one, refuse an amount above the fetched stock, otherwise set the
      amount of the entry with that id (if any) and write back the fetched stock
      less the new amount. */
  function UpdateOutcome(cart: seq<Product>, productId: int, amount: int, fetched: Option<Stock>): (r: Outcome)
    ensures r.Skipped? <==> amount < 1
    ensures r.Committed? ==>
      && fetched.Some?
      && |r.cart| == |cart|
      && (forall i | 0 <= i < |cart| :: r.cart[i].id == cart[i].id)
      && (Has(r.cart, productId) <==> Has(cart, productId))
      && r.stockWrite == Some(fetched.value.amount - amount)
      && r.stockWrite.value >= 0
  {
    if amount < 1 then Skipped
    else
      match fetched
      case None => Failed(UpdateRequestFailed)
      case Some(stock) =>
        if stock.amount < amount then Failed(ExceedsStock)
        else Committed(WithAmount(cart, productId, amount), Some(stock.amount - amount))
  }

  // ---------------------------------------------------------------- addProduct

  /** A failed fetch, an empty stock or a catalog answer for another product
      abandons the add, checked in that order; only the guards passing commits. */
  lemma AddGuards(cart: seq<Product>, productId: int, fetched: Option<Catalog>)
    ensures fetched.None? ==> AddOutcome(cart, productId, fetched) == Failed(AddRequestFailed)
    ensures fetched.Some? && fetched.value.stock.amount < 1 ==>
      AddOutcome(cart, productId, fetched) == Failed(OutOfStock)
    ensures fetched.Some? && fetched.value.stock.amount >= 1 && fetched.value.product.id != productId ==>
      AddOutcome(cart, productId, fetched) == Failed(ProductMismatch)
    ensures AddOutcome(cart, productId, fetched).Committed? <==>
      fetched.Some? && fetched.value.stock.amount >= 1 && fetched.value.product.id == productId
  {
  }

  /** Adding a product that is not in the cart appends exactly one entry, the
      fetched product with amount 1, and leaves the earlier entries as they were. */
  lemma AddAppendsNew(cart: seq<Product>, productId: int, product: Product, stock: Stock)
    requires stock.amount >= 1 && product.id == productId && !Has(cart, productId)
    ensures var r := AddOutcome(cart, productId, Some(Catalog(product, stock)));
      && r.Committed?
      && |r.cart| == |cart| + 1
      && r.cart[..|cart|] == cart
      && r.cart[|cart|] == product.(amount := 1)
      && r.cart[|cart|].id == productId && r.cart[|cart|].amount == 1
      && r.stockWrite == Some(stock.amount - 1)
  {
    var r := AddOutcome(cart, productId, Some(Catalog(product, stock)));
    assert r.cart == cart + [product.(amount := 1)];
  }

  /** Adding a product already in the cart keeps the length and adds exactly one
      to the amount of the entry with that id; every other entry is unchanged. */
  lemma AddIncrementsExisting(cart: seq<Product>, productId: int, product: Product, stock: Stock)
    requires stock.amount >= 1 && product.id == productId && Has(cart, productId)
    ensures var r := AddOutcome(cart, productId, Some(Catalog(product, stock)));
      && r.Committed?
      && |r.cart| == |cart|
      && (forall i | 0 <= i < |cart| && cart[i].id == productId ::
            r.cart[i] == cart[i].(amount := cart[i].amount + 1))
      && (forall i | 0 <= i < |cart| && cart[i].id != productId :: r.cart[i] == cart[i])
      && r.stockWrite == Some(stock.amount - 1)
  {
  }

  /** A committed add keeps the cart well formed and writes back a stock value
      that is not negative. */
  lemma AddKeepsWellFormed(cart: seq<Product>, productId: int, fetched: Option<Catalog>)
    requires WellFormed(cart)
    ensures var r := AddOutcome(cart, productId, fetched);
      r.Committed? ==> WellFormed(r.cart) && r.stockWrite.Some? && r.stockWrite.value >= 0
  {
    var r := AddOutcome(cart, productId, fetched);
    if r.Committed? {
      var product := fetched.value.product;
      if !Has(cart, productId) {
        AppendKeepsWellFormed(cart, product.(amount := 1));
      } else {
        BumpKeepsWellFormed(cart, productId);
      }
    }
  }

  /** The unit taken from the remote stock is the unit put in the cart: the
      product's amount in the cart plus the stock written back equals its amount
      before plus the stock fetched. */
  lemma AddLedger(cart: seq<Product>, productId: int, fetched: Option<Catalog>)
    requires WellFormed(cart)
    ensures var r := AddOutcome(cart, productId, fetched);
      r.Committed? ==>
        AmountOf(r.cart, productId) + r.stockWrite.value
          == AmountOf(cart, productId) + fetched.value.stock.amount
  {
    var r := AddOutcome(cart, productId, fetched);
    if r.Committed? {
      var product := fetched.value.product;
      if !Has(cart, productId) {
        var p := product.(amount := 1);
        AppendKeepsWellFormed(cart, p);
        AmountOfAt(cart + [p], productId, |cart|);
        AmountOfAbsent(cart, productId);
      } else {
        var k :| 0 <= k < |cart| && cart[k].id == productId;
        BumpKeepsWellFormed(cart, productId);
        AmountOfAt(cart, productId, k);
        AmountOfAt(r.cart, productId, k);
      }
    }
  }

  /** Adding the same absent product twice gives one entry with amount 2, not
      two entries. */
  lemma AddTwice(cart: seq<Product>, productId: int, first: Catalog, second: Catalog)
    requires !Has(cart, productId)
    requires first.stock.amount >= 1 && first.product.id == productId
    requires second.stock.amount >= 1 && second.product.id == productId
    ensures var once := AddOutcome(cart, productId, Some(first));
      && once.Committed?
      && AddOutcome(once.cart, productId, Some(second))
           == Committed(cart + [first.product.(amount := 2)], Some(second.stock.amount - 1))
  {
    var p := first.product.(amount := 1);
    var once := cart + [p];
    assert once[|cart|].id == productId;
    var twice := Bump(once, productId);
    assert twice == cart + [first.product.(amount := 2)] by {
      forall i | 0 <= i < |cart| ensures twice[i] == cart[i] {
        assert once[i] == cart[i];
      }
    }
  }

  // ------------------------------------------------------------- removeProduct

  /** Removing an id that is not in the cart reports the error. */
  lemma RemoveAbsent(cart: seq<Product>, productId: int)
    requires !Has(cart, productId)
    ensures RemoveOutcome(cart, productId) == Failed(NotInCart)
  {
  }

  /** Removing an id that is in the cart removes exactly its entry and keeps the
      others in their order; no entry with that id is left. */
  lemma RemovePresent(cart: seq<Product>, productId: int, k: int)
    requires IdsUnique(cart)
    requires 0 <= k < |cart| && cart[k].id == productId
    ensures var r := RemoveOutcome(cart, productId);
      && r == Committed(cart[..k] + cart[k + 1..], None)
      && !Has(r.cart, productId)
  {
    WithoutSplice(cart, productId, k);
  }

  /** A committed removal keeps the cart well formed. */
  lemma RemoveKeepsWellFormed(cart: seq<Product>, productId: int)
    requires WellFormed(cart)
    ensures var r := RemoveOutcome(cart, productId);
      r.Committed? ==> WellFormed(r.cart) && |r.cart| == |cart| - 1
  {
    var r := RemoveOutcome(cart, productId);
    if r.Committed? {
      WithoutKeepsWellFormed(cart, productId);
      var k :| 0 <= k < |cart| && cart[k].id == productId;
      WithoutSplice(cart, productId, k);
    }
  }

  // ------------------------------------------------------- updateProductAmount

  /** An amount below one returns early (no change, no stock write, whatever the
      catalog would say); a failed fetch or an amount above the stock abandons the
      update. */
  lemma UpdateGuards(cart: seq<Product>, productId: int, amount: int, fetched: Option<Stock>)
    ensures amount < 1 ==> UpdateOutcome(cart, productId, amount, fetched) == Skipped
    ensures amount >= 1 && fetched.None? ==>
      UpdateOutcome(cart, productId, amount, fetched) == Failed(UpdateRequestFailed)
    ensures amount >= 1 && fetched.Some? && fetched.value.amount < amount ==>
      UpdateOutcome(cart, productId, amount, fetched) == Failed(ExceedsStock)
    ensures UpdateOutcome(cart, productId, amount, fetched).Committed? <==>
      1 <= amount && fetched.Some? && amount <= fetched.value.amount
  {
  }

  /** A committed update keeps the length, sets the amount of the entry with that
      id, leaves the others unchanged and writes back the fetched stock less the
      new amount, which is not negative. */
  lemma UpdateSetsAmount(cart: seq<Product>, productId: int, amount: int, stock: Stock)
    requires 1 <= amount <= stock.amount
    ensures var r := UpdateOutcome(cart, productId, amount, Some(stock));
      && r.Committed?
      && |r.cart| == |cart|
      && (forall i | 0 <= i < |cart| && cart[i].id == productId :: r.cart[i] == cart[i].(amount := amount))
      && (forall i | 0 <= i < |cart| && cart[i].id != productId :: r.cart[i] == cart[i])
      && r.stockWrite == Some(stock.amount - amount)
      && stock.amount - amount >= 0
  {
  }

  /** There is no presence check: for an id not in the cart the update still
      commits, with the cart unchanged, and still writes the stock back. */
  lemma UpdateAbsentStillCommits(cart: seq<Product>, productId: int, amount: int, stock: Stock)
    requires 1 <= amount <= stock.amount && !Has(cart, productId)
    ensures UpdateOutcome(cart, productId, amount, Some(stock))
      == Committed(cart, Some(stock.amount - amount))
  {
    var r := WithAmount(cart, productId, amount);
    assert forall i | 0 <= i < |cart| :: cart[i].id != productId;
    assert r == cart;
  }

  /** A committed update keeps the cart well formed. */
  lemma UpdateKeepsWellFormed(cart: seq<Product>, productId: int, amount: int, fetched: Option<Stock>)
    requires WellFormed(cart)
    ensures var r := UpdateOutcome(cart, productId, amount, fetched);
      r.Committed? ==> WellFormed(r.cart)
  {
    if amount >= 1 {
      WithAmountKeepsWellFormed(cart, productId, amount);
    }
  }

  /** Unlike add, which takes one unit off the fetched stock, update overwrites
      the remote stock with the fetched stock less the whole new amount: the
      amount in the cart plus the stock written back is the stock fetched, not
      the stock fetched plus the amount held before. */
  lemma UpdateLedger(cart: seq<Product>, productId: int, amount: int, fetched: Option<Stock>)
    requires IdsUnique(cart) && Has(cart, productId)
    ensures var r := UpdateOutcome(cart, productId, amount, fetched);
      r.Committed? ==> AmountOf(r.cart, productId) + r.stockWrite.value == fetched.value.amount
  {
    var r := UpdateOutcome(cart, productId, amount, fetched);
    if r.Committed? {
      var k :| 0 <= k < |cart| && cart[k].id == productId;
      assert IdsUnique(r.cart) by {
        assert forall i | 0 <= i < |cart| :: r.cart[i].id == cart[i].id;
      }
      AmountOfAt(r.cart, productId, k);
    }
  }

  // ------------------------------------------------------------------- the store

  /** The cart provider's state: the cart held in memory and the copy persisted
      under the cart's storage key. Every commit assigns both. */
  class CartStore {
    var cart: seq<Product>
    var stored: seq<Product>

    /** Both copies agree. */
    predicate Synced()
      reads this
    {
      stored == cart
    }

    /** Loads the persisted cart, or starts empty when there is none. */
    constructor (persisted: Option<seq<Product>>)
      ensures persisted.Some? ==> cart == persisted.value
      ensures persisted.None? ==> cart == []
      ensures Synced()
    {
      cart := if persisted.Some? then persisted.value else [];
      stored := cart;
    }

    /** Replaces the in-memory cart and writes the same list to storage. */
    method Commit(next: seq<Product>)
      modifies this
      ensures cart == next && stored == next
    {
      cart := next;
      stored := next;
    }

    method AddProduct(productId: int, fetched: Option<Catalog>) returns (r: Outcome)
      modifies this
      ensures r == AddOutcome(old(cart), productId, fetched)
      ensures r.Committed? ==> cart == r.cart && stored == r.cart
      ensures !r.Committed? ==> cart == old(cart) && stored == old(stored)
      ensures old(WellFormed(cart)) ==> WellFormed(cart)
      ensures old(Synced()) ==> Synced()
    {
      ghost var wellFormed := WellFormed(cart);
      if wellFormed {
        AddKeepsWellFormed(cart, productId, fetched);
      }
      if fetched.None? {
        return Failed(AddRequestFailed);
      }
      var product, stock := fetched.value.product, fetched.value.stock;
      if stock.amount < 1 {
        return Failed(OutOfStock);
      }
      if productId != product.id {
        return Failed(ProductMismatch);
      }
      if !Has(cart, productId) {
        var next := cart + [product.(amount := 1)];
        Commit(next);
        return Committed(next, Some(stock.amount - 1));
      }
      var next := Bump(cart, productId);
      Commit(next);
      r := Committed(next, Some(stock.amount - 1));
    }

    method RemoveProduct(productId: int) returns (r: Outcome)
      modifies this
      ensures r == RemoveOutcome(old(cart), productId)
      ensures r.Committed? ==> cart == r.cart && stored == r.cart
      ensures !r.Committed? ==> cart == old(cart) && stored == old(stored)
      ensures old(WellFormed(cart)) ==> WellFormed(cart)
      ensures old(Synced()) ==> Synced()
    {
      ghost var wellFormed := WellFormed(cart);
      if wellFormed {
        RemoveKeepsWellFormed(cart, productId);
      }
      var found := Find(cart, productId);
      if found.None? {
        return Failed(NotInCart);
      }
      var next := Without(cart, productId);
      Commit(next);
      r := Committed(next, None);
    }

    method UpdateProductAmount(productId: int, amount: int, fetched: Option<Stock>) returns (r: Outcome)
      modifies this
      ensures r == UpdateOutcome(old(cart), productId, amount, fetched)
      ensures r.Committed? ==> cart == r.cart && stored == r.cart
      ensures !r.Committed? ==> cart == old(cart) && stored == old(stored)
      ensures old(WellFormed(cart)) ==> WellFormed(cart)
      ensures old(Synced()) ==> Synced()
    {
      ghost var wellFormed := WellFormed(cart);
      if wellFormed {
        UpdateKeepsWellFormed(cart, productId, amount, fetched);
      }
      if amount < 1 {
        return Skipped;
      }
      if fetched.None? {
        return Failed(UpdateRequestFailed);
      }
      var stock := fetched.value;
      if stock.amount < amount {
        return Failed(ExceedsStock);
      }
      var next := WithAmount(cart, productId, amount);
      Commit(next);
      r := Committed(next, Some(stock.amount - amount));
    }
  }
}
