/** The cart's line items and the pure list transforms the cart hook builds its
    new carts from: `some`, `find`, the two `map`s that rewrite one entry's
    amount, and the `filter` that drops an entry. */
module CartList {

  datatype Option<T> = None | Some(value: T)

  /** A cart line item. `price` is a floating-point number in the source; it is
      only ever copied, so a `real` stands in for it. */
  datatype Product = Product(id: int, name: string, price: real, imageUrl: string, amount: int)

  /** Units of a product available at the remote catalog. */
  datatype Stock = Stock(id: int, amount: int)

  /** No two entries share an id. */
  predicate IdsUnique(cart: seq<Product>)
  {
    forall i, j | 0 <= i < j < |cart| :: cart[i].id != cart[j].id
  }

  /** Every entry's amount is at least one. */
  predicate AmountsPositive(cart: seq<Product>)
  {
    forall i | 0 <= i < |cart| :: cart[i].amount >= 1
  }

  /** The cart invariant: unique ids and positive amounts. */
  predicate WellFormed(cart: seq<Product>)
  {
    IdsUnique(cart) && AmountsPositive(cart)
  }

  /** `cart.some(product => product.id === id)` */
  function Has(cart: seq<Product>, id: int): (b: bool)
    ensures b <==> exists i | 0 <= i < |cart| :: cart[i].id == id
  {
    if cart == [] then false
    else if cart[0].id == id then true
    else
      var b := Has(cart[1..], id);
      assert forall i | 1 <= i < |cart| :: cart[i] == cart[1..][i - 1];
      assert b ==> exists i | 0 <= i < |cart[1..]| :: cart[1..][i].id == id;
      b
  }

  /** `cart.find(product => product.id === id)`: the first entry with that id. */
  function Find(cart: seq<Product>, id: int): (r: Option<Product>)
    ensures r.None? <==> !Has(cart, id)
    ensures r.Some? ==> exists k | 0 <= k < |cart| :: FirstWithId(cart, id, k) && cart[k] == r.value
  {
    if cart == [] then None
    else if cart[0].id == id then
      assert FirstWithId(cart, id, 0);
      Some(cart[0])
    else
      var r := Find(cart[1..], id);
      if r.Some? then
        var k :| 0 <= k < |cart[1..]| && FirstWithId(cart[1..], id, k) && cart[1..][k] == r.value;
        assert FirstWithId(cart, id, k + 1);
        r
      else r
  }

  /** `k` is the position of the first entry whose id is `id`. */
  predicate FirstWithId(cart: seq<Product>, id: int, k: int)
  {
    0 <= k < |cart| && cart[k].id == id && forall j | 0 <= j < k :: cart[j].id != id
  }

  /** The amount of the first entry with that id, or 0 when there is none. */
  function AmountOf(cart: seq<Product>, id: int): int
  {
    if cart == [] then 0
    else if cart[0].id == id then cart[0].amount
    else AmountOf(cart[1..], id)
  }

  /** `cart.map(p => p.id === id ? { ...p, amount: p.amount + 1 } : p)` */
  function Bump(cart: seq<Product>, id: int): (r: seq<Product>)
    ensures |r| == |cart|
    ensures forall i | 0 <= i < |cart| ::
      r[i] == if cart[i].id == id then cart[i].(amount := cart[i].amount + 1) else cart[i]
  {
    if cart == [] then []
    else
      var head := if cart[0].id == id then cart[0].(amount := cart[0].amount + 1) else cart[0];
      [head] + Bump(cart[1..], id)
  }

  /** `cart.map(p => p.id === id ? { ...p, amount } : p)` */
  function WithAmount(cart: seq<Product>, id: int, amount: int): (r: seq<Product>)
    ensures |r| == |cart|
    ensures forall i | 0 <= i < |cart| ::
      r[i] == if cart[i].id == id then cart[i].(amount := amount) else cart[i]
  {
    if cart == [] then []
    else
      var head := if cart[0].id == id then cart[0].(amount := amount) else cart[0];
      [head] + WithAmount(cart[1..], id, amount)
  }

  /** `cart.filter(p => p.id !== id)` */
  function Without(cart: seq<Product>, id: int): (r: seq<Product>)
    ensures |r| <= |cart|
    ensures forall i | 0 <= i < |r| :: r[i].id != id && r[i] in cart
    ensures forall i | 0 <= i < |cart| :: cart[i].id != id ==> cart[i] in r
  {
    if cart == [] then []
    else if cart[0].id == id then Without(cart[1..], id)
    else [cart[0]] + Without(cart[1..], id)
  }

  /** Filtering distributes over concatenation, so the kept entries keep
      their relative order. */
  lemma {:induction false} WithoutConcat(a: seq<Product>, b: seq<Product>, id: int)
    ensures Without(a + b, id) == Without(a, id) + Without(b, id)
  {
    if a == [] {
      assert a + b == b;
    } else {
      assert (a + b)[1..] == a[1..] + b;
      WithoutConcat(a[1..], b, id);
    }
  }

  /** Filtering out an id that is not there keeps the cart as it is. */
  lemma {:induction false} WithoutAbsent(cart: seq<Product>, id: int)
    requires !Has(cart, id)
    ensures Without(cart, id) == cart
  {
    if cart != [] {
      assert cart[0].id != id;
      assert !Has(cart[1..], id);
      WithoutAbsent(cart[1..], id);
    }
  }

  /** Filtering out an id that is there removes at least one entry. */
  lemma {:induction false} WithoutShrinks(cart: seq<Product>, id: int)
    requires Has(cart, id)
    ensures |Without(cart, id)| < |cart|
  {
    if cart[0].id != id {
      assert Has(cart[1..], id) by {
        var i :| 0 <= i < |cart| && cart[i].id == id;
        assert cart[1..][i - 1] == cart[i];
      }
      WithoutShrinks(cart[1..], id);
    }
  }

  /** In a cart with unique ids, dropping the entry at `k` removes exactly
      that entry and keeps the others in their order. */
  lemma WithoutSplice(cart: seq<Product>, id: int, k: int)
    requires IdsUnique(cart)
    requires 0 <= k < |cart| && cart[k].id == id
    ensures Without(cart, id) == cart[..k] + cart[k + 1..]
  {
    var pre, post := cart[..k], cart[k + 1..];
    assert cart == pre + ([cart[k]] + post);
    assert !Has(pre, id) by {
      forall i | 0 <= i < |pre| ensures pre[i].id != id { assert pre[i] == cart[i]; }
    }
    assert !Has(post, id) by {
      forall i | 0 <= i < |post| ensures post[i].id != id { assert post[i] == cart[k + 1 + i]; }
    }
    WithoutConcat(pre, [cart[k]] + post, id);
    WithoutConcat([cart[k]], post, id);
    WithoutAbsent(pre, id);
    WithoutAbsent(post, id);
    assert Without([cart[k]], id) == [];
  }

  /** In a cart with unique ids, `AmountOf` reads the one entry with that id. */
  lemma {:induction false} AmountOfAt(cart: seq<Product>, id: int, k: int)
    requires IdsUnique(cart)
    requires 0 <= k < |cart| && cart[k].id == id
    ensures AmountOf(cart, id) == cart[k].amount
  {
    if k > 0 {
      assert cart[0].id != id;
      assert cart[1..][k - 1] == cart[k];
      assert IdsUnique(cart[1..]) by {
        forall i, j | 0 <= i < j < |cart| - 1 ensures cart[1..][i].id != cart[1..][j].id {
          assert cart[1..][i] == cart[i + 1] && cart[1..][j] == cart[j + 1];
        }
      }
      AmountOfAt(cart[1..], id, k - 1);
    }
  }

  /** `AmountOf` is 0 for an id that is not in the cart. */
  lemma {:induction false} AmountOfAbsent(cart: seq<Product>, id: int)
    requires !Has(cart, id)
    ensures AmountOf(cart, id) == 0
  {
    if cart != [] {
      assert cart[0].id != id;
      assert !Has(cart[1..], id);
      AmountOfAbsent(cart[1..], id);
    }
  }

  /** Rewriting amounts keeps the ids, so it keeps them unique; a positive new
      amount keeps every amount positive. */
  lemma BumpKeepsWellFormed(cart: seq<Product>, id: int)
    requires WellFormed(cart)
    ensures WellFormed(Bump(cart, id))
  {
    var r := Bump(cart, id);
    assert forall i | 0 <= i < |cart| :: r[i].id == cart[i].id && r[i].amount >= cart[i].amount;
  }

  lemma WithAmountKeepsWellFormed(cart: seq<Product>, id: int, amount: int)
    requires WellFormed(cart) && amount >= 1
    ensures WellFormed(WithAmount(cart, id, amount))
  {
    var r := WithAmount(cart, id, amount);
    assert forall i | 0 <= i < |cart| :: r[i].id == cart[i].id && r[i].amount >= 1;
  }

  /** Dropping the head keeps the invariant. */
  lemma TailKeepsWellFormed(cart: seq<Product>)
    requires WellFormed(cart) && cart != []
    ensures WellFormed(cart[1..])
  {
    var tail := cart[1..];
    forall i, j | 0 <= i < j < |tail| ensures tail[i].id != tail[j].id {
      assert tail[i] == cart[i + 1] && tail[j] == cart[j + 1];
    }
    forall i | 0 <= i < |tail| ensures tail[i].amount >= 1 { assert tail[i] == cart[i + 1]; }
  }

  /** Putting an entry with a fresh id and a positive amount in front keeps
      the invariant. */
  lemma ConsKeepsWellFormed(p: Product, rest: seq<Product>)
    requires WellFormed(rest) && !Has(rest, p.id) && p.amount >= 1
    ensures WellFormed([p] + rest)
  {
    var r := [p] + rest;
    forall i, j | 0 <= i < j < |r| ensures r[i].id != r[j].id {
      if i > 0 { assert r[i] == rest[i - 1]; }
      assert r[j] == rest[j - 1];
    }
    forall i | 0 <= i < |r| ensures r[i].amount >= 1 {
      if i > 0 { assert r[i] == rest[i - 1]; }
    }
  }

  /** Filtering keeps the invariant: what remains is a subsequence. */
  lemma {:induction false} WithoutKeepsWellFormed(cart: seq<Product>, id: int)
    requires WellFormed(cart)
    ensures WellFormed(Without(cart, id))
  {
    if cart != [] {
      var tail := cart[1..];
      TailKeepsWellFormed(cart);
      WithoutKeepsWellFormed(tail, id);
      if cart[0].id != id {
        var rest := Without(tail, id);
        assert !Has(rest, cart[0].id) by {
          forall i | 0 <= i < |rest| ensures rest[i].id != cart[0].id {
            var j :| 0 <= j < |tail| && tail[j] == rest[i];
            assert tail[j] == cart[j + 1];
          }
        }
        ConsKeepsWellFormed(cart[0], rest);
      }
    }
  }

  /** Appending an entry with a fresh id and a positive amount keeps the
      invariant. */
  lemma AppendKeepsWellFormed(cart: seq<Product>, p: Product)
    requires WellFormed(cart) && !Has(cart, p.id) && p.amount >= 1
    ensures WellFormed(cart + [p])
  {
    var r := cart + [p];
    forall i, j | 0 <= i < j < |r| ensures r[i].id != r[j].id {
      assert r[i] == cart[i];
      if j < |cart| { assert r[j] == cart[j]; }
    }
    forall i | 0 <= i < |r| ensures r[i].amount >= 1 {
      if i < |cart| { assert r[i] == cart[i]; }
    }
  }
}
