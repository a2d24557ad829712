/** Properties of the cart transitions: the filter keeps the survivors in
    order, on a cart with unique ids each transition edits, removes or
    appends exactly one position, and every transition preserves the cart
    invariants. */
module CartProperties {
  import opened Wrappers
  import opened Cart

  /** The filter distributes over concatenation, so it never reorders the
      items it keeps. */
  lemma {:induction false} WithoutAppend(a: seq<Product>, b: seq<Product>, id: string)
    ensures Without(a + b, id) == Without(a, id) + Without(b, id)
  {
    if |a| == 0 {
      assert a + b == b;
    } else {
      assert (a + b)[1..] == a[1..] + b;
      WithoutAppend(a[1..], b, id);
    }
  }

  /** Dropping the head of a cart with unique ids keeps the ids unique. */
  lemma TailUnique(cart: seq<Product>)
    requires |cart| > 0 && UniqueIds(cart)
    ensures UniqueIds(cart[1..])
  {
    var tail := cart[1..];
    forall i, j | 0 <= i < j < |tail|
      ensures tail[i].id != tail[j].id
    {
      assert tail[i] == cart[i + 1] && tail[j] == cart[j + 1];
    }
  }

  /** An item whose id is not in a cart with unique ids can head that cart. */
  lemma ConsUnique(x: Product, w: seq<Product>)
    requires UniqueIds(w) && !HasId(w, x.id)
    ensures UniqueIds([x] + w)
  {
    var r := [x] + w;
    forall i, j | 0 <= i < j < |r|
      ensures r[i].id != r[j].id
    {
      assert r[j] == w[j - 1];
      if i > 0 {
        assert r[i] == w[i - 1];
      }
    }
  }

  /** Filtering a cart with unique ids keeps the ids unique. */
  lemma {:induction false} WithoutKeepsUnique(cart: seq<Product>, id: string)
    requires UniqueIds(cart)
    ensures UniqueIds(Without(cart, id))
  {
    if |cart| > 0 {
      var tail := cart[1..];
      TailUnique(cart);
      WithoutKeepsUnique(tail, id);
      if cart[0].id != id {
        var w := Without(tail, id);
        assert !HasId(w, cart[0].id) by {
          forall j | 0 <= j < |w|
            ensures w[j].id != cart[0].id
          {
            assert w[j] in tail;
            var m :| 0 <= m < |tail| && tail[m] == w[j];
            assert cart[m + 1] == w[j];
          }
        }
        ConsUnique(cart[0], w);
      }
    }
  }

  /** On a cart with unique ids, the item carrying `id` is the one found. */
  lemma FindUnique(cart: seq<Product>, id: string, k: nat)
    requires UniqueIds(cart)
    requires k < |cart| && cart[k].id == id
    ensures FindIndex(cart, id) == Some(k)
    ensures Find(cart, id) == Some(cart[k])
  {
    assert HasId(cart, id);
  }

  /** On a cart with unique ids, no item before or after the one carrying
      `id` carries it too. */
  lemma IdOnlyAt(cart: seq<Product>, id: string, k: nat)
    requires UniqueIds(cart)
    requires k < |cart| && cart[k].id == id
    ensures !HasId(cart[..k], id) && !HasId(cart[k + 1..], id)
  {
    var pre, post := cart[..k], cart[k + 1..];
    forall i | 0 <= i < |pre|
      ensures pre[i].id != id
    {
      assert pre[i] == cart[i];
    }
    forall i | 0 <= i < |post|
      ensures post[i].id != id
    {
      assert post[i] == cart[k + 1 + i];
    }
  }

  /** On a cart with unique ids, the filter splices out exactly the one item
      carrying `id`; every other item survives in its original order. */
  lemma WithoutSplice(cart: seq<Product>, id: string, k: nat)
    requires UniqueIds(cart)
    requires k < |cart| && cart[k].id == id
    ensures Without(cart, id) == cart[..k] + cart[k + 1..]
  {
    var pre, post := cart[..k], cart[k + 1..];
    IdOnlyAt(cart, id, k);
    assert cart == pre + ([cart[k]] + post);
    WithoutAppend(pre, [cart[k]] + post, id);
    WithoutAppend([cart[k]], post, id);
    assert Without([cart[k]], id) == [];
  }

  /** On a cart with unique ids, `increment` rewrites the single position that
      carries `id` and nothing else. */
  lemma IncrementUpdatesOne(cart: seq<Product>, id: string, k: nat)
    requires UniqueIds(cart)
    requires k < |cart| && cart[k].id == id
    ensures Increment(cart, id) == cart[k := cart[k].(quantity := cart[k].quantity + 1)]
  {
  }

  /** `decrement` of an item whose quantity is at most one removes it and
      keeps every other item in order. */
  lemma DecrementRemovesAtOne(cart: seq<Product>, id: string, k: nat)
    requires UniqueIds(cart)
    requires k < |cart| && cart[k].id == id && cart[k].quantity <= 1
    ensures Decrement(cart, id) == cart[..k] + cart[k + 1..]
    ensures |Decrement(cart, id)| == |cart| - 1
  {
    FindUnique(cart, id, k);
    WithoutSplice(cart, id, k);
  }

  /** `decrement` of an item whose quantity exceeds one lowers that quantity by
      exactly one; the length and every other item are unchanged. */
  lemma DecrementLowersOne(cart: seq<Product>, id: string, k: nat)
    requires UniqueIds(cart)
    requires k < |cart| && cart[k].id == id && cart[k].quantity > 1
    ensures Decrement(cart, id) == cart[k := cart[k].(quantity := cart[k].quantity - 1)]
  {
    FindUnique(cart, id, k);
  }

  /** For an absent id the guard `product?.quantity <= 1` is false, so
      `decrement` takes the map branch, and that branch changes nothing. */
  lemma AbsentIdTakesMapBranch(cart: seq<Product>, id: string)
    requires !HasId(cart, id)
    ensures !AtMostOneGuard(Find(cart, id))
    ensures Decrement(cart, id) == Adjust(cart, id, -1) == cart
  {
  }

  /** When the guard holds, `decrement` is the filter, so on any split of the
      cart, repeated ids included, the survivors of each part stay in order. */
  lemma DecrementRemovalKeepsOrder(a: seq<Product>, b: seq<Product>, id: string)
    requires HasId(a + b, id) && Find(a + b, id).value.quantity <= 1
    ensures Decrement(a + b, id) == Without(a, id) + Without(b, id)
  {
    WithoutAppend(a, b, id);
  }

  /** `addToCart` of a product already present delegates to `increment`
      whatever the rest of the cart holds. */
  lemma AddExistingIsIncrement(cart: seq<Product>, p: Product)
    requires HasId(cart, p.id)
    ensures AddToCart(cart, p) == Increment(cart, p.id)
  {
  }

  /** With unique ids, `addToCart` of a product already present raises that
      item's quantity by one, keeps its stored display fields and adds no
      duplicate entry. */
  lemma AddExistingIncrements(cart: seq<Product>, p: Product, k: nat)
    requires UniqueIds(cart)
    requires k < |cart| && cart[k].id == p.id
    ensures AddToCart(cart, p) == cart[k := cart[k].(quantity := cart[k].quantity + 1)]
  {
    IncrementUpdatesOne(cart, p.id, k);
  }

  /** `increment` preserves unique ids and positive quantities. */
  lemma IncrementPreservesWellFormed(cart: seq<Product>, id: string)
    requires WellFormed(cart)
    ensures WellFormed(Increment(cart, id))
  {
  }

  /** `decrement` preserves unique ids and positive quantities: the removal
      branch only drops items, and the map branch only lowers a quantity that
      was above one. */
  lemma DecrementPreservesWellFormed(cart: seq<Product>, id: string)
    requires WellFormed(cart)
    ensures WellFormed(Decrement(cart, id))
  {
    var r := Decrement(cart, id);
    match FindIndex(cart, id)
    case None =>
    case Some(k) =>
      FindUnique(cart, id, k);
      if cart[k].quantity <= 1 {
        WithoutKeepsUnique(cart, id);
        forall i | 0 <= i < |r|
          ensures r[i].quantity >= 1
        {
          assert r[i] in cart;
        }
      } else {
        DecrementLowersOne(cart, id, k);
      }
  }

  /** `addToCart` preserves unique ids and positive quantities. */
  lemma AddToCartPreservesWellFormed(cart: seq<Product>, p: Product)
    requires WellFormed(cart)
    ensures WellFormed(AddToCart(cart, p))
  {
    if !HasId(cart, p.id) {
      var r := AddToCart(cart, p);
      forall i, j | 0 <= i < j < |r|
        ensures r[i].id != r[j].id
      {
        if j < |cart| {
          assert r[i] == cart[i] && r[j] == cart[j];
        } else {
          assert r[i] == cart[i];
        }
      }
    }
  }
}
