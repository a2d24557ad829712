/** The cart's list transitions: the pure part of `increment`, `decrement`
    and `addToCart`. A cart is an ordered sequence of line items; each
    transition builds a new sequence (value semantics) instead of mutating
    the items in place. */
module Cart {
  import opened Wrappers

  /** One line item. `title`, `imageUrl` and `price` are opaque passthrough
      fields: the cart copies them and never computes with them. */
  datatype Product = Product(
    id: string,
    title: string,
    imageUrl: string,
    price: real,
    quantity: int
  )

  /** Some item of `cart` carries `id`. */
  predicate HasId(cart: seq<Product>, id: string)
  {
    exists i :: 0 <= i < |cart| && cart[i].id == id
  }

  /** At most one line item per id (the uniqueness invariant). */
  ghost predicate UniqueIds(cart: seq<Product>)
  {
    forall i, j :: 0 <= i < j < |cart| ==> cart[i].id != cart[j].id
  }

  /** Every quantity is a strictly positive count. */
  ghost predicate PositiveQuantities(cart: seq<Product>)
  {
    forall i :: 0 <= i < |cart| ==> cart[i].quantity >= 1
  }

  /** Both cart invariants. */
  ghost predicate WellFormed(cart: seq<Product>)
  {
    UniqueIds(cart) && PositiveQuantities(cart)
  }

  /** Position of the first item carrying `id`, the way `Array.prototype.find`
      scans from the front. */
  function FindIndex(cart: seq<Product>, id: string): (r: Option<nat>)
    ensures r.None? <==> !HasId(cart, id)
    ensures r.Some? ==> r.value < |cart| && cart[r.value].id == id
    ensures r.Some? ==> forall j :: 0 <= j < r.value ==> cart[j].id != id
  {
    if |cart| == 0 then None
    else if cart[0].id == id then Some(0)
    else
      match FindIndex(cart[1..], id)
      case None => None
      case Some(k) => Some(k + 1)
  }

  /** `products.find(p => p.id === id)`: the first item carrying `id`, or
      `None` (JavaScript's `undefined`) when there is none. */
  function Find(cart: seq<Product>, id: string): (r: Option<Product>)
    ensures r.Some? <==> HasId(cart, id)
    ensures r.Some? ==> r.value.id == id && r.value in cart
    ensures r.Some? ==> exists k :: 0 <= k < |cart| && cart[k] == r.value &&
                                   forall j :: 0 <= j < k ==> cart[j].id != id
  {
    match FindIndex(cart, id)
    case None => None
    case Some(k) =>
      assert 0 <= k < |cart| && forall j :: 0 <= j < k ==> cart[j].id != id;
      Some(cart[k])
  }

  /** The callback of the quantity-changing `products.map`: an item carrying
      `id` gets `delta` added to its quantity, any other item is returned as is. */
  function Bump(p: Product, id: string, delta: int): Product
  {
    if p.id == id then p.(quantity := p.quantity + delta) else p
  }

  /** The quantity-changing `products.map`, shared by `increment` (+1) and the
      second branch of `decrement` (-1). */
  function Adjust(cart: seq<Product>, id: string, delta: int): (r: seq<Product>)
    ensures |r| == |cart|
    ensures forall i :: 0 <= i < |cart| && cart[i].id == id ==>
              r[i] == cart[i].(quantity := cart[i].quantity + delta)
    ensures forall i :: 0 <= i < |cart| && cart[i].id != id ==> r[i] == cart[i]
  {
    if |cart| == 0 then []
    else [Bump(cart[0], id, delta)] + Adjust(cart[1..], id, delta)
  }

  /** `products.filter(p => p.id !== id)`: every item carrying `id` dropped. */
  function Without(cart: seq<Product>, id: string): (r: seq<Product>)
    ensures |r| <= |cart|
    ensures !HasId(r, id)
    ensures forall x :: x in r <==> x in cart && x.id != id
    ensures !HasId(cart, id) ==> r == cart
  {
    if |cart| == 0 then []
    else if cart[0].id == id then Without(cart[1..], id)
    else [cart[0]] + Without(cart[1..], id)
  }

  /** `increment(id)`: every item carrying `id` gets one more unit; the list
      keeps its length and order, and every other item is untouched. */
  function Increment(cart: seq<Product>, id: string): (r: seq<Product>)
    ensures |r| == |cart|
    ensures forall i :: 0 <= i < |cart| ==> r[i].id == cart[i].id
    ensures forall i :: 0 <= i < |cart| && cart[i].id == id ==>
              r[i] == cart[i].(quantity := cart[i].quantity + 1)
    ensures forall i :: 0 <= i < |cart| && cart[i].id != id ==> r[i] == cart[i]
    ensures !HasId(cart, id) ==> r == cart
  {
    Adjust(cart, id, 1)
  }

  /** The guard `product?.quantity <= 1`. For a missing product the optional
      chain yields `undefined`, and `undefined <= 1` is false. */
  predicate AtMostOneGuard(found: Option<Product>)
  {
    match found
    case None => false
    case Some(p) => p.quantity <= 1
  }

  /** `decrement(id)`. When the first item carrying `id` has quantity at most
      one, every item carrying `id` is filtered out; otherwise (including when
      `id` is absent) the quantity-changing map runs with -1. */
  function Decrement(cart: seq<Product>, id: string): (r: seq<Product>)
    ensures !HasId(cart, id) ==> r == cart
    ensures HasId(cart, id) && Find(cart, id).value.quantity <= 1 ==>
              !HasId(r, id) && (forall x :: x in r <==> x in cart && x.id != id)
    ensures HasId(cart, id) && Find(cart, id).value.quantity <= 1 ==> r == Without(cart, id)
    ensures HasId(cart, id) && Find(cart, id).value.quantity > 1 ==>
              |r| == |cart| &&
              (forall i :: 0 <= i < |cart| && cart[i].id == id ==>
                 r[i] == cart[i].(quantity := cart[i].quantity - 1)) &&
              (forall i :: 0 <= i < |cart| && cart[i].id != id ==> r[i] == cart[i])
  {
    if AtMostOneGuard(Find(cart, id)) then Without(cart, id)
    else Adjust(cart, id, -1)
  }

  /** The item `addToCart` appends for a product not yet in the cart: the
      candidate's fields with the quantity forced to one. */
  function NewLine(p: Product): (r: Product)
    ensures r.id == p.id && r.title == p.title && r.imageUrl == p.imageUrl
    ensures r.price == p.price && r.quantity == 1
  {
    p.(quantity := 1)
  }

  /** `addToCart(p)`. A product whose id is already in the cart is delegated
      to `increment`, which keeps the stored item's display fields; a new
      product is appended with quantity one. */
  function AddToCart(cart: seq<Product>, p: Product): (r: seq<Product>)
    ensures HasId(r, p.id)
    ensures HasId(cart, p.id) ==>
              |r| == |cart| &&
              (forall i :: 0 <= i < |cart| && cart[i].id == p.id ==>
                 r[i] == cart[i].(quantity := cart[i].quantity + 1)) &&
              (forall i :: 0 <= i < |cart| && cart[i].id != p.id ==> r[i] == cart[i])
    ensures !HasId(cart, p.id) ==>
              |r| == |cart| + 1 && r[..|cart|] == cart &&
              r[|cart|] == Product(p.id, p.title, p.imageUrl, p.price, 1)
  {
    if Find(cart, p.id).Some? then Increment(cart, p.id)
    else
      var r := cart + [NewLine(p)];
      assert r[|cart|].id == p.id;
      r
  }
}
