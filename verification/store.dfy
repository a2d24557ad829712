/** The cart store: the in-memory cart together with the copy last written to
    storage under the single key `@GoMarketplace:products`. Each mutation
    commits its new cart in memory and issues one write; the model applies
    that write at the point it is issued. */
module Store {
  import opened Wrappers
  import opened Cart
  import CartProperties

  /** `mem` is the committed cart; `stored` is the decoded payload under the
      storage key, `None` while nothing has been written. */
  datatype State = State(mem: seq<Product>, stored: Option<seq<Product>>)

  /** Storage holds exactly the in-memory cart. */
  predicate Synced(s: State)
  {
    s.stored == Some(s.mem)
  }

  /** Storage holds the in-memory cart without its last item: the shape left
      by the stale write of `addToCart`. */
  predicate LagsByLast(s: State)
  {
    |s.mem| > 0 && s.stored == Some(s.mem[..|s.mem| - 1])
  }

  /** Nothing stored and nothing in memory: a first start. */
  predicate Blank(s: State)
  {
    s.mem == [] && s.stored.None?
  }

  /** The relations between memory and storage that `ReachableCoherent`
      shows are the only ones the store can reach. */
  predicate Coherent(s: State)
  {
    Synced(s) || LagsByLast(s) || Blank(s)
  }

  /** `loadProducts`: a stored payload replaces the initially empty cart; with
      no payload the cart stays empty. Storage itself is only read. */
  function Hydrate(payload: Option<seq<Product>>): (s: State)
    ensures s.stored == payload
    ensures payload.Some? ==> Synced(s)
    ensures payload.None? ==> Blank(s)
  {
    match payload
    case None => State([], None)
    case Some(items) => State(items, Some(items))
  }

  /** `increment(id)`: commit the mapped cart and write that same cart, even
      when no item carries `id` and the cart is unchanged. */
  function IncrementStep(s: State, id: string): (t: State)
    ensures Synced(t)
    ensures t.mem == Increment(s.mem, id)
    ensures !HasId(s.mem, id) ==> t == State(s.mem, Some(s.mem))
  {
    var next := Increment(s.mem, id);
    State(next, Some(next))
  }

  /** `decrement(id)`: both branches commit their new cart and write it. For
      an absent id the guard is false, so the map branch runs, changes
      nothing, and still writes. */
  function DecrementStep(s: State, id: string): (t: State)
    ensures Synced(t)
    ensures t.mem == Decrement(s.mem, id)
    ensures !HasId(s.mem, id) ==> t == State(s.mem, Some(s.mem))
  {
    var next := Decrement(s.mem, id);
    State(next, Some(next))
  }

  /** `addToCart(p)` as written: an existing id goes through `increment` (and
      its write); a new product is committed appended, but the write that
      follows stores the cart from before the append. */
  function AddToCartStep(s: State, p: Product): (t: State)
    ensures t.mem == AddToCart(s.mem, p)
    ensures HasId(s.mem, p.id) ==> Synced(t)
    ensures !HasId(s.mem, p.id) ==> t.stored == Some(s.mem) && LagsByLast(t) && !Synced(t)
  {
    if Find(s.mem, p.id).Some? then IncrementStep(s, p.id)
    else
      var t := State(s.mem + [NewLine(p)], Some(s.mem));
      assert t.mem[..|t.mem| - 1] == s.mem;
      assert |t.mem| != |s.mem|;
      t
  }

  /** One call on the cart's public surface. */
  datatype Op = AddToCartOp(product: Product) | IncrementOp(id: string) | DecrementOp(id: string)

  /** One mutation, run to completion on the current state. */
  function Apply(s: State, op: Op): State
  {
    match op
    case AddToCartOp(p) => AddToCartStep(s, p)
    case IncrementOp(id) => IncrementStep(s, id)
    case DecrementOp(id) => DecrementStep(s, id)
  }

  /** A session: mutations applied one after another, each awaited. */
  function Run(s: State, ops: seq<Op>): State
    decreases |ops|
  {
    if |ops| == 0 then s else Run(Apply(s, ops[0]), ops[1..])
  }

  /** Any session keeps the cart invariants: ids unique, quantities positive. */
  lemma {:induction false} RunPreservesWellFormed(s: State, ops: seq<Op>)
    requires WellFormed(s.mem)
    ensures WellFormed(Run(s, ops).mem)
    decreases |ops|
  {
    if |ops| > 0 {
      match ops[0] {
        case AddToCartOp(p) => CartProperties.AddToCartPreservesWellFormed(s.mem, p);
        case IncrementOp(id) => CartProperties.IncrementPreservesWellFormed(s.mem, id);
        case DecrementOp(id) => CartProperties.DecrementPreservesWellFormed(s.mem, id);
      }
      RunPreservesWellFormed(Apply(s, ops[0]), ops[1..]);
    }
  }

  /** Whatever the state before it, after at least one mutation storage holds
      either the in-memory cart or the cart without its last item. */
  lemma {:induction false} RunLeavesStorageAtMostOneBehind(s: State, ops: seq<Op>)
    requires |ops| > 0
    ensures Synced(Run(s, ops)) || LagsByLast(Run(s, ops))
    decreases |ops|
  {
    if |ops| > 1 {
      RunLeavesStorageAtMostOneBehind(Apply(s, ops[0]), ops[1..]);
    } else {
      assert Run(s, ops) == Apply(s, ops[0]);
    }
  }

  /** A session that ends with an `increment` or `decrement` leaves storage
      equal to the in-memory cart. */
  lemma {:induction false} RunEndingInCountChangeIsSynced(s: State, ops: seq<Op>, last: Op)
    requires last.IncrementOp? || last.DecrementOp?
    ensures Synced(Run(s, ops + [last]))
    decreases |ops|
  {
    if |ops| > 0 {
      assert (ops + [last])[1..] == ops[1..] + [last];
      RunEndingInCountChangeIsSynced(Apply(s, ops[0]), ops[1..], last);
    }
  }

  /** Every state reached by hydrating and then running a session is
      coherent. */
  lemma ReachableCoherent(payload: Option<seq<Product>>, ops: seq<Op>)
    ensures Coherent(Run(Hydrate(payload), ops))
  {
    if |ops| > 0 {
      RunLeavesStorageAtMostOneBehind(Hydrate(payload), ops);
    }
  }

  /** A restart hydrates from storage. After any start and any session it gets
      back the in-memory cart, or that cart without its last item. */
  lemma RestartLosesAtMostLast(payload: Option<seq<Product>>, ops: seq<Op>)
    ensures var s := Run(Hydrate(payload), ops);
            Hydrate(s.stored).mem == s.mem ||
            (|s.mem| > 0 && Hydrate(s.stored).mem == s.mem[..|s.mem| - 1])
  {
    ReachableCoherent(payload, ops);
  }

  /** The stale write in action: on a first start, adding a product and then
      restarting comes back to an empty cart. */
  lemma StaleWriteLosesNewItem(p: Product)
    ensures AddToCartStep(Hydrate(None), p).mem == [NewLine(p)]
    ensures Hydrate(AddToCartStep(Hydrate(None), p).stored).mem == []
  {
  }

  /** `addToCart` with the write the design intends: the new cart is both
      committed and stored. */
  function IntendedAddToCartStep(s: State, p: Product): (t: State)
    ensures Synced(t)
    ensures t.mem == AddToCartStep(s, p).mem
  {
    var next := AddToCart(s.mem, p);
    State(next, Some(next))
  }

  /** One mutation with the intended `addToCart` write. */
  function ApplyIntended(s: State, op: Op): State
  {
    match op
    case AddToCartOp(p) => IntendedAddToCartStep(s, p)
    case IncrementOp(id) => IncrementStep(s, id)
    case DecrementOp(id) => DecrementStep(s, id)
  }

  /** A session with the intended `addToCart` write. */
  function RunIntended(s: State, ops: seq<Op>): State
    decreases |ops|
  {
    if |ops| == 0 then s else RunIntended(ApplyIntended(s, ops[0]), ops[1..])
  }

  /** With the intended write, a session computes the same carts as the code
      does, and after at least one mutation storage equals memory, so a
      restart loses nothing. */
  lemma {:induction false} RunIntendedSynced(s: State, s': State, ops: seq<Op>)
    requires s.mem == s'.mem
    ensures RunIntended(s, ops).mem == Run(s', ops).mem
    ensures |ops| > 0 ==> Synced(RunIntended(s, ops))
    ensures |ops| > 0 ==> Hydrate(RunIntended(s, ops).stored).mem == RunIntended(s, ops).mem
    decreases |ops|
  {
    if |ops| > 0 {
      RunIntendedSynced(ApplyIntended(s, ops[0]), Apply(s', ops[0]), ops[1..]);
    }
  }
}
