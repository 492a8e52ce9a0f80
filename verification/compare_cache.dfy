/**
 A model of `IRCompareCache`: a fixed-capacity, direct-mapped, lossy cache of
 expression pairs already known to be equal. Each of its `2^bits` slots holds
 one pair of expression handles; inserting a pair overwrites its slot, so a
 collision evicts the pair that was there. Looking a pair up compares handles
 by identity and accepts the pair in either order.

 The slot function `hash` is declared but not defined by the cache, so every
 operation takes it as a parameter and asks only that it address a slot.
 */
module CompareCache {

  /** An `Expr` handle: the null handle, or a node identified by its address.
      Handle equality is `same_as`; two null handles are the same. */
  datatype Handle = Undefined | Node(id: nat)

  /** One slot of the cache: the pair of handles last inserted there. */
  datatype Entry = Entry(a: Handle, b: Handle)

  /** What a slot holds before anything is inserted and after `clear`. */
  const EmptyEntry: Entry := Entry(Undefined, Undefined)

  /** The cache's slot function, `hash(a, b)`. Its body is not part of the model. */
  type HashFn = (Handle, Handle) -> nat

  /** `bits` as given to the constructor, and the slot vector. */
  datatype Cache = Cache(bits: int, entries: seq<Entry>)

  function Pow2(n: nat): nat
  {
    if n == 0 then 1 else 2 * Pow2(n - 1)
  }

  /** `hash(a, b)` is a valid index into the slot vector: what `entries[h]` demands. */
  predicate Addressable(c: Cache, hash: HashFn, a: Handle, b: Handle)
  {
    hash(a, b) < |c.entries|
  }

  /** Every slot holds the pair of null handles. */
  predicate AllEmpty(c: Cache)
  {
    forall i :: 0 <= i < |c.entries| ==> c.entries[i] == EmptyEntry
  }

  /** The slot holds the unordered pair {x, y}. */
  predicate Holds(e: Entry, x: Handle, y: Handle)
  {
    multiset{e.a, e.b} == multiset{x, y}
  }

  lemma HoldsInEitherOrder(e: Entry, x: Handle, y: Handle)
    ensures Holds(e, x, y) <==> (e.a == x && e.b == y) || (e.a == y && e.b == x)
  {
    if Holds(e, x, y) && e.a != x {
      assert e.a in multiset{x, y};
      assert x in multiset{e.a, e.b};
    }
  }

  /** The default constructor: `bits` is 0 and the slot vector is empty, so no
      pair is addressable and neither `insert` nor `contains` may be called. */
  function Default(): (c: Cache)
    ensures c.bits == 0 && |c.entries| == 0
    ensures forall hash: HashFn, a, b :: !Addressable(c, hash, a, b)
  {
    Cache(0, [])
  }

  /** `IRCompareCache(b)`: `1 << b` slots, each holding two null handles.
      The shift is on a 64-bit `size_t`, so `b` must lie in [0, 64). */
  function New(b: int): (c: Cache)
    requires 0 <= b < 64
    ensures c.bits == b
    ensures |c.entries| == Pow2(b)
    ensures AllEmpty(c)
  {
    Cache(b, seq(Pow2(b), _ => EmptyEntry))
  }

  /** `insert(a, b)`: overwrite slot `hash(a, b)` with the pair, unconditionally. */
  function Insert(c: Cache, hash: HashFn, a: Handle, b: Handle): (r: Cache)
    requires Addressable(c, hash, a, b)
    ensures r.bits == c.bits
    ensures |r.entries| == |c.entries|
    ensures Holds(r.entries[hash(a, b)], a, b)
    ensures forall i :: 0 <= i < |c.entries| && i != hash(a, b) ==> r.entries[i] == c.entries[i]
  {
    c.(entries := c.entries[hash(a, b) := Entry(a, b)])
  }

  /** `contains(a, b)`: does slot `hash(a, b)` hold the pair, in either order? */
  function Contains(c: Cache, hash: HashFn, a: Handle, b: Handle): (r: bool)
    requires Addressable(c, hash, a, b)
    ensures r <==> Holds(c.entries[hash(a, b)], a, b)
  {
    var e := c.entries[hash(a, b)];
    HoldsInEitherOrder(e, a, b);
    (a == e.a && b == e.b) || (a == e.b && b == e.a)
  }

  /** `clear()`: every slot holds a pair of null handles again; `bits` and the
      slot count stay as they were. */
  function Cleared(c: Cache): (r: Cache)
    ensures r.bits == c.bits
    ensures |r.entries| == |c.entries|
    ensures AllEmpty(r)
  {
    Cache(c.bits, seq(|c.entries|, _ => EmptyEntry))
  }

  /** The loop of `clear()`, slot by slot, arrives at `Cleared(c)`. */
  method Clear(c: Cache) returns (r: Cache)
    ensures r == Cleared(c)
  {
    var entries := c.entries;
    var i := 0;
    while i < |entries|
      invariant 0 <= i <= |entries|
      invariant |entries| == |c.entries|
      invariant forall j :: 0 <= j < i ==> entries[j] == EmptyEntry
    {
      entries := entries[i := EmptyEntry];
      i := i + 1;
    }
    r := Cache(c.bits, entries);
  }

  /** After `clear()`, `contains(a, b)` holds only for two null handles, and is
      false whenever one handle is defined. */
  lemma ClearedContainsOnlyNullPair(c: Cache, hash: HashFn, a: Handle, b: Handle)
    requires Addressable(c, hash, a, b)
    ensures Contains(Cleared(c), hash, a, b) <==> a == Undefined && b == Undefined
  {
    EmptyContainsOnlyNullPair(Cleared(c), hash, a, b);
  }

  /** A freshly built cache addresses every pair when `hash` stays below `2^b`. */
  lemma NewAddressesEveryPair(b: int, hash: HashFn, x: Handle, y: Handle)
    requires 0 <= b < 64
    requires hash(x, y) < Pow2(b)
    ensures Addressable(New(b), hash, x, y)
  {
  }

  /** An insert is visible to the lookup of the same pair. */
  lemma InsertThenContains(c: Cache, hash: HashFn, a: Handle, b: Handle)
    requires Addressable(c, hash, a, b)
    ensures Contains(Insert(c, hash, a, b), hash, a, b)
  {
  }

  /** Looking the pair up in the other order finds it exactly when `hash` sends
      both orders to the same slot, or that other slot already held the pair. */
  lemma InsertThenContainsSwapped(c: Cache, hash: HashFn, a: Handle, b: Handle)
    requires Addressable(c, hash, a, b)
    requires Addressable(c, hash, b, a)
    ensures Contains(Insert(c, hash, a, b), hash, b, a)
        <==> hash(b, a) == hash(a, b) || Contains(c, hash, b, a)
  {
  }

  /** An insert leaves the lookup of every pair in another slot unchanged. */
  lemma InsertKeepsOtherSlots(c: Cache, hash: HashFn, a: Handle, b: Handle, x: Handle, y: Handle)
    requires Addressable(c, hash, a, b)
    requires Addressable(c, hash, x, y)
    requires hash(x, y) != hash(a, b)
    ensures Contains(Insert(c, hash, a, b), hash, x, y) == Contains(c, hash, x, y)
  {
  }

  /** Eviction: a different pair inserted into the same slot displaces the first. */
  lemma CollisionEvicts(c: Cache, hash: HashFn, a: Handle, b: Handle, x: Handle, y: Handle)
    requires Addressable(c, hash, a, b)
    requires Addressable(c, hash, x, y)
    requires hash(x, y) == hash(a, b)
    requires multiset{x, y} != multiset{a, b}
    ensures !Contains(Insert(Insert(c, hash, a, b), hash, x, y), hash, a, b)
  {
  }

  /** A cache whose slots are all empty (fresh or cleared) reports only the
      pair of null handles, and no pair with a defined handle. */
  lemma EmptyContainsOnlyNullPair(c: Cache, hash: HashFn, a: Handle, b: Handle)
    requires AllEmpty(c)
    requires Addressable(c, hash, a, b)
    ensures Contains(c, hash, a, b) <==> a == Undefined && b == Undefined
  {
    var e := c.entries[hash(a, b)];
    assert e == EmptyEntry;
    HoldsInEitherOrder(e, a, b);
  }

  /** Every pair in `ps` addresses a slot of `c`. */
  predicate AllAddressable(c: Cache, hash: HashFn, ps: seq<Entry>)
  {
    forall i :: 0 <= i < |ps| ==> Addressable(c, hash, ps[i].a, ps[i].b)
  }

  /** A session of inserts, applied in order: what a comparison session does to its cache. */
  function InsertAll(c: Cache, hash: HashFn, ps: seq<Entry>): (r: Cache)
    requires AllAddressable(c, hash, ps)
    ensures r.bits == c.bits
    ensures |r.entries| == |c.entries|
    ensures AllAddressable(r, hash, ps)
    decreases |ps|
  {
    if |ps| == 0 then c
    else
      var last := ps[|ps| - 1];
      Insert(InsertAll(c, hash, ps[..|ps| - 1]), hash, last.a, last.b)
  }

  /** Every slot is empty or holds one of the pairs in `known`. */
  ghost predicate OnlyKnown(c: Cache, known: seq<Entry>)
  {
    forall i :: 0 <= i < |c.entries| ==>
      c.entries[i] == EmptyEntry || exists j :: 0 <= j < |known| && c.entries[i] == known[j]
  }

  lemma {:induction false} InsertAllOnlyKnown(c: Cache, hash: HashFn, ps: seq<Entry>)
    requires AllEmpty(c)
    requires AllAddressable(c, hash, ps)
    ensures OnlyKnown(InsertAll(c, hash, ps), ps)
    decreases |ps|
  {
    if |ps| > 0 {
      var init := ps[..|ps| - 1];
      var last := ps[|ps| - 1];
      InsertAllOnlyKnown(c, hash, init);
      var prev := InsertAll(c, hash, init);
      var r := InsertAll(c, hash, ps);
      assert r == Insert(prev, hash, last.a, last.b);
      forall i | 0 <= i < |r.entries|
        ensures r.entries[i] == EmptyEntry || exists j :: 0 <= j < |ps| && r.entries[i] == ps[j]
      {
        if i == hash(last.a, last.b) {
          assert r.entries[i] == ps[|ps| - 1];
        } else if prev.entries[i] != EmptyEntry {
          var j :| 0 <= j < |init| && prev.entries[i] == init[j];
          assert r.entries[i] == ps[j];
        }
      }
    }
  }

  /** Soundness: a cache that started empty reports a pair only if that pair (in
      some order) was inserted during the session, or both handles are null.
      The cache never invents an "equal" fact. */
  lemma ContainsOnlyInserted(c: Cache, hash: HashFn, ps: seq<Entry>, a: Handle, b: Handle)
    requires AllEmpty(c)
    requires AllAddressable(c, hash, ps)
    requires Addressable(c, hash, a, b)
    requires Contains(InsertAll(c, hash, ps), hash, a, b)
    ensures (a == Undefined && b == Undefined) || exists j :: 0 <= j < |ps| && Holds(ps[j], a, b)
  {
    var r := InsertAll(c, hash, ps);
    InsertAllOnlyKnown(c, hash, ps);
    var e := r.entries[hash(a, b)];
    HoldsInEitherOrder(e, a, b);
    if e != EmptyEntry {
      var j :| 0 <= j < |ps| && e == ps[j];
      assert Holds(ps[j], a, b);
    }
  }

  /** Completeness up to eviction: a pair inserted during the session is still
      reported as long as no later insert of the session landed in its slot. */
  lemma {:induction false} ContainsUntilEvicted(c: Cache, hash: HashFn, ps: seq<Entry>, k: nat)
    requires AllAddressable(c, hash, ps)
    requires k < |ps|
    requires forall j :: k < j < |ps| ==> hash(ps[j].a, ps[j].b) != hash(ps[k].a, ps[k].b)
    ensures Contains(InsertAll(c, hash, ps), hash, ps[k].a, ps[k].b)
    decreases |ps|
  {
    var init := ps[..|ps| - 1];
    var last := ps[|ps| - 1];
    if k == |ps| - 1 {
      InsertThenContains(InsertAll(c, hash, init), hash, last.a, last.b);
    } else {
      assert init[k] == ps[k];
      forall j | k < j < |init|
        ensures hash(init[j].a, init[j].b) != hash(init[k].a, init[k].b)
      {
        assert init[j] == ps[j];
      }
      ContainsUntilEvicted(c, hash, init, k);
      InsertKeepsOtherSlots(InsertAll(c, hash, init), hash, last.a, last.b, ps[k].a, ps[k].b);
    }
  }
}
