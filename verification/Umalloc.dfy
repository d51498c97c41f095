/** The user-level storage allocator: an address-ordered, circular free list of
    blocks of header-sized units. Addresses count units, so p + 1 is the unit
    after the header at p; 0 is the null pointer. */
module Umalloc {
  import opened Numbers

  datatype Header = Header(ptr: nat, size: nat)

  /** Headers in memory; the free blocks, among them the static `base`; the live
      blocks and their sizes; and, for every unit obtained from sbrk, the block
      it belongs to. */
  datatype Heap = Heap(mem: map<nat, Header>, free: set<nat>, live: map<nat, nat>, owner: map<nat, nat>)

  /** `base` is free, lowest and empty; no other free block is empty. */
  predicate Rooted(h: Heap, base: nat) {
    && base in h.free && base in h.mem && h.mem[base].size == 0
    && (forall a :: a in h.free ==> a in h.mem && base <= a && (a != base ==> h.mem[a].size > 0))
  }

  /** p follows a in the circular list ordered by address. */
  predicate Follows(free: set<nat>, base: nat, a: nat, p: nat) {
    && p in free
    && if a < p then forall f :: f in free ==> f <= a || p <= f
       else p == base && forall f :: f in free ==> f <= a
  }

  predicate Linked(h: Heap, base: nat) {
    forall a {:trigger Placed(h, base, a)} :: a in h.free ==> Placed(h, base, a)
  }

  predicate Placed(h: Heap, base: nat, a: nat) { a in h.mem && Follows(h.free, base, a, h.mem[a].ptr) }

  predicate Touches(h: Heap, a: nat) { a in h.mem && a < h.mem[a].ptr == a + h.mem[a].size }

  predicate Coalesced(h: Heap) { forall a :: a in h.free ==> !Touches(h, a) }

  predicate Holds(owner: map<nat, nat>, a: nat, n: nat) {
    forall u :: a <= u < a + n ==> u in owner && owner[u] == a
  }

  predicate FreeHeld(h: Heap, base: nat) {
    forall a :: a in h.free && a != base ==> a in h.mem && Holds(h.owner, a, h.mem[a].size)
  }

  predicate LiveHeld(h: Heap) {
    forall a :: a in h.live ==> a !in h.free && a in h.mem && h.mem[a].size == h.live[a] > 0 && Holds(h.owner, a, h.live[a])
  }

  /** Every unit obtained belongs to a free or a live block that covers it. */
  predicate Covered(h: Heap, base: nat) {
    forall u :: u in h.owner ==>
      var a := h.owner[u];
      base < a <= u && (a in h.live || a in h.free) && a in h.mem && u < a + h.mem[a].size
  }

  /** All but coalescing. */
  predicate Sound(h: Heap, base: nat) {
    Rooted(h, base) && Linked(h, base) && FreeHeld(h, base) && LiveHeld(h) && Covered(h, base)
  }

  predicate Valid(h: Heap, base: nat) { Sound(h, base) && Coalesced(h) }

  ghost function FreeUnits(h: Heap): set<nat> { set u | u in h.owner && h.owner[u] !in h.live }

  function Extent(a: nat, n: nat): (r: set<nat>)
    ensures forall u :: u in r <==> a <= u < a + n
  {
    if n == 0 then {} else Extent(a, n - 1) + {a + n - 1}
  }

  predicate IsBlock(h: Heap, base: nat, a: nat) { a in h.live || (a in h.free && a != base) }

  /** Blocks do not overlap. */
  lemma BlocksApart(h: Heap, base: nat, a: nat, b: nat)
    requires Sound(h, base) && a < b && IsBlock(h, base, a) && IsBlock(h, base, b)
    ensures a in h.mem && b in h.mem && h.mem[b].size > 0 && a + h.mem[a].size <= b
  {
    assert Holds(h.owner, a, h.mem[a].size);
    assert Holds(h.owner, b, h.mem[b].size);
    assert b in h.owner && h.owner[b] == b;
  }

  // ---- a live block goes back, before any joining ----

  function Inserted(h: Heap, p: nat, b: nat): Heap
    requires p in h.mem && b in h.mem
  {
    h.(mem := h.mem[b := h.mem[b].(ptr := h.mem[p].ptr)][p := h.mem[p].(ptr := b)],
       free := h.free + {b}, live := h.live - {b})
  }

  /** p is where free's search stops for b. */
  predicate Stops(h: Heap, p: nat, b: nat) {
    p in h.free && p in h.mem && p < b && (p < h.mem[p].ptr ==> b < h.mem[p].ptr)
  }

  lemma FollowsInsert(free: set<nat>, base: nat, p: nat, q: nat, b: nat, a: nat, x: nat)
    requires p in free && Follows(free, base, p, q) && p < b && (p < q ==> b < q) && base in free && base <= p
    requires a in free && a != p && Follows(free, base, a, x)
    ensures Follows(free + {b}, base, a, x)
  {
  }

  lemma InsertedFollows(free: set<nat>, base: nat, p: nat, q: nat, b: nat)
    requires p in free && Follows(free, base, p, q) && p < b && (p < q ==> b < q) && base in free && base <= p
    ensures Follows(free + {b}, base, p, b) && Follows(free + {b}, base, b, q)
  {
  }

  lemma InsertLinked(h: Heap, base: nat, p: nat, b: nat)
    requires Rooted(h, base) && Linked(h, base) && Stops(h, p, b) && b in h.mem && b !in h.free
    ensures Linked(Inserted(h, p, b), base)
  {
    hide Follows;
    var t := Inserted(h, p, b);
    assert Placed(h, base, p);
    forall a | a in t.free ensures Placed(t, base, a) {
      if a in h.free && a != p {
        assert Placed(h, base, a);
        FollowsInsert(h.free, base, p, h.mem[p].ptr, b, a, h.mem[a].ptr);
      } else {
        InsertedFollows(h.free, base, p, h.mem[p].ptr, b);
      }
    }
  }

  lemma InsertTiled(h: Heap, base: nat, p: nat, b: nat)
    requires Sound(h, base) && Stops(h, p, b) && b in h.live
    ensures var t := Inserted(h, p, b); Rooted(t, base) && FreeHeld(t, base) && LiveHeld(t) && Covered(t, base)
  {
    hide Linked, Holds;
  }

  /** Only the two new neighbour pairs may touch. */
  lemma InsertCoalesced(h: Heap, base: nat, p: nat, b: nat)
    requires Valid(h, base) && Stops(h, p, b) && b in h.live
    ensures forall a :: a in Inserted(h, p, b).free && a != p && a != b ==> !Touches(Inserted(h, p, b), a)
  {
  }

  // ---- joining a free block with the next one ----

  function Joined(h: Heap, a: nat): Heap
    requires Touches(h, a) && h.mem[a].ptr in h.mem
  {
    var b := h.mem[a].ptr;
    h.(mem := h.mem[a := Header(h.mem[b].ptr, h.mem[a].size + h.mem[b].size)], free := h.free - {b},
       owner := map u | u in h.owner :: if h.owner[u] == b then a else h.owner[u])
  }

  lemma JoinFollows(free: set<nat>, base: nat, a: nat, b: nat, q: nat, c: nat, x: nat)
    requires a in free && base in free && a < b && Follows(free, base, a, b) && Follows(free, base, b, q) && base <= a
    requires c in free && c != a && c != b && Follows(free, base, c, x)
    ensures Follows(free - {b}, base, c, x)
  {
  }

  lemma JoinedFollows(free: set<nat>, base: nat, a: nat, b: nat, q: nat)
    requires a in free && base in free && a < b && Follows(free, base, a, b) && Follows(free, base, b, q) && base <= a
    ensures Follows(free - {b}, base, a, q)
  {
  }

  lemma JoinLinked(h: Heap, base: nat, a: nat)
    requires Rooted(h, base) && Linked(h, base) && a in h.free && Touches(h, a)
    ensures h.mem[a].ptr in h.mem && a != base && h.mem[a].ptr in h.free && Linked(Joined(h, a), base)
  {
    var b := h.mem[a].ptr;
    assert Placed(h, base, a);
    assert Placed(h, base, b);
    var t := Joined(h, a);
    forall c | c in t.free ensures Placed(t, base, c) {
      if c == a {
        JoinedFollows(h.free, base, a, b, h.mem[b].ptr);
      } else {
        assert Placed(h, base, c);
        JoinFollows(h.free, base, a, b, h.mem[b].ptr, c, h.mem[c].ptr);
      }
    }
  }

  /** Where the owner of no unit of the block changes, the block keeps its units. */
  lemma HoldsKept(o: map<nat, nat>, t: map<nat, nat>, c: nat, n: nat)
    requires Holds(o, c, n) && forall u :: u in o && o[u] == c && c <= u < c + n ==> u in t && t[u] == c
    ensures Holds(t, c, n)
  {
  }

  lemma JoinFree(h: Heap, base: nat, a: nat)
    requires Rooted(h, base) && FreeHeld(h, base) && a in h.free && Touches(h, a) && a != base && h.mem[a].ptr in h.free && h.mem[a].ptr in h.mem
    ensures Rooted(Joined(h, a), base) && FreeHeld(Joined(h, a), base)
  {
    var b := h.mem[a].ptr;
    var t := Joined(h, a);
    forall c | c in t.free && c != base ensures Holds(t.owner, c, t.mem[c].size) {
      assert Holds(h.owner, c, h.mem[c].size);
      if c == a { assert Holds(h.owner, b, h.mem[b].size); } else { HoldsKept(h.owner, t.owner, c, h.mem[c].size); }
    }
  }

  lemma JoinLive(h: Heap, base: nat, a: nat)
    requires Rooted(h, base) && LiveHeld(h) && a in h.free && Touches(h, a) && a != base && h.mem[a].ptr in h.free && h.mem[a].ptr in h.mem
    ensures LiveHeld(Joined(h, a))
  {
    hide Holds;
    var t := Joined(h, a);
    forall c | c in t.live ensures Holds(t.owner, c, t.live[c]) { HoldsKept(h.owner, t.owner, c, h.live[c]); }
  }

  lemma JoinCovered(h: Heap, base: nat, a: nat)
    requires Rooted(h, base) && LiveHeld(h) && Covered(h, base) && a in h.free && Touches(h, a) && a != base && h.mem[a].ptr in h.free && h.mem[a].ptr in h.mem
    ensures Covered(Joined(h, a), base)
  {
    hide Holds;
  }

  lemma JoinUnits(h: Heap, base: nat, a: nat)
    requires Sound(h, base) && a in h.free && Touches(h, a) && a != base && h.mem[a].ptr in h.free && h.mem[a].ptr in h.mem
    ensures FreeUnits(Joined(h, a)) == FreeUnits(h) && Joined(h, a).owner.Keys == h.owner.Keys
  {
    hide Linked, Holds;
  }

  /** A block touches its next one after the join just when the swallowed block did. */
  lemma JoinCoalesced(h: Heap, base: nat, a: nat, c: nat)
    requires Rooted(h, base) && a in h.free && Touches(h, a) && h.mem[a].ptr in h.free && h.mem[a].ptr in h.mem
    requires c in Joined(h, a).free
    ensures Touches(Joined(h, a), c) ==> if c == a then Touches(h, h.mem[a].ptr) else Touches(h, c)
  {
  }

  // ---- a free block is taken, whole or its tail ----

  function Taken(h: Heap, prev: nat, p: nat): Heap
    requires prev in h.mem && p in h.mem
  {
    h.(mem := h.mem[prev := h.mem[prev].(ptr := h.mem[p].ptr)], free := h.free - {p}, live := h.live[p := h.mem[p].size])
  }

  lemma TakeLinked(h: Heap, base: nat, prev: nat, p: nat)
    requires Rooted(h, base) && Linked(h, base) && prev in h.free && prev in h.mem && h.mem[prev].ptr == p != base
    ensures prev < p && p in h.free && p in h.mem && Linked(Taken(h, prev, p), base)
  {
    assert Placed(h, base, prev);
    assert Placed(h, base, p);
    var t := Taken(h, prev, p);
    forall c | c in t.free ensures Placed(t, base, c) {
      if c == prev {
        JoinedFollows(h.free, base, prev, p, h.mem[p].ptr);
      } else {
        assert Placed(h, base, c);
        JoinFollows(h.free, base, prev, p, h.mem[p].ptr, c, h.mem[c].ptr);
      }
    }
  }

  lemma TakeTiled(h: Heap, base: nat, prev: nat, p: nat)
    requires Sound(h, base) && prev in h.free && prev in h.mem && p != base && p in h.free && p in h.mem && prev < p
    ensures var t := Taken(h, prev, p); Rooted(t, base) && FreeHeld(t, base) && LiveHeld(t) && Covered(t, base)
  {
    hide Linked, Holds;
  }

  lemma TakeCoalesced(h: Heap, base: nat, prev: nat, p: nat)
    requires Valid(h, base) && prev in h.free && prev in h.mem && h.mem[prev].ptr == p != base && prev < p && p in h.free && p in h.mem
    ensures Coalesced(Taken(h, prev, p))
  {
    var t := Taken(h, prev, p);
    assert Placed(h, base, p);
    if prev != base { BlocksApart(h, base, prev, p); }
    forall c | c in t.free ensures !Touches(t, c) {
      if c != prev { assert !Touches(h, c); }
    }
  }

  function PtrAt(mem: map<nat, Header>, a: nat): nat { if a in mem then mem[a].ptr else 0 }

  function Carved(h: Heap, p: nat, n: nat): Heap
    requires p in h.mem && n < h.mem[p].size
  {
    var q := p + h.mem[p].size - n;
    h.(mem := h.mem[p := h.mem[p].(size := h.mem[p].size - n)][q := Header(PtrAt(h.mem, q), n)],
       live := h.live[q := n],
       owner := map u | u in h.owner :: if h.owner[u] == p && q <= u then q else h.owner[u])
  }

  /** A unit inside a block is nobody's header. */
  lemma InsideIsNoHeader(h: Heap, base: nat, p: nat, q: nat)
    requires Sound(h, base) && p in h.free && p != base && p in h.mem && p < q < p + h.mem[p].size
    ensures q !in h.free && q !in h.live
  {
    if q in h.free || q in h.live { BlocksApart(h, base, p, q); }
  }

  lemma CarveLinked(h: Heap, base: nat, p: nat, n: nat)
    requires Sound(h, base) && p in h.free && p != base && p in h.mem && 0 < n < h.mem[p].size
    ensures Linked(Carved(h, p, n), base) && Rooted(Carved(h, p, n), base)
  {
    hide Follows, FreeHeld, LiveHeld, Covered;
    var t := Carved(h, p, n);
    InsideIsNoHeader(h, base, p, p + h.mem[p].size - n);
    forall c | c in t.free ensures Placed(t, base, c) { assert Placed(h, base, c); }
  }

  lemma CarveFree(h: Heap, base: nat, p: nat, n: nat)
    requires Sound(h, base) && p in h.free && p != base && p in h.mem && 0 < n < h.mem[p].size
    ensures FreeHeld(Carved(h, p, n), base)
  {
    hide Linked, LiveHeld, Covered;
    InsideIsNoHeader(h, base, p, p + h.mem[p].size - n);
    var t := Carved(h, p, n);
    forall c | c in t.free && c != base ensures Holds(t.owner, c, t.mem[c].size) {
      assert Holds(h.owner, c, h.mem[c].size);
      if c != p { HoldsKept(h.owner, t.owner, c, h.mem[c].size); }
    }
  }

  lemma CarvedTail(h: Heap, base: nat, p: nat, n: nat)
    requires FreeHeld(h, base) && p in h.free && p != base && p in h.mem && 0 < n < h.mem[p].size
    ensures Holds(Carved(h, p, n).owner, p + h.mem[p].size - n, n)
  {
    assert Holds(h.owner, p, h.mem[p].size);
  }

  lemma CarveLive(h: Heap, base: nat, p: nat, n: nat)
    requires Sound(h, base) && p in h.free && p != base && p in h.mem && 0 < n < h.mem[p].size
    ensures LiveHeld(Carved(h, p, n))
  {
    hide Linked, Covered, Rooted, Holds;
    var q := p + h.mem[p].size - n;
    InsideIsNoHeader(h, base, p, q);
    var t := Carved(h, p, n);
    CarvedTail(h, base, p, n);
    forall c | c in t.live ensures Holds(t.owner, c, t.live[c]) {
      if c != q { HoldsKept(h.owner, t.owner, c, h.live[c]); }
    }
  }

  lemma CarveCovered(h: Heap, base: nat, p: nat, n: nat)
    requires Sound(h, base) && p in h.free && p != base && p in h.mem && 0 < n < h.mem[p].size
    ensures Covered(Carved(h, p, n), base)
  {
    hide Linked, FreeHeld, LiveHeld;
    InsideIsNoHeader(h, base, p, p + h.mem[p].size - n);
  }

  lemma CarveCoalesced(h: Heap, base: nat, p: nat, n: nat)
    requires Valid(h, base) && p in h.free && p != base && p in h.mem && 0 < n < h.mem[p].size
    ensures Coalesced(Carved(h, p, n))
  {
    var t := Carved(h, p, n);
    InsideIsNoHeader(h, base, p, p + h.mem[p].size - n);
    assert Placed(h, base, p);
    if p < h.mem[p].ptr { BlocksApart(h, base, p, h.mem[p].ptr); }
    forall c | c in t.free ensures !Touches(t, c) {
      if c != p { assert !Touches(h, c); }
    }
  }

  // ---- sbrk ----

  function Grown(h: Heap, a: nat, n: nat): Heap {
    h.(mem := h.mem[a := Header(PtrAt(h.mem, a), n)], live := h.live[a := n],
       owner := map u | u in h.owner.Keys + Extent(a, n) :: if u in h.owner then h.owner[u] else a)
  }

  /** sbrk's memory lies above everything obtained so far. */
  predicate Above(h: Heap, base: nat, a: nat) { base < a && forall u :: u in h.owner ==> u < a }

  lemma HeadersBelow(h: Heap, base: nat, a: nat, f: nat)
    requires Sound(h, base) && Above(h, base, a) && (f in h.free || f in h.live)
    ensures f < a && f in h.mem && f + h.mem[f].size <= a
  {
    if f != base && h.mem[f].size > 0 {
      assert Holds(h.owner, f, h.mem[f].size);
      assert f in h.owner && f + h.mem[f].size - 1 in h.owner;
    }
  }

  lemma GrowList(h: Heap, base: nat, a: nat, n: nat)
    requires Valid(h, base) && n > 0 && Above(h, base, a)
    ensures var t := Grown(h, a, n); Rooted(t, base) && Linked(t, base) && Coalesced(t)
  {
    hide Follows, FreeHeld, LiveHeld, Covered, Above, Extent;
    var t := Grown(h, a, n);
    forall c | c in t.free ensures c < a && Placed(t, base, c) && !Touches(t, c) {
      HeadersBelow(h, base, a, c);
      assert Placed(h, base, c);
      assert !Touches(h, c);
    }
  }

  lemma GrowFree(h: Heap, base: nat, a: nat, n: nat)
    requires Valid(h, base) && n > 0 && Above(h, base, a)
    ensures FreeHeld(Grown(h, a, n), base)
  {
    hide Linked, LiveHeld, Covered, Coalesced, Above;
    var t := Grown(h, a, n);
    forall c | c in t.free && c != base ensures c in t.mem && Holds(t.owner, c, t.mem[c].size) {
      HeadersBelow(h, base, a, c);
      HoldsKept(h.owner, t.owner, c, h.mem[c].size);
    }
  }

  lemma GrowLive(h: Heap, base: nat, a: nat, n: nat)
    requires Valid(h, base) && n > 0 && Above(h, base, a)
    ensures LiveHeld(Grown(h, a, n))
  {
    hide Linked, FreeHeld, Covered, Coalesced;
    var t := Grown(h, a, n);
    if a in h.free { HeadersBelow(h, base, a, a); }
    forall c | c in t.live ensures c !in t.free && c in t.mem && t.mem[c].size == t.live[c] > 0 && Holds(t.owner, c, t.live[c]) {
      if c != a { HoldsKept(h.owner, t.owner, c, h.live[c]); }
    }
  }

  lemma GrowCovered(h: Heap, base: nat, a: nat, n: nat)
    requires Valid(h, base) && n > 0 && Above(h, base, a)
    ensures Covered(Grown(h, a, n), base)
  {
    hide Linked, FreeHeld, LiveHeld, Coalesced, Holds;
    var t := Grown(h, a, n);
    forall u | u in t.owner
      ensures var c := t.owner[u]; base < c <= u && (c in t.live || c in t.free) && c in t.mem && u < c + t.mem[c].size {
      if u in h.owner { HeadersBelow(h, base, a, h.owner[u]); }
    }
  }

  // ---- free, as a whole ----

  function Freed(h: Heap, p: nat, b: nat): Heap
    requires p in h.mem && b in h.mem
  {
    var i := Inserted(h, p, b);
    var r := if Touches(i, b) && i.mem[b].ptr in i.mem then Joined(i, b) else i;
    if Touches(r, p) && r.mem[p].ptr in r.mem then Joined(r, p) else r
  }

  lemma JoinSound(h: Heap, base: nat, a: nat)
    requires Sound(h, base) && a in h.free && Touches(h, a)
    ensures h.mem[a].ptr in h.mem && h.mem[a].ptr in h.free && a != base && Sound(Joined(h, a), base)
    ensures FreeUnits(Joined(h, a)) == FreeUnits(h) && Joined(h, a).owner.Keys == h.owner.Keys
  {
    hide Joined, Linked, Holds, FreeHeld, LiveHeld, Covered, FreeUnits;
    JoinLinked(h, base, a);
    JoinFree(h, base, a);
    JoinLive(h, base, a);
    JoinCovered(h, base, a);
    JoinUnits(h, base, a);
  }

  lemma InsertSound(h: Heap, base: nat, p: nat, b: nat)
    requires Sound(h, base) && Stops(h, p, b) && b in h.live
    ensures b in h.mem && Sound(Inserted(h, p, b), base)
    ensures FreeUnits(Inserted(h, p, b)) == FreeUnits(h) + Extent(b, h.live[b])
  {
    InsertLinked(h, base, p, b);
    InsertTiled(h, base, p, b);
    InsertUnits(h, base, p, b);
  }

  lemma InsertUnits(h: Heap, base: nat, p: nat, b: nat)
    requires Sound(h, base) && Stops(h, p, b) && b in h.live && b in h.mem
    ensures FreeUnits(Inserted(h, p, b)) == FreeUnits(h) + Extent(b, h.live[b])
  {
    hide Linked, Follows;
    assert Holds(h.owner, b, h.live[b]);
    forall u ensures u in FreeUnits(Inserted(h, p, b)) <==> u in FreeUnits(h) + Extent(b, h.live[b]) { }
  }

  lemma FreeSound(h: Heap, base: nat, p: nat, b: nat)
    requires Sound(h, base) && Stops(h, p, b) && b in h.live
    ensures b in h.mem && Sound(Freed(h, p, b), base)
    ensures FreeUnits(Freed(h, p, b)) == FreeUnits(h) + Extent(b, h.live[b]) && Freed(h, p, b).owner.Keys == h.owner.Keys
  {
    hide Sound, FreeUnits;
    InsertSound(h, base, p, b);
    var i := Inserted(h, p, b);
    if Touches(i, b) { JoinSound(i, base, b); }
    var r := if Touches(i, b) && i.mem[b].ptr in i.mem then Joined(i, b) else i;
    if Touches(r, p) { JoinSound(r, base, p); }
  }

  /** After joining b with its next block, only p can still touch its next one. */
  lemma RightJoined(h: Heap, base: nat, p: nat, b: nat)
    requires Valid(h, base) && Stops(h, p, b) && b in h.live
    ensures b in h.mem && p in h.free
    ensures var i := Inserted(h, p, b);
            var r := if Touches(i, b) && i.mem[b].ptr in i.mem then Joined(i, b) else i;
            Sound(r, base) && b in r.free && p in r.free && p in r.mem && r.mem[p].ptr == b
            && forall c :: c in r.free && c != p ==> !Touches(r, c)
  {
    hide Linked, FreeHeld, LiveHeld, Covered, Coalesced;
    InsertSound(h, base, p, b);
    InsertCoalesced(h, base, p, b);
    var i := Inserted(h, p, b);
    if Touches(i, b) {
      JoinSound(i, base, b);
      var r := Joined(i, b);
      forall c | c in r.free && c != p ensures !Touches(r, c) { JoinCoalesced(i, base, b, c); }
    }
  }

  lemma FreeValid(h: Heap, base: nat, p: nat, b: nat)
    requires Valid(h, base) && Stops(h, p, b) && b in h.live
    ensures b in h.mem && Valid(Freed(h, p, b), base)
    ensures FreeUnits(Freed(h, p, b)) == FreeUnits(h) + Extent(b, h.live[b]) && Freed(h, p, b).owner.Keys == h.owner.Keys
  {
    hide Sound, FreeUnits;
    FreeSound(h, base, p, b);
    RightJoined(h, base, p, b);
    var i := Inserted(h, p, b);
    var r := if Touches(i, b) && i.mem[b].ptr in i.mem then Joined(i, b) else i;
    if Touches(r, p) {
      JoinSound(r, base, p);
      var t := Joined(r, p);
      SoundRooted(r, base);
      forall c | c in t.free ensures !Touches(t, c) { JoinCoalesced(r, base, p, c); }
    }
  }

  lemma SoundRooted(h: Heap, base: nat)
    requires Sound(h, base)
    ensures Rooted(h, base)
  {
  }

  /** The freed block's units end up in b's block or in the one before it. */
  lemma FreedSize(h: Heap, base: nat, p: nat, b: nat)
    requires Valid(h, base) && Stops(h, p, b) && b in h.live
    ensures b in h.mem
    ensures var t := Freed(h, p, b); p in t.free && p in t.mem
    ensures var t := Freed(h, p, b); (b in t.free && b in t.mem && t.mem[b].size >= h.live[b]) || t.mem[p].size >= h.live[b]
  {
    hide Linked, FreeHeld, Covered, Coalesced;
  }

  // ---- what the invariant means ----

  /** No two free blocks are adjacent, wherever they are in the list. */
  lemma FullyCoalesced(h: Heap, base: nat, a: nat, b: nat)
    requires Valid(h, base) && a in h.free && b in h.free && a != b
    ensures a in h.mem && b in h.mem && a + h.mem[a].size != b
  {
    assert Placed(h, base, a);
    if a < b && a != base {
      BlocksApart(h, base, a, b);
      if h.mem[a].ptr < b { BlocksApart(h, base, a, h.mem[a].ptr); }
      assert !Touches(h, a);
    }
  }

  /** The block n links after `base`. */
  function Walk(h: Heap, base: nat, n: nat): nat {
    if n == 0 then base else var a := Walk(h, base, n - 1); if a in h.mem then h.mem[a].ptr else 0
  }

  ghost function Below(free: set<nat>, a: nat): set<nat> { set f | f in free && f < a }

  lemma {:induction false} WalkRank(h: Heap, base: nat, n: nat)
    requires Rooted(h, base) && Linked(h, base) && n < |h.free|
    ensures Walk(h, base, n) in h.free && |Below(h.free, Walk(h, base, n))| == n
  {
    if n == 0 {
      assert Below(h.free, base) == {};
    } else {
      WalkRank(h, base, n - 1);
      var a := Walk(h, base, n - 1);
      var p := Walk(h, base, n);
      assert Placed(h, base, a);
      if a < p {
        assert Below(h.free, p) == Below(h.free, a) + {a};
      } else {
        LastRank(h.free, a);
      }
    }
  }

  /** Following the links from `base` meets every free block, in address order, then `base` again. */
  lemma OneCycle(h: Heap, base: nat, a: nat)
    requires Rooted(h, base) && Linked(h, base) && a in h.free
    ensures |Below(h.free, a)| < |h.free| && Walk(h, base, |Below(h.free, a)|) == a
    ensures Walk(h, base, |h.free|) == base
  {
    assert Below(h.free, a) < h.free;
    Strict(Below(h.free, a), h.free);
    var n := |Below(h.free, a)|;
    WalkRank(h, base, n);
    SameRank(h.free, a, Walk(h, base, n));
    var m := |h.free| - 1;
    WalkRank(h, base, m);
    var z := Walk(h, base, m);
    assert Placed(h, base, z);
    var p := h.mem[z].ptr;
    if z < p {
      RankGrows(h.free, z, p);
      Strict(Below(h.free, p), h.free);
    }
  }

  lemma Strict(s: set<nat>, t: set<nat>)
    requires s < t
    ensures |s| < |t|
  {
    var x :| x in t && x !in s;
    assert s <= t - {x};
    SubsetSize(s, t - {x});
  }

  lemma LastRank(free: set<nat>, a: nat)
    requires a in free && forall f :: f in free ==> f <= a
    ensures |free| == |Below(free, a)| + 1
  {
    assert free == Below(free, a) + {a};
  }

  lemma RankGrows(free: set<nat>, a: nat, b: nat)
    requires a in free && a < b
    ensures |Below(free, a)| < |Below(free, b)|
  {
    assert a in Below(free, b) && a !in Below(free, a);
    Strict(Below(free, a), Below(free, b));
  }

  lemma SameRank(free: set<nat>, a: nat, b: nat)
    requires a in free && b in free && |Below(free, a)| == |Below(free, b)|
    ensures a == b
  {
    if a < b { RankGrows(free, a, b); }
    if b < a { RankGrows(free, b, a); }
  }

  /** What the caller writes inside a live block, past its header, disturbs nothing. */
  lemma CallerOwnsBody(h: Heap, base: nat, a: nat, u: nat, x: Header)
    requires Valid(h, base) && a in h.live && a < u < a + h.live[a]
    ensures Valid(h.(mem := h.mem[u := x]), base)
  {
    var t := h.(mem := h.mem[u := x]);
    BodyIsNoHeader(h, base, a, u);
    StoreLinked(h, base, u, x);
  }

  lemma BodyIsNoHeader(h: Heap, base: nat, a: nat, u: nat)
    requires Sound(h, base) && a in h.live && a < u < a + h.live[a]
    ensures u !in h.free && u !in h.live
  {
    hide Linked;
    assert Holds(h.owner, a, h.live[a]);
    assert h.owner[a] == a;
    if u in h.live || u in h.free { BlocksApart(h, base, a, u); }
  }

  lemma StoreLinked(h: Heap, base: nat, u: nat, x: Header)
    requires Linked(h, base) && Coalesced(h) && u !in h.free
    ensures Linked(h.(mem := h.mem[u := x]), base) && Coalesced(h.(mem := h.mem[u := x]))
  {
    var t := h.(mem := h.mem[u := x]);
    forall c | c in t.free ensures Placed(t, base, c) && !Touches(t, c) {
      assert Placed(h, base, c);
      assert !Touches(h, c);
    }
  }
}
