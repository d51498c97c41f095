/** free, morecore and malloc, over the headers in memory. sbrk's answer is a
    parameter: the unit address of the new memory, or 0 when it fails. */
module UmallocCode {
  import opened Umalloc
  import opened Numbers

  const UNIT := 16               // sizeof(Header)
  const NALLOC := 4096
  const INT_MAX := 0x7fff_ffff

  function Units(nbytes: nat): nat { (nbytes + UNIT - 1) / UNIT + 1 }

  function Core(nu: nat): nat { if nu < NALLOC then NALLOC else nu }

  /** nu * sizeof(Header) as sbrk's int parameter receives it */
  function SbrkArg(nu: nat): int {
    var m := nu * UNIT % 0x1_0000_0000;
    if m > INT_MAX then m - 0x1_0000_0000 else m
  }

  /** malloc's request reaches sbrk unchanged exactly for requests below 2^31 - 31 bytes. */
  lemma SbrkArgExact(nbytes: nat)
    requires nbytes < 0x1_0000_0000
    ensures SbrkArg(Core(Units(nbytes))) == Core(Units(nbytes)) * UNIT <==> nbytes <= INT_MAX - 31
  {
    var nu := Core(Units(nbytes));
    assert nu * UNIT < 0x1_0000_0000 + 17;
    if nbytes > INT_MAX - 31 {
      assert nu >= 0x800_0000;
    } else {
      assert nu < 0x800_0000;
    }
  }

  lemma SbrkArgTooBig()
    ensures SbrkArg(Core(Units(0xffff_ffff))) == UNIT
  {
  }

  /** A request for nbytes gets a payload of at least nbytes, wasting less than one unit. */
  lemma UnitsEnough(nbytes: nat)
    ensures Units(nbytes) > 0 && nbytes <= (Units(nbytes) - 1) * UNIT < nbytes + UNIT
  {
  }

  ghost function Between(free: set<nat>, lo: nat, hi: nat): set<nat> { set f | f in free && lo < f < hi }

  ghost function Beyond(free: set<nat>, lo: nat): set<nat> { set f | f in free && lo < f }

  /** How far free's search still has to go. */
  ghost function Ahead(free: set<nat>, p: nat, b: nat): nat {
    if p < b then |Between(free, p, b)| else |Beyond(free, p)| + |free| + 1
  }

  lemma AheadShrinks(h: Heap, base: nat, p: nat, b: nat)
    requires Rooted(h, base) && Linked(h, base) && p in h.free && p in h.mem && b !in h.free && base < b && !Stops(h, p, b)
    ensures h.mem[p].ptr in h.free && Ahead(h.free, h.mem[p].ptr, b) < Ahead(h.free, p, b)
  {
    assert Placed(h, base, p);
    var q := h.mem[p].ptr;
    if p < b {
      assert q in Between(h.free, p, b) && q !in Between(h.free, q, b);
      Strict(Between(h.free, q, b), Between(h.free, p, b));
    } else if p < q {
      assert q in Beyond(h.free, p) && q !in Beyond(h.free, q);
      Strict(Beyond(h.free, q), Beyond(h.free, p));
    } else {
      SubsetSize(Between(h.free, q, b), h.free);
    }
  }

  lemma LiveAbove(h: Heap, base: nat, b: nat)
    requires Sound(h, base) && b in h.live
    ensures base < b && b !in h.free && b in h.mem
  {
    assert Holds(h.owner, b, h.live[b]);
    assert b in h.owner;
  }

  lemma FreedRest(h: Heap, base: nat, p: nat, b: nat)
    requires Valid(h, base) && Stops(h, p, b) && b in h.live && b in h.mem
    ensures base <= p && p in h.free && h.mem[p].ptr in h.mem && Freed(h, p, b).live == h.live - {b}
  {
    assert Placed(h, base, p);
  }

  /** Has the search of malloc, started after `from` and now at p, passed f? */
  predicate Seen(from: nat, p: nat, f: nat) { if from < p then from < f < p else f > from || f < p }

  ghost function Unseen(free: set<nat>, from: nat, p: nat): set<nat> { set f | f in free && !Seen(from, p, f) }

  predicate SeenSmall(h: Heap, from: nat, p: nat, n: nat) {
    forall f :: f in h.free && Seen(from, p, f) ==> f in h.mem && h.mem[f].size < n
  }

  /** Block q of n units is the end of the first free block, from the one after `from` on, that has room for it,
      and last is the free block before that one. */
  ghost predicate NextFit(h: Heap, from: nat, n: nat, q: nat, last: nat) {
    exists p :: EndOf(h, p, n, q) && SeenSmall(h, from, p, n) && last in h.mem && h.mem[last].ptr == p
  }

  predicate EndOf(h: Heap, p: nat, n: nat, q: nat) { p in h.free && p in h.mem && h.mem[p].size >= n && q + n == p + h.mem[p].size }

  lemma Chosen(h: Heap, from: nat, n: nat, p: nat, q: nat, last: nat)
    requires EndOf(h, p, n, q) && SeenSmall(h, from, p, n) && last in h.mem && h.mem[last].ptr == p
    ensures NextFit(h, from, n, q, last)
  {
  }

  lemma SeenNothing(h: Heap, base: nat, from: nat, n: nat)
    requires Valid(h, base) && from in h.free
    ensures from in h.mem && h.mem[from].ptr in h.free && h.mem[from].ptr in h.mem && SeenSmall(h, from, h.mem[from].ptr, n)
  {
    assert Placed(h, base, from);
  }

  lemma SeenNext(h: Heap, base: nat, from: nat, p: nat, n: nat)
    requires Valid(h, base) && from in h.free && p in h.free && p != from
    requires p in h.mem && h.mem[p].size < n && SeenSmall(h, from, p, n)
    ensures h.mem[p].ptr in h.free && h.mem[p].ptr in h.mem && SeenSmall(h, from, h.mem[p].ptr, n)
    ensures |Unseen(h.free, from, h.mem[p].ptr)| < |Unseen(h.free, from, p)|
  {
    assert Placed(h, base, p);
    var q := h.mem[p].ptr;
    assert p in Unseen(h.free, from, p) && p !in Unseen(h.free, from, q);
    forall f | f in Unseen(h.free, from, q) ensures f in Unseen(h.free, from, p) { }
    Strict(Unseen(h.free, from, q), Unseen(h.free, from, p));
  }

  lemma GrowValid(h: Heap, base: nat, brk: nat, a: nat, n: nat)
    requires Valid(h, base) && n > 0 && Above(h, base, brk) && brk <= a
    ensures var t := Grown(h, a, n);
            Valid(t, base) && Above(t, base, a + n) && FreeUnits(t) == FreeUnits(h) && t.owner.Keys == h.owner.Keys + Extent(a, n)
    ensures a !in h.live && a !in h.free
  {
    hide Linked, Rooted, FreeHeld, LiveHeld, Covered, Coalesced;
    GrowList(h, base, a, n);
    GrowFree(h, base, a, n);
    GrowLive(h, base, a, n);
    GrowCovered(h, base, a, n);
    if a in h.live || a in h.free { HeadersBelow(h, base, brk, a); }
    GrowUnits(h, base, a, n);
  }

  lemma GrowUnits(h: Heap, base: nat, a: nat, n: nat)
    requires Valid(h, base) && n > 0 && Above(h, base, a) && a !in h.live && a !in h.free
    ensures var t := Grown(h, a, n); FreeUnits(t) == FreeUnits(h)
  {
    hide Linked, Rooted, FreeHeld, LiveHeld, Coalesced;
  }

  /** What malloc's block comes from and leaves. */
  ghost predicate Split(h: Heap, t: Heap, base: nat, q: nat, n: nat) {
    && Valid(t, base) && q !in h.live && t.live == h.live[q := n] && t.owner.Keys == h.owner.Keys
    && Extent(q, n) <= FreeUnits(h) && FreeUnits(t) == FreeUnits(h) - Extent(q, n)
  }

  lemma TakeSplits(h: Heap, base: nat, prev: nat, p: nat)
    requires Valid(h, base) && prev in h.free && prev in h.mem && h.mem[prev].ptr == p && p in h.free && p in h.mem && h.mem[p].size > 0
    ensures Split(h, Taken(h, prev, p), base, p, h.mem[p].size) && prev != p
  {
    hide Linked, FreeHeld, LiveHeld, Covered, Coalesced, FreeUnits;
    TakeLinked(h, base, prev, p);
    TakeTiled(h, base, prev, p);
    TakeCoalesced(h, base, prev, p);
    TakeUnits(h, base, prev, p);
  }

  lemma TakeUnits(h: Heap, base: nat, prev: nat, p: nat)
    requires Sound(h, base) && prev in h.mem && p in h.free && p in h.mem && p != base
    ensures var n := h.mem[p].size;
            p !in h.live && Extent(p, n) <= FreeUnits(h) && FreeUnits(Taken(h, prev, p)) == FreeUnits(h) - Extent(p, n)
  {
    hide Linked;
    assert Holds(h.owner, p, h.mem[p].size);
    forall u ensures u in FreeUnits(Taken(h, prev, p)) <==> u in FreeUnits(h) - Extent(p, h.mem[p].size) { }
  }

  lemma CarveSplits(h: Heap, base: nat, p: nat, n: nat)
    requires Valid(h, base) && p in h.free && p in h.mem && 0 < n < h.mem[p].size
    ensures Split(h, Carved(h, p, n), base, p + h.mem[p].size - n, n)
  {
    hide Linked, FreeHeld, LiveHeld, Covered, Coalesced, FreeUnits;
    CarveLinked(h, base, p, n);
    CarveFree(h, base, p, n);
    CarveLive(h, base, p, n);
    CarveCovered(h, base, p, n);
    CarveCoalesced(h, base, p, n);
    CarveUnits(h, base, p, n);
  }

  lemma CarveUnits(h: Heap, base: nat, p: nat, n: nat)
    requires Sound(h, base) && p in h.free && p in h.mem && p != base && 0 < n < h.mem[p].size
    ensures var q := p + h.mem[p].size - n; var t := Carved(h, p, n);
            && q !in h.live && Extent(q, n) <= FreeUnits(h) && FreeUnits(t) == FreeUnits(h) - Extent(q, n)
            && t.owner.Keys == h.owner.Keys
  {
    hide Linked, Rooted, Covered;
    var q := p + h.mem[p].size - n;
    InsideIsNoHeader(h, base, p, q);
    assert Holds(h.owner, p, h.mem[p].size);
    forall u: nat ensures u in FreeUnits(Carved(h, p, n)) <==> u in FreeUnits(h) && !(q <= u < q + n) { CarveUnit(h, base, p, n, u); }
    assert FreeUnits(Carved(h, p, n)) == FreeUnits(h) - Extent(q, n);
  }

  lemma CarveUnit(h: Heap, base: nat, p: nat, n: nat, u: nat)
    requires FreeHeld(h, base) && LiveHeld(h) && Covered(h, base) && p in h.free && p in h.mem && p != base && 0 < n < h.mem[p].size
    requires p + h.mem[p].size - n !in h.live && p + h.mem[p].size - n !in h.free
    ensures u in FreeUnits(Carved(h, p, n)) <==> u in FreeUnits(h) && !(p + h.mem[p].size - n <= u < p + h.mem[p].size)
  {
    assert Holds(h.owner, p, h.mem[p].size);
  }

  ghost predicate HasFit(h: Heap, n: nat) { exists f :: f in h.free && f in h.mem && h.mem[f].size >= n }

  lemma NoFitInNone(h: Heap, n: nat)
    ensures h.free == {} ==> !HasFit(h, n)
  {
  }

  lemma Fit(h: Heap, p: nat, n: nat)
    requires p in h.free && p in h.mem && h.mem[p].size >= n
    ensures HasFit(h, n)
  {
  }

  lemma NoneLeft(h: Heap, from: nat, n: nat)
    requires SeenSmall(h, from, from, n) && from in h.mem && h.mem[from].size < n
    ensures !HasFit(h, n)
  {
    forall f | f in h.free && f in h.mem ensures h.mem[f].size < n {
      if f != from { assert Seen(from, from, f); }
    }
  }

  lemma FirstUseFits(o: Heap, h: Heap, base: nat, n: nat)
    requires n > 0 && (o == h || (o.free == {} && h.free == {base} && base in h.mem && h.mem[base].size == 0))
    requires o.live == h.live && o.owner == h.owner
    ensures HasFit(o, n) <==> HasFit(h, n)
    ensures FreeUnits(o) == FreeUnits(h)
  {
  }

  lemma RootIsLowest(h: Heap, base: nat, a: nat)
    requires Valid(h, base) && a in h.free
    ensures base <= a
  {
  }

  lemma SplitMem(h: Heap, prev: nat, p: nat, n: nat)
    requires prev in h.mem && p in h.mem
    ensures Taken(h, prev, p).mem == h.mem[prev := h.mem[prev].(ptr := h.mem[p].ptr)]
    ensures Taken(h, prev, p).free == h.free - {p}
    ensures n < h.mem[p].size ==>
              var m := h.mem[p := h.mem[p].(size := h.mem[p].size - n)];
              var q := p + m[p].size;
              Carved(h, p, n).mem == m[q := Header(PtrAt(m, q), n)] && Carved(h, p, n).free == h.free
  {
  }

  class Allocator {
    const base: nat
    var mem: map<nat, Header>
    var freep: nat                 // 0 until the first malloc
    var brk: nat
    ghost var list: set<nat>
    ghost var live: map<nat, nat>
    ghost var owner: map<nat, nat>

    ghost function View(): Heap
      reads this
    {
      Heap(mem, list, live, owner)
    }

    ghost predicate Ok()
      reads this
    {
      && 0 < base < brk
      && if freep == 0 then list == {} && live == map[] && owner == map[]
         else Valid(View(), base) && freep in list && Above(View(), base, brk)
    }

    constructor (b: nat, end: nat)
      requires 0 < b < end
      ensures Ok() && live == map[] && owner == map[]
    {
      base, mem, freep, brk := b, map[], 0, end;
      list, live, owner := {}, map[], map[];
    }

    /** The loop of free: the last free block below bp. */
    method FindPlace(bp: nat) returns (p: nat)
      requires Ok() && freep != 0 && bp in live
      ensures Stops(View(), p, bp)
    {
      ghost var h := View();
      LiveAbove(h, base, bp);
      p := freep;
      assert Placed(h, base, p);
      while !(bp > p && bp < mem[p].ptr)
        invariant p in list && p in mem
        decreases Ahead(list, p, bp)
      {
        assert Placed(h, base, p);
        if p >= mem[p].ptr && (bp > p || bp < mem[p].ptr) { break; }
        AheadShrinks(h, base, p, bp);
        p := mem[p].ptr;
        assert Placed(h, base, p);
      }
    }

    /** The pointer and size updates of free. */
    method Link(p: nat, bp: nat)
      requires Valid(View(), base) && Stops(View(), p, bp) && bp in live && bp in mem && mem[p].ptr in mem
      modifies this`mem
      ensures mem == old(Freed(View(), p, bp)).mem
    {
      if bp + mem[bp].size == mem[p].ptr {
        mem := mem[bp := Header(mem[mem[p].ptr].ptr, mem[bp].size + mem[mem[p].ptr].size)];
      } else {
        mem := mem[bp := mem[bp].(ptr := mem[p].ptr)];
      }
      if p + mem[p].size == bp {
        mem := mem[p := Header(mem[bp].ptr, mem[p].size + mem[bp].size)];
      } else {
        mem := mem[p := mem[p].(ptr := bp)];
      }
    }

    /** Put a live block back and join it with the free blocks it touches. */
    method Free(ap: nat)
      requires Ok() && freep != 0 && ap > 0 && ap - 1 in live
      modifies this`mem, this`freep, this`list, this`live, this`owner
      ensures Ok() && freep != 0 && Stops(old(View()), freep, ap - 1)
      ensures live == old(live) - {ap - 1}
      ensures owner.Keys == old(owner.Keys)
      ensures FreeUnits(View()) == old(FreeUnits(View())) + Extent(ap - 1, old(live)[ap - 1])
      ensures HasFit(View(), old(live)[ap - 1])
    {
      hide Freed, Valid, Stops, FreeUnits, Extent;
      var bp := ap - 1;
      ghost var h := View();
      var p := FindPlace(bp);
      assert Valid(h, base) && p in h.mem;
      FreeValid(h, base, p, bp);
      FreedSize(h, base, p, bp);
      ghost var t := Freed(h, p, bp);
      FreedRest(h, base, p, bp);
      Link(p, bp);
      list, live, owner := t.free, t.live, t.owner;
      freep := p;
      assert View() == t;
    }

    /** Ask for at least nu more units and put them on the free list. */
    method Morecore(nu: nat, at: nat) returns (p: nat)
      requires Ok() && freep != 0 && 0 < nu && (at == 0 || (brk <= at && SbrkArg(Core(nu)) == Core(nu) * UNIT))
      modifies this`mem, this`freep, this`list, this`live, this`owner, this`brk
      ensures Ok() && freep != 0 && live == old(live)
      ensures at == 0 ==> p == 0 && View() == old(View()) && freep == old(freep) && brk == old(brk)
      ensures at != 0 ==> p == freep && brk == at + Core(nu)
      ensures at != 0 ==> owner.Keys == old(owner.Keys) + Extent(at, Core(nu))
      ensures at != 0 ==> FreeUnits(View()) == old(FreeUnits(View())) + Extent(at, Core(nu))
      ensures at != 0 ==> HasFit(View(), nu)
    {
      hide Valid, FreeUnits, Extent, Above;
      if at == 0 { return 0; }
      ghost var h := View();
      var n := if nu < NALLOC then NALLOC else nu;
      Obtain(SbrkArg(n), at, n);
      Free(at + 1);
      p := freep;
    }

    /** sbrk, and the header of the new block */
    method Obtain(bytes: int, at: nat, n: nat)
      requires Ok() && freep != 0 && 0 < n && bytes == n * UNIT && brk <= at
      modifies this`mem, this`live, this`owner, this`brk
      ensures Ok() && View() == old(Grown(View(), at, n)) && brk == at + n && at !in old(live)
      ensures FreeUnits(View()) == old(FreeUnits(View())) && owner.Keys == old(owner.Keys) + Extent(at, n)
    {
      hide Valid, Above, FreeUnits, Extent;
      ghost var h := View();
      GrowValid(h, base, brk, at, n);
      brk := at + bytes / UNIT;
      mem := mem[at := Header(PtrAt(mem, at), n)];
      live, owner := Grown(h, at, n).live, Grown(h, at, n).owner;
    }

    /** The found block, or its tail, becomes the caller's. */
    method TakeFrom(prevp: nat, p0: nat, nunits: nat) returns (r: nat)
      requires Ok() && freep != 0 && prevp in list && prevp in mem && p0 in list && p0 in mem && mem[prevp].ptr == p0
      requires 0 < nunits <= mem[p0].size
      modifies this`mem, this`freep, this`list, this`live, this`owner
      ensures Ok() && freep == prevp != 0 && r > 0 && Split(old(View()), View(), base, r - 1, nunits)
      ensures EndOf(old(View()), p0, nunits, r - 1)
    {
      hide Valid, FreeUnits, Extent, Taken, Carved;
      var p := p0;
      ghost var h := View();
      ghost var t := if mem[p].size == nunits then Taken(h, prevp, p) else Carved(h, p, nunits);
      if mem[p].size == nunits {
        TakeSplits(h, base, prevp, p);
        mem := mem[prevp := mem[prevp].(ptr := mem[p].ptr)];
      } else {
        CarveSplits(h, base, p, nunits);
        mem := mem[p := mem[p].(size := mem[p].size - nunits)];
        p := p + mem[p].size;
        mem := mem[p := Header(PtrAt(mem, p), nunits)];
      }
      SplitMem(h, prevp, p0, nunits);
      RootIsLowest(h, base, prevp);
      list, live, owner := t.free, t.live, t.owner;
      assert View() == t;
      freep := prevp;
      r := p + 1;
    }

    /** The list holding only `base` */
    method FirstUse()
      requires Ok()
      modifies this`mem, this`freep, this`list
      ensures Ok() && freep != 0 && freep in mem
      ensures old(freep) != 0 ==> View() == old(View()) && freep == old(freep)
      ensures old(freep) == 0 ==> list == {base} && mem[base].size == 0
    {
      if freep == 0 {
        mem := mem[base := Header(base, 0)];
        freep := base;
        list := {base};
        assert Placed(View(), base, base);
      }
    }

    /** A block of n units taken from the free ones, after at most one sbrk, and that only when nothing fits. */
    method Malloc(nbytes: nat, at: nat) returns (r: nat)
      requires Ok() && nbytes < 0x1_0000_0000 && (at == 0 || brk <= at)
      requires nbytes <= INT_MAX - 31 || at == 0 || HasFit(View(), Units(nbytes))
      modifies this`mem, this`freep, this`list, this`live, this`owner, this`brk
      ensures Ok() && freep != 0
      ensures r == 0 ==> at == 0 && live == old(live) && owner == old(owner)
      ensures r == 0 <==> !old(HasFit(View(), Units(nbytes))) && at == 0
      ensures r != 0 ==> r - 1 !in old(live) && live == old(live)[r - 1 := Units(nbytes)]
      ensures r != 0 && old(HasFit(View(), Units(nbytes))) ==> NextFit(old(View()), old(freep), Units(nbytes), r - 1, freep)
      ensures r != 0 && old(HasFit(View(), Units(nbytes))) ==>
                && owner.Keys == old(owner.Keys) && Extent(r - 1, Units(nbytes)) <= old(FreeUnits(View()))
                && FreeUnits(View()) == old(FreeUnits(View())) - Extent(r - 1, Units(nbytes))
      ensures r != 0 && !old(HasFit(View(), Units(nbytes))) ==>
                && owner.Keys == old(owner.Keys) + Extent(at, Core(Units(nbytes)))
                && Extent(r - 1, Units(nbytes)) <= old(FreeUnits(View())) + Extent(at, Core(Units(nbytes)))
                && FreeUnits(View()) == old(FreeUnits(View())) + Extent(at, Core(Units(nbytes))) - Extent(r - 1, Units(nbytes))
    {
      hide Valid, FreeUnits, Extent, HasFit, SeenSmall, SbrkArg, Units, Unseen, NextFit;
      var nunits := Units(nbytes);
      UnitsEnough(nbytes);
      SbrkArgExact(nbytes);
      NoFitInNone(View(), nunits);
      FirstUse();
      var prevp := freep;
      ghost var h := View();
      FirstUseFits(old(View()), h, base, nunits);
      var p := mem[prevp].ptr;
      SeenNothing(h, base, prevp, nunits);
      ghost var grown := false;
      while true
        invariant Ok() && freep != 0 && prevp in list && prevp in mem && mem[prevp].ptr == p && p in list && p in mem
        invariant SeenSmall(View(), freep, p, nunits) && live == h.live
        invariant !grown ==> View() == h && brk == old(brk) && (old(freep) != 0 ==> freep == old(freep))
        invariant grown ==> at != 0 && !HasFit(h, nunits) && HasFit(View(), nunits)
        invariant grown ==> owner.Keys == h.owner.Keys + Extent(at, Core(nunits))
        invariant grown ==> FreeUnits(View()) == FreeUnits(h) + Extent(at, Core(nunits))
        decreases !grown, |Unseen(list, freep, p)|
      {
        if mem[p].size >= nunits {
          Fit(View(), p, nunits);
          ghost var g, from := View(), freep;
          r := TakeFrom(prevp, p, nunits);
          Chosen(g, from, nunits, p, r - 1, prevp);
          return;
        }
        if p == freep {
          NoneLeft(View(), freep, nunits);
          p := Morecore(nunits, at);
          if p == 0 { return 0; }
          grown := true;
          SeenNothing(View(), base, p, nunits);
        } else {
          SeenNext(View(), base, freep, p, nunits);
        }
        prevp, p := p, mem[p].ptr;
      }
    }
  }
}
