/** bio.c: a fixed set of buffers on a doubly linked ring in order of use. */
module BufferCache {
  import opened Blocks

  const NBUF: nat := 30
  const HEAD: nat := 30      // bcache.head, behind the NBUF buffers
  const ROOTDEV: nat := 1

  datatype Buf = Buf(valid: bool, dev: nat, blockno: nat, refcnt: nat, prev: nat, next: nat, data: Block)

  // ---- the ring ----

  /** next and prev run around exactly the entries of ring, starting at the head. */
  ghost predicate Linked(bufs: seq<Buf>, ring: seq<nat>) {
    && |bufs| == NBUF + 1 && |ring| > 0 && ring[0] == HEAD
    && (forall k :: 0 <= k < |ring| ==> ring[k] <= HEAD)
    && (forall k, l :: 0 <= k < l < |ring| ==> ring[k] != ring[l])
    && (forall k :: 0 <= k < |ring| ==> bufs[ring[k]].next == ring[Succ(k, |ring|)])
    && (forall k :: 0 <= k < |ring| ==> bufs[ring[k]].prev == ring[Pred(k, |ring|)])
  }

  function Succ(k: nat, n: nat): (r: nat)
    requires k < n
    ensures r < n
  {
    if k + 1 == n then 0 else k + 1
  }

  function Pred(k: nat, n: nat): (r: nat)
    requires k < n
    ensures r < n
  {
    if k == 0 then n - 1 else k - 1
  }

  function SetNext(bufs: seq<Buf>, i: nat, n: nat): seq<Buf>
    requires i < |bufs|
  {
    bufs[i := bufs[i].(next := n)]
  }

  function SetPrev(bufs: seq<Buf>, i: nat, p: nat): seq<Buf>
    requires i < |bufs|
  {
    bufs[i := bufs[i].(prev := p)]
  }

  /** b->next->prev = b->prev; b->prev->next = b->next; */
  function Unlink(bufs: seq<Buf>, i: nat): seq<Buf>
    requires i < |bufs| && bufs[i].next < |bufs| && bufs[i].prev < |bufs|
  {
    var a := SetPrev(bufs, bufs[i].next, bufs[i].prev);
    SetNext(a, bufs[i].prev, bufs[i].next)
  }

  /** b->next = head.next; b->prev = &head; head.next->prev = b; head.next = b; */
  function PushFront(bufs: seq<Buf>, i: nat): seq<Buf>
    requires |bufs| == NBUF + 1 && i < HEAD && bufs[HEAD].next <= HEAD
  {
    var a := SetPrev(SetNext(bufs, i, bufs[HEAD].next), i, HEAD);
    SetNext(SetPrev(a, a[HEAD].next, i), HEAD, i)
  }

  function Without(ring: seq<nat>, p: nat): seq<nat>
    requires p < |ring|
  {
    ring[..p] + ring[p + 1..]
  }

  lemma UnlinkAt(bufs: seq<Buf>, i: nat, x: nat)
    requires i < |bufs| && bufs[i].next < |bufs| && bufs[i].prev < |bufs| && x < |bufs|
    ensures |Unlink(bufs, i)| == |bufs|
    ensures Unlink(bufs, i)[x] == bufs[x].(next := if x == bufs[i].prev then bufs[i].next else bufs[x].next,
                                           prev := if x == bufs[i].next then bufs[i].prev else bufs[x].prev)
  {
  }

  /** The same neighbours, with position p taken out of the ring. */
  lemma WithoutAt(ring: seq<nat>, p: nat, k: nat)
    requires 0 < p < |ring| && k < |Without(ring, p)|
    ensures var r, n := Without(ring, p), |ring|;
            var k' := if k < p then k else k + 1;
            && r[k] == ring[k'] && k' != p
            && r[Succ(k, |r|)] == ring[if k' == p - 1 then Succ(p, n) else Succ(k', n)]
            && r[Pred(k, |r|)] == ring[if k' == Succ(p, n) then p - 1 else Pred(k', n)]
  {
  }

  lemma UnlinkLinked(bufs: seq<Buf>, ring: seq<nat>, p: nat)
    requires Linked(bufs, ring) && 0 < p < |ring|
    ensures bufs[ring[p]].next <= HEAD && bufs[ring[p]].prev <= HEAD
    ensures Linked(Unlink(bufs, ring[p]), Without(ring, p))
  {
    hide Unlink, Succ, Pred;
    var n := |ring|;
    NextIndex(p, n);
    assert bufs[ring[p]].next == ring[Succ(p, n)] && bufs[ring[p]].prev == ring[Pred(p, n)];
    var b, r := Unlink(bufs, ring[p]), Without(ring, p);
    UnlinkAt(bufs, ring[p], 0);
    forall k | 0 <= k < |r|
      ensures b[r[k]].next == r[Succ(k, |r|)] && b[r[k]].prev == r[Pred(k, |r|)]
    {
      WithoutAt(ring, p, k);
      var k' := if k < p then k else k + 1;
      NextIndex(k', n);
      UnlinkAt(bufs, ring[p], ring[k']);
    }
  }

  lemma NextIndex(k: nat, n: nat)
    requires k < n
    ensures Succ(k, n) < n && Pred(k, n) < n && (k > 0 ==> Pred(k, n) == k - 1)
  {
  }

  lemma PushFrontAt(bufs: seq<Buf>, i: nat, x: nat)
    requires |bufs| == NBUF + 1 && i < HEAD && bufs[HEAD].next <= HEAD && bufs[HEAD].next != i && x <= HEAD
    ensures |PushFront(bufs, i)| == |bufs|
    ensures PushFront(bufs, i)[x] == bufs[x].(
              next := if x == i then bufs[HEAD].next else if x == HEAD then i else bufs[x].next,
              prev := if x == bufs[HEAD].next then i else if x == i then HEAD else bufs[x].prev)
  {
  }

  /** The same neighbours, with i put in behind the head. */
  ghost function Fronted(ring: seq<nat>, i: nat): seq<nat>
    requires |ring| > 0
  {
    [HEAD, i] + ring[1..]
  }

  lemma FrontedAt(ring: seq<nat>, i: nat, k: nat)
    requires |ring| > 0 && ring[0] == HEAD && 1 <= k < |ring|
    ensures var r, n := Fronted(ring, i), |ring|;
            && |r| == n + 1 && r[k + 1] == ring[k]
            && r[Succ(k + 1, |r|)] == ring[Succ(k, n)]
            && r[Pred(k + 1, |r|)] == if k == 1 then i else ring[Pred(k, n)]
  {
  }

  lemma FrontedEnds(ring: seq<nat>, i: nat)
    requires |ring| > 0 && ring[0] == HEAD
    ensures var r, n := Fronted(ring, i), |ring|;
            && |r| == n + 1 && r[0] == HEAD && r[1] == i
            && r[Succ(0, |r|)] == i && r[Pred(0, |r|)] == (if n == 1 then i else ring[n - 1])
            && r[Succ(1, |r|)] == ring[Succ(0, n)] && r[Pred(1, |r|)] == HEAD
            && Pred(0, n) == n - 1 && Succ(0, n) == (if n == 1 then 0 else 1)
  {
  }

  lemma PushFrontLinked(bufs: seq<Buf>, ring: seq<nat>, i: nat)
    requires Linked(bufs, ring) && i < HEAD && i !in ring
    ensures bufs[HEAD].next <= HEAD
    ensures Linked(PushFront(bufs, i), Fronted(ring, i))
  {
    hide PushFront, Succ, Pred, Fronted;
    var n := |ring|;
    FrontedEnds(ring, i);
    FrontedDistinct(ring, i);
    assert bufs[ring[0]].next == ring[Succ(0, n)] && bufs[ring[0]].prev == ring[Pred(0, n)];
    var b, r := PushFront(bufs, i), Fronted(ring, i);
    PushFrontAt(bufs, i, HEAD);
    PushFrontAt(bufs, i, i);
    forall k | 0 <= k < |r|
      ensures b[r[k]].next == r[Succ(k, |r|)] && b[r[k]].prev == r[Pred(k, |r|)]
    {
      if k >= 2 {
        FrontedAt(ring, i, k - 1);
        PushFrontAt(bufs, i, ring[k - 1]);
        PredOne(k - 1, n);
      }
    }
  }

  lemma FrontedDistinct(ring: seq<nat>, i: nat)
    requires |ring| > 0 && ring[0] == HEAD && i < HEAD && i !in ring
    requires forall k :: 0 <= k < |ring| ==> ring[k] <= HEAD
    requires forall k, l :: 0 <= k < l < |ring| ==> ring[k] != ring[l]
    ensures forall k :: 0 <= k < |Fronted(ring, i)| ==> Fronted(ring, i)[k] <= HEAD
    ensures forall k, l :: 0 <= k < l < |Fronted(ring, i)| ==> Fronted(ring, i)[k] != Fronted(ring, i)[l]
  {
  }

  lemma PredOne(k: nat, n: nat)
    requires 0 < k < n
    ensures Pred(k, n) == k - 1
  {
  }

  /** Everything but the links and the reference count. */
  predicate SameBlock(a: Buf, b: Buf) {
    a.valid == b.valid && a.dev == b.dev && a.blockno == b.blockno && a.data == b.data
  }

  /** Relinking moves no contents: valid, dev, blockno, refcnt and data stay. */
  predicate SameContents(a: seq<Buf>, b: seq<Buf>) {
    |a| == |b| && forall i :: 0 <= i < |a| ==> SameBlock(a[i], b[i]) && a[i].refcnt == b[i].refcnt
  }

  /** Any change of the other fields leaves the ring as it is. */
  lemma SameLinks(a: seq<Buf>, b: seq<Buf>, ring: seq<nat>)
    requires Linked(a, ring) && |b| == |a|
    requires forall i :: 0 <= i < |a| ==> a[i].next == b[i].next && a[i].prev == b[i].prev
    ensures Linked(b, ring)
  {
  }

  // ---- the cache against a flat disk ----

  predicate Caches(b: Buf, blockno: nat) {
    b.dev == ROOTDEV && b.blockno == blockno
  }

  ghost predicate Cached(bufs: seq<Buf>, blockno: nat) {
    exists i :: 0 <= i < NBUF && i < |bufs| && Caches(bufs[i], blockno) && bufs[i].valid
  }

  /** One buffer per block; view is what a reader of the cache sees of each block. */
  ghost predicate Shows(bufs: seq<Buf>, disk: seq<Block>, view: seq<Block>) {
    && |bufs| == NBUF + 1 && |view| == |disk|
    && (forall i :: 0 <= i < NBUF && bufs[i].dev == ROOTDEV ==> bufs[i].blockno < |disk|)
    && (forall i, j :: 0 <= i < j < NBUF && bufs[i].dev == ROOTDEV && bufs[j].dev == ROOTDEV ==>
          bufs[i].blockno != bufs[j].blockno)
    && (forall i :: 0 <= i < NBUF && bufs[i].dev == ROOTDEV && bufs[i].valid ==> view[bufs[i].blockno] == bufs[i].data)
    && (forall b :: 0 <= b < |disk| && !Cached(bufs, b) ==> view[b] == disk[b])
  }

  // ---- references over time ----

  /** The buffers, their order of use, and the holders and pinners of each. */
  datatype Use = Use(bufs: seq<Buf>, ring: seq<nat>, refs: seq<multiset<nat>>)

  datatype Step =
    | Get(h: nat, i: nat, blockno: nat)      // bread by h
    | Pin(h: nat, i: nat)
    | Drop(h: nat, i: nat, release: bool)    // brelse, or bunpin

  predicate Shaped(s: Use) {
    && |s.bufs| == NBUF + 1 && |s.refs| == NBUF && |s.ring| > 0 && s.ring[0] == HEAD
    && (forall k :: 0 <= k < |s.ring| ==> s.ring[k] <= HEAD)
    && (forall k, l :: 0 <= k < l < |s.ring| ==> s.ring[k] != s.ring[l])
  }

  /** refcnt counts the references. */
  predicate Accounted(s: Use) {
    |s.bufs| == NBUF + 1 && |s.refs| == NBUF && forall i :: 0 <= i < NBUF ==> s.bufs[i].refcnt == |s.refs[i]|
  }

  predicate Unused(s: Use) {
    Shaped(s) && forall i :: 0 <= i < NBUF ==> s.bufs[i].refcnt == 0 && s.refs[i] == multiset{}
  }

  predicate SameKey(a: Buf, b: Buf) { a.dev == b.dev && a.blockno == b.blockno }

  predicate OthersSame(s: Use, t: Use, i: nat)
    requires Shaped(s) && Shaped(t)
  {
    && (forall j :: 0 <= j < NBUF && j != i ==> SameKey(t.bufs[j], s.bufs[j]) && t.bufs[j].refcnt == s.bufs[j].refcnt)
    && (forall j :: 0 <= j < NBUF && j != i ==> t.refs[j] == s.refs[j])
  }

  /** i is unreferenced, and every buffer nearer the end of the ring is referenced. */
  ghost predicate LastUnused(bufs: seq<Buf>, ring: seq<nat>, i: nat) {
    exists p :: 0 < p < |ring| && ring[p] == i < |bufs| && bufs[i].refcnt == 0
      && forall l :: p < l < |ring| ==> ring[l] < |bufs| && bufs[ring[l]].refcnt > 0
  }

  /** i has moved to the front of the ring. */
  ghost predicate ToFront(r: seq<nat>, r': seq<nat>, i: nat) {
    exists p :: 0 < p < |r| && r[p] == i && r' == Promoted(r, p)
  }

  ghost predicate Moves(s: Use, a: Step, t: Use) {
    Shaped(s) && Shaped(t) && a.i < NBUF && OthersSame(s, t, a.i) &&
    match a
    case Get(h, i, b) =>
      && t.ring == s.ring && t.refs[i] == s.refs[i] + multiset{h} && t.bufs[i].refcnt == s.bufs[i].refcnt + 1
      && Caches(t.bufs[i], b) && (Caches(s.bufs[i], b) || LastUnused(s.bufs, s.ring, i))
    case Pin(h, i) =>
      t.ring == s.ring && t.refs[i] == s.refs[i] + multiset{h} && t.bufs[i].refcnt == s.bufs[i].refcnt + 1 && SameKey(t.bufs[i], s.bufs[i])
    case Drop(h, i, release) =>
      && h in s.refs[i] && t.refs[i] == s.refs[i] - multiset{h} && t.bufs[i].refcnt == s.bufs[i].refcnt - 1 && SameKey(t.bufs[i], s.bufs[i])
      && if release && t.bufs[i].refcnt == 0 then ToFront(s.ring, t.ring, i) else t.ring == s.ring
  }

  lemma LinkedShaped(s: Use)
    requires Linked(s.bufs, s.ring) && |s.refs| == NBUF
    ensures Shaped(s) && forall k :: 0 <= k < |s.ring| ==> s.ring[k] < |s.bufs|
  {
  }

  lemma Sizes(s: Use)
    requires Accounted(s)
    ensures |s.bufs| == NBUF + 1 && |s.refs| == NBUF
  {
  }

  lemma HeldCounts(s: Use, i: nat, h: nat)
    requires Accounted(s) && i < NBUF && h in s.refs[i]
    ensures |s.bufs| == NBUF + 1 && |s.refs| == NBUF && s.bufs[i].refcnt > 0
  {
  }

  lemma MovedToFront(r: seq<nat>, r': seq<nat>, i: nat, p: nat)
    requires 0 < p < |r| && r[p] == i && r' == Promoted(r, p)
    ensures ToFront(r, r', i)
  {
  }

  lemma Taken(s: Use, t: Use, h: nat, i: nat, b: nat)
    requires Shaped(s) && Shaped(t) && i < NBUF && t.ring == s.ring && t.refs == s.refs[i := s.refs[i] + multiset{h}]
    requires if Caches(s.bufs[i], b) then t.bufs == Counted(s.bufs, i, s.bufs[i].refcnt + 1)
             else LastUnused(s.bufs, s.ring, i) && t.bufs == Recycled(s.bufs, i, b)
    ensures Moves(s, Get(h, i, b), t) && (Accounted(s) ==> Accounted(t))
  {
    hide LastUnused;
    if !Caches(s.bufs[i], b) { LastIsUnused(s.bufs, s.ring, i); }
  }

  lemma LastIsUnused(bufs: seq<Buf>, ring: seq<nat>, i: nat)
    requires LastUnused(bufs, ring, i)
    ensures i < |bufs| && bufs[i].refcnt == 0
  {
  }

  lemma Pinned(s: Use, t: Use, h: nat, i: nat)
    requires Shaped(s) && Shaped(t) && i < NBUF && t.ring == s.ring && t.refs == s.refs[i := s.refs[i] + multiset{h}]
    requires t.bufs == Counted(s.bufs, i, s.bufs[i].refcnt + 1)
    ensures Moves(s, Pin(h, i), t) && (Accounted(s) ==> Accounted(t))
  {
  }

  lemma Dropped(s: Use, t: Use, h: nat, i: nat, release: bool)
    requires Shaped(s) && Shaped(t) && i < NBUF && s.bufs[i].refcnt > 0 && h in s.refs[i] && t.refs == s.refs[i := s.refs[i] - multiset{h}]
    requires SameContents(t.bufs, Counted(s.bufs, i, s.bufs[i].refcnt - 1))
    requires if release && t.bufs[i].refcnt == 0 then ToFront(s.ring, t.ring, i) else t.ring == s.ring
    ensures Moves(s, Drop(h, i, release), t) && (Accounted(s) ==> Accounted(t))
  {
    hide ToFront;
  }

  /** Filling the buffer in is no part of the count. */
  lemma FilledMoves(s: Use, u: Use, t: Use, h: nat, i: nat, b: nat)
    requires Moves(s, Get(h, i, b), u) && t.ring == u.ring && t.refs == u.refs && |t.bufs| == |u.bufs|
    requires forall j :: 0 <= j < |t.bufs| ==> SameKey(t.bufs[j], u.bufs[j]) && t.bufs[j].refcnt == u.bufs[j].refcnt
    ensures Moves(s, Get(h, i, b), t) && (Accounted(u) ==> Accounted(t))
  {
    hide LastUnused;
  }

  lemma GetCaches(s: Use, t: Use, h: nat, i: nat, b: nat)
    requires Moves(s, Get(h, i, b), t)
    ensures i < NBUF < |t.bufs| && Caches(t.bufs[i], b) && t.bufs[i].refcnt > 0
  {
  }

  // ---- runs ----

  ghost predicate Run(ss: seq<Use>, steps: seq<Step>) {
    |ss| == |steps| + 1 && Unused(ss[0]) && forall n :: 0 <= n < |steps| ==> Moves(ss[n], steps[n], ss[n + 1])
  }

  /** In every run refcnt is the number of references outstanding. */
  lemma {:induction false} CountsReferences(ss: seq<Use>, steps: seq<Step>, n: nat)
    requires Run(ss, steps) && n < |ss|
    ensures Shaped(ss[n]) && Accounted(ss[n])
  {
    hide LastUnused, ToFront, Unused;
    if n == 0 {
      UnusedAccounted(ss[0]);
    } else {
      CountsReferences(ss, steps, n - 1);
      assert Moves(ss[n - 1], steps[n - 1], ss[n - 1 + 1]);
    }
  }

  lemma UnusedAccounted(s: Use)
    requires Unused(s)
    ensures Shaped(s) && Accounted(s)
  {
  }

  lemma HeldOne(s: Use, a: Step, t: Use, h: nat, i: nat)
    requires Moves(s, a, t) && Accounted(s) && i < NBUF && h in s.refs[i] && !(a.Drop? && a.h == h && a.i == i)
    ensures h in t.refs[i] && SameKey(t.bufs[i], s.bufs[i])
  {
    hide ToFront;
    if a.Get? && a.i == i && !Caches(s.bufs[i], a.blockno) { LastIsUnused(s.bufs, s.ring, i); }
  }

  /** Whoever has taken a reference to a buffer, holding or pinning it, and has not dropped it since,
      still finds the same block in it, whatever everyone else has read, pinned and released. */
  lemma {:induction false} HeldKeepsBlock(ss: seq<Use>, steps: seq<Step>, n: nat, m: nat, h: nat, i: nat)
    requires Run(ss, steps) && n <= m < |ss| && i < NBUF && Shaped(ss[n]) && h in ss[n].refs[i]
    requires forall k :: n <= k < m ==> !(steps[k].Drop? && steps[k].h == h && steps[k].i == i)
    ensures Shaped(ss[m]) && h in ss[m].refs[i] && SameKey(ss[m].bufs[i], ss[n].bufs[i]) && ss[m].bufs[i].refcnt > 0
    decreases m - n
  {
    hide Moves, Unused;
    CountsReferences(ss, steps, m);
    if n < m {
      HeldKeepsBlock(ss, steps, n, m - 1, h, i);
      CountsReferences(ss, steps, m - 1);
      assert Moves(ss[m - 1], steps[m - 1], ss[m - 1 + 1]);
      HeldOne(ss[m - 1], steps[m - 1], ss[m], h, i);
    }
  }

  // ---- least recently used ----

  /** When buffer j was last released for good, in the first n steps; 0 if never. */
  ghost function LastReleased(ss: seq<Use>, steps: seq<Step>, j: nat, n: nat): nat
    requires n <= |steps| < |ss|
  {
    if n == 0 then 0
    else if Releases(ss[n], steps[n - 1], j) then n
    else LastReleased(ss, steps, j, n - 1)
  }

  predicate Releases(t: Use, a: Step, j: nat) {
    a.Drop? && a.release && a.i == j < |t.bufs| && t.bufs[j].refcnt == 0
  }

  lemma {:induction false} ReleasedBefore(ss: seq<Use>, steps: seq<Step>, j: nat, n: nat)
    requires n <= |steps| < |ss|
    ensures LastReleased(ss, steps, j, n) <= n
  {
    if n > 0 { ReleasedBefore(ss, steps, j, n - 1); }
  }

  lemma PromotedAt(ring: seq<nat>, p: nat, k: nat)
    requires 0 < p < |ring| && 0 < k < |Promoted(ring, p)|
    ensures |Promoted(ring, p)| == |ring|
    ensures Promoted(ring, p)[k] == if k == 1 then ring[p] else if k <= p then ring[k - 1] else ring[k]
  {
  }

  /** The ring is always in the order of the last releases. */
  lemma {:induction false} RingOrder(ss: seq<Use>, steps: seq<Step>, n: nat, p: nat, l: nat)
    requires Run(ss, steps) && n < |ss| && 0 < p < l < |ss[n].ring|
    ensures LastReleased(ss, steps, ss[n].ring[p], n) >= LastReleased(ss, steps, ss[n].ring[l], n)
  {
    hide Unused, Moves, Promoted;
    if n > 0 {
      var s, a, t := ss[n - 1], steps[n - 1], ss[n];
      assert Moves(s, a, ss[n - 1 + 1]);
      var q := RingMoves(s, a, t);
      if Releases(t, a, a.i) {
        PromotedAt(s.ring, q, p);
        PromotedAt(s.ring, q, l);
        var p', l' := if p <= q then p - 1 else p, if l <= q then l - 1 else l;
        ReleasedBefore(ss, steps, s.ring[l'], n - 1);
        if p > 1 { RingOrder(ss, steps, n - 1, p', l'); }
      } else {
        RingOrder(ss, steps, n - 1, p, l);
      }
    }
  }

  /** Only a last brelse reorders the ring. */
  lemma RingMoves(s: Use, a: Step, t: Use) returns (q: nat)
    requires Moves(s, a, t)
    ensures if Releases(t, a, a.i) then 0 < q < |s.ring| && s.ring[q] == a.i && t.ring == Promoted(s.ring, q) else t.ring == s.ring
    ensures Releases(t, a, a.i) ==> forall k :: 0 <= k < |s.ring| && k != q ==> s.ring[k] != a.i
  {
    hide LastUnused, Promoted, OthersSame;
    q := 0;
    if Releases(t, a, a.i) { q :| 0 < q < |s.ring| && s.ring[q] == a.i && t.ring == Promoted(s.ring, q); }
  }

  /** A read that has to recycle a buffer takes, of the unreferenced ones, one whose last release is longest ago. */
  lemma LeastRecentlyUsed(ss: seq<Use>, steps: seq<Step>, n: nat, j: nat)
    requires Run(ss, steps) && n < |steps| && steps[n].Get? && Shaped(ss[n]) && steps[n].i < NBUF && j < NBUF
    requires !Caches(ss[n].bufs[steps[n].i], steps[n].blockno) && ss[n].bufs[j].refcnt == 0 && j in ss[n].ring
    ensures LastReleased(ss, steps, steps[n].i, n) <= LastReleased(ss, steps, j, n)
  {
    hide Unused, OthersSame, LastUnused;
    assert Moves(ss[n], steps[n], ss[n + 1]);
    var p, l := NoneBehind(ss[n], steps[n].i, j);
    if l < p { RingOrder(ss, steps, n, l, p); }
  }

  lemma NoneBehind(s: Use, i: nat, j: nat) returns (p: nat, l: nat)
    requires Shaped(s) && LastUnused(s.bufs, s.ring, i) && j < NBUF && s.bufs[j].refcnt == 0 && j in s.ring
    ensures 0 < l <= p < |s.ring| && s.ring[p] == i && s.ring[l] == j
  {
    p :| 0 < p < |s.ring| && s.ring[p] == i < |s.bufs| && s.bufs[i].refcnt == 0
      && forall l :: p < l < |s.ring| ==> s.ring[l] < |s.bufs| && s.bufs[s.ring[l]].refcnt > 0;
    l :| 0 <= l < |s.ring| && s.ring[l] == j;
  }

  lemma IsLastUnused(bufs: seq<Buf>, ring: seq<nat>, i: nat, p: nat)
    requires 0 < p < |ring| && ring[p] == i < |bufs| && bufs[i].refcnt == 0 && forall k :: 0 <= k < |ring| ==> ring[k] < |bufs|
    requires forall l :: p < l < |ring| ==> bufs[ring[l]].refcnt > 0
    ensures LastUnused(bufs, ring, i)
  {
  }

  predicate AllSynced(bufs: seq<Buf>, disk: seq<Block>) {
    forall i :: 0 <= i < NBUF && i < |bufs| && bufs[i].refcnt == 0 ==> Synced(bufs[i], disk)
  }

  class Bcache {
    var bufs: seq<Buf>
    var disk: seq<Block>
    ghost var ring: seq<nat>
    ghost var view: seq<Block>
    ghost var refs: seq<multiset<nat>>   // who holds or pins each buffer

    ghost function Uses(): Use
      reads this
    {
      Use(bufs, ring, refs)
    }

    ghost predicate Valid()
      reads this
    {
      && Linked(bufs, ring) && |ring| == NBUF + 1 && (forall i :: 0 <= i <= HEAD ==> i in ring)
      && Shows(bufs, disk, view) && Accounted(Uses())
    }

    /** Buffers nobody references agree with the disk, so recycling them loses nothing. */
    ghost predicate Clean()
      reads this
    {
      AllSynced(bufs, disk)
    }

    /** binit */
    constructor (disk: seq<Block>)
      ensures Valid() && Clean() && this.disk == disk && view == disk && Unused(Uses())
    {
      hide Linked, PushFront, Fronted;
      var bs := Repeat(Buf(false, 0, 0, 0, HEAD, HEAD, ZeroBlock()), NBUF + 1);
      ghost var r: seq<nat> := [HEAD];
      LinkedAlone(bs);
      var b := 0;
      while b < NBUF
        invariant b <= NBUF && Linked(bs, r) && |bs| == NBUF + 1 && |r| == b + 1 && (forall i :: 0 <= i <= HEAD ==> (i in r <==> i < b || i == HEAD))
        invariant forall i :: 0 <= i < NBUF ==> bs[i].refcnt == 0 && bs[i].dev == 0
      {
        PushFrontLinked(bs, r, b);
        PushFrontContents(bs, b);
        RingStart(bs, r);
        FrontedHolds(r, b);
        bs := PushFront(bs, b);
        r := Fronted(r, b);
        b := b + 1;
      }
      LinkedShaped(Use(bs, r, seq(NBUF, _ => multiset{})));
      this.bufs, this.disk, this.view, this.ring, this.refs := bs, disk, disk, r, seq(NBUF, _ => multiset{});
    }

    /** brelse: drop the reference; an unreferenced buffer becomes the most recently used. */
    method Brelse(i: nat, ghost h: nat)
      requires Valid() && i < NBUF && h in refs[i]
      modifies this`bufs, this`ring, this`refs
      ensures Valid() && SameContents(bufs, Counted(old(bufs), i, old(bufs)[i].refcnt - 1))
      ensures bufs[i].refcnt == 0 ==> ring[1] == i
      ensures Moves(old(Uses()), Drop(h, i, true), Uses())
      ensures old(Clean()) && (old(bufs)[i].refcnt > 1 || Synced(bufs[i], disk)) ==> Clean()
    {
      hide Linked, Unlink, PushFront, Shows, Promoted, Moves, Accounted, Shaped, ToFront, AllSynced;
      RingStart(bufs, ring);
      HeldCounts(Uses(), i, h);
      LinkedShaped(Uses());
      CountedLinks(bufs, ring, disk, view, i, bufs[i].refcnt - 1);
      ghost var counted := Counted(bufs, i, bufs[i].refcnt - 1);
      bufs := Counted(bufs, i, bufs[i].refcnt - 1);
      refs := refs[i := refs[i] - multiset{h}];
      if bufs[i].refcnt == 0 { ToFrontOf(i); }
      LinkedShaped(Uses());
      Dropped(old(Uses()), Uses(), h, i, true);
      SameContentsSynced(counted, bufs, disk);
    }

    /** The relinking of brelse. */
    method ToFrontOf(i: nat)
      requires Linked(bufs, ring) && |ring| == NBUF + 1 && (forall x :: 0 <= x <= HEAD ==> x in ring) && Shows(bufs, disk, view) && i < NBUF
      modifies this`bufs, this`ring
      ensures Linked(bufs, ring) && |ring| == NBUF + 1 && (forall x :: 0 <= x <= HEAD ==> x in ring) && Shows(bufs, disk, view)
      ensures SameContents(bufs, old(bufs)) && ToFront(old(ring), ring, i) && ring[1] == i
    {
      hide Linked, Unlink, PushFront, Shows, Promoted, ToFront;
      RingStart(bufs, ring);
      assert i in ring;
      ghost var p :| 0 <= p < |ring| && ring[p] == i;
      Promote(bufs, ring, i, p);
      PromotedHolds(ring, p);
      bufs := PushFront(Unlink(bufs, i), i);
      ring := Promoted(ring, p);
      SameShows(old(bufs), bufs, disk, view);
      MovedToFront(old(ring), ring, i, p);
    }

    /** bget's first scan, from the most recently used on. */
    method FindCached(blockno: nat) returns (i: nat)
      requires Valid()
      ensures i < NBUF ==> Caches(bufs[i], blockno)
      ensures i >= NBUF ==> i == HEAD && forall j :: 0 <= j < NBUF ==> !Caches(bufs[j], blockno)
    {
      hide Shows, Linked;
      RingStart(bufs, ring);
      RingStep(bufs, ring, 0);
      i := bufs[HEAD].next;
      ghost var k := 1;
      while i != HEAD
        invariant 1 <= k <= |ring| && i == (if k == |ring| then HEAD else ring[k])
        invariant forall l :: 1 <= l < k ==> !Caches(bufs[ring[l]], blockno)
        decreases |ring| - k
      {
        RingStep(bufs, ring, k);
        if bufs[i].dev == ROOTDEV && bufs[i].blockno == blockno { return; }
        i := bufs[i].next;
        k := k + 1;
      }
      if k < |ring| { RingStep(bufs, ring, k); }
      NoneCaches(bufs, ring, blockno, k);
    }

    /** bget's second scan, from the least recently used on. */
    method FindUnused() returns (i: nat, ghost p: nat)
      requires Valid()
      ensures i < NBUF ==> 0 < p < |ring| && ring[p] == i && bufs[i].refcnt == 0
      ensures i < NBUF ==> forall l :: p < l < |ring| ==> bufs[ring[l]].refcnt > 0
      ensures i >= NBUF ==> i == HEAD && forall j :: 0 <= j < NBUF ==> bufs[j].refcnt > 0
    {
      hide Shows, Linked;
      RingStart(bufs, ring);
      RingStep(bufs, ring, 0);
      i := bufs[HEAD].prev;
      p := |ring| - 1;
      while i != HEAD
        invariant 0 <= p < |ring| && i == ring[p]
        invariant forall l :: p < l < |ring| ==> bufs[ring[l]].refcnt > 0
        decreases p
      {
        if bufs[i].refcnt == 0 { return; }
        RingStep(bufs, ring, p);
        i := bufs[i].prev;
        p := p - 1;
      }
      AllReferenced(bufs, ring, p);
    }

    /** bget: the block's buffer, or the least recently used unreferenced one,
        emptied for it; -1 stands for the panic when every buffer is referenced. */
    method Bget(blockno: nat, ghost h: nat) returns (i: int)
      requires Valid() && blockno < |disk|
      modifies this`bufs, this`view, this`refs
      ensures Valid() && -1 <= i < NBUF
      ensures i == -1 <==> forall j :: 0 <= j < NBUF ==> !Caches(old(bufs)[j], blockno) && old(bufs)[j].refcnt > 0
      ensures i == -1 ==> bufs == old(bufs) && refs == old(refs)
      ensures i >= 0 ==> bufs == if Caches(old(bufs)[i], blockno) then Counted(old(bufs), i, old(bufs)[i].refcnt + 1)
                                 else Recycled(old(bufs), i, blockno)
      ensures i >= 0 ==> Moves(old(Uses()), Get(h, i, blockno), Uses())
      ensures old(Clean()) ==> Clean() && view == old(view)
    {
      hide Linked, Shows, Moves, Accounted;
      var b := FindCached(blockno);
      if b < NBUF {
        Hold(b, blockno, h);
        return b;
      }
      ghost var p;
      b, p := FindUnused();
      if b >= NBUF { return -1; }
      Recycle(b, blockno, h, p);
      return b;
    }

    /** bget found the block in buffer b. */
    method Hold(b: nat, ghost blockno: nat, ghost h: nat)
      requires Valid() && b < NBUF && Caches(bufs[b], blockno)
      modifies this`bufs, this`refs
      ensures Valid() && bufs == Counted(old(bufs), b, old(bufs)[b].refcnt + 1) && (old(Clean()) ==> Clean())
      ensures Moves(old(Uses()), Get(h, b, blockno), Uses())
    {
      hide Linked, Shows, Moves, Accounted, Shaped, LastUnused;
      Sizes(Uses());
      LinkedShaped(Uses());
      CountedLinks(bufs, ring, disk, view, b, bufs[b].refcnt + 1);
      bufs := Counted(bufs, b, bufs[b].refcnt + 1);
      refs := refs[b := refs[b] + multiset{h}];
      LinkedShaped(Uses());
      Taken(old(Uses()), Uses(), h, b, blockno);
    }

    /** Buffer b, at p of the ring, takes the block instead of what it has. */
    method Recycle(b: nat, blockno: nat, ghost h: nat, ghost p: nat)
      requires Valid() && blockno < |disk| && 0 < p < |ring| && ring[p] == b < NBUF && bufs[b].refcnt == 0
      requires forall j :: 0 <= j < NBUF ==> !Caches(bufs[j], blockno)
      requires forall l :: p < l < |ring| ==> bufs[ring[l]].refcnt > 0
      modifies this`bufs, this`refs, this`view
      ensures Valid() && bufs == Recycled(old(bufs), b, blockno) && (old(Clean()) ==> Clean() && view == old(view))
      ensures Moves(old(Uses()), Get(h, b, blockno), Uses())
    {
      hide Linked, Shows, Moves, Accounted, Shaped, LastUnused, Recycled, Forgotten;
      Sizes(Uses());
      LinkedShaped(Uses());
      IsLastUnused(bufs, ring, b, p);
      RecycledLinks(bufs, ring, disk, b, blockno);
      RecycledShows(bufs, disk, view, b, blockno);
      view := Forgotten(bufs[b], disk, view);
      bufs := Recycled(bufs, b, blockno);
      refs := refs[b := refs[b] + multiset{h}];
      LinkedShaped(Uses());
      Taken(old(Uses()), Uses(), h, b, blockno);
    }

    /** bread: what a plain array of blocks would return. */
    method Bread(blockno: nat, ghost h: nat) returns (i: int)
      requires Valid() && blockno < |disk|
      modifies this`bufs, this`view, this`refs
      ensures Valid() && -1 <= i < NBUF
      ensures i == -1 <==> forall j :: 0 <= j < NBUF ==> !Caches(old(bufs)[j], blockno) && old(bufs)[j].refcnt > 0
      ensures i == -1 ==> bufs == old(bufs) && refs == old(refs)
      ensures i >= 0 ==> Caches(bufs[i], blockno) && bufs[i].valid && bufs[i].data == view[blockno]
      ensures i >= 0 ==> Moves(old(Uses()), Get(h, i, blockno), Uses())
      ensures forall j :: 0 <= j < NBUF && j != i ==> bufs[j] == old(bufs)[j]
      ensures i >= 0 && Caches(old(bufs)[i], blockno) && old(bufs)[i].valid ==> SameBlock(bufs[i], old(bufs)[i])
      ensures old(Clean()) ==> Clean() && view == old(view)
    {
      hide Linked, Shows, Moves;
      i := Bget(blockno, h);
      RingStart(bufs, ring);
      if i >= 0 && !bufs[i].valid {
        FillShows(bufs, disk, view, i);
        var filled := bufs[i := bufs[i].(data := disk[blockno], valid := true)];
        SameLinks(bufs, filled, ring);
        ghost var u := Uses();
        bufs := filled;
        FilledMoves(old(Uses()), u, Uses(), h, i, blockno);
      }
      if i >= 0 { GetCaches(old(Uses()), Uses(), h, i, blockno); }
      if i >= 0 { ViewOf(bufs, disk, view, i); }
    }

    /** bwrite: the disk catches up with the buffer; readers see no change. */
    method Bwrite(i: nat)
      requires Valid() && i < NBUF && bufs[i].refcnt > 0 && bufs[i].dev == ROOTDEV && bufs[i].valid
      modifies this`disk
      ensures Valid() && |disk| == |old(disk)| && bufs[i].blockno < |disk| && disk == old(disk)[bufs[i].blockno := view[bufs[i].blockno]]
      ensures Synced(bufs[i], disk) && (old(Clean()) ==> Clean())
    {
      hide Linked;
      WriteShows(bufs, disk, view, i);
      disk := disk[bufs[i].blockno := bufs[i].data];
    }

    /** A holder changing its buffer's data. */
    method Modify(i: nat, data: Block)
      requires Valid() && i < NBUF && bufs[i].refcnt > 0 && bufs[i].dev == ROOTDEV && bufs[i].valid
      modifies this`bufs, this`view
      ensures Valid() && bufs[i].blockno < |view| == |old(view)| && view == old(view)[bufs[i].blockno := data]
      ensures bufs == old(bufs)[i := old(bufs)[i].(data := data)] && (old(Clean()) ==> Clean())
    {
      hide Linked;
      ModifyShows(bufs, disk, view, i, data);
      var changed := bufs[i := bufs[i].(data := data)];
      SameLinks(bufs, changed, ring);
      view := view[bufs[i].blockno := data];
      bufs := changed;
    }

    /** bpin and bunpin */
    method Bpin(i: nat, ghost h: nat)
      requires Valid() && i < NBUF && bufs[i].refcnt > 0
      modifies this`bufs, this`refs
      ensures Valid() && bufs == Counted(old(bufs), i, old(bufs)[i].refcnt + 1) && (old(Clean()) ==> Clean())
      ensures Moves(old(Uses()), Pin(h, i), Uses())
    {
      hide Linked, Shows, Moves, Accounted, Shaped;
      Sizes(Uses());
      LinkedShaped(Uses());
      CountedLinks(bufs, ring, disk, view, i, bufs[i].refcnt + 1);
      bufs := Counted(bufs, i, bufs[i].refcnt + 1);
      refs := refs[i := refs[i] + multiset{h}];
      LinkedShaped(Uses());
      Pinned(old(Uses()), Uses(), h, i);
    }

    method Bunpin(i: nat, ghost h: nat)
      requires Valid() && i < NBUF && h in refs[i]
      modifies this`bufs, this`refs
      ensures Valid() && bufs == Counted(old(bufs), i, old(bufs)[i].refcnt - 1)
      ensures Moves(old(Uses()), Drop(h, i, false), Uses())
      ensures old(Clean()) && (old(bufs)[i].refcnt > 1 || Synced(bufs[i], disk)) ==> Clean()
    {
      hide Linked, Shows, Moves, Accounted, Shaped;
      HeldCounts(Uses(), i, h);
      LinkedShaped(Uses());
      CountedLinks(bufs, ring, disk, view, i, bufs[i].refcnt - 1);
      bufs := Counted(bufs, i, bufs[i].refcnt - 1);
      refs := refs[i := refs[i] - multiset{h}];
      LinkedShaped(Uses());
      Dropped(old(Uses()), Uses(), h, i, false);
    }
  }

  /** The buffer holds what the disk does, or nothing of it. */
  predicate Synced(b: Buf, disk: seq<Block>) {
    b.dev == ROOTDEV && b.valid ==> b.blockno < |disk| && b.data == disk[b.blockno]
  }

  function Counted(bufs: seq<Buf>, i: nat, n: nat): seq<Buf>
    requires i < |bufs|
  {
    bufs[i := bufs[i].(refcnt := n)]
  }

  lemma SameShows(a: seq<Buf>, b: seq<Buf>, disk: seq<Block>, view: seq<Block>)
    requires Shows(a, disk, view) && |a| == |b| && forall i :: 0 <= i < |a| ==> SameBlock(a[i], b[i])
    ensures Shows(b, disk, view)
  {
    forall c | Cached(a, c) ensures Cached(b, c) {
      var i :| 0 <= i < NBUF && i < |a| && Caches(a[i], c) && a[i].valid;
      assert SameBlock(a[i], b[i]) && Caches(b[i], c);
    }
  }

  lemma RingStep(bufs: seq<Buf>, ring: seq<nat>, k: nat)
    requires Linked(bufs, ring) && k < |ring|
    ensures ring[k] <= HEAD && (ring[k] == HEAD <==> k == 0)
    ensures bufs[ring[k]].next == (if k + 1 == |ring| then HEAD else ring[k + 1])
    ensures bufs[ring[k]].prev == (if k == 0 then ring[|ring| - 1] else ring[k - 1])
  {
    assert bufs[ring[k]].next == ring[Succ(k, |ring|)] && bufs[ring[k]].prev == ring[Pred(k, |ring|)];
  }

  lemma NoneCaches(bufs: seq<Buf>, ring: seq<nat>, blockno: nat, k: nat)
    requires Linked(bufs, ring) && k == |ring|
    requires forall i :: 0 <= i <= HEAD ==> i in ring
    requires forall l :: 1 <= l < k ==> !Caches(bufs[ring[l]], blockno)
    ensures forall j :: 0 <= j < NBUF ==> !Caches(bufs[j], blockno)
  {
    forall j | 0 <= j < NBUF ensures !Caches(bufs[j], blockno) {
      assert j in ring;
      var l :| 0 <= l < |ring| && ring[l] == j;
    }
  }

  lemma AllReferenced(bufs: seq<Buf>, ring: seq<nat>, p: nat)
    requires Linked(bufs, ring) && p < |ring| && ring[p] == HEAD
    requires forall i :: 0 <= i <= HEAD ==> i in ring
    requires forall l :: p < l < |ring| ==> bufs[ring[l]].refcnt > 0
    ensures forall j :: 0 <= j < NBUF ==> bufs[j].refcnt > 0
  {
    forall j | 0 <= j < NBUF ensures bufs[j].refcnt > 0 {
      assert j in ring;
      var l :| 0 <= l < |ring| && ring[l] == j;
    }
  }

  /** Changing buffer i uncaches no block but its own. */
  lemma CachedFrame(bufs: seq<Buf>, a: seq<Buf>, i: nat)
    requires |bufs| == |a| == NBUF + 1 && i < NBUF && forall j :: 0 <= j <= NBUF && j != i ==> a[j] == bufs[j]
    ensures forall c :: Cached(bufs, c) && !(Caches(bufs[i], c) && bufs[i].valid) ==> Cached(a, c)
  {
    forall c | Cached(bufs, c) && !(Caches(bufs[i], c) && bufs[i].valid) ensures Cached(a, c) {
      var j :| 0 <= j < NBUF && j < |bufs| && Caches(bufs[j], c) && bufs[j].valid;
      assert Caches(a[j], c);
    }
  }

  function Recycled(bufs: seq<Buf>, i: nat, blockno: nat): seq<Buf>
    requires i < |bufs|
  {
    bufs[i := bufs[i].(dev := ROOTDEV, blockno := blockno, valid := false, refcnt := 1)]
  }

  lemma SameContentsSynced(a: seq<Buf>, b: seq<Buf>, disk: seq<Block>)
    requires SameContents(a, b)
    ensures AllSynced(a, disk) ==> AllSynced(b, disk)
  {
  }

  lemma RecycledLinks(bufs: seq<Buf>, ring: seq<nat>, disk: seq<Block>, i: nat, blockno: nat)
    requires Linked(bufs, ring) && i < NBUF
    ensures Linked(Recycled(bufs, i, blockno), ring) && |Recycled(bufs, i, blockno)| == |bufs|
    ensures AllSynced(bufs, disk) ==> AllSynced(Recycled(bufs, i, blockno), disk) && (Synced(bufs[i], disk) || bufs[i].refcnt > 0)
  {
    hide Linked;
    LinkedShaped(Use(bufs, ring, seq(NBUF, _ => multiset{})));
    SameLinks(bufs, Recycled(bufs, i, blockno), ring);
  }

  /** A changed count leaves ring and contents alone. */
  lemma CountedLinks(bufs: seq<Buf>, ring: seq<nat>, disk: seq<Block>, view: seq<Block>, i: nat, n: nat)
    requires Linked(bufs, ring) && Shows(bufs, disk, view) && i < NBUF
    ensures |Counted(bufs, i, n)| == |bufs| && Linked(Counted(bufs, i, n), ring) && Shows(Counted(bufs, i, n), disk, view)
    ensures AllSynced(bufs, disk) && (n > 0 || Synced(bufs[i], disk)) ==> AllSynced(Counted(bufs, i, n), disk)
  {
    hide Linked, Shows;
    LinkedShaped(Use(bufs, ring, seq(NBUF, _ => multiset{})));
    SameLinks(bufs, Counted(bufs, i, n), ring);
    SameShows(bufs, Counted(bufs, i, n), disk, view);
  }

  /** What readers see once the buffer no longer holds its block. */
  function Forgotten(b: Buf, disk: seq<Block>, view: seq<Block>): seq<Block> {
    if b.dev == ROOTDEV && b.valid && b.blockno < |disk| == |view| then view[b.blockno := disk[b.blockno]] else view
  }

  lemma RecycledShows(bufs: seq<Buf>, disk: seq<Block>, view: seq<Block>, i: nat, blockno: nat)
    requires Shows(bufs, disk, view) && i < NBUF && blockno < |disk|
    requires forall j :: 0 <= j < NBUF ==> !Caches(bufs[j], blockno)
    ensures Shows(Recycled(bufs, i, blockno), disk, Forgotten(bufs[i], disk, view))
    ensures Synced(bufs[i], disk) ==> Forgotten(bufs[i], disk, view) == view
  {
    var a, v := Recycled(bufs, i, blockno), Forgotten(bufs[i], disk, view);
    CachedFrame(bufs, a, i);
  }

  lemma FillShows(bufs: seq<Buf>, disk: seq<Block>, view: seq<Block>, i: nat)
    requires Shows(bufs, disk, view) && i < NBUF && bufs[i].dev == ROOTDEV && !bufs[i].valid
    ensures bufs[i].blockno < |disk|
    ensures Shows(bufs[i := bufs[i].(data := disk[bufs[i].blockno], valid := true)], disk, view)
  {
    var a := bufs[i := bufs[i].(data := disk[bufs[i].blockno], valid := true)];
    CachedFrame(bufs, a, i);
  }

  lemma ViewOf(bufs: seq<Buf>, disk: seq<Block>, view: seq<Block>, i: nat)
    requires Shows(bufs, disk, view) && i < NBUF && bufs[i].dev == ROOTDEV && bufs[i].valid
    ensures bufs[i].blockno < |view| && view[bufs[i].blockno] == bufs[i].data
  {
  }

  lemma WriteShows(bufs: seq<Buf>, disk: seq<Block>, view: seq<Block>, i: nat)
    requires Shows(bufs, disk, view) && i < NBUF && bufs[i].dev == ROOTDEV && bufs[i].valid
    ensures bufs[i].blockno < |disk| && Shows(bufs, disk[bufs[i].blockno := bufs[i].data], view)
  {
  }

  lemma ModifyShows(bufs: seq<Buf>, disk: seq<Block>, view: seq<Block>, i: nat, data: Block)
    requires Shows(bufs, disk, view) && i < NBUF && bufs[i].dev == ROOTDEV && bufs[i].valid
    ensures bufs[i].blockno < |view|
    ensures Shows(bufs[i := bufs[i].(data := data)], disk, view[bufs[i].blockno := data])
  {
    var a := bufs[i := bufs[i].(data := data)];
    CachedFrame(bufs, a, i);
    assert Caches(a[i], bufs[i].blockno);
  }

  lemma LinkedAlone(bufs: seq<Buf>)
    requires |bufs| == NBUF + 1 && bufs[HEAD].next == HEAD && bufs[HEAD].prev == HEAD
    ensures Linked(bufs, [HEAD])
  {
  }

  lemma FrontedHolds(ring: seq<nat>, i: nat)
    requires |ring| > 0 && ring[0] == HEAD
    ensures |Fronted(ring, i)| == |ring| + 1
    ensures forall x :: x in Fronted(ring, i) <==> x == i || x in ring
  {
    assert ring == [HEAD] + ring[1..];
  }

  lemma RingStart(bufs: seq<Buf>, ring: seq<nat>)
    requires Linked(bufs, ring)
    ensures |bufs| == NBUF + 1 && |ring| > 0 && ring[0] == HEAD
    ensures forall k :: 0 <= k < |ring| ==> ring[k] <= HEAD
  {
  }

  function Repeat(b: Buf, n: nat): (r: seq<Buf>)
    ensures |r| == n && forall i :: 0 <= i < n ==> r[i] == b
  {
    if n == 0 then [] else Repeat(b, n - 1) + [b]
  }

  /** The ring after the entry at p has moved to the front. */
  ghost function Promoted(ring: seq<nat>, p: nat): seq<nat>
    requires 0 < p < |ring|
  {
    Fronted(Without(ring, p), ring[p])
  }

  lemma PromotedHolds(ring: seq<nat>, p: nat)
    requires 0 < p < |ring| && ring[0] == HEAD
    ensures |Promoted(ring, p)| == |ring| && Promoted(ring, p)[1] == ring[p]
    ensures forall x :: x in Promoted(ring, p) <==> x in ring
  {
    FrontedHolds(Without(ring, p), ring[p]);
    assert ring == ring[..p] + [ring[p]] + ring[p + 1..];
  }

  /** What brelse does to an unreferenced buffer's links. */
  lemma Promote(bufs: seq<Buf>, ring: seq<nat>, i: nat, p: nat)
    requires Linked(bufs, ring) && 0 < p < |ring| && ring[p] == i && i < HEAD
    ensures bufs[i].next <= HEAD && bufs[i].prev <= HEAD
    ensures |Unlink(bufs, i)| == NBUF + 1 && Unlink(bufs, i)[HEAD].next <= HEAD
    ensures Linked(PushFront(Unlink(bufs, i), i), Promoted(ring, p))
    ensures SameContents(bufs, PushFront(Unlink(bufs, i), i))
  {
    hide Linked, Unlink, PushFront;
    RingStart(bufs, ring);
    UnlinkLinked(bufs, ring, p);
    OutOfRing(bufs, ring, p);
    PushFrontLinked(Unlink(bufs, i), Without(ring, p), i);
    RingStart(Unlink(bufs, i), Without(ring, p));
    forall x | 0 <= x <= HEAD
      ensures SameBlock(bufs[x], Unlink(bufs, i)[x]) && bufs[x].refcnt == Unlink(bufs, i)[x].refcnt
    {
      UnlinkAt(bufs, i, x);
    }
    PushFrontContents(Unlink(bufs, i), i);
  }

  lemma OutOfRing(bufs: seq<Buf>, ring: seq<nat>, p: nat)
    requires Linked(bufs, ring) && p < |ring|
    ensures ring[p] !in Without(ring, p)
  {
  }

  lemma PushFrontContents(bufs: seq<Buf>, i: nat)
    requires |bufs| == NBUF + 1 && i < HEAD && bufs[HEAD].next <= HEAD
    ensures SameContents(bufs, PushFront(bufs, i))
  {
  }
}
