/** walk, mappages, uvmunmap and their callers, over the frames of physical
    memory. A frame holds a page table, a page of data, or is on the free list. */
module VmCode {
  import opened Blocks
  import opened PageTable
  import opened Numbers
  import opened Sv39

  const PGSIZE := 4096

  /** Between two moments only this space's tables and the free list traded frames; other tables are untouched. */
  ghost predicate Traded(t: map<nat, Table>, fr: seq<nat>, sp: Space, u: map<nat, Table>, fs: seq<nat>, sq: Space) {
    && sp.role.Keys <= sq.role.Keys && Elems(fr) + sp.role.Keys == Elems(fs) + sq.role.Keys
    && u.Keys - sq.role.Keys == t.Keys - sp.role.Keys
    && forall g :: g in t && g !in sp.role ==> g in u && u[g] == t[g]
  }

  lemma TradedTwice(t: map<nat, Table>, fr: seq<nat>, sp: Space, u: map<nat, Table>, fs: seq<nat>, sq: Space,
                    v: map<nat, Table>, ft: seq<nat>, sr: Space)
    requires Traded(t, fr, sp, u, fs, sq) && Traded(u, fs, sq, v, ft, sr)
    ensures Traded(t, fr, sp, v, ft, sr)
  {
    forall g | g in t && g !in sp.role ensures g in v && v[g] == t[g] {
      assert g in t.Keys - sp.role.Keys;
    }
  }

  lemma TradedNothing(t: map<nat, Table>, fr: seq<nat>, sp: Space)
    ensures Traded(t, fr, sp, t, fr, sp)
  {
  }

  lemma SameMapTwice(t: map<nat, Table>, sp: Space, u: map<nat, Table>, sq: Space, v: map<nat, Table>, sr: Space)
    requires Tree(t, sp) && Tree(u, sq) && Tree(v, sr) && SameMap(t, sp, u, sq) && SameMap(u, sq, v, sr)
    ensures SameMap(t, sp, v, sr)
  {
  }

  lemma SameMapSelf(t: map<nat, Table>, sp: Space)
    requires Tree(t, sp)
    ensures SameMap(t, sp, t, sp)
  {
  }

  /** Tables may have been added, but the map is the same. */
  ghost predicate Merged(t: map<nat, Table>, fr: seq<nat>, sp: Space, u: map<nat, Table>, fs: seq<nat>, sq: Space)
    requires Tree(t, sp) && Tree(u, sq)
  {
    SameMap(t, sp, u, sq) && Traded(t, fr, sp, u, fs, sq)
  }

  lemma MergedTwice(t: map<nat, Table>, fr: seq<nat>, sp: Space, u: map<nat, Table>, fs: seq<nat>, sq: Space,
                    v: map<nat, Table>, ft: seq<nat>, sr: Space)
    requires Tree(t, sp) && Tree(u, sq) && Tree(v, sr)
    requires Merged(t, fr, sp, u, fs, sq) && Merged(u, fs, sq, v, ft, sr)
    ensures Merged(t, fr, sp, v, ft, sr)
  {
    hide SameMap, Traded, Tree;
    TradedTwice(t, fr, sp, u, fs, sq, v, ft, sr);
    SameMapTwice(t, sp, u, sq, v, sr);
  }

  lemma WalkStart(t: map<nat, Table>, fr: seq<nat>, sp: Space, n: nat)
    requires Tree(t, sp)
    ensures AtLevel(sp, n, 2, sp.root) && Merged(t, fr, sp, t, fr, sp)
  {
    TradedNothing(t, fr, sp);
    SameMapSelf(t, sp);
  }

  lemma WalkEnd(sp: Space, n: nat, f: nat)
    requires AtLevel(sp, n, 0, f)
    ensures Key(n) in sp.leaf && f == sp.leaf[Key(n)]
  {
  }

  /** For every address of page n the hardware's descent ends at table f, or, if not found, at an invalid entry. */
  ghost predicate Finds(t: map<nat, Table>, root: nat, n: nat, found: bool, f: nat) {
    forall va: nat :: va / PGSIZE == n ==> Reached(t, root, va, 2) == if found then Some(f) else None
  }

  lemma WalkFinds(t: map<nat, Table>, sp: Space, n: nat, found: bool, f: nat)
    requires Tree(t, sp) && n < PAGES && (found <==> Key(n) in sp.leaf) && (found ==> f == sp.leaf[Key(n)])
    ensures Finds(t, sp.root, n, found, f)
  {
    hide Tree, Reached, IndexOf;
    forall va: nat | va / PGSIZE == n ensures Reached(t, sp.root, va, 2) == if found then Some(f) else None {
      assert va < MAXVA;
      ReachedIs(t, sp, va);
    }
  }

  /** Where the descent for page n stands at a level. */
  predicate AtLevel(sp: Space, n: nat, level: nat, f: nat) {
    if level == 2 then f == sp.root
    else if level == 1 then IndexOf(n).i2 in sp.dir && f == sp.dir[IndexOf(n).i2]
    else level == 0 && Key(n) in sp.leaf && f == sp.leaf[Key(n)]
  }

  function Digit(n: nat, level: nat): nat { if level == 2 then IndexOf(n).i2 else IndexOf(n).i1 }

  /** One step down follows a valid entry; an invalid one means the place below is empty. */
  lemma StepDown(t: map<nat, Table>, sp: Space, n: nat, level: nat, f: nat)
    requires Tree(t, sp) && n < PAGES && 1 <= level <= 2 && AtLevel(sp, n, level, f)
    ensures f in t && |t[f]| == ENTRIES && Digit(n, level) < ENTRIES
    ensures t[f][Digit(n, level)].v ==> AtLevel(sp, n, level - 1, t[f][Digit(n, level)].ppn)
    ensures !t[f][Digit(n, level)].v ==> Key(n) !in sp.leaf && (level == 2 ==> IndexOf(n).i2 !in sp.dir)
  {
    hide IndexOf;
    DescentFinds(t, sp, n);
  }

  /** The tree with table g put below f for page n. */
  ghost function Below(t: map<nat, Table>, sp: Space, n: nat, level: nat, f: nat, g: nat): (map<nat, Table>, Space)
    requires Tree(t, sp) && n < PAGES && 1 <= level <= 2 && AtLevel(sp, n, level, f)
  {
    if level == 2 then WithDir(t, sp, IndexOf(n).i2, g) else WithLeaf(t, sp, IndexOf(n).i2, IndexOf(n).i1, g)
  }

  lemma NewBelow(t: map<nat, Table>, sp: Space, n: nat, level: nat, f: nat, g: nat)
    requires Tree(t, sp) && n < PAGES && 1 <= level <= 2 && AtLevel(sp, n, level, f) && g !in t
    requires f in t && |t[f]| == ENTRIES && Digit(n, level) < ENTRIES && !t[f][Digit(n, level)].v
    ensures var r := Below(t, sp, n, level, f, g);
            && Tree(r.0, r.1) && SameMap(t, sp, r.0, r.1) && r.1.root == sp.root && AtLevel(r.1, n, level - 1, g)
            && r.0 == t[g := Blank()][f := t[f][Digit(n, level) := Pte(true, 0, g)]]
  {
    hide IndexOf, RootOk, DirsOk, LeavesOk, SameMap;
    StepDown(t, sp, n, level, f);
    if level == 2 { NewDir(t, sp, IndexOf(n).i2, g); } else { NewLeaf(t, sp, IndexOf(n).i2, IndexOf(n).i1, g); }
  }

  lemma TradedOne(t: map<nat, Table>, fr: seq<nat>, sp: Space, n: nat, level: nat, f: nat, g: nat)
    requires Tree(t, sp) && n < PAGES && 1 <= level <= 2 && AtLevel(sp, n, level, f) && g !in t
    ensures var r := Below(t, sp, n, level, f, g); Traded(t, [g] + fr, sp, r.0, fr, r.1)
  {
    hide IndexOf, RootOk, DirsOk, LeavesOk, SameMap;
  }

  /** The map with the range n, n + 1, ... (done pages) sent to ppn, ppn + 1, ... and nothing else changed. */
  ghost predicate Mapped(t: map<nat, Table>, sp: Space, u: map<nat, Table>, sq: Space, n: nat, done: nat, ppn: nat, perm: nat)
    requires Tree(t, sp) && Tree(u, sq)
  {
    forall m :: 0 <= m < PAGES ==>
      Lookup(u, sq, m) == if n <= m < n + done then Some(Pte(true, perm, ppn + (m - n))) else Lookup(t, sp, m)
  }

  /** The map with the range removed and nothing else changed. */
  ghost predicate Unmapped(t: map<nat, Table>, sp: Space, u: map<nat, Table>, sq: Space, n: nat, done: nat)
    requires Tree(t, sp) && Tree(u, sq)
  {
    forall m: nat :: Lookup(u, sq, m) == if n <= m < n + done then None else Lookup(t, sp, m)
  }

  lemma MapOneMore(t: map<nat, Table>, sp: Space, u: map<nat, Table>, sq: Space, v: map<nat, Table>, sr: Space,
                   n: nat, k: nat, ppn: nat, perm: nat, w: map<nat, Table>)
    requires Tree(t, sp) && Tree(u, sq) && Tree(v, sr) && n + k < PAGES && perm > 0 && Key(n + k) in sr.leaf
    requires Mapped(t, sp, u, sq, n, k, ppn, perm) && SameMap(u, sq, v, sr) && w == WithPte(v, sr, n + k, Pte(true, perm, ppn + k))
    ensures Tree(w, sr) && Mapped(t, sp, w, sr, n, k + 1, ppn, perm)
  {
    hide Tree, Lookup, IndexOf, WithPte;
    SetPte(v, sr, n + k, Pte(true, perm, ppn + k));
  }

  lemma UnmapOneMore(t: map<nat, Table>, sp: Space, u: map<nat, Table>, n: nat, k: nat)
    requires Tree(t, sp) && Tree(u, sp) && n + k < PAGES && Key(n + k) in sp.leaf && Unmapped(t, sp, u, sp, n, k)
    ensures var w := WithPte(u, sp, n + k, NONE); Tree(w, sp) && Unmapped(t, sp, w, sp, n, k + 1)
  {
    hide Tree, Lookup, IndexOf, WithPte;
    SetPte(u, sp, n + k, NONE);
  }

  lemma EntryTrades(t: map<nat, Table>, fr: seq<nat>, sp: Space, n: nat, p: Pte)
    requires Tree(t, sp) && Key(n) in sp.leaf
    ensures WithPte(t, sp, n, p).Keys == t.Keys && Traded(t, fr, sp, WithPte(t, sp, n, p), fr, sp)
    ensures Sized(t) ==> Sized(WithPte(t, sp, n, p))
  {
    hide IndexOf, RootOk, DirsOk, LeavesOk;
  }

  lemma MapStart(t: map<nat, Table>, fr: seq<nat>, sp: Space, n: nat, ppn: nat, perm: nat)
    requires Tree(t, sp)
    ensures Traded(t, fr, sp, t, fr, sp) && Mapped(t, sp, t, sp, n, 0, ppn, perm) && Unmapped(t, sp, t, sp, n, 0)
  {
  }

  lemma MapMerged(t: map<nat, Table>, sp: Space, u: map<nat, Table>, sq: Space, v: map<nat, Table>, sr: Space,
                  n: nat, k: nat, ppn: nat, perm: nat)
    requires Tree(t, sp) && Tree(u, sq) && Tree(v, sr) && Mapped(t, sp, u, sq, n, k, ppn, perm) && SameMap(u, sq, v, sr)
    ensures Mapped(t, sp, v, sr, n, k, ppn, perm)
  {
    hide Tree, Lookup;
  }

  /** The entry walk finds is valid exactly for a page that was mapped before the range was. */
  lemma NotYet(t: map<nat, Table>, sp: Space, u: map<nat, Table>, sq: Space, v: map<nat, Table>, sr: Space,
               n: nat, k: nat, ppn: nat, perm: nat)
    requires Tree(t, sp) && Tree(u, sq) && Tree(v, sr) && Mapped(t, sp, u, sq, n, k, ppn, perm) && SameMap(u, sq, v, sr)
    requires n + k < PAGES && Key(n + k) in sr.leaf
    ensures var f := sr.leaf[Key(n + k)];
            f in v && |v[f]| == ENTRIES && (v[f][IndexOf(n + k).i0].v <==> Lookup(t, sp, n + k).Some?)
  {
    hide IndexOf, RootOk, DirsOk, LeavesOk;
    assert Lookup(v, sr, n + k) == Lookup(t, sp, n + k);
  }

  /** A mapped page has its leaf table. */
  lemma TableMissing(t: map<nat, Table>, sp: Space, u: map<nat, Table>, sq: Space, n: nat, k: nat, ppn: nat, perm: nat)
    requires Tree(t, sp) && Tree(u, sq) && Mapped(t, sp, u, sq, n, k, ppn, perm) && n + k < PAGES && Key(n + k) !in sq.leaf
    ensures Lookup(t, sp, n + k).None?
  {
    hide RootOk, DirsOk, LeavesOk, IndexOf;
    assert Lookup(u, sq, n + k).None?;
  }

  /** A mapped page's entry is where walk finds it. */
  lemma EntryThere(t: map<nat, Table>, sp: Space, n: nat)
    requires Tree(t, sp) && n < PAGES && Lookup(t, sp, n).Some?
    ensures Key(n) in sp.leaf && sp.leaf[Key(n)] in t
    ensures var e := t[sp.leaf[Key(n)]]; |e| == ENTRIES && e[IndexOf(n).i0] == Lookup(t, sp, n).value
    ensures Lookup(t, sp, n).value.v && Lookup(t, sp, n).value.perm > 0
  {
    hide IndexOf, RootOk, DirsOk;
  }

  /** An entry that walk finds for a page that is not mapped, if it finds one, is not valid. */
  lemma EntryIs(t: map<nat, Table>, sp: Space, n: nat)
    requires Tree(t, sp) && n < PAGES && Key(n) in sp.leaf
    ensures sp.leaf[Key(n)] in t && |t[sp.leaf[Key(n)]]| == ENTRIES
    ensures t[sp.leaf[Key(n)]][IndexOf(n).i0].v <==> Lookup(t, sp, n).Some?
  {
    hide IndexOf, RootOk, DirsOk, LeavesOk;
  }

  lemma MissingIsUnmapped(t: map<nat, Table>, sp: Space, n: nat)
    requires Tree(t, sp) && Key(n) !in sp.leaf
    ensures Lookup(t, sp, n).None?
  {
  }

  /** Those of the pages n, n + 1, ... that are mapped are mapped to the frames fs. */
  ghost predicate Framed(t: map<nat, Table>, sp: Space, n: nat, fs: seq<nat>)
    requires Tree(t, sp)
  {
    forall m :: n <= m < n + |fs| && Lookup(t, sp, m).Some? ==> Lookup(t, sp, m).value.ppn == fs[m - n]
  }

  /** The pages n, n + 1, ... are mapped, to the frames fs. */
  ghost predicate Backed(t: map<nat, Table>, sp: Space, n: nat, fs: seq<nat>)
    requires Tree(t, sp)
  {
    forall m :: n <= m < n + |fs| ==> Lookup(t, sp, m).Some? && Lookup(t, sp, m).value.ppn == fs[m - n]
  }

  lemma StillThere(t: map<nat, Table>, sp: Space, u: map<nat, Table>, n: nat, k: nat)
    requires Tree(t, sp) && Tree(u, sp) && Unmapped(t, sp, u, sp, n, k) && n + k < PAGES
    ensures Lookup(u, sp, n + k) == Lookup(t, sp, n + k)
  {
    hide Tree, Lookup;
  }

  lemma FrameOf(t: map<nat, Table>, sp: Space, n: nat, fs: seq<nat>, k: nat)
    requires Tree(t, sp) && Framed(t, sp, n, fs) && k < |fs| && Lookup(t, sp, n + k).Some?
    ensures Lookup(t, sp, n + k).value.ppn == fs[k]
  {
    hide Tree, Lookup;
  }

  /** The next page is as it was, and in the frame fs says if it is mapped. */
  lemma UnmapNext(t: map<nat, Table>, sp: Space, u: map<nat, Table>, n: nat, k: nat, fs: seq<nat>)
    requires Tree(t, sp) && Tree(u, sp) && Unmapped(t, sp, u, sp, n, k) && Framed(t, sp, n, fs) && k < |fs| && n + k < PAGES
    ensures Lookup(u, sp, n + k) == Lookup(t, sp, n + k)
    ensures Lookup(t, sp, n + k).Some? ==> Lookup(t, sp, n + k).value.ppn == fs[k]
  {
    hide RootOk, DirsOk, LeavesOk, Lookup;
    StillThere(t, sp, u, n, k);
    if Lookup(t, sp, n + k).Some? { FrameOf(t, sp, n, fs, k); }
  }

  /** The k pages from n are mapped, or not. */
  ghost predicate AllMapped(t: map<nat, Table>, sp: Space, n: nat, k: nat)
    requires Tree(t, sp)
  {
    forall m :: n <= m < n + k ==> m < PAGES && Lookup(t, sp, m).Some?
  }

  ghost predicate NoneMapped(t: map<nat, Table>, sp: Space, n: nat, k: nat)
    requires Tree(t, sp)
  {
    forall m :: n <= m < n + k ==> m < PAGES && Lookup(t, sp, m).None?
  }

  lemma MappedNothing(t: map<nat, Table>, sp: Space, n: nat)
    requires Tree(t, sp)
    ensures AllMapped(t, sp, n, 0) && NoneMapped(t, sp, n, 0)
  {
  }

  lemma MappedMore(t: map<nat, Table>, sp: Space, n: nat, k: nat)
    requires Tree(t, sp) && n + k < PAGES
    ensures AllMapped(t, sp, n, k) && Lookup(t, sp, n + k).Some? ==> AllMapped(t, sp, n, k + 1)
    ensures NoneMapped(t, sp, n, k) && Lookup(t, sp, n + k).None? ==> NoneMapped(t, sp, n, k + 1)
  {
    hide RootOk, DirsOk, LeavesOk, Lookup;
  }

  lemma AllUnmapped(t: map<nat, Table>, sp: Space, fs: seq<nat>, done: nat)
    requires Tree(t, sp) && |fs| <= PAGES && Backed(t, sp, 0, fs) && done <= |fs|
    requires done < |fs| ==> done >= PAGES || Lookup(t, sp, done).None?
    ensures done == |fs|
  {
    hide Tree, Lookup;
  }

  lemma BackedIsFramed(t: map<nat, Table>, sp: Space, n: nat, fs: seq<nat>)
    requires Tree(t, sp) && Backed(t, sp, n, fs)
    ensures Framed(t, sp, n, fs)
  {
    hide Tree, Lookup;
  }

  /** Only this space's tables changed. */
  ghost predicate Untouched(t: map<nat, Table>, u: map<nat, Table>, sp: Space) {
    u.Keys == t.Keys && forall g :: g in t && g !in sp.role ==> u[g] == t[g]
  }

  lemma UntouchedSelf(t: map<nat, Table>, sp: Space)
    ensures Untouched(t, t, sp)
  {
  }

  lemma UntouchedTwice(t: map<nat, Table>, u: map<nat, Table>, v: map<nat, Table>, sp: Space)
    requires Untouched(t, u, sp) && Untouched(u, v, sp)
    ensures Untouched(t, v, sp)
  {
    forall g | g in t && g !in sp.role ensures v[g] == t[g] { assert g in u; }
  }

  lemma ElemsStart(fs: seq<nat>, pages: map<nat, seq<byte>>, free: seq<nat>)
    ensures pages - Elems(fs[..0]) == pages && Elems(free) + Elems(fs[..0]) == Elems(free)
  {
    assert Elems(fs[..0]) == {};
  }

  lemma ElemsNext(fs: seq<nat>, k: nat, pages: map<nat, seq<byte>>, free: seq<nat>)
    requires k < |fs|
    ensures (pages - Elems(fs[..k])) - {fs[k]} == pages - Elems(fs[..k + 1])
    ensures Elems([fs[k]] + free) == Elems(free) + {fs[k]} && Elems(fs[..k + 1]) == Elems(fs[..k]) + {fs[k]}
    ensures NoRepeats(fs) && fs[k] in pages ==> fs[k] in pages - Elems(fs[..k])
  {
    assert fs[..k + 1] == fs[..k] + [fs[k]];
  }

  lemma MappedNone(t: map<nat, Table>, sp: Space, u: map<nat, Table>, sq: Space, n: nat, ppn: nat, perm: nat)
    requires Tree(t, sp) && Tree(u, sq) && Mapped(t, sp, u, sq, n, 0, ppn, perm)
    ensures SameMap(t, sp, u, sq)
  {
    hide Tree, Lookup;
  }

  /** As Traded, with the frames out taken from the free list besides. */
  ghost predicate Trade(t: map<nat, Table>, fr: seq<nat>, sp: Space, u: map<nat, Table>, fs: seq<nat>, sq: Space, out: set<nat>) {
    && sp.role.Keys <= sq.role.Keys && Elems(fr) + sp.role.Keys == Elems(fs) + sq.role.Keys + out
    && out <= Elems(fr) && out !! Elems(fs) && out !! sq.role.Keys
    && u.Keys - sq.role.Keys == t.Keys - sp.role.Keys
    && forall g :: g in t && g !in sp.role ==> g in u && u[g] == t[g]
  }

  lemma TradeNothing(t: map<nat, Table>, fr: seq<nat>, sp: Space)
    ensures Trade(t, fr, sp, t, fr, sp, {})
  {
  }

  lemma TradeOut(t: map<nat, Table>, fr: seq<nat>, sp: Space, u: map<nat, Table>, fs: seq<nat>, sq: Space, g: nat)
    requires Traded(t, fr, sp, u, fs, sq) && g !in fr && g !in fs && Tree(u, sq) && g !in u
    ensures Trade(t, [g] + fr, sp, u, fs, sq, {g}) && Trade(t, [g] + fr, sp, u, [g] + fs, sq, {})
  {
    hide RootOk, DirsOk, LeavesOk;
    assert Elems([g] + fr) == Elems(fr) + {g} && Elems([g] + fs) == Elems(fs) + {g};
    assert g !in sq.role;
  }

  lemma TradeThen(t: map<nat, Table>, fr: seq<nat>, sp: Space, u: map<nat, Table>, fs: seq<nat>, sq: Space, a: set<nat>,
                  v: map<nat, Table>, ft: seq<nat>, sr: Space, b: set<nat>)
    requires Trade(t, fr, sp, u, fs, sq, a) && Trade(u, fs, sq, v, ft, sr, b)
    ensures Trade(t, fr, sp, v, ft, sr, a + b) && a !! b
  {
    forall g | g in t && g !in sp.role ensures g in v && v[g] == t[g] { assert g in t.Keys - sp.role.Keys; }
    assert Elems(ft) <= Elems(fs) + sq.role.Keys && sr.role.Keys <= Elems(fs) + sq.role.Keys;
  }

  /** Another space sees nothing of what happens to this one. */
  lemma OtherKept(t: map<nat, Table>, fr: seq<nat>, sp: Space, u: map<nat, Table>, fs: seq<nat>, sq: Space, out: set<nat>, po: Space)
    requires Tree(t, po) && Trade(t, fr, sp, u, fs, sq, out) && po.role.Keys !! sp.role.Keys && forall f :: f in fr ==> f !in t
    ensures Tree(u, po) && SameMap(t, po, u, po) && po.role.Keys !! sq.role.Keys
  {
    forall f | f in po.role ensures f in u && u[f] == t[f] && f !in sq.role {
      assert f in t && f !in sp.role;
      assert f !in Elems(fr) + sp.role.Keys;
    }
    Elsewhere(t, u, po);
  }

  /** Giving the frames back. */
  lemma TradeBack(t: map<nat, Table>, fr: seq<nat>, sp: Space, u: map<nat, Table>, fs: seq<nat>, sq: Space, out: set<nat>,
                  v: map<nat, Table>, ft: seq<nat>)
    requires Trade(t, fr, sp, u, fs, sq, out) && Untouched(u, v, sq) && Elems(ft) == Elems(fs) + out
    ensures Trade(t, fr, sp, v, ft, sq, {})
  {
    forall g | g in t && g !in sp.role ensures g in v && v[g] == t[g] { assert g in t.Keys - sp.role.Keys; }
  }

  /** The child's map: the parent's first pages with the parent's permissions, in the frames gs; above them as before. */
  ghost predicate Copied(t: map<nat, Table>, po: Space, pn0: Space, u: map<nat, Table>, pn: Space, gs: seq<nat>)
    requires Tree(t, po) && Tree(t, pn0) && Tree(u, pn)
  {
    && (forall m :: 0 <= m < |gs| ==> Lookup(t, po, m).Some? && Lookup(u, pn, m) == Some(Pte(true, Lookup(t, po, m).value.perm, gs[m])))
    && (forall m :: |gs| <= m < PAGES ==> Lookup(u, pn, m) == Lookup(t, pn0, m))
  }

  ghost predicate Contents(was: map<nat, seq<byte>>, pages: map<nat, seq<byte>>, fs: seq<nat>, gs: seq<nat>)
    requires |gs| <= |fs|
  {
    && pages.Keys == was.Keys + Elems(gs) && was.Keys !! Elems(gs) && NoRepeats(gs)
    && (forall f :: f in was ==> pages[f] == was[f])
    && (forall k :: 0 <= k < |gs| ==> fs[k] in was && gs[k] in pages && pages[gs[k]] == was[fs[k]])
  }

  lemma CopiedMore(t: map<nat, Table>, po: Space, pn0: Space, u: map<nat, Table>, pn: Space, v: map<nat, Table>, pq: Space,
                   gs: seq<nat>, g: nat)
    requires Tree(t, po) && Tree(t, pn0) && Tree(u, pn) && Tree(v, pq) && |gs| < PAGES && Copied(t, po, pn0, u, pn, gs)
    requires Lookup(t, po, |gs|).Some? && Mapped(u, pn, v, pq, |gs|, 1, g, Lookup(t, po, |gs|).value.perm)
    ensures Copied(t, po, pn0, v, pq, gs + [g])
  {
    hide Tree, Lookup;
  }

  lemma CopiedSame(t: map<nat, Table>, po: Space, pn0: Space, u: map<nat, Table>, pn: Space, v: map<nat, Table>, pq: Space, gs: seq<nat>)
    requires Tree(t, po) && Tree(t, pn0) && Tree(u, pn) && Tree(v, pq) && |gs| < PAGES && Copied(t, po, pn0, u, pn, gs) && SameMap(u, pn, v, pq)
    ensures Copied(t, po, pn0, v, pq, gs) && Backed(v, pq, 0, gs)
  {
    hide Tree, Lookup;
  }

  lemma CopiedUndone(t: map<nat, Table>, po: Space, pn0: Space, u: map<nat, Table>, pn: Space, v: map<nat, Table>, gs: seq<nat>)
    requires Tree(t, po) && Tree(t, pn0) && Tree(u, pn) && Tree(v, pn) && |gs| <= PAGES && Copied(t, po, pn0, u, pn, gs)
    requires Unmapped(u, pn, v, pn, 0, |gs|) && forall m :: 0 <= m < |gs| ==> Lookup(t, pn0, m).None?
    ensures SameMap(t, pn0, v, pn)
  {
    hide Tree, Lookup;
  }

  lemma ContentsMore(was: map<nat, seq<byte>>, pages: map<nat, seq<byte>>, fs: seq<nat>, gs: seq<nat>, g: nat)
    requires |gs| < |fs| && Contents(was, pages, fs, gs) && fs[|gs|] in was && g !in pages
    ensures Contents(was, pages[g := pages[fs[|gs|]]], fs, gs + [g]) && Elems(gs + [g]) == Elems(gs) + {g}
  {
    assert Elems(gs + [g]) == Elems(gs) + {g};
  }

  lemma ContentsUndone(was: map<nat, seq<byte>>, pages: map<nat, seq<byte>>, fs: seq<nat>, gs: seq<nat>)
    requires |gs| <= |fs| && Contents(was, pages, fs, gs)
    ensures pages - Elems(gs) == was && forall k :: 0 <= k < |gs| ==> gs[k] in pages
  {
  }

  lemma UntouchedOther(t: map<nat, Table>, u: map<nat, Table>, sp: Space, po: Space)
    requires Untouched(t, u, sp) && Tree(t, po) && po.role.Keys !! sp.role.Keys
    ensures Tree(u, po) && SameMap(t, po, u, po)
  {
    Elsewhere(t, u, po);
  }

  lemma CopyStart(t: map<nat, Table>, fr: seq<nat>, po: Space, pn: Space, pages: map<nat, seq<byte>>, fs: seq<nat>)
    requires Tree(t, po) && Tree(t, pn)
    ensures SameMap(t, po, t, po) && Copied(t, po, pn, t, pn, []) && Contents(pages, pages, fs, []) && Trade(t, fr, pn, t, fr, pn, Elems([]))
  {
    hide Tree, Lookup;
    assert Elems([]) == {};
    TradeNothing(t, fr, pn);
  }

  /** The parent's page i is still there, and the child's is not yet. */
  lemma ParentPage(t: map<nat, Table>, po: Space, pn0: Space, u: map<nat, Table>, pn: Space, fs: seq<nat>, gs: seq<nat>, i: nat)
    requires Tree(t, po) && Tree(t, pn0) && Tree(u, po) && Tree(u, pn) && i == |gs| < |fs| <= PAGES
    requires SameMap(t, po, u, po) && Copied(t, po, pn0, u, pn, gs) && Backed(t, po, 0, fs) && Lookup(t, pn0, i).None?
    ensures Lookup(u, po, i).Some? && Lookup(u, po, i).value.ppn == fs[i] && Lookup(u, po, i) == Lookup(t, po, i)
    ensures Lookup(u, pn, i).None?
  {
    hide RootOk, DirsOk, LeavesOk, IndexOf;
  }

  lemma ContentsHas(was: map<nat, seq<byte>>, pages: map<nat, seq<byte>>, fs: seq<nat>, gs: seq<nat>, i: nat)
    requires i == |gs| < |fs| && Contents(was, pages, fs, gs) && fs[i] in was
    ensures fs[i] in pages && pages[fs[i]] == was[fs[i]]
  {
  }

  // ---- freewalk ----

  /** A valid entry that grants no access points to a lower table. */
  predicate Points(p: Pte) { p.v && p.perm / 2 % 8 == 0 }

  /** V is set in the word, and none of R, W and X. */
  lemma PointsBits(w: nat)
    ensures Points(EntryOf(w)) <==> HasBit(w, 0) && !HasBit(w, 1) && !HasBit(w, 2) && !HasBit(w, 3)
  {
    var p := EntryOf(w).perm;
    EntryFlag(w, 1);
    EntryFlag(w, 2);
    EntryFlag(w, 3);
    assert HasBit(p, 1) == HasBit(p / 2, 0) && HasBit(p, 2) == HasBit(p / 2, 1) && HasBit(p, 3) == HasBit(p / 2, 2);
    LowThree(p / 2);
  }

  lemma LowThree(x: nat)
    ensures x % 8 == 0 <==> !HasBit(x, 0) && !HasBit(x, 1) && !HasBit(x, 2)
  {
    assert HasBit(x, 1) == HasBit(x / 2, 0) && HasBit(x, 2) == HasBit(x / 2, 1) == HasBit(x / 2 / 2, 0);
  }

  /** Every mapping grants read, write or execute access. */
  ghost predicate Accessible(t: map<nat, Table>, sp: Space)
    requires Tree(t, sp)
  {
    forall k, j :: k in sp.leaf && 0 <= j < ENTRIES && t[sp.leaf[k]][j].v ==> !Points(t[sp.leaf[k]][j])
  }

  function Rank(r: Role): nat { if r.Root? then 2 else if r.Dir? then 1 else 0 }

  /** The place that entry x of the table at r leads to. */
  function Next(r: Role, x: nat): Role {
    if r.Root? then Dir(x) else if r.Dir? then Leaf(r.i, x) else r
  }

  /** q is below r, and by which entry of r's table. */
  predicate Under(r: Role, q: Role) { (r.Root? && !q.Root?) || (r.Dir? && q.Leaf? && q.i == r.i) }

  function Via(r: Role, q: Role): nat {
    if q.Root? then 0 else if r.Root? || q.Dir? then q.i else q.j
  }

  /** The table frames at and below r, and those below it through its first x entries. */
  ghost function Subtree(sp: Space, r: Role): set<nat> { set f | f in sp.role && (sp.role[f] == r || Under(r, sp.role[f])) }

  ghost function Passed(sp: Space, r: Role, x: nat): set<nat> {
    set f | f in sp.role && Under(r, sp.role[f]) && Via(r, sp.role[f]) < x
  }

  /** Entry j of leaf table k maps a page. */
  predicate Leads(t: map<nat, Table>, sp: Space, k: (nat, nat), j: nat)
    requires Tree(t, sp)
  {
    k in sp.leaf && j < ENTRIES && t[sp.leaf[k]][j].v
  }

  /** Some page is mapped through the tables at and below r. */
  ghost predicate LeafIn(t: map<nat, Table>, sp: Space, r: Role)
    requires Tree(t, sp)
  {
    exists k: (nat, nat), j: nat :: Leads(t, sp, k, j) && (r == Leaf(k.0, k.1) || Under(r, Leaf(k.0, k.1)))
  }

  /** None is through the first x entries of the table at r. */
  ghost predicate NoLeafBefore(t: map<nat, Table>, sp: Space, r: Role, x: nat)
    requires Tree(t, sp)
  {
    forall k: (nat, nat), j: nat :: Leads(t, sp, k, j) ==>
      !(Under(r, Leaf(k.0, k.1)) && Via(r, Leaf(k.0, k.1)) < x) && !(r == Leaf(k.0, k.1) && j < x)
  }

  /** An entry of a directory leads to the table at the next place, or there is none. */
  lemma EntryLeads(t: map<nat, Table>, sp: Space, f: nat, x: nat)
    requires Tree(t, sp) && f in sp.role && !sp.role[f].Leaf? && x < ENTRIES
    ensures var r, p := sp.role[f], t[f][x];
            if p.v then Points(p) && p.ppn in sp.role && sp.role[p.ppn] == Next(r, x)
            else Subtree(sp, Next(r, x)) == {} && !LeafIn(t, sp, Next(r, x))
  {
    hide LeavesOk;
    var r := sp.role[f];
    FrameAt(sp, f);
    if !t[f][x].v {
      forall g | g in sp.role ensures sp.role[g] != Next(r, x) && !Under(Next(r, x), sp.role[g]) {
        FrameAt(sp, g);
      }
    }
  }

  /** A frame is the one its place names. */
  lemma FrameAt(sp: Space, f: nat)
    requires Roles(sp) && f in sp.role
    ensures match sp.role[f]
            case Root => f == sp.root
            case Dir(i) => i in sp.dir && sp.dir[i] == f
            case Leaf(i, j) => (i, j) in sp.leaf && sp.leaf[(i, j)] == f
  {
  }

  lemma PassedNext(sp: Space, f: nat, x: nat)
    requires f in sp.role && !sp.role[f].Leaf?
    ensures var r := sp.role[f];
            && Passed(sp, r, x + 1) == Passed(sp, r, x) + Subtree(sp, Next(r, x))
            && Passed(sp, r, x) !! Subtree(sp, Next(r, x)) && f !in Passed(sp, r, x + 1) && Subtree(sp, Next(r, x)) <= Subtree(sp, r)
  {
  }

  lemma SubtreeIs(t: map<nat, Table>, sp: Space, f: nat)
    requires Tree(t, sp) && f in sp.role
    ensures var r := sp.role[f];
            && Subtree(sp, r) == Passed(sp, r, ENTRIES) + {f} && f !in Passed(sp, r, ENTRIES)
            && Passed(sp, r, 0) == {} && forall x :: r.Leaf? ==> Passed(sp, r, x) == {}
  {
    var r := sp.role[f];
    forall g | g in sp.role && Under(r, sp.role[g]) ensures Via(r, sp.role[g]) < ENTRIES { FrameAt(sp, g); }
    forall g | g in sp.role && sp.role[g] == r ensures g == f { FrameAt(sp, g); FrameAt(sp, f); }
  }

  lemma OnTheWay(r: Role, x: nat, k: (nat, nat))
    requires Under(r, Leaf(k.0, k.1)) && Via(r, Leaf(k.0, k.1)) == x
    ensures Next(r, x) == Leaf(k.0, k.1) || Under(Next(r, x), Leaf(k.0, k.1))
  {
  }

  lemma NoLeafNext(t: map<nat, Table>, sp: Space, f: nat, x: nat)
    requires Tree(t, sp) && f in sp.role && x < ENTRIES && NoLeafBefore(t, sp, sp.role[f], x)
    requires if sp.role[f].Leaf? then !t[f][x].v else !LeafIn(t, sp, Next(sp.role[f], x))
    ensures NoLeafBefore(t, sp, sp.role[f], x + 1)
  {
    hide RootOk, DirsOk, LeavesOk;
    FrameAt(sp, f);
    var r := sp.role[f];
    forall k: (nat, nat), j: nat | Leads(t, sp, k, j)
      ensures !(Under(r, Leaf(k.0, k.1)) && Via(r, Leaf(k.0, k.1)) < x + 1) && !(r == Leaf(k.0, k.1) && j < x + 1)
    {
      if Under(r, Leaf(k.0, k.1)) && Via(r, Leaf(k.0, k.1)) == x { OnTheWay(r, x, k); }
    }
  }

  lemma NoLeafAtAll(t: map<nat, Table>, sp: Space, r: Role)
    requires Tree(t, sp) && NoLeafBefore(t, sp, r, ENTRIES)
    ensures !LeafIn(t, sp, r)
  {
    hide RootOk, LeavesOk;
    forall k: (nat, nat), j: nat | Leads(t, sp, k, j) ensures !(r == Leaf(k.0, k.1) || Under(r, Leaf(k.0, k.1))) {
      assert k.1 < ENTRIES && k.0 in sp.dir;
      DirIsSmall(t, sp, k.0);
    }
  }

  lemma DirIsSmall(t: map<nat, Table>, sp: Space, i: nat)
    requires Tree(t, sp) && i in sp.dir
    ensures i < ENTRIES
  {
  }

  lemma LeafAbove(t: map<nat, Table>, sp: Space, r: Role, x: nat)
    requires Tree(t, sp) && !r.Leaf? && LeafIn(t, sp, Next(r, x))
    ensures LeafIn(t, sp, r)
  {
    hide RootOk, DirsOk, LeavesOk;
    var k: (nat, nat), j: nat :| Leads(t, sp, k, j) && (Next(r, x) == Leaf(k.0, k.1) || Under(Next(r, x), Leaf(k.0, k.1)));
    assert Under(r, Leaf(k.0, k.1));
  }

  lemma LeafHere(t: map<nat, Table>, sp: Space, f: nat, x: nat)
    requires Tree(t, sp) && Accessible(t, sp) && f in sp.role && x < ENTRIES && t[f][x].v && sp.role[f].Leaf?
    ensures LeafIn(t, sp, sp.role[f]) && !Points(t[f][x])
  {
    hide RootOk, DirsOk, LeavesOk;
    FrameAt(sp, f);
    assert Leads(t, sp, (sp.role[f].i, sp.role[f].j), x);
  }

  /** u is t with the tables below f's first x entries gone; the rest of f's table is as in t0. */
  ghost predicate Swept(t0: map<nat, Table>, sp: Space, f: nat, t: map<nat, Table>, u: map<nat, Table>, x: nat)
    requires Tree(t0, sp) && f in sp.role
  {
    && u.Keys == t.Keys - Passed(sp, sp.role[f], x) && f in u && |u[f]| == ENTRIES
    && (forall g :: g in u && g != f ==> u[g] == t[g])
    && (forall y :: x <= y < ENTRIES ==> u[f][y] == t0[f][y])
  }

  ghost predicate Intact(t0: map<nat, Table>, sp: Space, u: map<nat, Table>, r: Role)
    requires Tree(t0, sp)
  {
    forall g :: g in Subtree(sp, r) ==> g in u && u[g] == t0[g]
  }

  lemma SweptStart(t0: map<nat, Table>, sp: Space, f: nat, t: map<nat, Table>)
    requires Tree(t0, sp) && f in sp.role && Intact(t0, sp, t, sp.role[f])
    ensures Swept(t0, sp, f, t, t, 0) && NoLeafBefore(t0, sp, sp.role[f], 0)
  {
    hide RootOk, DirsOk, LeavesOk;
    SubtreeIs(t0, sp, f);
    assert f in Subtree(sp, sp.role[f]);
  }

  /** What lies below the next entry is untouched so far. */
  lemma SweptIntact(t0: map<nat, Table>, sp: Space, f: nat, t: map<nat, Table>, u: map<nat, Table>, x: nat)
    requires Tree(t0, sp) && f in sp.role && !sp.role[f].Leaf? && x < ENTRIES
    requires Intact(t0, sp, t, sp.role[f]) && Swept(t0, sp, f, t, u, x)
    ensures Intact(t0, sp, u, Next(sp.role[f], x))
  {
    hide RootOk, DirsOk, LeavesOk;
    PassedNext(sp, f, x);
    forall g | g in Subtree(sp, Next(sp.role[f], x)) ensures g in u && u[g] == t0[g] {
      assert g in Subtree(sp, sp.role[f]) && g !in Passed(sp, sp.role[f], x) && g != f;
    }
  }

  lemma SweptNext(t0: map<nat, Table>, sp: Space, f: nat, t: map<nat, Table>, u: map<nat, Table>, v: map<nat, Table>, x: nat)
    requires Tree(t0, sp) && f in sp.role && !sp.role[f].Leaf? && x < ENTRIES && Swept(t0, sp, f, t, u, x)
    requires v == u - Subtree(sp, Next(sp.role[f], x))
    ensures f in v && |v[f]| == ENTRIES && Swept(t0, sp, f, t, v, x + 1) && Swept(t0, sp, f, t, v[f := v[f][x := NONE]], x + 1)
  {
    hide RootOk, DirsOk, LeavesOk;
    PassedNext(sp, f, x);
    assert f !in Subtree(sp, Next(sp.role[f], x));
  }

  lemma SweptSame(t0: map<nat, Table>, sp: Space, f: nat, t: map<nat, Table>, u: map<nat, Table>, x: nat)
    requires Tree(t0, sp) && f in sp.role && sp.role[f].Leaf? && Swept(t0, sp, f, t, u, x)
    ensures Swept(t0, sp, f, t, u, x + 1) && Passed(sp, sp.role[f], x + 1) == Passed(sp, sp.role[f], x)
  {
    hide RootOk, DirsOk, LeavesOk;
    SubtreeIs(t0, sp, f);
  }

  lemma SweptAll(t0: map<nat, Table>, sp: Space, f: nat, t: map<nat, Table>, u: map<nat, Table>)
    requires Tree(t0, sp) && f in sp.role && Swept(t0, sp, f, t, u, ENTRIES)
    ensures f in u && u - {f} == t - Subtree(sp, sp.role[f])
  {
    hide RootOk, DirsOk, LeavesOk;
    SubtreeIs(t0, sp, f);
  }

  lemma PassedNone(t: map<nat, Table>, sp: Space, f: nat, free: seq<nat>)
    requires Tree(t, sp) && f in sp.role
    ensures Elems(free) == Elems(free) + Passed(sp, sp.role[f], 0)
  {
    hide Tree;
    SubtreeIs(t, sp, f);
  }

  lemma FrontElem(f: nat, free: seq<nat>)
    ensures Elems([f] + free) == Elems(free) + {f}
  {
  }

  /** What freewalk reads of its next entry. */
  lemma SweptEntry(t0: map<nat, Table>, sp: Space, f: nat, t: map<nat, Table>, u: map<nat, Table>, x: nat)
    requires Tree(t0, sp) && Accessible(t0, sp) && f in sp.role && x < ENTRIES && Swept(t0, sp, f, t, u, x)
    ensures f in u && x < |u[f]| == ENTRIES && f in t0 && |t0[f]| == ENTRIES && u[f][x] == t0[f][x]
    ensures var r, p := sp.role[f], u[f][x];
            && (Points(p) ==> p.v && !r.Leaf? && p.ppn in sp.role && sp.role[p.ppn] == Next(r, x) && Rank(Next(r, x)) < Rank(r))
            && (p.v && !Points(p) ==> r.Leaf?)
            && (!p.v && !r.Leaf? ==> Subtree(sp, Next(r, x)) == {} && !LeafIn(t0, sp, Next(r, x)))
  {
    hide RootOk, DirsOk, LeavesOk, LeafIn, Subtree, Passed;
    if sp.role[f].Leaf? {
      if t0[f][x].v { LeafHere(t0, sp, f, x); }
    } else {
      EntryLeads(t0, sp, f, x);
    }
  }

  lemma SweptSkip(t0: map<nat, Table>, sp: Space, f: nat, t: map<nat, Table>, u: map<nat, Table>, x: nat)
    requires Tree(t0, sp) && f in sp.role && x < ENTRIES && Swept(t0, sp, f, t, u, x)
    requires !sp.role[f].Leaf? ==> Subtree(sp, Next(sp.role[f], x)) == {}
    ensures Swept(t0, sp, f, t, u, x + 1) && Passed(sp, sp.role[f], x + 1) == Passed(sp, sp.role[f], x)
  {
    hide RootOk, DirsOk, LeavesOk, Subtree, Passed;
    if sp.role[f].Leaf? { SweptSame(t0, sp, f, t, u, x); } else { PassedNext(sp, f, x); }
  }

  // ---- uvmfree ----

  /** Exactly the pages below n are mapped. */
  ghost predicate Exactly(t: map<nat, Table>, sp: Space, n: nat)
    requires Tree(t, sp)
  {
    n <= PAGES && forall m: nat :: Lookup(t, sp, m).Some? <==> m < n
  }

  /** The page that entry j of leaf table k maps. */
  function PageAt(k: (nat, nat), j: nat): nat { k.0 * 0x4_0000 + k.1 * 512 + j }

  lemma PageAtIs(k: (nat, nat), j: nat)
    requires k.1 < ENTRIES && j < ENTRIES
    ensures IndexOf(PageAt(k, j)) == Index(k.0, k.1, j)
  {
    var n := PageAt(k, j);
    assert n / 512 == k.0 * 512 + k.1 && n % 512 == j;
    assert n / 0x4_0000 == n / 512 / 512;
  }

  lemma LeadsToPage(t: map<nat, Table>, sp: Space, k: (nat, nat), j: nat)
    requires Tree(t, sp) && k in sp.leaf && j < ENTRIES
    ensures k.1 < ENTRIES && Lookup(t, sp, PageAt(k, j)) == if t[sp.leaf[k]][j].v then Some(t[sp.leaf[k]][j]) else None
  {
    hide RootOk, LeavesOk, IndexOf;
    PageAtIs(k, j);
  }

  lemma MissingPage(t: map<nat, Table>, sp: Space, n: nat, done: nat)
    requires Tree(t, sp) && done < n && (done >= PAGES || Lookup(t, sp, done).None?)
    ensures !Exactly(t, sp, n)
  {
    hide RootOk, DirsOk, LeavesOk, Lookup;
  }

  lemma StillAccessible(t: map<nat, Table>, u: map<nat, Table>, sp: Space, n: nat)
    requires Tree(t, sp) && Tree(u, sp) && Accessible(t, sp) && Unmapped(t, sp, u, sp, 0, n)
    ensures Accessible(u, sp)
  {
    hide RootOk, DirsOk, LeavesOk, Lookup, Points, PageAt;
    forall k, j | k in sp.leaf && 0 <= j < ENTRIES && u[sp.leaf[k]][j].v ensures !Points(u[sp.leaf[k]][j]) {
      LeadsToPage(t, sp, k, j);
      LeadsToPage(u, sp, k, j);
    }
  }

  lemma RootIsWhole(t: map<nat, Table>, u: map<nat, Table>, sp: Space)
    requires Tree(t, sp) && Tree(u, sp) && Untouched(t, u, sp)
    ensures sp.root in sp.role && sp.role[sp.root] == Root && Subtree(sp, Root) == sp.role.Keys && Intact(u, sp, u, Root)
    ensures u - sp.role.Keys == t - sp.role.Keys
  {
    hide RootOk, DirsOk, LeavesOk;
  }

  /** After the first n pages are unmapped a page is left exactly if one from n on was mapped. */
  lemma LeftOver(t: map<nat, Table>, u: map<nat, Table>, sp: Space, n: nat)
    requires Tree(t, sp) && Tree(u, sp) && AllMapped(t, sp, 0, n) && Unmapped(t, sp, u, sp, 0, n)
    ensures LeafIn(u, sp, Root) <==> !Exactly(t, sp, n)
  {
    hide RootOk, DirsOk, LeavesOk, Lookup, PageAt;
    if LeafIn(u, sp, Root) {
      var k: (nat, nat), j: nat :| Leads(u, sp, k, j);
      LeadsToPage(u, sp, k, j);
      assert Lookup(t, sp, PageAt(k, j)).Some?;
    } else if !Exactly(t, sp, n) {
      AllMappedFits(t, sp, n);
      var m: nat :| !(Lookup(t, sp, m).Some? <==> m < n);
      assert Lookup(u, sp, m).Some?;
      LookupLeads(u, sp, m);
    }
  }

  lemma AllMappedFits(t: map<nat, Table>, sp: Space, n: nat)
    requires Tree(t, sp) && AllMapped(t, sp, 0, n)
    ensures n <= PAGES
  {
    hide RootOk, DirsOk, LeavesOk, Lookup;
    var p := Lookup(t, sp, PAGES);
    assert p.Some? || p.None?;
  }

  lemma LookupLeads(t: map<nat, Table>, sp: Space, m: nat)
    requires Tree(t, sp) && Lookup(t, sp, m).Some?
    ensures LeafIn(t, sp, Root)
  {
    hide RootOk, DirsOk, LeavesOk, IndexOf;
    assert Leads(t, sp, Key(m), IndexOf(m).i0) && Under(Root, Leaf(Key(m).0, Key(m).1));
  }

  class Memory {
    var tables: map<nat, Table>
    var pages: map<nat, seq<byte>>
    var free: seq<nat>

    ghost predicate Ok()
      reads this
    {
      && Sized(tables) && NoRepeats(free) && tables.Keys !! pages.Keys
      && (forall f :: f in free ==> f !in tables && f !in pages)
      && (forall f :: f in pages ==> |pages[f]| == PGSIZE)
    }

    /** kalloc: the first free frame, if any. */
    method Kalloc() returns (ok: bool, f: nat)
      requires Ok()
      modifies this`free
      ensures Ok() && (ok <==> old(free) != [])
      ensures !ok ==> free == old(free)
      ensures ok ==> old(free) == [f] + free && f !in free && f !in tables && f !in pages
    {
      if free == [] { return false, 0; }
      f := free[0];
      free := free[1..];
      ok := true;
    }

    /** The table holding page n's entry; with alloc, missing tables are made on the way. The
        descent reads only the tables: sp0 and sp are what it is proved against. */
    method Walk(root: nat, n: nat, alloc: bool, ghost sp0: Space) returns (found: bool, f: nat, ghost sp: Space)
      requires Ok() && Tree(tables, sp0) && sp0.root == root && n < PAGES
      modifies this`tables, this`free
      ensures Ok() && Tree(tables, sp) && sp.root == root && Merged(old(tables), old(free), sp0, tables, free, sp)
      ensures found ==> Key(n) in sp.leaf && f == sp.leaf[Key(n)]
      ensures !alloc ==> tables == old(tables) && free == old(free) && sp == sp0 && (found <==> Key(n) in sp.leaf)
      ensures alloc && !found ==> free == [] && Key(n) !in sp.leaf
      ensures Finds(tables, root, n, found, f)
    {
      hide Tree, IndexOf, Key, Digit, AtLevel, SameMap, Traded, Finds;
      sp := sp0;
      f := root;
      var level := 2;
      WalkStart(tables, free, sp, n);
      while level > 0
        invariant 0 <= level <= 2 && AtLevel(sp, n, level, f)
        invariant Ok() && Tree(tables, sp) && sp.root == root && Merged(old(tables), old(free), sp0, tables, free, sp)
        invariant !alloc ==> tables == old(tables) && free == old(free) && sp == sp0
      {
        StepDown(tables, sp, n, level, f);
        if tables[f][Digit(n, level)].v {
          f := tables[f][Digit(n, level)].ppn;
        } else {
          WalkFinds(tables, sp, n, false, 0);
          if !alloc { return false, 0, sp; }
          var ok;
          ghost var t, fr, sq := tables, free, sp;
          ok, f, sp := AddTable(n, level, f, sp);
          if !ok { return false, 0, sp; }
          MergedTwice(old(tables), old(free), sp0, t, fr, sq, tables, free, sp);
        }
        level := level - 1;
      }
      WalkEnd(sp, n, f);
      WalkFinds(tables, sp, n, true, f);
      found := true;
    }

    /** A zeroed table below f, for page n. */
    method AddTable(n: nat, level: nat, f: nat, ghost sp0: Space) returns (ok: bool, g: nat, ghost sp: Space)
      requires Ok() && Tree(tables, sp0) && n < PAGES && 1 <= level <= 2 && AtLevel(sp0, n, level, f)
      requires f in tables && |tables[f]| == ENTRIES && Digit(n, level) < ENTRIES && !tables[f][Digit(n, level)].v
      modifies this`tables, this`free
      ensures Ok() && Tree(tables, sp) && sp.root == sp0.root
      ensures !ok ==> free == [] && tables == old(tables) && free == old(free) && sp == sp0
      ensures ok ==> AtLevel(sp, n, level - 1, g) && Merged(old(tables), old(free), sp0, tables, free, sp)
    {
      hide Tree, IndexOf, Digit, AtLevel, SameMap, Traded, Below;
      ok, g := Kalloc();
      if !ok { return false, 0, sp0; }
      NewBelow(tables, sp0, n, level, f, g);
      TradedOne(tables, free, sp0, n, level, f, g);
      sp := Below(tables, sp0, n, level, f, g).1;
      tables := tables[g := Blank()];
      tables := tables[f := tables[f][Digit(n, level) := Pte(true, 0, g)]];
    }

    /** Store an entry in the leaf table f of page n. */
    method Store(f: nat, n: nat, p: Pte, ghost sp: Space)
      requires Ok() && Tree(tables, sp) && Key(n) in sp.leaf && f == sp.leaf[Key(n)] && (p.v ==> p.perm > 0)
      modifies this`tables
      ensures Ok() && tables == WithPte(old(tables), sp, n, p) && tables.Keys == old(tables).Keys
    {
      EntryTrades(tables, free, sp, n, p);
      tables := tables[f := tables[f][IndexOf(n).i0 := p]];
    }

    /** Map count pages from n to the frames from ppn. Stops, keeping what it mapped, when a table cannot
        be made, and panics on a page that is mapped already, at the end of the address space, and for no pages. */
    method MapPages(root: nat, n: nat, count: nat, ppn: nat, perm: nat, ghost sp0: Space)
      returns (ok: bool, panic: bool, ghost sp: Space, ghost done: nat)
      requires Ok() && Tree(tables, sp0) && sp0.root == root && perm > 0
      modifies this`tables, this`free
      ensures Ok() && Tree(tables, sp) && sp.root == root && Traded(old(tables), old(free), sp0, tables, free, sp)
      ensures done <= count && Mapped(old(tables), sp0, tables, sp, n, done, ppn, perm)
      ensures NoneMapped(old(tables), sp0, n, done)
      ensures ok <==> done == count > 0
      ensures panic <==> count == 0 || (done < count && (n + done >= PAGES || Lookup(old(tables), sp0, n + done).Some?))
      ensures !ok && !panic ==> free == []
    {
      hide Tree, Lookup, IndexOf, SameMap, Traded, WithPte, Mapped, NoneMapped;
      sp, done := sp0, 0;
      MappedNothing(tables, sp, n);
      MapStart(tables, free, sp, n, ppn, perm);
      if count == 0 { return false, true, sp, done; }
      var k := 0;
      while true
        invariant 0 <= k < count && done == k && Ok() && Tree(tables, sp) && sp.root == root
        invariant Traded(old(tables), old(free), sp0, tables, free, sp) && Mapped(old(tables), sp0, tables, sp, n, k, ppn, perm)
        invariant NoneMapped(old(tables), sp0, n, k)
        decreases count - k
      {
        if n + k >= PAGES { return false, true, sp, done; }
        ghost var t, fr, sq := tables, free, sp;
        var found, f;
        found, f, sp := Walk(root, n + k, true, sp);
        TradedTwice(old(tables), old(free), sp0, t, fr, sq, tables, free, sp);
        MapMerged(old(tables), sp0, t, sq, tables, sp, n, k, ppn, perm);
        if !found {
          TableMissing(old(tables), sp0, tables, sp, n, k, ppn, perm);
          return false, false, sp, done;
        }
        NotYet(old(tables), sp0, t, sq, tables, sp, n, k, ppn, perm);
        if tables[f][IndexOf(n + k).i0].v { return false, true, sp, done; }
        MappedMore(old(tables), sp0, n, k);
        EntryTrades(tables, free, sp, n + k, Pte(true, perm, ppn + k));
        ghost var u := tables;
        Store(f, n + k, Pte(true, perm, ppn + k), sp);
        MapOneMore(old(tables), sp0, t, sq, u, sp, n, k, ppn, perm, tables);
        TradedTwice(old(tables), old(free), sp0, u, free, sp, tables, free, sp);
        done := done + 1;
        if k + 1 == count { break; }
        k := k + 1;
      }
      ok, panic := true, false;
    }

    /** kfree */
    method Kfree(f: nat)
      requires Ok() && f in pages
      modifies this`pages, this`free
      ensures Ok() && pages == old(pages) - {f} && free == [f] + old(free)
    {
      pages := pages - {f};
      free := [f] + free;
    }

    /** Remove one mapping; panics if there is none. */
    method UnmapOne(root: nat, n: nat, dofree: bool, ghost sp: Space) returns (panic: bool)
      requires Ok() && Tree(tables, sp) && sp.root == root
      requires dofree && n < PAGES && Lookup(tables, sp, n).Some? ==> Lookup(tables, sp, n).value.ppn in pages
      modifies this`tables, this`free, this`pages
      ensures panic <==> n >= PAGES || Lookup(old(tables), sp, n).None?
      ensures Ok() && Untouched(old(tables), tables, sp)
      ensures panic ==> tables == old(tables)
      ensures !panic ==> Key(n) in sp.leaf && tables == WithPte(old(tables), sp, n, NONE)
      ensures panic || !dofree ==> free == old(free) && pages == old(pages)
      ensures !panic && dofree ==>
                var f := Lookup(old(tables), sp, n).value.ppn; pages == old(pages) - {f} && free == [f] + old(free)
    {
      hide Tree, Lookup, IndexOf, WithPte;
      UntouchedSelf(tables, sp);
      if n >= PAGES { return true; }
      ghost var sq;
      var found, f;
      found, f, sq := Walk(root, n, false, sp);
      if !found {
        MissingIsUnmapped(tables, sp, n);
        return true;
      }
      EntryIs(tables, sp, n);
      var pte := tables[f][IndexOf(n).i0];
      if !pte.v { return true; }
      EntryThere(tables, sp, n);
      if pte.perm == 0 { return true; }
      EntryTrades(tables, free, sp, n, NONE);
      if dofree { Kfree(pte.ppn); }
      Store(f, n, NONE, sp);
      panic := false;
    }

    /** Remove the mappings of the pages from n, freeing their frames fs if asked to; panics at the
        first page that is not mapped. */
    method Unmap(root: nat, n: nat, count: nat, dofree: bool, ghost sp: Space, ghost fs: seq<nat>) returns (panic: bool, ghost done: nat)
      requires Ok() && Tree(tables, sp) && sp.root == root
      requires |fs| == count && Framed(tables, sp, n, fs)
      requires dofree ==> NoRepeats(fs) && forall k :: 0 <= k < count && Lookup(tables, sp, n + k).Some? ==> fs[k] in pages
      modifies this`tables, this`free, this`pages
      ensures done <= count && (panic <==> done < count)
      ensures AllMapped(old(tables), sp, n, done)
      ensures panic ==> n + done >= PAGES || Lookup(old(tables), sp, n + done).None?
      ensures Ok() && Tree(tables, sp) && Unmapped(old(tables), sp, tables, sp, n, done) && Untouched(old(tables), tables, sp)
      ensures !dofree ==> free == old(free) && pages == old(pages)
      ensures dofree ==> pages == old(pages) - Elems(fs[..done]) && Elems(free) == old(Elems(free)) + Elems(fs[..done])
    {
      hide Tree, Lookup, IndexOf, WithPte, Unmapped, Framed, Elems, Untouched, AllMapped;
      MappedNothing(tables, sp, n);
      MapStart(tables, free, sp, n, 0, 0);
      ElemsStart(fs, pages, free);
      UntouchedSelf(tables, sp);
      done := 0;
      var k := 0;
      while k < count
        invariant 0 <= k <= count && done == k && Ok() && Tree(tables, sp) && Unmapped(old(tables), sp, tables, sp, n, k)
        invariant AllMapped(old(tables), sp, n, k)
        invariant Untouched(old(tables), tables, sp)
        invariant !dofree ==> free == old(free) && pages == old(pages)
        invariant dofree ==> pages == old(pages) - Elems(fs[..k]) && Elems(free) == old(Elems(free)) + Elems(fs[..k])
      {
        if n + k < PAGES {
          UnmapNext(old(tables), sp, tables, n, k, fs);
          MappedMore(old(tables), sp, n, k);
        }
        ElemsNext(fs, k, old(pages), free);
        ghost var t := tables;
        panic := UnmapOne(root, n + k, dofree, sp);
        if panic { return; }
        UnmapOneMore(old(tables), sp, t, n, k);
        UntouchedTwice(old(tables), t, tables, sp);
        k, done := k + 1, done + 1;
      }
      panic := false;
    }

    /** Copy the frame pa and map the copy at page i of the space at root. */
    method CopyOne(root: nat, i: nat, pa: nat, perm: nat, ghost sp0: Space) returns (ok: bool, g: nat, ghost sp: Space)
      requires Ok() && Tree(tables, sp0) && sp0.root == root && i < PAGES && pa in pages && perm > 0 && Lookup(tables, sp0, i).None?
      modifies this
      ensures Ok() && Tree(tables, sp) && sp.root == root && Trade(old(tables), old(free), sp0, tables, free, sp, if ok then {g} else {})
      ensures ok ==> g in old(free) && Mapped(old(tables), sp0, tables, sp, i, 1, g, perm) && pages == old(pages)[g := old(pages)[pa]]
      ensures !ok ==> SameMap(old(tables), sp0, tables, sp) && pages == old(pages)
    {
      hide Tree, Lookup, SameMap, Mapped, Traded, Trade;
      sp := sp0;
      TradeNothing(tables, free, sp);
      SameMapSelf(tables, sp);
      ok, g := Kalloc();
      if !ok { return; }
      pages := pages[g := pages[pa]];
      ghost var done;
      ghost var fr := free;
      var panic;
      ok, panic, sp, done := MapPages(root, i, 1, g, perm, sp);
      assert !panic;
      TradeOut(old(tables), fr, sp0, tables, free, sp, g);
      if !ok {
        Kfree(g);
        assert pages == old(pages);
        MappedNone(old(tables), sp0, tables, sp, i, g, perm);
      }
    }

    /** Give the child copies of the parent's first count pages, or, when memory runs out, nothing. */
    method UvmCopy(oldroot: nat, newroot: nat, count: nat, ghost po: Space, ghost pn0: Space, ghost fs: seq<nat>)
      returns (ok: bool, ghost pn: Space, ghost gs: seq<nat>)
      requires Ok() && Tree(tables, po) && Tree(tables, pn0) && po.root == oldroot && pn0.root == newroot && po.role.Keys !! pn0.role.Keys
      requires count == |fs| <= PAGES && Backed(tables, po, 0, fs) && forall k :: 0 <= k < count ==> fs[k] in pages
      requires forall m :: 0 <= m < count ==> Lookup(tables, pn0, m).None?
      modifies this
      ensures Ok() && Tree(tables, po) && SameMap(old(tables), po, tables, po) && Tree(tables, pn) && pn.root == newroot
      ensures po.role.Keys !! pn.role.Keys
      ensures ok ==> |gs| == count && Copied(old(tables), po, pn0, tables, pn, gs) && Contents(old(pages), pages, fs, gs)
      ensures ok ==> Trade(old(tables), old(free), pn0, tables, free, pn, Elems(gs))
      ensures !ok ==> SameMap(old(tables), pn0, tables, pn) && pages == old(pages)
      ensures !ok ==> Trade(old(tables), old(free), pn0, tables, free, pn, {})
    {
      hide Roles, Within, RootOk, DirsOk, LeavesOk, Lookup, SameMap, Mapped, Trade, Copied, Contents, Backed, IndexOf, NoRepeats, Elems;
      pn, gs := pn0, [];
      CopyStart(tables, free, po, pn, pages, fs);
      var i := 0;
      while i < count
        invariant 0 <= i <= count && |gs| == i && Ok() && Tree(tables, po) && Tree(tables, pn) && pn.root == newroot
        invariant SameMap(old(tables), po, tables, po) && po.role.Keys !! pn.role.Keys
        invariant Copied(old(tables), po, pn0, tables, pn, gs) && Contents(old(pages), pages, fs, gs)
        invariant Trade(old(tables), old(free), pn0, tables, free, pn, Elems(gs))
      {
        ghost var sq;
        var found, f;
        ParentPage(old(tables), po, pn0, tables, pn, fs, gs, i);
        EntryThere(tables, po, i);
        found, f, sq := Walk(oldroot, i, false, po);
        assert found && tables[f][IndexOf(i).i0].v;   // neither panic
        var pa, flags := tables[f][IndexOf(i).i0].ppn, tables[f][IndexOf(i).i0].perm;
        ContentsHas(old(pages), pages, fs, gs, i);
        ghost var t, fr, pq, pg := tables, free, pn, pages;
        var g;
        ok, g, pn := CopyOne(newroot, i, pa, flags, pn);
        OtherKept(t, fr, pq, tables, free, pn, if ok then {g} else {}, po);
        SameMapTwice(old(tables), po, t, po, tables, po);
        TradeThen(old(tables), old(free), pn0, t, fr, pq, Elems(gs), tables, free, pn, if ok then {g} else {});
        if !ok {
          CopiedSame(old(tables), po, pn0, t, pq, tables, pn, gs);
          assert Elems(gs) + {} == Elems(gs);
          UndoCopy(newroot, i, old(tables), old(free), old(pages), po, pn0, pn, fs, gs);
          return false, pn, [];
        }
        CopiedMore(old(tables), po, pn0, t, pq, tables, pn, gs, g);
        ContentsMore(old(pages), pg, fs, gs, g);
        gs := gs + [g];
        i := i + 1;
      }
      ok := true;
    }

    /** The error path: take the child's pages back out. */
    method UndoCopy(root: nat, i: nat, ghost t: map<nat, Table>, ghost fr: seq<nat>, ghost was: map<nat, seq<byte>>,
                    ghost po: Space, ghost pn0: Space, ghost pn: Space, ghost fs: seq<nat>, ghost gs: seq<nat>)
      requires Ok() && Tree(t, po) && Tree(t, pn0) && Tree(tables, po) && Tree(tables, pn) && pn.root == root && i == |gs| < |fs| <= PAGES
      requires SameMap(t, po, tables, po) && po.role.Keys !! pn.role.Keys && Copied(t, po, pn0, tables, pn, gs) && Backed(tables, pn, 0, gs)
      requires Contents(was, pages, fs, gs) && Trade(t, fr, pn0, tables, free, pn, Elems(gs))
      requires forall m :: 0 <= m < |fs| ==> Lookup(t, pn0, m).None?
      modifies this
      ensures Ok() && Tree(tables, po) && SameMap(t, po, tables, po) && Tree(tables, pn) && SameMap(t, pn0, tables, pn)
      ensures pages == was && Trade(t, fr, pn0, tables, free, pn, {})
    {
      hide Tree, Lookup, SameMap, Trade, Copied, Backed, IndexOf, Elems, Unmapped;
      ContentsUndone(was, pages, fs, gs);
      ghost var u, fq := tables, free;
      TradeNothing(u, fq, pn);
      BackedIsFramed(tables, pn, 0, gs);
      var panic;
      ghost var done;
      panic, done := Unmap(root, 0, i, true, pn, gs);
      AllUnmapped(u, pn, gs, done);
      assert !panic && gs[..done] == gs;
      CopiedUndone(t, po, pn0, u, pn, tables, gs);
      TradeBack(t, fr, pn0, u, fq, pn, Elems(gs), tables, free);
      UntouchedOther(u, tables, pn, po);
      SameMapTwice(t, po, u, po, tables, po);
    }

    /** Give back the table frame f. */
    method FreeTable(f: nat)
      requires Ok() && f in tables
      modifies this`tables, this`free
      ensures Ok() && tables == old(tables) - {f} && free == [f] + old(free)
    {
      tables := tables - {f};
      free := [f] + free;
    }

    /** freewalk: frees exactly the tables at and below f, and panics exactly if a page is still mapped
        through them. t is the tables before the outermost call, sp the place of each. */
    method FreeWalk(f: nat, ghost t: map<nat, Table>, ghost sp: Space) returns (panic: bool)
      requires Ok() && Tree(t, sp) && Accessible(t, sp) && f in sp.role && Intact(t, sp, tables, sp.role[f])
      modifies this`tables, this`free
      ensures panic <==> LeafIn(t, sp, sp.role[f])
      ensures !panic ==> Ok() && tables == old(tables) - Subtree(sp, sp.role[f])
      ensures !panic ==> Elems(free) == old(Elems(free)) + Subtree(sp, sp.role[f])
      decreases Rank(sp.role[f])
    {
      hide Tree, Accessible, Intact, Swept, NoLeafBefore, LeafIn, Subtree, Passed, Points, Elems;
      ghost var r := sp.role[f];
      SweptStart(t, sp, f, tables);
      PassedNone(t, sp, f, free);
      var i := 0;
      while i < ENTRIES
        invariant 0 <= i <= ENTRIES && Ok() && Swept(t, sp, f, old(tables), tables, i)
        invariant Elems(free) == old(Elems(free)) + Passed(sp, r, i) && NoLeafBefore(t, sp, r, i)
      {
        SweptEntry(t, sp, f, old(tables), tables, i);
        var pte := tables[f][i];
        if Points(pte) {
          SweptIntact(t, sp, f, old(tables), tables, i);
          ghost var u := tables;
          panic := FreeWalk(pte.ppn, t, sp);
          if panic {
            LeafAbove(t, sp, r, i);
            return;
          }
          SweptNext(t, sp, f, old(tables), u, tables, i);
          PassedNext(sp, f, i);
          tables := tables[f := tables[f][i := NONE]];
        } else if pte.v {
          LeafHere(t, sp, f, i);
          return true;
        } else {
          SweptSkip(t, sp, f, old(tables), tables, i);
        }
        NoLeafNext(t, sp, f, i);
        i := i + 1;
      }
      NoLeafAtAll(t, sp, r);
      SweptAll(t, sp, f, old(tables), tables);
      SubtreeIs(t, sp, f);
      FrontElem(f, free);
      FreeTable(f);
      panic := false;
    }

    /** uvmfree: every frame of the address space comes back, its pages and its tables, unless a page
        below npages is missing or one from npages on is mapped; then it panics. */
    method UvmFree(root: nat, npages: nat, ghost sp: Space, ghost fs: seq<nat>) returns (panic: bool)
      requires Ok() && Tree(tables, sp) && Accessible(tables, sp) && sp.root == root
      requires |fs| == npages && Framed(tables, sp, 0, fs)
      requires NoRepeats(fs) && forall k :: 0 <= k < npages && Lookup(tables, sp, k).Some? ==> fs[k] in pages
      modifies this`tables, this`free, this`pages
      ensures panic <==> !Exactly(old(tables), sp, npages)
      ensures !panic ==> Ok() && tables == old(tables) - sp.role.Keys && pages == old(pages) - Elems(fs)
      ensures !panic ==> Elems(free) == old(Elems(free)) + Elems(fs) + sp.role.Keys
    {
      hide Tree, Accessible, Framed, Lookup, Elems, Unmapped, Untouched, AllMapped, LeafIn, Subtree, Intact, Exactly;
      ghost var t, done := tables, 0;
      if npages > 0 {
        panic, done := Unmap(root, 0, npages, true, sp, fs);
        if panic {
          MissingPage(t, sp, npages, done);
          return;
        }
      } else {
        MapStart(tables, free, sp, 0, 0, 0);
        MappedNothing(tables, sp, 0);
        UntouchedSelf(tables, sp);
        ElemsStart(fs, pages, free);
      }
      assert fs[..done] == fs;
      ghost var u := tables;
      StillAccessible(t, u, sp, npages);
      RootIsWhole(t, u, sp);
      panic := FreeWalk(root, u, sp);
      LeftOver(t, u, sp, npages);
    }
  }
}
