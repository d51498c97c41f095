/** copyin and copyout against translating each byte by itself. */
module VmBytes {
  import opened Blocks
  import opened PageTable
  import opened VmCode
  import opened Numbers
  import opened Sv39

  type Pages = map<nat, seq<byte>>

  predicate UserBit(p: Pte) { p.perm / 16 % 2 == 1 }

  predicate WriteBit(p: Pte) { p.perm / 4 % 2 == 1 }

  /** PTE_U is bit 4 of the word in memory, and PTE_W bit 2. */
  lemma FlagBits(w: nat)
    ensures UserBit(EntryOf(w)) == HasBit(w, 4) && WriteBit(EntryOf(w)) == HasBit(w, 2)
  {
    var p := EntryOf(w).perm;
    EntryFlag(w, 4);
    EntryFlag(w, 2);
    assert HasBit(p, 2) == HasBit(p / 2, 1) == HasBit(p / 2 / 2, 0);
    assert HasBit(p, 4) == HasBit(p / 2 / 2, 2) == HasBit(p / 2 / 2 / 2, 1) == HasBit(p / 2 / 2 / 2 / 2, 0);
  }

  function PageNo(va: nat): nat { va / PGSIZE }

  function Offset(va: nat): (o: nat)
    ensures o < PGSIZE
  {
    va % PGSIZE
  }

  lemma SamePage(va: nat, j: nat)
    requires j < PGSIZE - Offset(va)
    ensures PageNo(va + j) == PageNo(va) && Offset(va + j) == Offset(va) + j
  {
  }

  /** The entry under which a user may read the byte, or write it. */
  ghost function Entry(t: map<nat, Table>, sp: Space, va: nat, write: bool): Option<Pte>
    requires Tree(t, sp)
  {
    if PageNo(va) >= PAGES then None else
    var e := Lookup(t, sp, PageNo(va));
    if e.Some? && UserBit(e.value) && (write ==> WriteBit(e.value)) then e else None
  }

  /** User pages are pages of data. */
  ghost predicate UserPages(t: map<nat, Table>, sp: Space, pages: Pages)
    requires Tree(t, sp)
  {
    && (forall n :: 0 <= n < PAGES && Lookup(t, sp, n).Some? && UserBit(Lookup(t, sp, n).value) ==> Lookup(t, sp, n).value.ppn in pages)
    && (forall f :: f in pages ==> |pages[f]| == PGSIZE)
  }

  ghost function ByteAt(t: map<nat, Table>, sp: Space, pages: Pages, va: nat): Option<byte>
    requires Tree(t, sp) && UserPages(t, sp, pages)
  {
    var e := Entry(t, sp, va, false);
    if e.None? then None else Some(pages[e.value.ppn][Offset(va)])
  }

  /** That is the byte the hardware reaches: in the frame its translation names, at the address's offset. */
  lemma ByteIsTranslated(t: map<nat, Table>, sp: Space, pages: Pages, va: nat)
    requires Tree(t, sp) && UserPages(t, sp, pages) && va < MAXVA
    ensures var e := Translate(t, sp.root, va);
            && Mask(va, 12) < PGSIZE && (e.Some? && UserBit(e.value) ==> e.value.ppn in pages && |pages[e.value.ppn]| == PGSIZE)
            && ByteAt(t, sp, pages, va) == if e.Some? && UserBit(e.value) then Some(pages[e.value.ppn][Mask(va, 12)]) else None
  {
    hide Tree, Lookup, Translate, UserBit;
    TranslateIsLookup(t, sp, va);
    Mask12(va);
  }

  /** Look up a page for the user; ok is false where the source sees a null or forbidden entry. */
  method UserPage(m: Memory, root: nat, n: nat, write: bool, ghost sp: Space) returns (ok: bool, f: nat)
    requires m.Ok() && Tree(m.tables, sp) && sp.root == root && n < PAGES
    modifies m
    ensures m.tables == old(m.tables) && m.pages == old(m.pages) && m.free == old(m.free)
    ensures var e := Lookup(m.tables, sp, n);
            if e.Some? && UserBit(e.value) && (write ==> WriteBit(e.value)) then ok && f == e.value.ppn else !ok
  {
    hide IndexOf, RootOk, DirsOk;
    var found, g;
    ghost var sq;
    found, g, sq := m.Walk(root, n, false, sp);
    if !found { return false, 0; }
    var pte := m.tables[g][IndexOf(n).i0];
    if !pte.v || !UserBit(pte) || (write && !WriteBit(pte)) { return false, 0; }
    return true, pte.ppn;
  }

  /** Copy len bytes from user address srcva. What has been copied when a page is missing is kept by
      the caller's buffer. Unlike copyout, copyin does not look for the end of the address space: there
      walk panics. */
  method CopyIn(m: Memory, root: nat, srcva: nat, len: nat, ghost sp: Space) returns (ok: bool, panic: bool, dst: seq<byte>)
    requires m.Ok() && Tree(m.tables, sp) && sp.root == root && UserPages(m.tables, sp, m.pages)
    modifies m
    ensures m.tables == old(m.tables) && m.pages == old(m.pages) && m.free == old(m.free)
    ensures |dst| <= len && (ok <==> |dst| == len)
    ensures forall k :: 0 <= k < |dst| ==> ByteAt(m.tables, sp, m.pages, srcva + k) == Some(dst[k])
    ensures !ok ==> ByteAt(m.tables, sp, m.pages, srcva + |dst|).None?
    ensures panic <==> !ok && srcva + |dst| >= PAGES * PGSIZE
  {
    hide Roles, Within, RootOk, DirsOk, LeavesOk, Lookup, PageNo, Offset, UserBit, WriteBit, UserPages, ByteAt;
    dst := [];
    while |dst| < len
      invariant |dst| <= len && m.tables == old(m.tables) && m.pages == old(m.pages) && m.free == old(m.free)
      invariant forall k :: 0 <= k < |dst| ==> ByteAt(m.tables, sp, m.pages, srcva + k) == Some(dst[k])
    {
      var va := srcva + |dst|;
      InRange(va);
      if PageNo(va) >= PAGES {
        NoByteBeyond(m.tables, sp, m.pages, va);
        return false, true, dst;
      }
      var good, f := UserPage(m, root, PageNo(va), false, sp);
      PageRead(m.tables, sp, m.pages, va, good, f);
      if !good { return false, false, dst; }
      var n := Min(PGSIZE - Offset(va), len - |dst|);
      var more := dst + m.pages[f][Offset(va)..Offset(va) + n];
      forall k | |dst| <= k < |more| ensures ByteAt(m.tables, sp, m.pages, srcva + k) == Some(more[k]) {
        ChunkRead(m.tables, sp, m.pages, va, f, k - |dst|);
        assert va + (k - |dst|) == srcva + k && more[k] == m.pages[f][Offset(va) + (k - |dst|)];
      }
      dst := more;
    }
    ok, panic := true, false;
  }

  lemma NoByteBeyond(t: map<nat, Table>, sp: Space, pages: Pages, va: nat)
    requires Tree(t, sp) && UserPages(t, sp, pages) && PageNo(va) >= PAGES
    ensures ByteAt(t, sp, pages, va).None?
  {
  }

  lemma InRange(va: nat)
    ensures va < PAGES * PGSIZE <==> PageNo(va) < PAGES
  {
  }

  lemma PageRead(t: map<nat, Table>, sp: Space, pages: Pages, va: nat, good: bool, f: nat)
    requires Tree(t, sp) && UserPages(t, sp, pages) && PageNo(va) < PAGES
    requires var e := Lookup(t, sp, PageNo(va)); if e.Some? && UserBit(e.value) then good && f == e.value.ppn else !good
    ensures if good then f in pages && |pages[f]| == PGSIZE else ByteAt(t, sp, pages, va).None?
  {
    hide Tree, Lookup, PageNo, UserBit;
  }

  lemma ChunkRead(t: map<nat, Table>, sp: Space, pages: Pages, va: nat, f: nat, j: nat)
    requires Tree(t, sp) && UserPages(t, sp, pages) && PageNo(va) < PAGES && j < PGSIZE - Offset(va)
    requires var e := Lookup(t, sp, PageNo(va)); e.Some? && UserBit(e.value) && f == e.value.ppn
    ensures f in pages && |pages[f]| == PGSIZE && ByteAt(t, sp, pages, va + j) == Some(pages[f][Offset(va) + j])
  {
    hide Tree, Lookup, PageNo, UserBit;
    SamePage(va, j);
  }

  // ---- copyout ----

  function WithByte(s: seq<byte>, o: nat, b: byte): (r: seq<byte>)
    requires o < |s|
    ensures |r| == |s|
  {
    s[o := b]
  }

  /** Store one byte through the map. */
  ghost function Poke(t: map<nat, Table>, sp: Space, pages: Pages, va: nat, b: byte): Pages
    requires Tree(t, sp)
  {
    var e := Entry(t, sp, va, true);
    if e.Some? && e.value.ppn in pages && |pages[e.value.ppn]| == PGSIZE
    then pages[e.value.ppn := WithByte(pages[e.value.ppn], Offset(va), b)] else pages
  }

  /** Store the bytes of src one after the other. */
  ghost function Poked(t: map<nat, Table>, sp: Space, pages: Pages, va: nat, src: seq<byte>): Pages
    requires Tree(t, sp)
    decreases |src|
  {
    if src == [] then pages else
    var n := |src| - 1;
    Poke(t, sp, Poked(t, sp, pages, va, src[..n]), va + n, src[n])
  }

  function Spliced(s: seq<byte>, o: nat, x: seq<byte>): (r: seq<byte>)
    requires o + |x| <= |s|
    ensures |r| == |s|
  {
    s[..o] + x + s[o + |x|..]
  }

  /** A run of bytes within one page is one splice of its frame. */
  lemma {:induction false} PokedChunk(t: map<nat, Table>, sp: Space, pages: Pages, va: nat, src: seq<byte>, i: nat, n: nat, f: nat)
    requires Tree(t, sp) && i + n <= |src| && n <= PGSIZE - Offset(va + i)
    requires Entry(t, sp, va + i, true).Some? && Entry(t, sp, va + i, true).value.ppn == f
    requires var p := Poked(t, sp, pages, va, src[..i]); f in p && |p[f]| == PGSIZE
    ensures var p := Poked(t, sp, pages, va, src[..i]); var o := Offset(va + i);
            Poked(t, sp, pages, va, src[..i + n]) == p[f := Spliced(p[f], o, src[i..i + n])]
    decreases n
  {
    hide Tree, Lookup, PageNo, Offset, UserBit, WriteBit;
    var p := Poked(t, sp, pages, va, src[..i]);
    var o := Offset(va + i);
    if n == 0 {
      assert Spliced(p[f], o, src[i..i]) == p[f];
      assert p[f := p[f]] == p;
    } else {
      PokedChunk(t, sp, pages, va, src, i, n - 1, f);
      assert src[..i + n][..i + n - 1] == src[..i + n - 1];
      SamePage(va + i, n - 1);
      SpliceOne(p[f], o, src[i..i + n - 1], src[i + n - 1]);
      assert src[i..i + n] == src[i..i + n - 1] + [src[i + n - 1]];
    }
  }

  lemma SpliceOne(s: seq<byte>, o: nat, x: seq<byte>, b: byte)
    requires o + |x| < |s|
    ensures WithByte(Spliced(s, o, x), o + |x|, b) == Spliced(s, o, x + [b])
  {
  }

  ghost predicate Writable(t: map<nat, Table>, sp: Space, lo: nat, hi: nat)
    requires Tree(t, sp)
  {
    forall a :: lo <= a < hi ==> Entry(t, sp, a, true).Some?
  }

  /** Copy src to user address dstva; what was stored when a page is missing or read-only stays stored. */
  method CopyOut(m: Memory, root: nat, dstva: nat, src: seq<byte>, ghost sp: Space) returns (ok: bool, ghost done: nat)
    requires m.Ok() && Tree(m.tables, sp) && sp.root == root && UserPages(m.tables, sp, m.pages)
    modifies m
    ensures m.tables == old(m.tables) && m.free == old(m.free) && m.Ok()
    ensures done <= |src| && (ok <==> done == |src|)
    ensures m.pages == Poked(m.tables, sp, old(m.pages), dstva, src[..done])
    ensures Writable(m.tables, sp, dstva, dstva + done)
    ensures !ok ==> Entry(m.tables, sp, dstva + done, true).None?
  {
    hide Roles, Within, RootOk, DirsOk, LeavesOk, Lookup, PageNo, Offset, UserBit, WriteBit, Poked, Entry, Spliced;
    var i := 0;
    PokedNone(m.tables, sp, m.pages, dstva, src);
    while i < |src|
      invariant i <= |src| && m.tables == old(m.tables) && m.free == old(m.free) && m.Ok() && UserPages(m.tables, sp, m.pages)
      invariant m.pages == Poked(m.tables, sp, old(m.pages), dstva, src[..i])
      invariant Writable(m.tables, sp, dstva, dstva + i)
    {
      var va := dstva + i;
      NoEntryBeyond(m.tables, sp, va);
      if PageNo(va) >= PAGES { return false, i; }
      var good, f := UserPage(m, root, PageNo(va), true, sp);
      PageWrite(m.tables, sp, m.pages, va, good, f);
      if !good { return false, i; }
      var n := Min(PGSIZE - Offset(va), |src| - i);
      PokedChunk(m.tables, sp, old(m.pages), dstva, src, i, n, f);
      forall a | va <= a < va + n ensures Entry(m.tables, sp, a, true).Some? { EntryChunk(m.tables, sp, va, a - va); }
      m.pages := m.pages[f := Spliced(m.pages[f], Offset(va), src[i..i + n])];
      i := i + n;
    }
    assert src[..i] == src[..|src|];
    return true, |src|;
  }

  lemma PokedNone(t: map<nat, Table>, sp: Space, pages: Pages, va: nat, src: seq<byte>)
    requires Tree(t, sp)
    ensures Poked(t, sp, pages, va, src[..0]) == pages
  {
  }

  lemma NoEntryBeyond(t: map<nat, Table>, sp: Space, va: nat)
    requires Tree(t, sp)
    ensures PageNo(va) >= PAGES ==> Entry(t, sp, va, true).None?
  {
  }

  lemma PageWrite(t: map<nat, Table>, sp: Space, pages: Pages, va: nat, good: bool, f: nat)
    requires Tree(t, sp) && UserPages(t, sp, pages) && PageNo(va) < PAGES
    requires var e := Lookup(t, sp, PageNo(va)); if e.Some? && UserBit(e.value) && WriteBit(e.value) then good && f == e.value.ppn else !good
    ensures good <==> Entry(t, sp, va, true).Some?
    ensures good ==> Entry(t, sp, va, true).value.ppn == f && f in pages && |pages[f]| == PGSIZE
  {
    hide Tree, Lookup, PageNo, UserBit, WriteBit;
  }

  lemma EntryChunk(t: map<nat, Table>, sp: Space, va: nat, j: nat)
    requires Tree(t, sp) && j < PGSIZE - Offset(va)
    ensures Entry(t, sp, va + j, true) == Entry(t, sp, va, true)
  {
    hide Tree, Lookup, PageNo, UserBit, WriteBit, Offset;
    SamePage(va, j);
  }

  /** No two pages of the range share a frame. */
  ghost predicate Unshared(t: map<nat, Table>, sp: Space, lo: nat, hi: nat)
    requires Tree(t, sp)
  {
    forall a, b :: lo <= a < hi && lo <= b < hi && PageNo(a) != PageNo(b) && Entry(t, sp, a, true).Some? && Entry(t, sp, b, true).Some?
      ==> Entry(t, sp, a, true).value.ppn != Entry(t, sp, b, true).value.ppn
  }

  lemma {:induction false} PokedShape(t: map<nat, Table>, sp: Space, pages: Pages, va: nat, src: seq<byte>)
    requires Tree(t, sp) && UserPages(t, sp, pages)
    ensures UserPages(t, sp, Poked(t, sp, pages, va, src)) && Poked(t, sp, pages, va, src).Keys == pages.Keys
    decreases |src|
  {
    hide Tree, Lookup, PageNo, UserBit, WriteBit, Offset;
    if src != [] { PokedShape(t, sp, pages, va, src[..|src| - 1]); }
  }

  lemma SameAddress(a: nat, b: nat)
    requires PageNo(a) == PageNo(b) && Offset(a) == Offset(b)
    ensures a == b
  {
  }

  /** What copyout stored in a range, copyin reads back from it, unless pages of the range are shared. */
  lemma {:induction false} ReadBack(t: map<nat, Table>, sp: Space, pages: Pages, va: nat, src: seq<byte>, k: nat)
    requires Tree(t, sp) && UserPages(t, sp, pages) && k < |src|
    requires Writable(t, sp, va, va + |src|) && Unshared(t, sp, va, va + |src|)
    ensures UserPages(t, sp, Poked(t, sp, pages, va, src))
    ensures ByteAt(t, sp, Poked(t, sp, pages, va, src), va + k) == Some(src[k])
    decreases |src|
  {
    hide Tree, Lookup, PageNo, Offset, UserBit, WriteBit, UserPages;
    var n := |src| - 1;
    var p := Poked(t, sp, pages, va, src[..n]);
    PokedShape(t, sp, pages, va, src[..n]);
    PokedShape(t, sp, pages, va, src);
    if k < n {
      ReadBack(t, sp, pages, va, src[..n], k);
      PokeElsewhere(t, sp, p, va + n, src[n], va + k);
    } else {
      PokeHere(t, sp, p, va + n, src[n]);
    }
  }

  lemma PokeHere(t: map<nat, Table>, sp: Space, p: Pages, a: nat, b: byte)
    requires Tree(t, sp) && UserPages(t, sp, p) && Entry(t, sp, a, true).Some? && UserPages(t, sp, Poke(t, sp, p, a, b))
    ensures ByteAt(t, sp, Poke(t, sp, p, a, b), a) == Some(b)
  {
    hide Tree, Lookup, PageNo, Offset, UserBit, WriteBit;
  }

  lemma PokeElsewhere(t: map<nat, Table>, sp: Space, p: Pages, a: nat, b: byte, c: nat)
    requires Tree(t, sp) && UserPages(t, sp, p) && a != c && Entry(t, sp, a, true).Some? && Entry(t, sp, c, true).Some?
    requires PageNo(a) != PageNo(c) ==> Entry(t, sp, a, true).value.ppn != Entry(t, sp, c, true).value.ppn
    requires UserPages(t, sp, Poke(t, sp, p, a, b))
    ensures ByteAt(t, sp, Poke(t, sp, p, a, b), c) == ByteAt(t, sp, p, c)
  {
    hide Tree, Lookup, PageNo, Offset, UserBit, WriteBit;
    if PageNo(a) == PageNo(c) && Offset(a) == Offset(c) { SameAddress(a, c); }
  }
}
