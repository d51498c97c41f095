/** fs.c's block and inode-content layer, updating the cached blocks and the
    inodes in place. `logged` collects the blocks passed to log_write since
    begin_op. User memory is given by its readable or writable prefix: a copy
    that runs past it fails, after moving the bytes before the fault. */
module FsCode {
  import opened Blocks
  import opened FsState
  import opened InodeBlocks
  import opened Numbers

  function IndirectSet(ino: Inode): set<nat> {
    if ino.addrs[NDIRECT] == 0 then {} else {ino.addrs[NDIRECT]}
  }

  /** The bytes of the chunk that starts at file offset pos with n bytes to go. */
  function Chunk(pos: nat, n: nat): (m: nat)
    ensures m <= n && (n > 0 ==> m > 0)
  {
    Min(n, BSIZE - pos % BSIZE)
  }

  /** off + n < off, in 32-bit arithmetic */
  predicate Wraps(off: nat, n: nat): (b: bool)
    requires off < UINT && n < UINT
    ensures b == (off + n >= UINT)
  {
    (off + n) % UINT < off
  }

  /** File blocks touched by n bytes at off, and the log entries they can cost:
      each block's data and free-map block, but for an unaligned first block no
      free-map block, then the indirect block with its free-map block, and the inode. */
  predicate Unaligned(off: nat) { off % BSIZE != 0 }
  function Touched(off: nat, n: nat): nat { (off % BSIZE + n + BSIZE - 1) / BSIZE }
  function LogCost(off: nat, n: nat): nat {
    2 * Touched(off, n) + 3 - (if Unaligned(off) && n > 0 then 1 else 0)
  }

  /** What a transaction has logged, l, over what it started with, l0: the data
      blocks d of k rounds, free-map blocks b for f allocations, the indirect block. */
  ghost predicate Spent(l0: set<nat>, l: set<nat>, k: nat, f: nat, d: set<nat>, b: set<nat>, ino0: Inode, ino: Inode) {
    && l <= l0 + d + b + IndirectSet(ino) && |d| <= k
    && |b| <= f + (if ino0.addrs[NDIRECT] == 0 && ino.addrs[NDIRECT] != 0 then 1 else 0)
    && (ino0.addrs[NDIRECT] != 0 ==> ino.addrs[NDIRECT] == ino0.addrs[NDIRECT])
  }

  lemma SpendRound(l0: set<nat>, l: set<nat>, k: nat, f: nat, d: set<nat>, b: set<nat>, ino0: Inode, ino: Inode,
                   l': set<nat>, ino': Inode, addr: nat, bits: set<nat>, x: nat)
    requires Spent(l0, l, k, f, d, b, ino0, ino)
    requires l' <= l + bits + {addr} + IndirectSet(ino')
    requires |bits| <= x + (if ino.addrs[NDIRECT] == 0 && ino'.addrs[NDIRECT] != 0 then 1 else 0)
    requires ino.addrs[NDIRECT] != 0 ==> ino'.addrs[NDIRECT] == ino.addrs[NDIRECT]
    ensures Spent(l0, l', k + 1, f + x, d + {addr}, b + bits, ino0, ino')
  {
    UnionSize(d, {addr});
    UnionSize(b, bits);
  }

  lemma SpentNothing(l: set<nat>, ino: Inode)
    ensures Spent(l, l, 0, 0, {}, {}, ino, ino)
  {
  }

  lemma IndirectSetIs(ino: Inode)
    ensures ino.addrs[NDIRECT] != 0 ==> IndirectSet(ino) == {ino.addrs[NDIRECT]}
  {
  }

  lemma MoreLogged(l0: set<nat>, l1: set<nat>, l2: set<nat>, first: set<nat>, more: set<nat>, addr: nat, ind: nat)
    requires l1 <= l0 + first + {ind} && l2 <= l1 + more + {addr, ind}
    ensures l2 <= l0 + (first + more) + {addr} + {ind}
  {
  }

  lemma SpentTotal(l0: set<nat>, l: set<nat>, k: nat, f: nat, d: set<nat>, b: set<nat>, ino0: Inode, ino: Inode, iblock: nat)
    requires Spent(l0, l, k, f, d, b, ino0, ino)
    ensures |l| <= |l0| + k + f + 2 && |l + {iblock}| <= |l0| + k + f + 3
  {
    UnionSize(l0, d);
    UnionSize(l0 + d, b);
    UnionSize(l0 + d + b, IndirectSet(ino));
    SubsetSize(l, l0 + d + b + IndirectSet(ino));
    UnionSize(l0 + d + b + IndirectSet(ino), {iblock});
    SubsetSize(l + {iblock}, l0 + d + b + IndirectSet(ino) + {iblock});
  }

  /** Rounds of writei's loop: all but the last end at a block boundary. */
  ghost predicate Rounds(off: nat, tot: nat, n: nat, k: nat) {
    if k == 0 then tot == 0
    else (k - 1) * BSIZE < off % BSIZE + tot <= k * BSIZE && (tot < n ==> off % BSIZE + tot == k * BSIZE)
  }

  lemma NextRound(off: nat, tot: nat, n: nat, k: nat)
    requires Rounds(off, tot, n, k) && tot < n
    ensures Rounds(off, tot + Chunk(off + tot, n - tot), n, k + 1)
    ensures k + 1 <= Touched(off, n)
  {
    var x := off % BSIZE;
    var q := off / BSIZE;
    assert off == q * BSIZE + x;
    if k > 0 {
      assert off + tot == (q + k) * BSIZE;
      assert (off + tot) % BSIZE == 0;
      assert k * BSIZE < x + n;
    }
    TouchedAtLeast(x + n, k);
  }

  lemma TouchedAtLeast(y: nat, k: nat)
    requires k * BSIZE < y
    ensures k + 1 <= (y + BSIZE - 1) / BSIZE
  {
  }

  lemma CostBound(off: nat, n: nat, k: nat, f: nat)
    requires k <= Touched(off, n) && f <= k && (Unaligned(off) && n > 0 ==> f < k)
    ensures k + f + 3 <= LogCost(off, n)
  {
    hide Touched, Unaligned;
  }

  const FILEWRITE_MAX: nat := 3072    // ((MAXOPBLOCKS-1-1-2) / 2) * BSIZE

  /** A transaction logs at most MAXOPBLOCKS blocks, and has logged fewer before the inode's, its last. */
  predicate InBudget(logged: set<nat>, iblock: nat) {
    |logged| <= MAXOPBLOCKS && |logged - {iblock}| < MAXOPBLOCKS
  }

  /** A chunk of filewrite fits one transaction, aligned or not. */
  lemma FilewriteFits(off: nat, n: nat)
    requires 0 < n <= FILEWRITE_MAX
    ensures LogCost(off, n) <= MAXOPBLOCKS
  {
    var x := off % BSIZE;
    assert x + n + BSIZE - 1 < 5 * BSIZE;
    assert Touched(off, n) <= 4;
    if x == 0 { assert Touched(off, n) <= 3; }
  }

  /** The log has grown by blocks of the file system proper: inodes, free map or data. */
  ghost predicate LogsMore(sb: Super, l: set<nat>, l': set<nat>) {
    l <= l' && forall c :: c in l' && c !in l ==> sb.inodestart <= c < sb.size
  }

  lemma LogsMoreTwice(sb: Super, l: set<nat>, l': set<nat>, l'': set<nat>)
    requires LogsMore(sb, l, l') && LogsMore(sb, l', l'')
    ensures LogsMore(sb, l, l'') && l <= l' <= l''
  {
  }

  lemma LogsNothing(sb: Super, l: set<nat>)
    ensures LogsMore(sb, l, l)
  {
  }

  /** Every block that differs between the two states has been logged, torn apart, and none below lo differs. */
  ghost predicate OnlyLogged(lo: nat, before: seq<Block>, after: seq<Block>, logged: set<nat>, torn: set<nat>) {
    |before| == |after| && forall c :: 0 <= c < |before| && (c < lo || (c !in logged && c !in torn)) ==> after[c] == before[c]
  }

  lemma OnlyLoggedNothing(lo: nat, a: seq<Block>, l: set<nat>)
    ensures OnlyLogged(lo, a, a, l, {})
  {
  }

  lemma OnlyLoggedTorn(lo: nat, a: seq<Block>, b: seq<Block>, l: set<nat>, torn: set<nat>, torn': set<nat>)
    requires OnlyLogged(lo, a, b, l, torn) && torn <= torn' + l
    ensures OnlyLogged(lo, a, b, l, torn')
  {
  }

  lemma OnlyLoggedPut(lo: nat, a: seq<Block>, b: seq<Block>, l: set<nat>, c: nat, blk: Block)
    requires OnlyLogged(lo, a, b, l, {}) && lo <= c < |b|
    ensures OnlyLogged(lo, a, b[c := blk], l + {c}, {})
  {
  }

  lemma OnlyLoggedLength(lo: nat, a: seq<Block>, b: seq<Block>, l: set<nat>, torn: set<nat>)
    requires OnlyLogged(lo, a, b, l, torn)
    ensures |a| == |b|
  {
  }

  lemma OnlyLoggedTransitive(lo: nat, a: seq<Block>, b: seq<Block>, c: seq<Block>, l: set<nat>, l': set<nat>, torn: set<nat>)
    requires OnlyLogged(lo, a, b, l, {}) && OnlyLogged(lo, b, c, l', torn) && l <= l'
    ensures OnlyLogged(lo, a, c, l', torn)
  {
  }

  /** Only free-map blocks differ and are logged, and every one that differs is logged. */
  ghost predicate MapLogged(sb: Super, before: seq<Block>, after: seq<Block>, l: set<nat>, l': set<nat>) {
    && OnlyLogged(sb.bmapstart, before, after, l', {})
    && l <= l' && forall c :: c in l' && c !in l ==> sb.bmapstart <= c < sb.datastart
  }

  lemma MapLoggedTwice(sb: Super, a: seq<Block>, b: seq<Block>, c: seq<Block>, l: set<nat>, l': set<nat>, l'': set<nat>)
    requires MapLogged(sb, a, b, l, l') && MapLogged(sb, b, c, l', l'')
    ensures MapLogged(sb, a, c, l, l'')
  {
  }

  lemma MapLoggedNothing(sb: Super, a: seq<Block>, l: set<nat>)
    ensures MapLogged(sb, a, a, l, l)
  {
  }

  /** iupdate after it adds the inode's block. */
  lemma MapLoggedThenInode(sb: Super, a: seq<Block>, b: seq<Block>, c: seq<Block>, l: set<nat>, l': set<nat>, iblock: nat)
    requires MapLogged(sb, a, b, l, l') && |c| == |b| && forall x :: 0 <= x < |b| && x != iblock ==> c[x] == b[x]
    ensures OnlyLogged(0, a, c, l' + {iblock}, {})
    ensures l <= l' + {iblock} && forall x :: x in l' + {iblock} && x !in l ==> x == iblock || sb.bmapstart <= x < sb.datastart
  {
  }

  ghost predicate SameElsewhere(before: seq<Block>, after: seq<Block>, a: nat) {
    |before| == |after| && forall c :: 0 <= c < |before| && c != a ==> after[c] == before[c]
  }

  lemma ElsewhereSame(blocks: seq<Block>, a: nat)
    ensures SameElsewhere(blocks, blocks, a)
  {
  }

  lemma OnlyLoggedAt(lo: nat, before: seq<Block>, after: seq<Block>, a: nat, l: set<nat>, torn: set<nat>)
    requires SameElsewhere(before, after, a) && lo <= a && (a in l + torn || before == after)
    ensures OnlyLogged(lo, before, after, l, torn)
  {
  }

  /** The later state without what was done to the torn blocks: what the device gets. */
  ghost function Reverted(before: seq<Block>, after: seq<Block>, torn: set<nat>): (r: seq<Block>)
    requires |before| == |after|
    ensures |r| == |after| && forall c :: 0 <= c < |r| ==> r[c] == if c in torn then before[c] else after[c]
  {
    seq(|after|, c requires 0 <= c < |after| => if c in torn then before[c] else after[c])
  }

  lemma RevertedNothing(before: seq<Block>, after: seq<Block>)
    requires |before| == |after|
    ensures Reverted(before, after, {}) == after
  {
  }

  lemma RevertedOne(before: seq<Block>, after: seq<Block>, a: nat)
    requires SameElsewhere(before, after, a)
    ensures Reverted(before, after, {a}) == before
  {
  }

  lemma RevertedRound(lo: nat, a: seq<Block>, b: seq<Block>, c: seq<Block>, l: set<nat>, torn: set<nat>)
    requires OnlyLogged(lo, a, b, l, {}) && torn !! l && |c| == |b| && Reverted(b, c, torn) == b
    ensures Reverted(a, c, torn) == b
  {
    forall x | 0 <= x < |b| ensures Reverted(a, c, torn)[x] == b[x] {
      assert Reverted(b, c, torn)[x] == b[x];
    }
  }

  /** The block behind file block bn, 0 if there is none. */
  ghost function FileBlock(fs: Fs, i: nat, bn: nat): nat
    requires Sound(fs) && i < |fs.inodes| && bn < MAXFILE
  {
    Slot(fs.blocks, fs.inodes[i], DataSlot(bn))
  }

  /** t is fs with the file blocks before bn written: of what was logged for them, d are data blocks
      of theirs and b free-map blocks, and no file block from bn on has changed. */
  ghost predicate Tracked(fs: Fs, t: Fs, i: nat, bn: nat, d: set<nat>, b: set<nat>) {
    && Sound(fs) && Sound(t) && i < |fs.inodes| == |t.inodes|
    && (forall x :: x in b ==> x < t.sb.datastart)
    && (forall x :: x in d ==> x == 0 || (x in t.owner && t.owner[x].1 != NDIRECT && t.owner[x].1 < DataSlot(bn)))
    && (forall c :: bn <= c < MAXFILE ==> FileBlock(t, i, c) == FileBlock(fs, i, c))
  }

  lemma TrackedNothing(fs: Fs, i: nat, bn: nat)
    requires Sound(fs) && i < |fs.inodes|
    ensures Tracked(fs, fs, i, bn, {}, {})
  {
  }

  lemma TrackRound(fs: Fs, t: Fs, u: Fs, i: nat, bn: nat, d: set<nat>, b: set<nat>, addr: nat, bits: set<nat>)
    requires Tracked(fs, t, i, bn, d, b) && Sound(u) && bn < MAXFILE && u.sb == t.sb && |u.inodes| == |t.inodes|
    requires SlotsBut(t, u, i, {DataSlot(bn), NDIRECT}) && forall x :: x in bits ==> x < u.sb.datastart
    requires forall x :: x in t.owner ==> x in u.owner && u.owner[x] == t.owner[x]
    requires addr == FileBlock(u, i, bn)
    ensures Tracked(fs, u, i, bn + 1, d + {addr}, b + bits)
  {
    hide Slot, InBounds, Mapped, SlotsBut;
    if addr != 0 { BlockOfSlot(u, i, bn); }
    forall c | bn + 1 <= c < MAXFILE ensures FileBlock(u, i, c) == FileBlock(fs, i, c) {
      SlotKept(t, u, i, {DataSlot(bn), NDIRECT}, DataSlot(c));
      assert FileBlock(t, i, c) == FileBlock(fs, i, c);
    }
  }

  /** The block of the next file block has not been logged on the way to it. */
  lemma NotLoggedYet(fs: Fs, t: Fs, i: nat, bn: nat, l0: set<nat>, l: set<nat>, d: set<nat>, b: set<nat>)
    requires Tracked(fs, t, i, bn, d, b) && bn < MAXFILE && FileBlock(t, i, bn) != 0
    requires l0 <= l <= l0 + d + b + IndirectSet(t.inodes[i])
    ensures FileBlock(t, i, bn) in l <==> FileBlock(t, i, bn) in l0
  {
    hide Mapped;
    BlockOfSlot(t, i, bn);
    if t.inodes[i].addrs[NDIRECT] == FileBlock(t, i, bn) { SingleOwner(t, i, NDIRECT, i, DataSlot(bn)); }
  }

  /** How much of len readable bytes at off is in chunks that are readable whole: writei stops there. */
  function Reach(off: nat, len: nat): nat {
    if off % BSIZE + len < BSIZE then 0 else len - (off + len) % BSIZE
  }

  lemma RoundReach(off: nat, tot: nat, n: nat, k: nat, len: nat)
    requires Rounds(off, tot, n, k) && tot < n && tot <= len < tot + Chunk(off + tot, n - tot)
    ensures tot == Reach(off, len) && len < n
  {
    var x, q := off % BSIZE, off / BSIZE;
    assert off == q * BSIZE + x;
    if k > 0 {
      assert off + tot == (q + k) * BSIZE;
      assert off + len == (q + k) * BSIZE + (len - tot);
    }
  }

  lemma RoundBlock(off: nat, tot: nat, n: nat, k: nat)
    requires Rounds(off, tot, n, k) && tot < n
    ensures (off + tot) / BSIZE == off / BSIZE + k
  {
    var x, q := off % BSIZE, off / BSIZE;
    assert off == q * BSIZE + x;
    if k > 0 { assert off + tot == (q + k) * BSIZE; }
  }

  /** The block that holds offset pos of the file, 0 if there is none. */
  ghost function BlockAt(fs: Fs, i: nat, pos: nat): nat
    requires Sound(fs) && i < |fs.inodes|
  {
    if pos / BSIZE < MAXFILE then FileBlock(fs, i, pos / BSIZE) else 0
  }

  /** An unaligned position at or below the end of a file is in a block the file has. */
  lemma UnalignedIsMapped(fs: Fs, i: nat, off: nat)
    requires Valid(fs) && i < |fs.inodes| && off <= fs.inodes[i].size && Unaligned(off)
    ensures off < MAXBYTES && BlockAt(fs, i, off) != 0
  {
    assert NoHole(fs, i);
    assert off / BSIZE * BSIZE < off < MAXBYTES;
    BlockIndex(off);
  }

  /** The block that writei leaves changed and not logged, having returned r with len readable bytes
      at off: the file block it stopped in, if it was there before the call, was not logged before
      the call either, and some of the bytes fell into it. */
  ghost function TornBlock(fs: Fs, i: nat, off: nat, r: int, len: nat, logged: set<nat>): set<nat>
    requires Sound(fs) && i < |fs.inodes|
  {
    if 0 <= r < len && BlockAt(fs, i, off + r) != 0 && BlockAt(fs, i, off + r) !in logged
    then {BlockAt(fs, i, off + r)} else {}
  }

  /** The rounds before it have neither changed nor logged a file's next block. */
  lemma NextIsUntouched(fs: Fs, t: Fs, i: nat, pos: nat, l0: set<nat>, l: set<nat>, k: nat, f: nat, d: set<nat>, b: set<nat>)
    requires pos < MAXBYTES && Tracked(fs, t, i, pos / BSIZE, d, b) && l0 <= l
    requires Spent(l0, l, k, f, d, b, fs.inodes[i], t.inodes[i])
    ensures BlockAt(t, i, pos) == BlockAt(fs, i, pos)
    ensures BlockAt(fs, i, pos) != 0 ==> (BlockAt(fs, i, pos) in l <==> BlockAt(fs, i, pos) in l0)
  {
    hide FileBlock;
    BlockIndex(pos);
    if BlockAt(fs, i, pos) != 0 { NotLoggedYet(fs, t, i, pos / BSIZE, l0, l, d, b); }
  }

  /** What a round that stops leaves torn: was is the block that was there before the call, l what
      was logged before the round and l' after it. */
  lemma RoundTorn(fs: Fs, i: nat, off: nat, tot: nat, len: nat, w: nat, l0: set<nat>, l: set<nat>, l': set<nat>, addr: nat, torn: set<nat>)
    requires Sound(fs) && i < |fs.inodes| && tot <= w <= len
    requires var was := BlockAt(fs, i, off + tot);
             if was == 0 then tot < w ==> addr in l' else addr == was && l' == l && w == len && (was in l <==> was in l0)
    requires torn == if tot < w && addr !in l' then {addr} else {}
    ensures torn == TornBlock(fs, i, off, tot, len, l0)
  {
    hide BlockAt;
  }

  /** It is a data block, and no inode's block. */
  lemma BlockAtIsData(fs: Fs, i: nat, pos: nat, j: nat)
    requires Sound(fs) && i < |fs.inodes| && j < |fs.inodes| && BlockAt(fs, i, pos) != 0
    ensures IBlock(fs.sb, j) < fs.sb.datastart <= BlockAt(fs, i, pos)
  {
    hide Slot, Mapped;
    BlockOfSlot(fs, i, pos / BSIZE);
    assert j / IPB < (fs.sb.ninodes + IPB - 1) / IPB;
  }

  /** t is a valid file system: fs with data written into file i at off, and nothing else. */
  ghost predicate Committed(fs: Fs, t: Fs, i: nat, off: nat, data: seq<byte>)
    requires Valid(fs) && i < |fs.inodes|
  {
    && Valid(t) && t.sb == fs.sb && |t.inodes| == |fs.inodes| && off <= fs.inodes[i].size
    && t.inodes[i].size == Max(fs.inodes[i].size, off + |data|)
    && Content(t, i) == Splice(Content(fs, i), off, data, t.inodes[i].size)
    && forall j :: 0 <= j < |fs.inodes| && j != i ==> t.inodes[j] == fs.inodes[j] && Content(t, j) == Content(fs, j)
  }

  /** The end of writei: the size is set, and the blocks below the free map may change with the inode. */
  lemma Settled(fs: Fs, t: Fs, i: nat, off: nat, data: seq<byte>, size: nat, blocks: seq<Block>)
    requires Valid(fs) && i < |fs.inodes| && Wrote(fs, t, i, off, data, size) && |blocks| == |t.blocks|
    requires off <= fs.inodes[i].size <= size && (size == fs.inodes[i].size || size <= off + |data|)
    requires forall c :: t.sb.bmapstart <= c < |t.blocks| ==> blocks[c] == t.blocks[c]
    ensures var u := WithBlocks(WithSize(t, i, size), blocks);
            && Valid(u) && u.sb == fs.sb && |u.inodes| == |fs.inodes|
            && Content(u, i) == Splice(Content(fs, i), off, data, size)
            && (forall j :: 0 <= j < |fs.inodes| && j != i ==> u.inodes[j] == fs.inodes[j] && Content(u, j) == Content(fs, j))
            && forall c :: 0 <= c < t.sb.size ==> InUse(u, c) == InUse(t, c)
  {
    hide Slot, Word, InUse, Owned, Mapped, NoHole, Wrote, ByteAt, Content, Splice;
    WroteSound(fs, t, i, off, data, size);
    WroteDone(fs, t, i, off, data, size);
    WithSizeKeeps(t, i, size);
    SameFiles(WithSize(t, i, size), blocks);
  }

  /** A position without a block is at or past the end of the file. */
  lemma BelowSizeIsMapped(fs: Fs, i: nat, pos: nat)
    requires Valid(fs) && i < |fs.inodes| && pos < fs.inodes[i].size
    ensures BlockAt(fs, i, pos) != 0
  {
    hide Slot, Owned, Mapped;
    assert NoHole(fs, i);
    BlockIndex(pos);
  }

  lemma SpliceCut(c: seq<byte>, off: nat, data: seq<byte>, k: nat)
    requires off <= |c| <= off + k && k <= |data|
    ensures Splice(c, off, data, off + k) == Splice(c, off, data[..k], off + k)
  {
  }

  /** iupdate logs what it changes, which is not the torn block. */
  lemma StoredLast(fs: Fs, wrote: Fs, i: nat, size: nat, logged: set<nat>, torn: set<nat>)
    requires Valid(fs) && Sound(wrote) && wrote.sb == fs.sb && i < |fs.inodes| == |wrote.inodes|
    requires OnlyLogged(fs.sb.bmapstart, fs.blocks, wrote.blocks, logged, torn) && torn !! logged
    requires forall c :: c in torn ==> fs.sb.datastart <= c
    requires InBounds(WithSize(wrote, i, size)) && Storable(WithSize(wrote, i, size).inodes[i])
    ensures var blocks, ib := Iupdated(WithSize(wrote, i, size), i), IBlock(fs.sb, i);
            && OnlyLogged(0, fs.blocks, blocks, logged + {ib}, torn) && torn !! logged + {ib}
            && Dinodes(fs.sb, blocks) == Dinodes(fs.sb, fs.blocks)[i := WithSize(wrote, i, size).inodes[i]]
            && (forall c :: fs.sb.bmapstart <= c < |blocks| ==> blocks[c] == wrote.blocks[c])
  {
    hide Slot, Owned, Mapped, Iupdated, Dinode, Storable;
    IupdatedDinodes(WithSize(wrote, i, size), i);
    SameDinodes(fs.sb, fs.blocks, wrote.blocks);
  }

  /** What a transaction of its own makes durable of a call of writei is exactly what the call reports. */
  lemma CommitsReported(fs: Fs, wrote: Fs, safe: Fs, i: nat, off: nat, n: nat, tot: nat, w: nat, src: seq<byte>, torn: set<nat>, blocks: seq<Block>)
    requires Valid(fs) && i < |fs.inodes| && off <= fs.inodes[i].size && tot <= w <= |src| <= n && (tot == n ==> w == n)
    requires |fs.blocks| == |wrote.blocks| == |blocks| && safe == WithBlocks(wrote, Reverted(fs.blocks, wrote.blocks, torn))
    requires i < |wrote.inodes| && wrote.sb == fs.sb
    requires torn == if tot < n then TornBlock(fs, i, off, tot, |src|, {}) else {}
    requires Wrote(fs, safe, i, off, if torn == {} then src[..w] else src[..tot], Max(fs.inodes[i].size, off + tot))
    requires forall c :: fs.sb.bmapstart <= c < |blocks| ==> blocks[c] == wrote.blocks[c]
    ensures Committed(fs, WithBlocks(WithSize(wrote, i, Max(fs.inodes[i].size, off + tot)), Reverted(fs.blocks, blocks, torn)), i, off, src[..tot])
  {
    hide Slot, Word, InUse, Owned, Mapped, NoHole, Wrote, ByteAt, Content, Splice, Valid, BlockAt;
    var size, image := Max(fs.inodes[i].size, off + tot), Reverted(fs.blocks, blocks, torn);
    Settled(fs, safe, i, off, if torn == {} then src[..w] else src[..tot], size, image);
    if torn == {} && tot < w {
      if off + tot < fs.inodes[i].size { BelowSizeIsMapped(fs, i, off + tot); }
      SpliceCut(Content(fs, i), off, src[..w], tot);
      assert src[..w][..tot] == src[..tot];
    }
  }

  /** The account of a run of writei's loop: rounds, data blocks allocated, data and free-map blocks logged. */
  datatype Account = Account(k: nat, f: nat, d: set<nat>, b: set<nat>)

  ghost predicate Accounts(fs: Fs, t: Fs, i: nat, off: nat, n: nat, tot: nat, l0: set<nat>, l: set<nat>, a: Account) {
    && i < |fs.inodes| == |t.inodes| && LogsMore(fs.sb, l0, l)
    && Rounds(off, tot, n, a.k) && a.k <= Touched(off, n) && a.f <= a.k && (Unaligned(off) && a.k > 0 ==> a.f < a.k)
    && (a.k == 0 ==> tot == 0 && t == fs)
    && Spent(l0, l, a.k, a.f, a.d, a.b, fs.inodes[i], t.inodes[i])
    && Tracked(fs, t, i, off / BSIZE + a.k, a.d, a.b)
    && OnlyLogged(fs.sb.bmapstart, fs.blocks, t.blocks, l, {})
  }

  /** The transaction stays within writei's cost, with the inode's block too. */
  ghost predicate Cheap(l0: set<nat>, l: set<nat>, iblock: nat, off: nat, n: nat) {
    |l| < |l0| + LogCost(off, n) && |l + {iblock}| <= |l0| + LogCost(off, n)
  }

  lemma AccountsStart(fs: Fs, i: nat, off: nat, n: nat, l: set<nat>, iblock: nat)
    requires Sound(fs) && i < |fs.inodes|
    ensures Accounts(fs, fs, i, off, n, 0, l, l, Account(0, 0, {}, {})) && Cheap(l, l, iblock, off, n)
    ensures OnlyLogged(fs.sb.bmapstart, fs.blocks, fs.blocks, l, {})
  {
    hide Spent, Tracked, OnlyLogged, Unaligned;
    SpentNothing(l, fs.inodes[i]);
    TrackedNothing(fs, i, off / BSIZE);
    OnlyLoggedNothing(fs.sb.bmapstart, fs.blocks, l);
    if n > 0 { TouchedAtLeast(off % BSIZE + n, 0); }
  }

  lemma LoopCost(l0: set<nat>, l: set<nat>, a: Account, ino0: Inode, ino: Inode, iblock: nat, off: nat, n: nat)
    requires Spent(l0, l, a.k, a.f, a.d, a.b, ino0, ino)
    requires a.k <= Touched(off, n) && a.f <= a.k && (Unaligned(off) && n > 0 ==> a.f < a.k)
    ensures Cheap(l0, l, iblock, off, n)
  {
    hide Spent, Touched, Unaligned, LogCost;
    SpentTotal(l0, l, a.k, a.f, a.d, a.b, ino0, ino, iblock);
    CostBound(off, n, a.k, a.f);
  }

  lemma NextOfAccount(fs: Fs, t: Fs, i: nat, off: nat, n: nat, tot: nat, l0: set<nat>, l: set<nat>, a: Account)
    requires Sound(fs) && Sound(t) && Accounts(fs, t, i, off, n, tot, l0, l, a) && tot < n && off + n <= MAXBYTES
    ensures Rounds(off, tot, n, a.k) && OnlyLogged(fs.sb.bmapstart, fs.blocks, t.blocks, l, {}) && LogsMore(fs.sb, l0, l)
    ensures BlockAt(t, i, off + tot) == BlockAt(fs, i, off + tot)
    ensures BlockAt(fs, i, off + tot) != 0 ==> (BlockAt(fs, i, off + tot) in l <==> BlockAt(fs, i, off + tot) in l0)
  {
    hide Spent, Tracked, BlockAt, OnlyLogged, Rounds;
    RoundBlock(off, tot, n, a.k);
    NextIsUntouched(fs, t, i, off + tot, l0, l, a.k, a.f, a.d, a.b);
  }

  /** A round has logged the data block addr, free-map blocks bits and perhaps the indirect block, and
      changed no slot but those it went through. */
  ghost predicate RoundLogs(t: Fs, u: Fs, i: nat, pos: nat, l: set<nat>, l': set<nat>, addr: nat, bits: set<nat>) {
    && Sound(t) && Sound(u) && u.sb == t.sb && i < |u.inodes| == |t.inodes| && pos / BSIZE < MAXFILE
    && SlotsBut(t, u, i, {DataSlot(pos / BSIZE), NDIRECT})
    && (forall x :: x in t.owner ==> x in u.owner && u.owner[x] == t.owner[x])
    && addr == FileBlock(u, i, pos / BSIZE)
    && LogsMore(t.sb, l, l') && l' <= l + bits + {addr} + IndirectSet(u.inodes[i]) && (forall x :: x in bits ==> x < u.sb.datastart)
    && |bits| <= (if BlockAt(t, i, pos) == 0 then 1 else 0)
                 + (if t.inodes[i].addrs[NDIRECT] == 0 && u.inodes[i].addrs[NDIRECT] != 0 then 1 else 0)
    && (t.inodes[i].addrs[NDIRECT] != 0 ==> u.inodes[i].addrs[NDIRECT] == t.inodes[i].addrs[NDIRECT])
  }

  /** bmap's part of a round. */
  lemma RoundMapped(t: Fs, u: Fs, i: nat, pos: nat, l: set<nat>, l': set<nat>, addr: nat, bits: set<nat>)
    requires Sound(t) && Sound(u) && u.sb == t.sb && i < |u.inodes| == |t.inodes| && pos / BSIZE < MAXFILE && Grown(t, u, i)
    requires SlotsBut(t, u, i, {DataSlot(pos / BSIZE), NDIRECT}) && addr == FileBlock(u, i, pos / BSIZE)
    requires LogsMore(t.sb, l, l') && l' <= l + bits + {addr} + IndirectSet(u.inodes[i]) && (forall x :: x in bits ==> x < u.sb.datastart)
    requires |bits| <= (if FileBlock(t, i, pos / BSIZE) == 0 then 1 else 0)
                     + (if t.inodes[i].addrs[NDIRECT] == 0 && u.inodes[i].addrs[NDIRECT] != 0 then 1 else 0)
    requires t.inodes[i].addrs[NDIRECT] != 0 ==> u.inodes[i].addrs[NDIRECT] == t.inodes[i].addrs[NDIRECT]
    ensures RoundLogs(t, u, i, pos, l, l', addr, bits)
  {
    hide Sound, SlotsBut, FileBlock, LogsMore, IndirectSet, Slot;
    GrownOwners(t, u, i);
  }

  /** The copy's part. */
  lemma RoundCopied(t: Fs, g: Fs, u: Fs, i: nat, pos: nat, l: set<nat>, k: set<nat>, l': set<nat>, addr: nat, bits: set<nat>)
    requires RoundLogs(t, g, i, pos, l, k, addr, bits) && Sound(u) && u == WithBlocks(g, u.blocks) && SlotsBut(g, u, i, {})
    requires LogsMore(g.sb, k, l') && l' <= k + {addr}
    ensures RoundLogs(t, u, i, pos, l, l', addr, bits)
  {
    hide Sound, SlotsBut, LogsMore, IndirectSet, Slot, BlockAt;
    SlotKept(g, u, i, {}, DataSlot(pos / BSIZE));
    SlotsButTwice(t, g, u, i, {DataSlot(pos / BSIZE), NDIRECT}, {});
    assert {DataSlot(pos / BSIZE), NDIRECT} + {} == {DataSlot(pos / BSIZE), NDIRECT};
    LogsMoreTwice(t.sb, l, k, l');
  }

  lemma RoundSpends(fs: Fs, t: Fs, u: Fs, i: nat, pos: nat, l0: set<nat>, l: set<nat>, l': set<nat>, a: Account, addr: nat, bits: set<nat>)
    requires RoundLogs(t, u, i, pos, l, l', addr, bits) && Tracked(fs, t, i, pos / BSIZE, a.d, a.b) && i < |fs.inodes|
    requires Spent(l0, l, a.k, a.f, a.d, a.b, fs.inodes[i], t.inodes[i]) && LogsMore(fs.sb, l0, l) && t.sb == fs.sb
    ensures var x := if BlockAt(t, i, pos) == 0 then 1 else 0;
            Spent(l0, l', a.k + 1, a.f + x, a.d + {addr}, a.b + bits, fs.inodes[i], u.inodes[i])
    ensures Tracked(fs, u, i, pos / BSIZE + 1, a.d + {addr}, a.b + bits) && LogsMore(fs.sb, l0, l') && l <= l'
  {
    hide Spent, Tracked, BlockAt, FileBlock, SlotsBut, IndirectSet, Sound, LogsMore;
    SpendRound(l0, l, a.k, a.f, a.d, a.b, fs.inodes[i], t.inodes[i], l', u.inodes[i], addr, bits, if BlockAt(t, i, pos) == 0 then 1 else 0);
    TrackRound(fs, t, u, i, pos / BSIZE, a.d, a.b, addr, bits);
    LogsMoreTwice(fs.sb, l0, l, l');
  }

  /** The account after another round. */
  lemma AccountsNext(fs: Fs, t: Fs, u: Fs, i: nat, off: nat, n: nat, tot: nat, l0: set<nat>, l: set<nat>, l': set<nat>,
                     a: Account, addr: nat, bits: set<nat>) returns (a': Account)
    requires Sound(fs) && Sound(t) && t.sb == fs.sb && Accounts(fs, t, i, off, n, tot, l0, l, a) && tot < n && off + n <= MAXBYTES
    requires RoundLogs(t, u, i, off + tot, l, l', addr, bits) && |u.inodes| == |t.inodes|
    requires Unaligned(off) ==> BlockAt(fs, i, off) != 0
    ensures Cheap(l0, l', IBlock(fs.sb, i), off, n)
    ensures OnlyLogged(fs.sb.bmapstart, t.blocks, u.blocks, l', {}) ==>
              Accounts(fs, u, i, off, n, tot + Chunk(off + tot, n - tot), l0, l', a')
  {
    hide Spent, Tracked, BlockAt, OnlyLogged, Rounds, Touched, Unaligned, Chunk, Cheap, RoundLogs, Sound, LogsMore, IBlock;
    var x := if BlockAt(t, i, off + tot) == 0 then 1 else 0;
    RoundBlock(off, tot, n, a.k);
    RoundSpends(fs, t, u, i, off + tot, l0, l, l', a, addr, bits);
    a' := Account(a.k + 1, a.f + x, a.d + {addr}, a.b + bits);
    NextRound(off, tot, n, a.k);
    LoopCost(l0, l', a', fs.inodes[i], u.inodes[i], IBlock(fs.sb, i), off, n);
    if OnlyLogged(fs.sb.bmapstart, t.blocks, u.blocks, l', {}) {
      OnlyLoggedTransitive(fs.sb.bmapstart, fs.blocks, t.blocks, u.blocks, l, l', {});
    }
  }

  /** A transaction of n1 bytes at off + done that returned r, too little, on a disk with room. */
  lemma StopsShort(size: nat, off: nat, n: int, len: nat, done: nat, n1: nat, r: int)
    requires done < n && n1 == Min(n - done, FILEWRITE_MAX) && -1 <= r < n1 && done + Counted(r) <= len <= n
    requires r == -1 <==> off > size || off + done + n1 > MAXBYTES
    requires -1 < r ==> Min(len, done + n1) - done < n1
    ensures Stops(size, off, n, len, off + done + Counted(r))
  {
  }

  /** A write that is readable, starts in the file and stays below the largest size has no reason to stop. */
  lemma NothingStops(size: nat, off: nat, n: int, end: nat)
    requires off <= end && 0 <= end - off <= n && off <= size && off + n <= MAXBYTES
    ensures !Stops(size, off, n, n, end)
  {
  }

  /** A transaction of filewrite: the cached blocks when it ends, the blocks it logged, the file system
      that its commit leaves on disk, and the bytes that filewrite has counted as written by then. */
  datatype Txn = Txn(view: seq<Block>, logged: set<nat>, fs: Fs, done: nat)

  function Counted(r: int): nat { if r < 0 then 0 else r }

  /** Why a write of n bytes at off, of which len are readable, stops at end on a disk with room: it began
      beyond the end of the file, or its next transaction would pass the largest file size or is not
      readable to its end. */
  predicate Stops(size: nat, off: nat, n: int, len: nat, end: nat)
    requires off <= end && end - off <= n
  {
    var n1 := Min(n - (end - off), FILEWRITE_MAX);
    off > size || end + n1 > MAXBYTES || len < end - off + n1
  }

  /** The commit puts the logged blocks on the device, and only those; they fit one transaction. */
  ghost predicate TxnOk(before: seq<Block>, t: Txn, iblock: nat) {
    && |before| == |t.view| == |t.fs.blocks| && InBudget(t.logged, iblock)
    && (forall c :: c in t.logged ==> t.fs.sb.inodestart <= c < t.fs.sb.size)
    && forall c :: 0 <= c < |before| ==> t.fs.blocks[c] == if c in t.logged then t.view[c] else before[c]
  }

  /** t is fs with data written at off; writing past the end of a file writes nothing. */
  ghost predicate Holds(fs: Fs, t: Fs, i: nat, off: nat, data: seq<byte>)
    requires Valid(fs) && i < |fs.inodes|
  {
    if off <= fs.inodes[i].size then Committed(fs, t, i, off, data)
    else data == [] && t == fs
  }

  /** What readers see: the same, but data may reach past end into the file's last block. */
  ghost predicate Visible(fs: Fs, t: Fs, i: nat, off: nat, end: nat, data: seq<byte>)
    requires Valid(fs) && i < |fs.inodes|
  {
    && Valid(t) && |t.inodes| == |fs.inodes| && end <= off + |data|
    && (forall j :: 0 <= j < |fs.inodes| && j != i ==> t.inodes[j] == fs.inodes[j] && Content(t, j) == Content(fs, j))
    && if off <= fs.inodes[i].size then
         t.inodes[i].size == Max(fs.inodes[i].size, end) && Content(t, i) == Splice(Content(fs, i), off, data, t.inodes[i].size)
       else data == [] && Content(t, i) == Content(fs, i)
  }

  /** The inodes in memory are the ones on disk. */
  ghost predicate Synced(fs: Fs) {
    Layout(fs.sb) && |fs.blocks| == fs.sb.size && Dinodes(fs.sb, fs.blocks) == fs.inodes
  }

  /** The disk before transaction k. */
  ghost function Before(fs: Fs, txns: seq<Txn>, k: nat): seq<Block>
    requires k <= |txns|
  {
    if k == 0 then fs.blocks else txns[k - 1].fs.blocks
  }

  /** Transaction k leaves a valid file system in which exactly the bytes counted so far are written. */
  ghost predicate DurableAt(fs: Fs, i: nat, off: nat, src: seq<byte>, txns: seq<Txn>, k: nat)
    requires Valid(fs) && i < |fs.inodes| && k < |txns|
  {
    && TxnOk(Before(fs, txns, k), txns[k], IBlock(fs.sb, i)) && txns[k].done <= |src|
    && Holds(fs, txns[k].fs, i, off, src[..txns[k].done])
  }

  /** A write of src at off into file i of fs, as its transactions leave it on disk one after another. */
  ghost predicate Durable(fs: Fs, i: nat, off: nat, src: seq<byte>, txns: seq<Txn>)
    requires Valid(fs) && i < |fs.inodes|
  {
    forall k :: 0 <= k < |txns| ==> DurableAt(fs, i, off, src, txns, k)
  }

  /** The transactions of a write: durable one after another, all but the last of FILEWRITE_MAX bytes, the
      last one counting done, and none leaves disk and memory with different inodes. */
  ghost predicate Recorded(fs: Fs, i: nat, off: nat, src: seq<byte>, txns: seq<Txn>, done: nat)
    requires Valid(fs) && i < |fs.inodes|
  {
    && Durable(fs, i, off, src, txns)
    && (forall k :: 0 <= k < |txns| - 1 ==> txns[k].done == (k + 1) * FILEWRITE_MAX)
    && (if txns == [] then done == 0 else txns[|txns| - 1].done == done)
    && (Synced(fs) ==> forall k :: 0 <= k < |txns| ==> Synced(txns[k].fs))
  }

  lemma RecordedNothing(fs: Fs, i: nat, off: nat, src: seq<byte>)
    requires Valid(fs) && i < |fs.inodes|
    ensures Recorded(fs, i, off, src, [], 0)
  {
    hide Valid;
  }

  lemma RecordedMore(fs: Fs, i: nat, off: nat, src: seq<byte>, txns: seq<Txn>, done: nat, t: Txn)
    requires Valid(fs) && i < |fs.inodes| && Recorded(fs, i, off, src, txns, done) && done == |txns| * FILEWRITE_MAX
    requires TxnOk(Before(fs, txns, |txns|), t, IBlock(fs.sb, i)) && t.done <= |src| && Holds(fs, t.fs, i, off, src[..t.done])
    requires Synced(fs) ==> Synced(t.fs)
    ensures Recorded(fs, i, off, src, txns + [t], t.done)
  {
    hide Valid, TxnOk, Holds, Durable, Synced;
    DurableMore(fs, i, off, src, txns, t);
  }

  lemma BeforeFirst(fs: Fs)
    ensures Before(fs, [], 0) == fs.blocks
  {
  }

  lemma BeforeLast(fs: Fs, txns: seq<Txn>, t: Txn)
    ensures Before(fs, txns + [t], |txns| + 1) == t.fs.blocks
  {
  }

  lemma DurableMore(fs: Fs, i: nat, off: nat, src: seq<byte>, txns: seq<Txn>, t: Txn)
    requires Valid(fs) && i < |fs.inodes| && Durable(fs, i, off, src, txns) && t.done <= |src|
    requires TxnOk(Before(fs, txns, |txns|), t, IBlock(fs.sb, i)) && Holds(fs, t.fs, i, off, src[..t.done])
    ensures Durable(fs, i, off, src, txns + [t])
  {
    hide TxnOk, Holds, Valid;
    forall k | 0 <= k < |txns| + 1 ensures DurableAt(fs, i, off, src, txns + [t], k) {
      assert k < |txns| ==> DurableAt(fs, i, off, src, txns, k);
    }
  }

  lemma BeyondEnd(fs: Fs, t: Fs, i: nat, off: nat, prev: seq<byte>)
    requires Valid(fs) && i < |fs.inodes| && Holds(fs, t, i, off, prev)
    ensures t.sb == fs.sb && |t.inodes| == |fs.inodes| && (off > fs.inodes[i].size <==> off + |prev| > t.inodes[i].size)
    ensures off > fs.inodes[i].size ==> t == fs && prev == []
  {
    hide Valid, Content, Splice;
  }

  lemma TxnLogs(before: seq<Block>, u: Fs, logged: set<nat>, torn: set<nat>, t: Txn, iblock: nat)
    requires OnlyLogged(0, before, u.blocks, logged, torn) && torn !! logged && InBudget(logged, iblock)
    requires LogsMore(u.sb, {}, logged) && |before| == |u.blocks|
    requires t == Txn(u.blocks, logged, WithBlocks(u, Reverted(before, u.blocks, torn)), t.done)
    ensures TxnOk(before, t, iblock) && (torn == {} ==> t.fs == u)
  {
    hide OnlyLogged, InBudget, Reverted;
    RevertedCommits(before, u.blocks, logged, torn);
    RevertedNothing(before, u.blocks);
  }

  /** writei and the commit after it keep the inodes on disk the same as in memory. */
  lemma TxnSyncs(was: Fs, u: Fs, i: nat, pos: nat, r: int, len: nat, torn: set<nat>)
    requires Valid(was) && Valid(u) && u.sb == was.sb && i < |was.inodes| == |u.inodes|
    requires torn == TornBlock(was, i, pos, r, len, {})
    requires u == was || Dinodes(u.sb, u.blocks) == Dinodes(u.sb, was.blocks)[i := u.inodes[i]]
    requires forall j :: 0 <= j < |u.inodes| && j != i ==> u.inodes[j] == was.inodes[j]
    ensures Synced(was) ==> Synced(u) && Synced(WithBlocks(u, Reverted(was.blocks, u.blocks, torn)))
  {
    hide Slot, Owned, Mapped, NoHole, Dinodes, BlockAt, Reverted;
    if torn != {} { BlockAtIsData(was, i, pos + r, i); }
    RevertedDinodes(u, was.blocks, torn);
  }

  lemma RevertedCommits(before: seq<Block>, after: seq<Block>, logged: set<nat>, torn: set<nat>)
    requires OnlyLogged(0, before, after, logged, torn) && torn !! logged
    ensures forall c :: 0 <= c < |before| ==> Reverted(before, after, torn)[c] == if c in logged then after[c] else before[c]
  {
  }

  lemma RevertedDinodes(t: Fs, before: seq<Block>, torn: set<nat>)
    requires InBounds(t) && |before| == |t.blocks| && forall c :: c in torn ==> t.sb.datastart <= c
    ensures Dinodes(t.sb, Reverted(before, t.blocks, torn)) == Dinodes(t.sb, t.blocks)
  {
    hide Dinodes;
    SameDinodes(t.sb, t.blocks, Reverted(before, t.blocks, torn));
  }

  lemma HoldsNothing(fs: Fs, i: nat, off: nat)
    requires Valid(fs) && i < |fs.inodes|
    ensures Holds(fs, fs, i, off, [])
  {
    hide Valid, Content;
    if off <= fs.inodes[i].size { SpliceNothing(Content(fs, i), off); }
  }

  lemma HoldsThen(fs: Fs, u: Fs, t: Fs, i: nat, off: nat, prev: seq<byte>, data: seq<byte>)
    requires Valid(fs) && i < |fs.inodes| && Holds(fs, u, i, off, prev) && Valid(u) && i < |u.inodes|
    requires Committed(u, t, i, off + |prev|, data)
    ensures Holds(fs, t, i, off, prev + data)
  {
    hide Valid, Content;
    SpliceTwice(Content(fs, i), off, prev, u.inodes[i].size, data, t.inodes[i].size);
  }

  lemma HoldsIsVisible(fs: Fs, t: Fs, i: nat, off: nat, data: seq<byte>)
    requires Valid(fs) && i < |fs.inodes| && Holds(fs, t, i, off, data)
    ensures Visible(fs, t, i, off, off + |data|, data)
  {
    hide Valid, Content, Splice;
  }

  lemma VisibleThen(fs: Fs, u: Fs, t: Fs, i: nat, off: nat, prev: seq<byte>, r: nat, data: seq<byte>)
    requires Valid(fs) && i < |fs.inodes| && Holds(fs, u, i, off, prev) && Valid(u) && Valid(t) && i < |u.inodes| == |t.inodes|
    requires r <= |data| && off + |prev| <= u.inodes[i].size && t.inodes[i].size == Max(u.inodes[i].size, off + |prev| + r)
    requires Content(t, i) == Splice(Content(u, i), off + |prev|, data, t.inodes[i].size)
    requires forall j :: 0 <= j < |u.inodes| && j != i ==> t.inodes[j] == u.inodes[j] && Content(t, j) == Content(u, j)
    ensures Visible(fs, t, i, off, off + |prev| + r, prev + data)
  {
    hide Valid, Content;
    SpliceTwice(Content(fs, i), off, prev, u.inodes[i].size, data, t.inodes[i].size);
  }

  lemma Adjacent(c: seq<byte>, a: nat, b: nat, d: nat)
    requires a <= b <= d
    ensures d <= |c| ==> c[a..b] + c[b..d] == c[a..d]
  {
  }

  class Files {
    const sb: Super
    var blocks: seq<Block>
    var inodes: seq<Inode>      // in memory
    ghost var owner: map<nat, (nat, nat)>
    var logged: set<nat>

    ghost function St(): Fs
      reads this
    {
      Fs(sb, blocks, inodes, owner)
    }

    /** Mark a free block in use, log the free-map block, and bzero the block. */
    method Take(b: nat)
      requires InBounds(St()) && sb.datastart <= b < sb.size
      modifies this`blocks, this`logged
      ensures LogsMore(sb, old(logged), logged) && OnlyLogged(sb.bmapstart, old(blocks), blocks, logged, {})
      ensures St() == Allocated(old(St()), b) && logged == old(logged) + {BBlock(sb, b), b}
    {
      BitmapIsMeta(sb, b);
      var bp := b / BPB + sb.bmapstart;
      blocks := blocks[bp := Flip(blocks[bp], b % BPB)];
      logged := logged + {bp};
      blocks := blocks[b := ZeroBlock()];
      logged := logged + {b};
    }

    /** balloc: the lowest free block, marked and zeroed, or 0 on a full disk. */
    method Balloc() returns (r: nat)
      requires Sound(St())
      modifies this`blocks, this`logged
      ensures LogsMore(sb, old(logged), logged) && OnlyLogged(sb.bmapstart, old(blocks), blocks, logged, {})
      ensures r == 0 ==> blocks == old(blocks) && logged == old(logged)
      ensures r == 0 <==> forall c :: 0 <= c < sb.size ==> InUse(old(St()), c)
      ensures r != 0 ==> sb.datastart <= r < sb.size && !InUse(old(St()), r) && r !in owner
      ensures r != 0 ==> forall c :: 0 <= c < r ==> InUse(old(St()), c)
      ensures r != 0 ==> St() == Allocated(old(St()), r) && logged == old(logged) + {BBlock(sb, r), r}
    {
      hide Bit, Flip, InUse, BBlock, Owned, Allocated, Mapped, LogsMore, OnlyLogged;
      LogsNothing(sb, logged);
      OnlyLoggedNothing(sb.bmapstart, blocks, logged);
      MetaInUse(St());
      var b := 0;
      while b < sb.size
        invariant b % BPB == 0 && blocks == old(blocks) && logged == old(logged)
        invariant forall c :: 0 <= c < b && c < sb.size ==> InUse(old(St()), c)
      {
        var bi := FirstClear(b);
        assert St() == old(St());
        if bi < BPB && b + bi < sb.size {
          FreeIsData(St(), b + bi);
          Take(b + bi);
          return b + bi;
        }
        b := b + BPB;
      }
      return 0;
    }

    /** The search of one free-map block: its first clear bit, if it has one. */
    method FirstClear(b: nat) returns (bi: nat)
      requires InBounds(St()) && b % BPB == 0 && b < sb.size
      ensures bi <= BPB && forall c :: b <= c < b + bi && c < sb.size ==> InUse(St(), c)
      ensures bi == BPB || b + bi == sb.size || (b + bi < sb.size && !InUse(St(), b + bi))
    {
      hide Bit, InUse, BBlock;
      bi := 0;
      while bi < BPB && b + bi < sb.size
        invariant 0 <= bi <= BPB && b + bi <= sb.size
        invariant forall c :: b <= c < b + bi && c < sb.size ==> InUse(St(), c)
      {
        UsedBit(St(), b, bi);
        if !Bit(blocks[b / BPB + sb.bmapstart], bi) { return; }
        bi := bi + 1;
      }
    }

    /** bfree clears the block's bit; on a clear bit it panics. */
    method Bfree(b: nat) returns (panic: bool)
      requires InBounds(St()) && b < sb.size
      modifies this`blocks, this`logged
      ensures panic == !InUse(old(St()), b)
      ensures panic ==> blocks == old(blocks) && logged == old(logged)
      ensures !panic ==> logged == old(logged) + {BBlock(sb, b)}
      ensures !panic ==> InBounds(St()) && (forall c :: 0 <= c < sb.size ==> InUse(St(), c) == (c != b && InUse(old(St()), c)))
      ensures !panic ==> forall c :: 0 <= c < sb.size && !(sb.bmapstart <= c < sb.datastart) ==> blocks[c] == old(blocks[c])
      ensures MapLogged(sb, old(blocks), blocks, old(logged), logged)
    {
      hide Bit, Flip, Word, PutWord, Slot;
      BitmapIsMeta(sb, b);
      var bp, bi := b / BPB + sb.bmapstart, b % BPB;
      if !Bit(blocks[bp], bi) { return true; }
      blocks := blocks[bp := Flip(blocks[bp], bi)];
      logged := logged + {bp};
      FlipOneBit(old(St()), blocks, b);
      panic := false;
    }

    /** ip->addrs[k], allocated if it is empty (k == NDIRECT: the indirect block). */
    method SlotOrAlloc(i: nat, k: nat) returns (addr: nat, ghost bits: set<nat>)
      requires Sound(St()) && i < |inodes| && k <= NDIRECT
      modifies this`blocks, this`inodes, this`owner, this`logged
      ensures LogsMore(sb, old(logged), logged) && OnlyLogged(sb.bmapstart, old(blocks), blocks, logged, {})
      ensures Sound(St()) && Grown(old(St()), St(), i)
      ensures addr == inodes[i].addrs[k]
      ensures old(inodes[i].addrs[k]) != 0 ==> St() == old(St()) && logged == old(logged)
      ensures addr == 0 ==> St() == old(St()) && forall c :: 0 <= c < sb.size ==> InUse(St(), c)
      ensures forall l :: 0 <= l <= NDIRECT && l != k ==> inodes[i].addrs[l] == old(inodes[i].addrs[l])
      ensures logged <= old(logged) + bits + {addr} && (old(inodes[i].addrs[k]) == 0 && addr != 0 ==> addr in logged)
      ensures |bits| <= if old(inodes[i].addrs[k]) == 0 && addr != 0 then 1 else 0
      ensures SlotsBut(old(St()), St(), i, {k}) && forall x :: x in bits ==> x < sb.datastart
    {
      hide Bit, Flip, InUse, BBlock, Allocated, Owned;
      addr, bits := inodes[i].addrs[k], {};
      GrownReflexive(St(), i);
      if addr == 0 {
        addr := Balloc();
        if addr == 0 { return; }
        AllocSlot(old(St()), i, k, addr);
        AllocSlotOthers(old(St()), i, k, addr);
        BitmapIsMeta(sb, addr);
        inodes := inodes[i := Inode(inodes[i].addrs[k := addr], inodes[i].size)];
        owner := owner[addr := (i, k)];
        bits := {BBlock(sb, addr)};
        assert St() == Claimed(Allocated(old(St()), addr), i, k, addr);
      }
    }

    /** The indirect block's entry for file block bn, allocated if it is empty. */
    method EntryOrAlloc(i: nat, bn: nat) returns (addr: nat, ghost bits: set<nat>)
      requires Sound(St()) && i < |inodes| && NDIRECT <= bn < MAXFILE && inodes[i].addrs[NDIRECT] != 0
      modifies this`blocks, this`owner, this`logged
      ensures LogsMore(sb, old(logged), logged) && OnlyLogged(sb.bmapstart, old(blocks), blocks, logged, {})
      ensures Sound(St()) && Grown(old(St()), St(), i)
      ensures addr == FileBlock(St(), i, bn)
      ensures old(FileBlock(St(), i, bn)) != 0 ==> St() == old(St()) && logged == old(logged)
      ensures addr == 0 ==> St() == old(St()) && forall c :: 0 <= c < sb.size ==> InUse(St(), c)
      ensures logged <= old(logged) + bits + {addr, inodes[i].addrs[NDIRECT]}
      ensures old(FileBlock(St(), i, bn)) == 0 && addr != 0 ==> addr in logged
      ensures SlotsBut(old(St()), St(), i, {DataSlot(bn)}) && forall x :: x in bits ==> x < sb.datastart
      ensures |bits| <= if old(FileBlock(St(), i, bn)) == 0 && addr != 0 then 1 else 0
    {
      hide Bit, Flip, InUse, BBlock, Owned, Allocated, Word, PutWord, OnlyLogged;
      OnlyLoggedNothing(sb.bmapstart, blocks, logged);
      var j := bn - NDIRECT;
      addr, bits := Word(blocks[inodes[i].addrs[NDIRECT]], j), {};
      GrownReflexive(St(), i);
      if addr == 0 {
        addr := Balloc();
        if addr != 0 {
          AllocEntry(old(St()), i, j, addr);
          AllocEntryOthers(old(St()), i, j, addr);
          BitmapIsMeta(sb, addr);
          AllocatedLength(old(St()), addr);
          IndirectIsData(old(St()), i);
          OnlyLoggedPut(sb.bmapstart, old(blocks), blocks, logged, inodes[i].addrs[NDIRECT], PutWord(blocks[inodes[i].addrs[NDIRECT]], j, addr));
          blocks := blocks[inodes[i].addrs[NDIRECT] := PutWord(blocks[inodes[i].addrs[NDIRECT]], j, addr)];
          logged := logged + {inodes[i].addrs[NDIRECT]};
          owner := owner[addr := (i, NDIRECT + 1 + j)];
          bits := {BBlock(sb, addr)};
          assert St() == ClaimedEntry(Allocated(old(St()), addr), i, j, addr);
        }
      }
    }

    /** bmap: the block behind file block bn, allocating it, and the indirect
        block before it, when missing. bits are the free-map blocks logged. */
    method Bmap(i: nat, bn: nat) returns (addr: nat, ghost bits: set<nat>)
      requires Sound(St()) && i < |inodes| && bn < MAXFILE
      modifies this`blocks, this`inodes, this`owner, this`logged
      ensures LogsMore(sb, old(logged), logged) && OnlyLogged(sb.bmapstart, old(blocks), blocks, logged, {})
      ensures Sound(St()) && Grown(old(St()), St(), i)
      ensures addr == FileBlock(St(), i, bn)
      ensures old(FileBlock(St(), i, bn)) != 0 ==> St() == old(St()) && logged == old(logged)
      ensures addr == 0 ==> forall c :: 0 <= c < sb.size ==> InUse(St(), c)
      ensures logged <= old(logged) + bits + {addr} + IndirectSet(inodes[i])
      ensures old(FileBlock(St(), i, bn)) == 0 && addr != 0 ==> addr in logged
      ensures SlotsBut(old(St()), St(), i, {DataSlot(bn), NDIRECT}) && forall x :: x in bits ==> x < sb.datastart
      ensures |bits| <= (if old(FileBlock(St(), i, bn)) == 0 then 1 else 0)
                      + (if old(inodes[i].addrs[NDIRECT]) == 0 && inodes[i].addrs[NDIRECT] != 0 then 1 else 0)
      ensures old(inodes[i].addrs[NDIRECT]) != 0 ==> inodes[i].addrs[NDIRECT] == old(inodes[i].addrs[NDIRECT])
    {
      hide InUse, BBlock, Owned, Word, Mapped, SlotsBut, Grown, Layout, Slot, OnlyLogged;
      if bn < NDIRECT {
        addr, bits := SlotOrAlloc(i, bn);
        DirectSlot(old(St()), i, bn);
        DirectSlot(St(), i, bn);
        SlotsButMore(old(St()), St(), i, {bn}, {bn, NDIRECT});
      } else {
        addr, bits := IndirectOrAlloc(i, bn);
      }
    }

    /** bmap through the indirect block. */
    method IndirectOrAlloc(i: nat, bn: nat) returns (addr: nat, ghost bits: set<nat>)
      requires Sound(St()) && i < |inodes| && NDIRECT <= bn < MAXFILE
      modifies this`blocks, this`inodes, this`owner, this`logged
      ensures LogsMore(sb, old(logged), logged) && OnlyLogged(sb.bmapstart, old(blocks), blocks, logged, {})
      ensures Sound(St()) && Grown(old(St()), St(), i)
      ensures addr == FileBlock(St(), i, bn)
      ensures old(FileBlock(St(), i, bn)) != 0 ==> St() == old(St()) && logged == old(logged)
      ensures addr == 0 ==> forall c :: 0 <= c < sb.size ==> InUse(St(), c)
      ensures logged <= old(logged) + bits + {addr} + IndirectSet(inodes[i])
      ensures old(FileBlock(St(), i, bn)) == 0 && addr != 0 ==> addr in logged
      ensures SlotsBut(old(St()), St(), i, {DataSlot(bn), NDIRECT}) && forall x :: x in bits ==> x < sb.datastart
      ensures |bits| <= (if old(FileBlock(St(), i, bn)) == 0 then 1 else 0)
                      + (if old(inodes[i].addrs[NDIRECT]) == 0 && inodes[i].addrs[NDIRECT] != 0 then 1 else 0)
      ensures old(inodes[i].addrs[NDIRECT]) != 0 ==> inodes[i].addrs[NDIRECT] == old(inodes[i].addrs[NDIRECT])
    {
      hide InUse, BBlock, Owned, Word, Mapped, SlotsBut, Grown, Layout, Slot, OnlyLogged, LogsMore, IndirectSet;
      IndirectSetIs(inodes[i]);
      ghost var k, more := DataSlot(bn), {};
      if inodes[i].addrs[NDIRECT] == 0 { NoIndirectBlock(St(), i, k); }
      addr, bits := SlotOrAlloc(i, NDIRECT);
      IndirectSetIs(inodes[i]);
      SlotsButMore(old(St()), St(), i, {NDIRECT}, {k, NDIRECT});
      if addr != 0 {
        ghost var mid, l, first := St(), logged, bits;
        SlotKept(old(St()), mid, i, {NDIRECT}, k);
        addr, more := EntryOrAlloc(i, bn);
        GrownTransitive(old(St()), mid, St(), i);
        LogsMoreTwice(sb, old(logged), l, logged);
        OnlyLoggedTransitive(sb.bmapstart, old(blocks), mid.blocks, blocks, l, logged, {});
        SlotsButTwice(old(St()), mid, St(), i, {k, NDIRECT}, {k});
        assert {k, NDIRECT} + {k} == {k, NDIRECT};
        bits := bits + more;
        UnionSize(first, more);
        MoreLogged(old(logged), l, logged, first, more, addr, inodes[i].addrs[NDIRECT]);
      } else {
        NoIndirectBlock(St(), i, k);
      }
    }

    /** iupdate, into the inode's slot of its block. */
    method Iupdate(i: nat)
      requires InBounds(St()) && i < |inodes| && Storable(inodes[i])
      modifies this`blocks, this`logged
      ensures blocks == Iupdated(old(St()), i) && logged == old(logged) + {IBlock(sb, i)} && LogsMore(sb, old(logged), logged)
    {
      hide Stored;
      InodeBlockBelowMap(sb, i);
      var bp, s := IBlock(sb, i), i % IPB;
      var dip := PutWord(blocks[bp], DINODE_WORDS * s + SIZE_WORD, inodes[i].size);
      StoreSize(blocks[bp], s, inodes[i]);
      var k := 0;
      while k < NDIRECT + 1
        invariant blocks == old(blocks) && logged == old(logged)
        invariant k <= NDIRECT + 1 && dip == Stored(blocks[bp], s, inodes[i], k)
      {
        StoreAddr(blocks[bp], s, inodes[i], k);
        dip := PutWord(dip, DINODE_WORDS * s + SIZE_WORD + 1 + k, inodes[i].addrs[k]);
        k := k + 1;
      }
      blocks := blocks[bp := dip];
      logged := logged + {bp};
    }

    /** One round of writei's loop: map the block, copy the chunk in, log it. m is
        the chunk's length, or 0 if the disk is full or the copy failed; a failed
        copy has changed the block up to the fault, without logging it. */
    method WriteChunk(i: nat, off: nat, tot: nat, n: nat, src: seq<byte>, ghost fs: Fs)
      returns (m: nat, ghost w: nat, ghost addr: nat, ghost bits: set<nat>)
      requires WellOwned(fs) && i < |fs.inodes| == |inodes| && tot < n && tot <= |src| <= n && off + n <= MAXBYTES
      requires Sound(St()) && Wrote(fs, St(), i, off, src[..tot], Max(fs.inodes[i].size, off + tot))
      modifies this`blocks, this`inodes, this`owner, this`logged
      ensures LogsMore(sb, old(logged), logged) && OnlyLogged(sb.bmapstart, old(blocks), blocks, logged, if tot + m < w then {addr} else {})
      ensures m == 0 || m == Chunk(off + tot, n - tot)
      ensures tot <= w <= |src| && (m > 0 ==> w == tot + m)
      ensures Wrote(fs, St(), i, off, src[..w], Max(fs.inodes[i].size, off + tot + m))
      ensures m == 0 ==> (w == |src| < tot + Chunk(off + tot, n - tot)) || (w == tot && forall c :: 0 <= c < sb.size ==> InUse(St(), c))
      ensures RoundLogs(old(St()), St(), i, off + tot, old(logged), logged, addr, bits) && |inodes| == |old(inodes)| && Sound(St())
      ensures var was := old(BlockAt(St(), i, off + tot));
              if was == 0 then tot + m < w ==> addr in logged
              else && addr == was && inodes == old(inodes) && owner == old(owner) && SameElsewhere(old(blocks), blocks, addr)
                   && (m == 0 ==> logged == old(logged) && w == |src| < tot + Chunk(off + tot, n - tot))
    {
      hide Slot, Word, InUse, BBlock, Owned, Mapped, Patch, ByteAt, NoHole, Wrote, Grown, IndirectSet, Layout, SlotsBut, OnlyLogged, Chunk;
      hide RoundLogs, LogsMore, SameElsewhere, InBounds;
      ghost var pos := off + tot;
      BlockIndex(pos);
      WroteSound(fs, St(), i, off, src[..tot], Max(fs.inodes[i].size, pos));
      var a;
      a, bits := Bmap(i, (off + tot) / BSIZE);
      addr, m, w := a, 0, tot;
      WroteGrown(fs, old(St()), St(), i, off, src[..tot], Max(fs.inodes[i].size, pos));
      GrownOwners(old(St()), St(), i);
      RoundMapped(old(St()), St(), i, pos, old(logged), logged, a, bits);
      ElsewhereSame(blocks, a);
      if a != 0 {
        ghost var grown, l := St(), logged;
        m, w := CopyChunk(i, off, tot, n, src, a, fs);
        WroteSound(fs, St(), i, off, src[..w], Max(fs.inodes[i].size, pos + m));
        RoundCopied(old(St()), grown, St(), i, pos, old(logged), l, logged, a, bits);
        LogsMoreTwice(sb, old(logged), l, logged);
        OnlyLoggedTransitive(sb.bmapstart, old(blocks), grown.blocks, blocks, l, logged, if tot + m < w then {a} else {});
      }
    }

    /** either_copyin into the buffer of block a and log_write; m is 0 if the copy failed. */
    method CopyChunk(i: nat, off: nat, tot: nat, n: nat, src: seq<byte>, a: nat, ghost fs: Fs)
      returns (m: nat, ghost w: nat)
      requires WellOwned(fs) && i < |fs.inodes| && tot < n && tot <= |src| <= n && off + n <= MAXBYTES
      requires Wrote(fs, St(), i, off, src[..tot], Max(fs.inodes[i].size, off + tot))
      requires (off + tot) / BSIZE < MAXFILE && a == Slot(blocks, inodes[i], DataSlot((off + tot) / BSIZE)) != 0
      modifies this`blocks, this`logged
      ensures logged == (if m == 0 then old(logged) else old(logged) + {a}) && LogsMore(sb, old(logged), logged)
      ensures OnlyLogged(sb.bmapstart, old(blocks), blocks, logged, if tot + m < w then {a} else {})
      ensures m == if |src| < tot + Chunk(off + tot, n - tot) then 0 else Chunk(off + tot, n - tot)
      ensures w == if m == 0 then |src| else tot + m
      ensures Wrote(fs, St(), i, off, src[..w], Max(fs.inodes[i].size, off + tot + m))
      ensures SlotsBut(old(St()), St(), i, {}) && SameElsewhere(old(blocks), blocks, a)
    {
      hide Slot, Word, InUse, BBlock, Owned, Mapped, Patch, ByteAt, NoHole, SlotsBut, OnlyLogged, Wrote;
      WroteSound(fs, St(), i, off, src[..tot], Max(fs.inodes[i].size, off + tot));
      var pos := off + tot;
      var len := Min(n - tot, BSIZE - pos % BSIZE);
      var bytes := src[tot..Min(|src|, tot + len)];
      m := if |src| < tot + len then 0 else len;
      w := tot + |bytes|;
      ghost var hi := Max(fs.inodes[i].size, pos);
      BlockOfSlot(St(), i, pos / BSIZE);
      DataBlock(St(), i, pos / BSIZE);
      WrotePatch(fs, St(), i, off, src[..tot], hi, pos / BSIZE, pos % BSIZE, bytes, Max(hi, pos + m));
      assert src[..tot] + bytes == src[..w];
      PatchNothing(blocks[a], pos % BSIZE);
      PatchSlots(St(), i, pos / BSIZE, Patch(blocks[a], pos % BSIZE, bytes));
      blocks := blocks[a := Patch(blocks[a], pos % BSIZE, bytes)];
      if m > 0 { logged := logged + {a}; }
      OnlyLoggedAt(sb.bmapstart, old(blocks), blocks, a, logged, if tot + m < w then {a} else {});
    }

    /** writei. src is the readable prefix of the n source bytes; w is how many
        of them end up in the file's cached blocks, r how many are reported. */
    method Writei(i: nat, off: nat, n: nat, src: seq<byte>) returns (r: int, ghost w: nat, ghost torn: set<nat>)
      requires Valid(St()) && i < |inodes| && off < UINT && n < UINT && |src| <= n
      modifies this`blocks, this`inodes, this`owner, this`logged
      ensures Valid(St()) && |inodes| == |old(inodes)|
      ensures r == -1 <==> off > old(inodes[i].size) || off + n >= UINT || off + n > MAXBYTES
      ensures r == -1 ==> St() == old(St()) && logged == old(logged) && w == 0
      ensures r != -1 ==> 0 <= r <= n && r <= w <= |src| && inodes[i].size == Max(old(inodes[i].size), off + r)
      ensures r != -1 ==> Content(St(), i) == Splice(old(Content(St(), i)), off, src[..w], inodes[i].size)
      ensures forall j :: 0 <= j < |inodes| && j != i ==> inodes[j] == old(inodes)[j] && Content(St(), j) == old(Content(St(), j))
      ensures r != -1 ==> Dinodes(sb, blocks) == old(Dinodes(sb, blocks))[i := inodes[i]]
      ensures r == n ==> w == n
      ensures -1 < r < n ==> (w == |src| < r + Chunk(off + r, n - r)) || (w == r && forall c :: 0 <= c < sb.size ==> InUse(St(), c))
      // what is left out of the transaction
      ensures LogsMore(sb, old(logged), logged) && OnlyLogged(0, old(blocks), blocks, logged, torn) && torn !! logged
      ensures torn == TornBlock(old(St()), i, off, r, |src|, old(logged))
      ensures 0 <= r < n && w == |src| < r + Chunk(off + r, n - r) ==> r == Reach(off, |src|)
      ensures 0 <= r < n && old(BlockAt(St(), i, off + r)) != 0 ==> w == |src| < n && r == Reach(off, |src|)
      ensures r != -1 && old(logged) == {} ==>
                Committed(old(St()), WithBlocks(St(), Reverted(old(blocks), blocks, torn)), i, off, src[..r])
      // what the transaction costs
      ensures |logged| <= |old(logged)| + LogCost(off, n)
      ensures r != -1 ==> |logged - {IBlock(sb, i)}| < |old(logged)| + LogCost(off, n)
    {
      hide Slot, Word, InUse, BBlock, Owned, Mapped, NoHole, Wrote, ByteAt, Content, Splice, Layout, InBounds;
      hide Chunk, Wraps, LogCost, OnlyLogged, BlockAt, Reach, IBlock, Reverted, Committed, Dinodes, LogsMore;
      w := 0;
      LogsNothing(sb, logged);
      OnlyLoggedNothing(0, blocks, logged);
      if off > inodes[i].size || Wraps(off, n) { return -1, 0, {}; }
      if off + n > MAXFILE * BSIZE { return -1, 0, {}; }
      ghost var fs := St();
      var tot;
      ghost var safe;
      tot, w, torn, safe := WriteLoop(i, off, n, src);
      ghost var before := logged;
      WroteSound(fs, St(), i, off, src[..w], Max(fs.inodes[i].size, off + tot));
      FinishWrite(i, off, tot, fs, n, src, w, torn, safe);
      LogsMoreTwice(sb, old(logged), before, logged);
      SubsetSize(before - {IBlock(sb, i)}, before);
      assert logged - {IBlock(sb, i)} == before - {IBlock(sb, i)};
      r := tot;
    }

    /** For example, a copy into the first block of a file that faults after 10 of 100 bytes: nothing
        is reported, the 10 bytes are visible, and they are in a block that is not logged, so that the
        commit leaves the file on disk as it was. */
    method FaultingOverwrite(i: nat, src: seq<byte>) returns (r: int, ghost torn: set<nat>)
      requires Valid(St()) && i < |inodes| && 100 <= inodes[i].size && |src| == 10 && logged == {}
      modifies this`blocks, this`inodes, this`owner, this`logged
      ensures r == 0 && torn == {old(BlockAt(St(), i, 0))} && torn !! logged
      ensures Valid(St()) && |inodes| == |old(inodes)| && Content(St(), i) == src + old(Content(St(), i))[10..]
      ensures |blocks| == |old(blocks)| && Committed(old(St()), WithBlocks(St(), Reverted(old(blocks), blocks, torn)), i, 0, [])
    {
      hide Slot, InUse, Owned, Mapped, NoHole, Content, LogCost, Chunk, Dinodes, OnlyLogged, Reverted, BlockAt, Committed, IBlock, InBounds;
      ghost var w;
      ghost var fs := St();
      assert NoHole(fs, i);
      r, w, torn := Writei(i, 0, 100, src);
      OnlyLoggedLength(0, fs.blocks, blocks, logged, torn);
      BelowSizeIsMapped(fs, i, r);
      BelowSizeIsMapped(fs, i, 0);
    }

    /** The end of writei: the new size, and iupdate. */
    method FinishWrite(i: nat, off: nat, tot: nat, ghost fs: Fs, ghost n: nat, ghost src: seq<byte>, ghost w: nat, ghost torn: set<nat>, ghost safe: Fs)
      requires Valid(fs) && fs.sb == sb && i < |fs.inodes| && off <= fs.inodes[i].size
      requires tot <= w <= |src| <= n && (tot == n ==> w == n) && |blocks| == |fs.blocks|
      requires Sound(St()) && Wrote(fs, St(), i, off, src[..w], Max(fs.inodes[i].size, off + tot))
      requires OnlyLogged(sb.bmapstart, fs.blocks, blocks, logged, torn) && torn !! logged
      requires torn != {} ==> torn == {BlockAt(fs, i, off + tot)} && BlockAt(fs, i, off + tot) != 0
      requires safe == WithBlocks(St(), Reverted(fs.blocks, blocks, torn))
      requires Wrote(fs, safe, i, off, if torn == {} then src[..w] else src[..tot], Max(fs.inodes[i].size, off + tot))
      modifies this`blocks, this`inodes, this`logged
      ensures Valid(St()) && |inodes| == |fs.inodes| && inodes[i].size == Max(fs.inodes[i].size, off + tot)
      ensures Content(St(), i) == Splice(Content(fs, i), off, src[..w], inodes[i].size)
      ensures forall j :: 0 <= j < |inodes| && j != i ==> inodes[j] == fs.inodes[j] && Content(St(), j) == Content(fs, j)
      ensures Dinodes(sb, blocks) == Dinodes(sb, fs.blocks)[i := inodes[i]]
      ensures forall c :: 0 <= c < sb.size ==> InUse(St(), c) == old(InUse(St(), c))
      ensures logged == old(logged) + {IBlock(sb, i)} && torn !! logged && LogsMore(sb, old(logged), logged)
      ensures OnlyLogged(0, fs.blocks, blocks, logged, torn) && |blocks| == |fs.blocks|
      ensures torn == (if tot < n then TornBlock(fs, i, off, tot, |src|, {}) else {}) ==>
                Committed(fs, WithBlocks(St(), Reverted(fs.blocks, blocks, torn)), i, off, src[..tot])
    {
      hide Slot, Word, InUse, BBlock, Owned, Mapped, NoHole, Wrote, ByteAt, Content, Splice, Layout, InBounds;
      hide OnlyLogged, BlockAt, TornBlock, IBlock, Reverted, Committed, Dinodes;
      ghost var wrote, size := St(), Max(fs.inodes[i].size, off + tot);
      WroteSound(fs, wrote, i, off, src[..w], size);
      if off + tot > inodes[i].size {
        inodes := inodes[i := Inode(inodes[i].addrs, off + tot)];
      }
      assert St() == WithSize(wrote, i, size);
      WroteValid(fs, wrote, i, off, src[..w], size);
      ValidIsStorable(St(), i);
      Iupdate(i);
      if torn != {} { BlockAtIsData(fs, i, off + tot, i); }
      StoredLast(fs, wrote, i, size, old(logged), torn);
      Settled(fs, wrote, i, off, src[..w], size, blocks);
      if torn == if tot < n then TornBlock(fs, i, off, tot, |src|, {}) else {} {
        CommitsReported(fs, wrote, safe, i, off, n, tot, w, src, torn, blocks);
      }
    }

    /** A round of writei with the account of what the transaction has logged. */
    method WriteRound(i: nat, off: nat, tot: nat, n: nat, src: seq<byte>, ghost fs: Fs, ghost l0: set<nat>, ghost a: Account)
      returns (m: nat, ghost w: nat, ghost a': Account, ghost torn: set<nat>)
      requires Sound(fs) && i < |fs.inodes| == |inodes| && tot < n && tot <= |src| <= n && off + n <= MAXBYTES
      requires Sound(St()) && Wrote(fs, St(), i, off, src[..tot], Max(fs.inodes[i].size, off + tot))
      requires Accounts(fs, St(), i, off, n, tot, l0, logged, a) && (Unaligned(off) ==> BlockAt(fs, i, off) != 0)
      modifies this`blocks, this`inodes, this`owner, this`logged
      ensures |inodes| == |fs.inodes| && (m == 0 || m == Chunk(off + tot, n - tot))
      ensures tot <= w <= |src| && (m > 0 ==> w == tot + m) && Sound(St())
      ensures Wrote(fs, St(), i, off, src[..w], Max(fs.inodes[i].size, off + tot + m))
      ensures m == 0 ==> (w == |src| < tot + Chunk(off + tot, n - tot)) || (w == tot && forall c :: 0 <= c < sb.size ==> InUse(St(), c))
      ensures w == |src| < tot + Chunk(off + tot, n - tot) ==> tot == Reach(off, |src|) && |src| < n
      ensures m == 0 && BlockAt(fs, i, off + tot) != 0 ==> w == |src| < tot + Chunk(off + tot, n - tot)
      ensures Cheap(l0, logged, IBlock(sb, i), off, n) && LogsMore(sb, l0, logged)
      ensures m > 0 ==> torn == {} && Accounts(fs, St(), i, off, n, tot + m, l0, logged, a')
      ensures OnlyLogged(sb.bmapstart, fs.blocks, blocks, logged, torn) && torn !! logged && |blocks| == |fs.blocks|
      ensures m == 0 ==> torn == TornBlock(fs, i, off, tot, |src|, l0)
      ensures torn != {} ==> WithBlocks(St(), Reverted(fs.blocks, blocks, torn)) == old(St())
    {
      hide Slot, Word, InUse, Owned, Mapped, NoHole, Wrote, ByteAt, Layout, Chunk, InBounds, BlockAt, RoundLogs;
      hide LogsMore, Accounts, Rounds, SameElsewhere, Reverted, OnlyLogged, TornBlock, Unaligned, Cheap, Reach;
      ghost var was := St();
      NextOfAccount(fs, was, i, off, n, tot, l0, logged, a);
      ghost var addr, bits;
      m, w, addr, bits := WriteChunk(i, off, tot, n, src, fs);
      WroteSound(fs, St(), i, off, src[..w], Max(fs.inodes[i].size, off + tot + m));
      a' := AccountsNext(fs, was, St(), i, off, n, tot, l0, old(logged), logged, a, addr, bits);
      torn := if tot + m < w && addr !in logged then {addr} else {};
      if m == 0 { RoundTorn(fs, i, off, tot, |src|, w, l0, old(logged), logged, addr, torn); }
      OnlyLoggedTorn(sb.bmapstart, was.blocks, blocks, logged, if tot + m < w then {addr} else {}, torn);
      LogsMoreTwice(sb, l0, old(logged), logged);
      OnlyLoggedTransitive(sb.bmapstart, fs.blocks, was.blocks, blocks, old(logged), logged, torn);
      OnlyLoggedLength(sb.bmapstart, fs.blocks, blocks, logged, torn);
      if torn != {} {
        RevertedOne(was.blocks, blocks, addr);
        RevertedRound(sb.bmapstart, fs.blocks, was.blocks, blocks, old(logged), torn);
      }
      if w == |src| < tot + Chunk(off + tot, n - tot) { RoundReach(off, tot, n, a.k, |src|); }
    }

    /** The loop of writei. */
    method WriteLoop(i: nat, off: nat, n: nat, src: seq<byte>) returns (tot: nat, ghost w: nat, ghost torn: set<nat>, ghost safe: Fs)
      requires Valid(St()) && i < |inodes| && |src| <= n && off <= inodes[i].size && off + n <= MAXBYTES
      modifies this`blocks, this`inodes, this`owner, this`logged
      ensures tot <= n && tot <= w <= |src| && (tot == n ==> w == n)
      ensures Wrote(old(St()), St(), i, off, src[..w], Max(old(inodes[i].size), off + tot))
      ensures tot < n ==> (w == |src| < tot + Chunk(off + tot, n - tot)) || (w == tot && forall c :: 0 <= c < sb.size ==> InUse(St(), c))
      ensures Cheap(old(logged), logged, IBlock(sb, i), off, n) && LogsMore(sb, old(logged), logged)
      ensures OnlyLogged(sb.bmapstart, old(blocks), blocks, logged, torn) && torn !! logged
      ensures torn == if tot < n then TornBlock(old(St()), i, off, tot, |src|, old(logged)) else {}
      ensures tot < n && w == |src| < tot + Chunk(off + tot, n - tot) ==> tot == Reach(off, |src|) && |src| < n
      ensures tot < n && old(BlockAt(St(), i, off + tot)) != 0 ==> w == |src| < tot + Chunk(off + tot, n - tot)
      ensures |blocks| == |old(blocks)| && safe == WithBlocks(St(), Reverted(old(blocks), blocks, torn))
      ensures Wrote(old(St()), safe, i, off, if torn == {} then src[..w] else src[..tot], Max(old(inodes[i].size), off + tot))
    {
      hide Slot, Word, InUse, BBlock, Owned, Mapped, NoHole, Wrote, ByteAt, Layout, InBounds, Chunk, IBlock;
      hide Accounts, Cheap, OnlyLogged, BlockAt, TornBlock, Reach, Reverted, Unaligned;
      ghost var fs := St();
      WroteNothing(fs, i, off);
      AccountsStart(fs, i, off, n, logged, IBlock(sb, i));
      if Unaligned(off) { UnalignedIsMapped(fs, i, off); }
      tot, w, torn, safe := 0, 0, {}, fs;
      ghost var a := Account(0, 0, {}, {});
      while tot < n
        invariant tot <= |src| && w == tot <= n && |inodes| == |fs.inodes| && Sound(St())
        invariant Wrote(fs, St(), i, off, src[..tot], Max(fs.inodes[i].size, off + tot))
        invariant Accounts(fs, St(), i, off, n, tot, old(logged), logged, a)
        invariant OnlyLogged(sb.bmapstart, old(blocks), blocks, logged, torn) && torn == {} && |blocks| == |fs.blocks|
        invariant Cheap(old(logged), logged, IBlock(sb, i), off, n) && LogsMore(sb, old(logged), logged)
      {
        safe := St();
        var m;
        m, w, a, torn := WriteRound(i, off, tot, n, src, fs, old(logged), a);
        if m == 0 { break; }
        tot := tot + m;
      }
      if torn == {} {
        RevertedNothing(old(blocks), blocks);
        safe := St();
      }
    }

    /** readi. room is the writable prefix of the destination. No holes below size,
        so reading never allocates and never logs. */
    method Readi(i: nat, off: nat, n: nat, room: nat) returns (r: int, dst: seq<byte>)
      requires Valid(St()) && i < |inodes| && off < UINT && n < UINT
      modifies this`blocks, this`inodes, this`owner, this`logged
      ensures St() == old(St()) && logged == old(logged)
      ensures off > inodes[i].size || off + n >= UINT ==> r == 0 && dst == []
      ensures off <= inodes[i].size && off + n < UINT ==>
                var len := Min(n, inodes[i].size - off);
                && r == (if room < len then -1 else len)
                && dst == Content(St(), i)[off..off + Min(room, len)]
    {
      hide Slot, Word, InUse, Valid, ByteAt, Content, Layout, Wraps, Chunk;
      dst := [];
      if off > inodes[i].size || Wraps(off, n) { return 0, []; }
      var len := Min(n, inodes[i].size - off);
      var tot := 0;
      while tot < len
        invariant tot <= len && tot <= room && St() == old(St()) && logged == old(logged)
        invariant dst == Content(St(), i)[off..off + tot]
      {
        var m := Chunk(off + tot, len - tot);
        var bytes := CopyOut(i, off + tot, len - tot, Min(m, room - tot));
        Adjacent(Content(St(), i), off, off + tot, off + tot + Min(m, room - tot));
        dst := dst + bytes;
        if room < tot + m { return -1, dst; }
        tot := tot + m;
      }
      r := len;
    }

    /** bmap, bread and either_copyout of the first k bytes of the chunk at pos. */
    method CopyOut(i: nat, pos: nat, left: nat, k: nat) returns (bytes: seq<byte>)
      requires Valid(St()) && i < |inodes| && left > 0 && pos + left <= inodes[i].size && k <= Chunk(pos, left)
      modifies this`blocks, this`inodes, this`owner, this`logged
      ensures St() == old(St()) && logged == old(logged)
      ensures bytes == Content(St(), i)[pos..pos + k]
    {
      hide Slot, Word, InUse, Owned, Mapped, ByteAt, Content, Layout;
      ReadChunk(St(), i, pos, k);
      var addr;
      ghost var bits;
      addr, bits := Bmap(i, pos / BSIZE);
      bytes := blocks[addr][pos % BSIZE..pos % BSIZE + k];
    }

    /** bfree of a slot's block if it has one; then the slot counts as passed. */
    method ReleaseSlot(b: nat, ghost fs: Fs, ghost i: nat, ghost p: nat, ghost q: nat, ghost p': nat, ghost q': nat, ghost k: nat)
      requires Sound(fs) && fs.sb == sb && i < |fs.inodes| && k < NSLOT && Releasing(fs, St(), i, p, q)
      requires (k == p <= NDIRECT && p' == p + 1 && q' == q && (k < NDIRECT || q == NSLOT)) || (k == q > NDIRECT && q' == q + 1 && p' == p <= NDIRECT)
      requires b == Slot(fs.blocks, fs.inodes[i], k)
      modifies this`blocks, this`logged
      ensures Releasing(fs, St(), i, p', q') && MapLogged(sb, old(blocks), blocks, old(logged), logged)
    {
      hide Slot, InUse, Owned, Mapped, Released, MapLogged;
      MapLoggedNothing(sb, blocks, logged);
      if b != 0 {
        NotYetReleased(fs, St(), i, p, q, k);
        var panic := Bfree(b);
        assert !panic;
      }
      ReleaseNext(fs, old(St()), St(), i, p, q, p', q', k);
    }

    /** itrunc: exactly the inode's blocks are freed, none twice. */
    method Itrunc(i: nat)
      requires Valid(St()) && i < |inodes|
      modifies this`blocks, this`inodes, this`owner, this`logged
      ensures Valid(St()) && |inodes| == |old(inodes)| && Content(St(), i) == []
      ensures forall j :: 0 <= j < |inodes| && j != i ==> inodes[j] == old(inodes)[j] && Content(St(), j) == old(Content(St(), j))
      ensures forall c :: 0 <= c < sb.size ==>
                (InUse(St(), c) <==> old(InUse(St(), c)) && !(c in old(owner) && old(owner)[c].0 == i))
      ensures Dinodes(sb, blocks) == old(Dinodes(sb, blocks))[i := inodes[i]]
      ensures OnlyLogged(0, old(blocks), blocks, logged, {}) && old(logged) <= logged
      ensures forall c :: c in logged && c !in old(logged) ==> c == IBlock(sb, i) || sb.bmapstart <= c < sb.datastart
    {
      hide Slot, InUse, Owned, Mapped, Released, Layout, Word, Content, Dinodes, MapLogged, OnlyLogged, IBlock, NoHole;
      ReleaseAll(i);
      ghost var u, l := St(), logged;
      ValidIsStorable(u, i);
      Iupdate(i);
      IupdatedDinodes(u, i);
      MapLoggedThenInode(sb, old(blocks), u.blocks, blocks, old(logged), l, IBlock(sb, i));
      SameFiles(u, blocks);
    }

    /** itrunc up to its iupdate. */
    method ReleaseAll(i: nat)
      requires Valid(St()) && i < |inodes|
      modifies this`blocks, this`inodes, this`owner, this`logged
      ensures Valid(St()) && |inodes| == |old(inodes)| && Content(St(), i) == []
      ensures forall j :: 0 <= j < |inodes| && j != i ==> inodes[j] == old(inodes)[j] && Content(St(), j) == old(Content(St(), j))
      ensures forall c :: 0 <= c < sb.size ==>
                (InUse(St(), c) <==> old(InUse(St(), c)) && !(c in old(owner) && old(owner)[c].0 == i))
      ensures Dinodes(sb, blocks) == old(Dinodes(sb, blocks)) && MapLogged(sb, old(blocks), blocks, old(logged), logged)
    {
      hide Slot, InUse, Owned, Mapped, Released, Layout, Word, Content, Dinodes, MapLogged, NoHole;
      ghost var fs := St();
      TruncDirect(i);
      ghost var bs, l := blocks, logged;
      TruncIndirect(i, fs);
      MapLoggedTwice(sb, fs.blocks, bs, blocks, old(logged), l, logged);
      ghost var t := St();
      inodes := inodes[i := Inode(inodes[i].addrs, 0)];
      owner := map c | c in owner && owner[c].0 != i :: owner[c];
      SameMap(fs, t, St(), i, NDIRECT + 1, NSLOT);
      TruncatedValid(fs, St(), i);
      AllReleased(fs, St(), i);
      ReleasedDinodes(fs, St(), i);
    }

    /** The loop over the direct slots. */
    method TruncDirect(i: nat)
      requires Valid(St()) && i < |inodes|
      modifies this`blocks, this`inodes, this`logged
      ensures |inodes| == |old(inodes)| && Releasing(old(St()), St(), i, NDIRECT, NDIRECT + 1)
      ensures forall j :: 0 <= j < |inodes| && j != i ==> inodes[j] == old(inodes)[j]
      ensures forall l :: 0 <= l <= NDIRECT ==> inodes[i].addrs[l] == if l < NDIRECT then 0 else old(inodes)[i].addrs[l]
      ensures MapLogged(sb, old(blocks), blocks, old(logged), logged)
    {
      hide Slot, InUse, Owned, Mapped, Released, Layout, MapLogged;
      ghost var fs := St();
      MapLoggedNothing(sb, blocks, logged);
      ReleasedNothing(fs, i);
      var k := 0;
      while k < NDIRECT
        invariant k <= NDIRECT && |inodes| == |fs.inodes| && Releasing(fs, St(), i, k, NDIRECT + 1)
        invariant forall j :: 0 <= j < |inodes| && j != i ==> inodes[j] == fs.inodes[j]
        invariant forall l :: 0 <= l <= NDIRECT ==> inodes[i].addrs[l] == if l < k then 0 else fs.inodes[i].addrs[l]
        invariant MapLogged(sb, old(blocks), blocks, old(logged), logged)
      {
        DirectSlot(fs, i, k);
        ghost var bs, l := blocks, logged;
        ReleaseSlot(inodes[i].addrs[k], fs, i, k, NDIRECT + 1, k + 1, NDIRECT + 1, k);
        MapLoggedTwice(sb, old(blocks), bs, blocks, old(logged), l, logged);
        ghost var t := St();
        inodes := inodes[i := Inode(inodes[i].addrs[k := 0], inodes[i].size)];
        SameMap(fs, t, St(), i, k + 1, NDIRECT + 1);
        k := k + 1;
      }
    }

    /** The indirect block's entries, then the indirect block itself. */
    method TruncIndirect(i: nat, ghost fs: Fs)
      requires Sound(fs) && fs.sb == sb && i < |fs.inodes| == |inodes| && Releasing(fs, St(), i, NDIRECT, NDIRECT + 1)
      requires inodes[i].addrs[NDIRECT] == fs.inodes[i].addrs[NDIRECT]
      modifies this`blocks, this`inodes, this`logged
      ensures Releasing(fs, St(), i, NDIRECT + 1, NSLOT)
      ensures inodes == old(inodes)[i := Inode(old(inodes)[i].addrs[NDIRECT := 0], old(inodes)[i].size)]
      ensures MapLogged(sb, old(blocks), blocks, old(logged), logged)
    {
      hide Slot, InUse, Owned, Mapped, Released, Layout, Word, MapLogged;
      MapLoggedNothing(sb, blocks, logged);
      DirectSlot(fs, i, NDIRECT);
      if inodes[i].addrs[NDIRECT] != 0 {
        IndirectIsData(fs, i);
        var a := blocks[inodes[i].addrs[NDIRECT]];
        var j := 0;
        while j < NINDIRECT
          invariant j <= NINDIRECT && inodes == old(inodes) && Releasing(fs, St(), i, NDIRECT, NDIRECT + 1 + j)
          invariant MapLogged(sb, old(blocks), blocks, old(logged), logged)
        {
          EntrySlot(fs, i, j);
          ghost var bs, l := blocks, logged;
          ReleaseSlot(Word(a, j), fs, i, NDIRECT, NDIRECT + 1 + j, NDIRECT, NDIRECT + 2 + j, NDIRECT + 1 + j);
          MapLoggedTwice(sb, old(blocks), bs, blocks, old(logged), l, logged);
          j := j + 1;
        }
        ghost var bs, l := blocks, logged;
        ReleaseSlot(inodes[i].addrs[NDIRECT], fs, i, NDIRECT, NSLOT, NDIRECT + 1, NSLOT, NDIRECT);
        MapLoggedTwice(sb, old(blocks), bs, blocks, old(logged), l, logged);
        ghost var t := St();
        inodes := inodes[i := Inode(inodes[i].addrs[NDIRECT := 0], inodes[i].size)];
        SameMap(fs, t, St(), i, NDIRECT + 1, NSLOT);
      } else {
        NoEntries(fs, St(), i);
        assert inodes[i].addrs[NDIRECT := 0] == inodes[i].addrs;
      }
    }

    /** One transaction of filewrite. prev is what earlier transactions wrote at off. */
    method WriteTransaction(i: nat, pos: nat, n1: nat, chunk: seq<byte>, ghost fs: Fs, ghost off: nat, ghost prev: seq<byte>)
      returns (r: int, ghost w: nat, ghost t: Txn)
      requires Valid(St()) && i < |inodes| && pos == off + |prev| < UINT && 0 < n1 <= FILEWRITE_MAX && |chunk| <= n1
      requires Valid(fs) && i < |fs.inodes| && Holds(fs, St(), i, off, prev)
      modifies this`blocks, this`inodes, this`owner, this`logged
      ensures Valid(St()) && |inodes| == |old(inodes)| && (r >= 0 ==> pos + r <= MAXBYTES)
      ensures -1 <= r <= n1 && Counted(r) <= w <= |chunk| && (r == n1 ==> w == n1) && (off > fs.inodes[i].size ==> r == -1 && w == 0)
      ensures r == -1 <==> off > fs.inodes[i].size || pos + n1 > MAXBYTES
      ensures -1 < r < n1 ==> |chunk| < n1 || forall c :: 0 <= c < sb.size ==> InUse(St(), c)
      ensures Visible(fs, St(), i, off, pos + Counted(r), prev + chunk[..w])
      ensures t == Txn(blocks, logged, t.fs, |prev| + Counted(r)) && TxnOk(old(blocks), t, IBlock(sb, i))
      ensures Holds(fs, t.fs, i, off, prev + chunk[..Counted(r)]) && (r == n1 ==> t.fs == St())
      ensures Synced(old(St())) ==> Synced(St()) && Synced(t.fs)
    {
      hide Slot, InUse, Valid, Content, LogCost, Splice, Chunk, Dinodes, OnlyLogged, Reverted, BlockAt, Reach, Committed, IBlock;
      hide Holds, Visible, TxnOk, Synced, LogsMore, Max;
      logged := {};
      FilewriteFits(pos, n1);
      BeyondEnd(fs, St(), i, off, prev);
      ghost var was, torn := St(), {};
      r, w, torn := Writei(i, pos, n1, chunk);
      OnlyLoggedLength(0, was.blocks, blocks, logged, torn);
      t := Txn(blocks, logged, WithBlocks(St(), Reverted(was.blocks, blocks, torn)), |prev| + Counted(r));
      TxnLogs(was.blocks, St(), logged, torn, t, IBlock(sb, i));
      TxnSyncs(was, St(), i, pos, r, |chunk|, torn);
      if r == -1 {
        assert prev + chunk[..0] == prev;
        HoldsIsVisible(fs, St(), i, off, prev);
      } else {
        HoldsThen(fs, was, t.fs, i, off, prev, chunk[..r]);
        VisibleThen(fs, was, St(), i, off, prev, r, chunk[..w]);
      }
    }

    /** filewrite to an inode, in transactions of at most FILEWRITE_MAX bytes.
        src is the readable prefix of the caller's n bytes. */
    method FileWrite(i: nat, off: nat, n: int, src: seq<byte>)
      returns (ret: int, off': nat, ghost w: nat, ghost txns: seq<Txn>)
      requires Valid(St()) && i < |inodes| && off < UINT && n < UINT && (|src| <= n || src == [])
      modifies this`blocks, this`inodes, this`owner, this`logged
      ensures Valid(St()) && |inodes| == |old(inodes)|
      ensures off <= off' && off' - off <= w <= |src|
      ensures ret == (if off' - off == n then n else -1)
      ensures ret == n > 0 ==> w == n
      ensures off > old(inodes[i].size) ==> off' == off && w == 0
      ensures off' - off < n ==> Stops(old(inodes[i].size), off, n, |src|, off') || forall c :: 0 <= c < sb.size ==> InUse(St(), c)
      ensures 0 <= n == |src| && off <= old(inodes[i].size) && off + n <= MAXBYTES ==>
                ret == n || forall c :: 0 <= c < sb.size ==> InUse(St(), c)
      ensures Visible(old(St()), St(), i, off, off', src[..w])
      ensures Recorded(old(St()), i, off, src, txns, off' - off) && (Synced(old(St())) ==> Synced(St()))
    {
      hide Slot, InUse, Valid, Content, Splice, Synced, TxnOk, Holds, Visible, IBlock, Recorded, Stops, Before;
      off', w, txns := off, 0, [];
      var done := 0;
      ghost var fs := St();
      HoldsNothing(fs, i, off);
      RecordedNothing(fs, i, off, src);
      BeforeFirst(fs);
      assert src[..0] == [];
      while done < n
        invariant 0 <= done && (done <= n || done == 0) && off' == off + done && w == done <= |src| && off' < UINT
        invariant Valid(St()) && |inodes| == |fs.inodes| && Holds(fs, St(), i, off, src[..done])
        invariant Recorded(fs, i, off, src, txns, done) && blocks == Before(fs, txns, |txns|) && (Synced(fs) ==> Synced(St()))
        invariant off > fs.inodes[i].size ==> done == 0
        invariant done < n ==> done == |txns| * FILEWRITE_MAX
      {
        var n1 := n - done;
        if n1 > FILEWRITE_MAX { n1 := FILEWRITE_MAX; }
        var chunk := src[done..Min(|src|, done + n1)];
        var r;
        ghost var w1, t;
        r, w1, t := WriteTransaction(i, off', n1, chunk, fs, off, src[..done]);
        PrefixGrows(src, done, Min(|src|, done + n1), w1);
        PrefixGrows(src, done, Min(|src|, done + n1), Counted(r));
        w := done + w1;
        RecordedMore(fs, i, off, src, txns, done, t);
        BeforeLast(fs, txns, t);
        txns := txns + [t];
        if r > 0 { off' := off' + r; }
        done := done + if r > 0 then r else 0;
        if r != n1 {
          if r == -1 || |chunk| < n1 { StopsShort(fs.inodes[i].size, off, n, |src|, done - Counted(r), n1, r); }
          break;
        }
      }
      if 0 <= n == |src| && off <= fs.inodes[i].size && off + n <= MAXBYTES { NothingStops(fs.inodes[i].size, off, n, off'); }
      if done >= n { HoldsIsVisible(fs, St(), i, off, src[..done]); }
      ret := if done == n then n else -1;
    }
  }

  lemma FreeIsData(fs: Fs, c: nat)
    requires Sound(fs) && c < fs.sb.size && !InUse(fs, c)
    ensures fs.sb.datastart <= c && c !in fs.owner
  {
    hide InUse;
  }

  lemma MetaInUse(fs: Fs)
    requires Sound(fs)
    ensures 0 < fs.sb.size && InUse(fs, 0)
  {
    hide InUse;
  }

  lemma ReleasedDinodes(fs: Fs, t: Fs, i: nat)
    requires Releasing(fs, t, i, NDIRECT + 1, NSLOT)
    ensures Dinodes(fs.sb, t.blocks) == Dinodes(fs.sb, fs.blocks)
  {
    hide InUse;
    SameDinodes(fs.sb, fs.blocks, t.blocks);
  }

  lemma PrefixGrows(src: seq<byte>, lo: nat, hi: nat, k: nat)
    requires lo <= hi <= |src| && k <= hi - lo
    ensures src[..lo] + src[lo..hi][..k] == src[..lo + k]
  {
  }

  lemma PatchNothing(blk: Block, at: nat)
    requires at <= BSIZE
    ensures Patch(blk, at, []) == blk
  {
  }

  lemma ReadChunk(fs: Fs, i: nat, pos: nat, m: nat)
    requires Valid(fs) && i < |fs.inodes| && pos % BSIZE + m <= BSIZE && pos + m <= fs.inodes[i].size && pos < fs.inodes[i].size
    ensures pos / BSIZE < MAXFILE
    ensures var b := Slot(fs.blocks, fs.inodes[i], DataSlot(pos / BSIZE));
            && 0 < b < |fs.blocks|
            && fs.blocks[b][pos % BSIZE..pos % BSIZE + m] == Content(fs, i)[pos..pos + m]
  {
    hide Slot, Word, ByteAt, Content;
    assert pos == pos / BSIZE * BSIZE + pos % BSIZE;
    if m > 0 { BlockBytes(fs, i, pos / BSIZE, pos % BSIZE, m); }
    else { BlockBytes(fs, i, pos / BSIZE, pos % BSIZE, 1); }
  }

  /** balloc finds block b + bi's bit at position bi of the free-map block for b. */
  lemma UsedBit(fs: Fs, b: nat, bi: nat)
    requires InBounds(fs) && b % BPB == 0 && bi < BPB && b + bi < fs.sb.size
    ensures b / BPB + fs.sb.bmapstart < fs.sb.size
    ensures InUse(fs, b + bi) == Bit(fs.blocks[b / BPB + fs.sb.bmapstart], bi)
  {
    hide Bit;
    BitmapIsMeta(fs.sb, b + bi);
    assert (b + bi) / BPB == b / BPB && (b + bi) % BPB == bi;
  }
}
