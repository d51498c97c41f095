/** The file system's block ownership and file contents as a value: what the
    inodes' direct and indirect slots, the free map and the data blocks mean,
    and what single updates of them preserve. */
module FsState {
  import opened Blocks

  const NDIRECT: nat := 12
  const NINDIRECT: nat := 256
  const MAXFILE: nat := 268
  const MAXBYTES: nat := 274432   // MAXFILE * BSIZE
  const NSLOT: nat := 269         // direct slots, the indirect block, its entries
  const IPB: nat := 16

  /** The super block, with the end of the metadata area. */
  datatype Super = Super(size: nat, ninodes: nat, inodestart: nat, bmapstart: nat, datastart: nat)

  predicate Layout(sb: Super) {
    && 0 < sb.datastart <= sb.size < UINT
    && sb.inodestart + (sb.ninodes + IPB - 1) / IPB <= sb.bmapstart
    && sb.bmapstart + (sb.size + BPB - 1) / BPB <= sb.datastart
  }

  function BBlock(sb: Super, b: nat): nat { b / BPB + sb.bmapstart }
  function IBlock(sb: Super, inum: nat): nat { inum / IPB + sb.inodestart }

  /** The inodes follow one another on disk, BSIZE / IPB bytes each, from the start of the inode blocks, and
      the bits of the free map follow one another, eight to a byte, from the start of its blocks. */
  lemma InodesAndBitsInOrder(sb: Super, i: nat, b: nat)
    ensures IBlock(sb, i) * BSIZE + i % IPB * (BSIZE / IPB) == sb.inodestart * BSIZE + i * (BSIZE / IPB)
    ensures (BBlock(sb, b) * BSIZE + b % BPB / 8) * 8 + b % 8 == sb.bmapstart * BSIZE * 8 + b
  {
    var q, r := b / BPB, b % BPB;
    assert b == BPB * q + r && r % 8 == b % 8;
  }

  type Addrs = a: seq<nat> | |a| == NDIRECT + 1 witness seq(NDIRECT + 1, _ => 0)
  datatype Inode = Inode(addrs: Addrs, size: nat)

  /** owner tells which slot of which inode a data block belongs to. */
  datatype Fs = Fs(sb: Super, blocks: seq<Block>, inodes: seq<Inode>, owner: map<nat, (nat, nat)>)

  predicate InBounds(fs: Fs) {
    && Layout(fs.sb) && |fs.blocks| == fs.sb.size && |fs.inodes| == fs.sb.ninodes
    && forall i, k :: 0 <= i < |fs.inodes| && 0 <= k <= NDIRECT ==> fs.inodes[i].addrs[k] < fs.sb.size
  }

  /** The block number in slot k: direct slots, then the indirect block, then its entries. */
  function Slot(blocks: seq<Block>, ino: Inode, k: nat): nat
    requires k < NSLOT && ino.addrs[NDIRECT] < |blocks|
  {
    if k <= NDIRECT then ino.addrs[k]
    else if ino.addrs[NDIRECT] == 0 then 0
    else Word(blocks[ino.addrs[NDIRECT]], k - NDIRECT - 1)
  }

  /** The slot that holds file block bn. */
  function DataSlot(bn: nat): nat { if bn < NDIRECT then bn else bn + 1 }

  predicate InUse(fs: Fs, b: nat)
    requires InBounds(fs) && b < fs.sb.size
  {
    Bit(fs.blocks[BBlock(fs.sb, b)], b % BPB)
  }

  /** Every owned block sits in the slot that owns it, and every filled slot owns its block. */
  predicate Owned(fs: Fs)
    requires InBounds(fs)
  {
    && (forall b :: b in fs.owner ==>
          fs.sb.datastart <= b < fs.sb.size && fs.owner[b].0 < |fs.inodes| && fs.owner[b].1 < NSLOT)
    && (forall b :: b in fs.owner ==> Slot(fs.blocks, fs.inodes[fs.owner[b].0], fs.owner[b].1) == b)
    && (forall i, k :: 0 <= i < |fs.inodes| && 0 <= k < NSLOT && Slot(fs.blocks, fs.inodes[i], k) != 0 ==>
          var b := Slot(fs.blocks, fs.inodes[i], k); b in fs.owner && fs.owner[b] == (i, k))
  }

  /** The free map marks exactly the metadata and the owned blocks. */
  predicate Mapped(fs: Fs)
    requires InBounds(fs)
  {
    forall b :: 0 <= b < fs.sb.size ==> (InUse(fs, b) <==> b < fs.sb.datastart || b in fs.owner)
  }

  predicate NoHole(fs: Fs, i: nat)
    requires InBounds(fs) && i < |fs.inodes|
  {
    && fs.inodes[i].size <= MAXBYTES
    && forall bn :: 0 <= bn < MAXFILE && bn * BSIZE < fs.inodes[i].size ==>
         Slot(fs.blocks, fs.inodes[i], DataSlot(bn)) != 0
  }

  predicate Valid(fs: Fs) {
    InBounds(fs) && Owned(fs) && Mapped(fs) && forall i :: 0 <= i < |fs.inodes| ==> NoHole(fs, i)
  }

  /** At most one slot of one inode holds a block. */
  lemma SingleOwner(fs: Fs, i: nat, k: nat, j: nat, l: nat)
    requires InBounds(fs) && Owned(fs) && i < |fs.inodes| && j < |fs.inodes| && k < NSLOT && l < NSLOT
    requires Slot(fs.blocks, fs.inodes[i], k) == Slot(fs.blocks, fs.inodes[j], l) != 0
    ensures i == j && k == l
  {
  }

  // ---- single updates ----

  function WithBlocks(fs: Fs, blocks: seq<Block>): Fs {
    Fs(fs.sb, blocks, fs.inodes, fs.owner)
  }

  /** Writing a data block leaves every slot and the free map alone. */
  function WithData(fs: Fs, b: nat, data: Block): Fs
    requires b < |fs.blocks|
  {
    WithBlocks(fs, fs.blocks[b := data])
  }

  lemma BitmapIsMeta(sb: Super, b: nat)
    requires Layout(sb) && b < sb.size
    ensures BBlock(sb, b) < sb.datastart
  {
    assert b / BPB < (sb.size + BPB - 1) / BPB;
  }

  lemma WithDataKeeps(fs: Fs, b: nat, data: Block)
    requires InBounds(fs) && Owned(fs) && b in fs.owner && fs.owner[b].1 != NDIRECT
    ensures InBounds(WithData(fs, b, data)) && Owned(WithData(fs, b, data))
    ensures forall i, k :: 0 <= i < |fs.inodes| && 0 <= k < NSLOT ==>
              Slot(WithData(fs, b, data).blocks, fs.inodes[i], k) == Slot(fs.blocks, fs.inodes[i], k)
  {
    var t := WithData(fs, b, data);
    forall i, k | 0 <= i < |fs.inodes| && 0 <= k < NSLOT
      ensures Slot(t.blocks, fs.inodes[i], k) == Slot(fs.blocks, fs.inodes[i], k)
    {
      var a := fs.inodes[i].addrs[NDIRECT];
      assert a == Slot(fs.blocks, fs.inodes[i], NDIRECT);
    }
  }

  /** balloc's effect on the disk: mark b in the free map and zero it. */
  function Allocated(fs: Fs, b: nat): Fs
    requires InBounds(fs) && b < fs.sb.size
  {
    BitmapIsMeta(fs.sb, b);
    WithBlocks(fs, fs.blocks[BBlock(fs.sb, b) := Flip(fs.blocks[BBlock(fs.sb, b)], b % BPB)][b := ZeroBlock()])
  }

  lemma AllocatedLength(fs: Fs, b: nat)
    requires InBounds(fs) && b < fs.sb.size
    ensures |Allocated(fs, b).blocks| == |fs.blocks| && Allocated(fs, b).inodes == fs.inodes
  {
    BitmapIsMeta(fs.sb, b);
  }

  /** Allocating a free block disturbs no slot, no other bit and no owned block. */
  lemma AllocatedKeeps(fs: Fs, b: nat)
    requires InBounds(fs) && Owned(fs) && fs.sb.datastart <= b < fs.sb.size && b !in fs.owner
    ensures InBounds(Allocated(fs, b)) && Owned(Allocated(fs, b))
    ensures forall i, k :: 0 <= i < |fs.inodes| && 0 <= k < NSLOT ==>
              Slot(Allocated(fs, b).blocks, fs.inodes[i], k) == Slot(fs.blocks, fs.inodes[i], k)
    ensures forall c :: c in fs.owner ==> Allocated(fs, b).blocks[c] == fs.blocks[c]
  {
    var t := Allocated(fs, b);
    BitmapIsMeta(fs.sb, b);
    forall i, k | 0 <= i < |fs.inodes| && 0 <= k < NSLOT
      ensures Slot(t.blocks, fs.inodes[i], k) == Slot(fs.blocks, fs.inodes[i], k)
    {
      var a := fs.inodes[i].addrs[NDIRECT];
      assert a == Slot(fs.blocks, fs.inodes[i], NDIRECT);
    }
  }

  lemma FlipOneBit(fs: Fs, blocks: seq<Block>, b: nat)
    requires InBounds(fs) && b < fs.sb.size && |blocks| == |fs.blocks|
    requires blocks[BBlock(fs.sb, b)] == Flip(fs.blocks[BBlock(fs.sb, b)], b % BPB)
    requires forall c :: 0 <= c < fs.sb.datastart && c != BBlock(fs.sb, b) ==> blocks[c] == fs.blocks[c]
    ensures InBounds(WithBlocks(fs, blocks))
    ensures forall c :: 0 <= c < fs.sb.size ==>
              InUse(WithBlocks(fs, blocks), c) == if c == b then !InUse(fs, c) else InUse(fs, c)
  {
    forall c | 0 <= c < fs.sb.size
      ensures InUse(WithBlocks(fs, blocks), c) == if c == b then !InUse(fs, c) else InUse(fs, c)
    {
      BitmapIsMeta(fs.sb, c);
      if c != b && BBlock(fs.sb, c) == BBlock(fs.sb, b) {
        assert c == c / BPB * BPB + c % BPB && b == b / BPB * BPB + b % BPB;
      }
    }
  }

  lemma AllocatedBits(fs: Fs, b: nat)
    requires InBounds(fs) && fs.sb.datastart <= b < fs.sb.size
    ensures InBounds(Allocated(fs, b))
    ensures forall c :: 0 <= c < fs.sb.size ==>
              InUse(Allocated(fs, b), c) == if c == b then !InUse(fs, c) else InUse(fs, c)
  {
    BitmapIsMeta(fs.sb, b);
    FlipOneBit(fs, Allocated(fs, b).blocks, b);
  }

  /** ip->addrs[k] = b */
  function Claimed(fs: Fs, i: nat, k: nat, b: nat): Fs
    requires i < |fs.inodes| && k <= NDIRECT
  {
    Fs(fs.sb, fs.blocks, fs.inodes[i := Inode(fs.inodes[i].addrs[k := b], fs.inodes[i].size)], fs.owner[b := (i, k)])
  }

  /** a[j] = b in inode i's indirect block */
  function ClaimedEntry(fs: Fs, i: nat, j: nat, b: nat): Fs
    requires i < |fs.inodes| && j < NINDIRECT && b < UINT && fs.inodes[i].addrs[NDIRECT] < |fs.blocks|
  {
    Fs(fs.sb,
       fs.blocks[fs.inodes[i].addrs[NDIRECT] := PutWord(fs.blocks[fs.inodes[i].addrs[NDIRECT]], j, b)],
       fs.inodes, fs.owner[b := (i, NDIRECT + 1 + j)])
  }

  lemma ClaimedSlots(fs: Fs, i: nat, k: nat, b: nat)
    requires InBounds(fs) && i < |fs.inodes| && k <= NDIRECT && b < fs.sb.size
    requires fs.inodes[i].addrs[k] == 0 && fs.blocks[b] == ZeroBlock()
    ensures InBounds(Claimed(fs, i, k, b))
    ensures forall j, l :: 0 <= j < |fs.inodes| && 0 <= l < NSLOT ==>
              Slot(fs.blocks, Claimed(fs, i, k, b).inodes[j], l) == if j == i && l == k then b else Slot(fs.blocks, fs.inodes[j], l)
  {
    forall l: nat | l < NINDIRECT ensures Word(ZeroBlock(), l) == 0 { }
  }

  lemma ClaimedKeeps(fs: Fs, i: nat, k: nat, b: nat)
    requires InBounds(fs) && Owned(fs) && i < |fs.inodes| && k <= NDIRECT
    requires fs.sb.datastart <= b < fs.sb.size && b !in fs.owner
    requires fs.inodes[i].addrs[k] == 0 && fs.blocks[b] == ZeroBlock()
    ensures InBounds(Claimed(fs, i, k, b)) && Owned(Claimed(fs, i, k, b))
  {
    assert Slot(fs.blocks, fs.inodes[i], k) == 0;
    hide Slot, Word, PutWord;
    ClaimedSlots(fs, i, k, b);
  }

  lemma ClaimedEntrySlots(fs: Fs, i: nat, j: nat, b: nat)
    requires InBounds(fs) && Owned(fs) && i < |fs.inodes| && j < NINDIRECT && b < fs.sb.size
    requires fs.inodes[i].addrs[NDIRECT] != 0
    ensures InBounds(ClaimedEntry(fs, i, j, b))
    ensures forall m, l :: 0 <= m < |fs.inodes| && 0 <= l < NSLOT ==>
              Slot(ClaimedEntry(fs, i, j, b).blocks, fs.inodes[m], l)
              == if m == i && l == NDIRECT + 1 + j then b else Slot(fs.blocks, fs.inodes[m], l)
  {
    var t, a := ClaimedEntry(fs, i, j, b), fs.inodes[i].addrs[NDIRECT];
    assert a == Slot(fs.blocks, fs.inodes[i], NDIRECT);
    forall m, l | 0 <= m < |fs.inodes| && 0 <= l < NSLOT
      ensures Slot(t.blocks, fs.inodes[m], l)
              == if m == i && l == NDIRECT + 1 + j then b else Slot(fs.blocks, fs.inodes[m], l)
    {
      assert fs.inodes[m].addrs[NDIRECT] == Slot(fs.blocks, fs.inodes[m], NDIRECT);
      if m == i && l > NDIRECT { WordOfPut(fs.blocks[a], j, b, l - NDIRECT - 1); }
    }
  }

  lemma ClaimedEntryKeeps(fs: Fs, i: nat, j: nat, b: nat)
    requires InBounds(fs) && Owned(fs) && i < |fs.inodes| && j < NINDIRECT
    requires fs.sb.datastart <= b < fs.sb.size && b !in fs.owner
    requires fs.inodes[i].addrs[NDIRECT] != 0 && Slot(fs.blocks, fs.inodes[i], NDIRECT + 1 + j) == 0
    ensures InBounds(ClaimedEntry(fs, i, j, b)) && Owned(ClaimedEntry(fs, i, j, b))
  {
    hide Slot, Word, PutWord;
    ClaimedEntrySlots(fs, i, j, b);
  }

  // ---- growing a file ----

  predicate Sound(fs: Fs) {
    InBounds(fs) && Owned(fs) && Mapped(fs)
  }

  /** t is fs with more blocks in inode i: every filled slot stays filled with the
      same block, every data block keeps its bytes, other inodes are untouched. */
  predicate Grown(fs: Fs, t: Fs, i: nat) {
    && InBounds(fs) && InBounds(t) && t.sb == fs.sb
    && (forall j :: 0 <= j < |fs.inodes| ==> t.inodes[j].size == fs.inodes[j].size)
    && (forall j :: 0 <= j < |fs.inodes| && j != i ==> t.inodes[j] == fs.inodes[j])
    && (forall j, k :: 0 <= j < |fs.inodes| && 0 <= k < NSLOT && (j != i || Slot(fs.blocks, fs.inodes[j], k) != 0) ==>
          Slot(t.blocks, t.inodes[j], k) == Slot(fs.blocks, fs.inodes[j], k))
    && (forall b :: b in fs.owner ==> b in t.owner && t.owner[b] == fs.owner[b])
    && (forall b :: b in fs.owner && b < |fs.blocks| && fs.owner[b].1 != NDIRECT ==> t.blocks[b] == fs.blocks[b])
  }

  predicate WellOwned(fs: Fs) {
    InBounds(fs) && Owned(fs)
  }

  lemma GrownReflexive(fs: Fs, i: nat)
    requires WellOwned(fs)
    ensures Grown(fs, fs, i)
  {
    hide Slot;
  }

  lemma GrownTransitive(fs: Fs, t: Fs, u: Fs, i: nat)
    requires WellOwned(fs) && Grown(fs, t, i) && Grown(t, u, i)
    ensures Grown(fs, u, i)
  {
    hide Slot, Word, PutWord;
  }

  lemma GrownOwners(fs: Fs, t: Fs, i: nat)
    requires Grown(fs, t, i)
    ensures |t.inodes| == |fs.inodes| && forall b :: b in fs.owner ==> b in t.owner && t.owner[b] == fs.owner[b]
  {
  }

  lemma ClaimedGrows(m: Fs, i: nat, k: nat, b: nat)
    requires WellOwned(m) && i < |m.inodes| && k <= NDIRECT && m.inodes[i].addrs[k] == 0
    requires m.sb.datastart <= b < m.sb.size && b !in m.owner && m.blocks[b] == ZeroBlock()
    ensures Grown(m, Claimed(m, i, k, b), i)
  {
    assert Slot(m.blocks, m.inodes[i], k) == 0;
    hide Slot, Word, PutWord;
    ClaimedSlots(m, i, k, b);
  }

  /** balloc followed by ip->addrs[k] = b. */
  lemma AllocSlot(fs: Fs, i: nat, k: nat, b: nat)
    requires Sound(fs) && i < |fs.inodes| && k <= NDIRECT && fs.inodes[i].addrs[k] == 0
    requires fs.sb.datastart <= b < fs.sb.size && !InUse(fs, b)
    ensures var t := Claimed(Allocated(fs, b), i, k, b);
            Sound(t) && Grown(fs, t, i) && Slot(t.blocks, t.inodes[i], k) == b
  {
    hide Word, PutWord, Flip, Bit;
    var m := Allocated(fs, b);
    var t := Claimed(m, i, k, b);
    AllocatedKeeps(fs, b);
    AllocatedBits(fs, b);
    ClaimedKeeps(m, i, k, b);
    assert Mapped(t) by { SameBits(m, t); }
    assert Grown(fs, t, i) by {
      AllocatedGrows(fs, i, b);
      ClaimedGrows(m, i, k, b);
      GrownTransitive(fs, m, t, i);
    }
  }

  lemma ClaimedEntryGrows(m: Fs, i: nat, j: nat, b: nat)
    requires WellOwned(m) && i < |m.inodes| && j < NINDIRECT
    requires m.sb.datastart <= b < m.sb.size && b !in m.owner
    requires m.inodes[i].addrs[NDIRECT] != 0 && Slot(m.blocks, m.inodes[i], NDIRECT + 1 + j) == 0
    ensures Grown(m, ClaimedEntry(m, i, j, b), i)
    ensures forall c :: 0 <= c < m.sb.datastart ==> ClaimedEntry(m, i, j, b).blocks[c] == m.blocks[c]
  {
    hide Word, PutWord, Flip, Bit;
    ClaimedEntrySlots(m, i, j, b);
    assert m.inodes[i].addrs[NDIRECT] == Slot(m.blocks, m.inodes[i], NDIRECT);
  }

  lemma AllocatedGrows(fs: Fs, i: nat, b: nat)
    requires WellOwned(fs) && fs.sb.datastart <= b < fs.sb.size && b !in fs.owner
    ensures Grown(fs, Allocated(fs, b), i)
  {
    hide Slot, Word, PutWord;
    AllocatedKeeps(fs, b);
  }

  /** balloc followed by a[j] = b in the indirect block. */
  lemma AllocEntry(fs: Fs, i: nat, j: nat, b: nat)
    requires Sound(fs) && i < |fs.inodes| && j < NINDIRECT
    requires fs.inodes[i].addrs[NDIRECT] != 0 && Slot(fs.blocks, fs.inodes[i], NDIRECT + 1 + j) == 0
    requires fs.sb.datastart <= b < fs.sb.size && !InUse(fs, b)
    ensures var t := ClaimedEntry(Allocated(fs, b), i, j, b);
            Sound(t) && Grown(fs, t, i) && Slot(t.blocks, t.inodes[i], NDIRECT + 1 + j) == b
  {
    hide Word, PutWord, Flip, Bit, Slot;
    var m := Allocated(fs, b);
    var t := ClaimedEntry(m, i, j, b);
    AllocatedKeeps(fs, b);
    AllocatedBits(fs, b);
    assert Slot(m.blocks, m.inodes[i], NDIRECT + 1 + j) == 0;
    ClaimedEntryKeeps(m, i, j, b);
    assert Slot(t.blocks, t.inodes[i], NDIRECT + 1 + j) == b by { ClaimedEntrySlots(m, i, j, b); }
    assert Mapped(t) by {
      ClaimedEntryGrows(m, i, j, b);
      SameBits(m, t);
    }
    assert Grown(fs, t, i) by {
      AllocatedGrows(fs, i, b);
      ClaimedEntryGrows(m, i, j, b);
      GrownTransitive(fs, m, t, i);
    }
  }

  /** Slots of inode i other than ks are as they were. */
  predicate SlotsBut(fs: Fs, t: Fs, i: nat, ks: set<nat>) {
    && InBounds(fs) && InBounds(t) && i < |fs.inodes| == |t.inodes|
    && forall m :: 0 <= m < NSLOT && m !in ks ==> Slot(t.blocks, t.inodes[i], m) == Slot(fs.blocks, fs.inodes[i], m)
  }

  lemma SlotsButTwice(fs: Fs, t: Fs, u: Fs, i: nat, ks: set<nat>, ls: set<nat>)
    requires SlotsBut(fs, t, i, ks) && SlotsBut(t, u, i, ls)
    ensures SlotsBut(fs, u, i, ks + ls)
  {
    hide Slot, InBounds;
  }

  lemma SlotsButMore(fs: Fs, t: Fs, i: nat, ks: set<nat>, ls: set<nat>)
    requires SlotsBut(fs, t, i, ks) && ks <= ls
    ensures SlotsBut(fs, t, i, ls)
  {
  }

  lemma SlotKept(fs: Fs, t: Fs, i: nat, ks: set<nat>, m: nat)
    requires SlotsBut(fs, t, i, ks) && m < NSLOT && m !in ks
    ensures Slot(t.blocks, t.inodes[i], m) == Slot(fs.blocks, fs.inodes[i], m)
  {
  }

  lemma AllocSlotOthers(fs: Fs, i: nat, k: nat, b: nat)
    requires WellOwned(fs) && i < |fs.inodes| && k <= NDIRECT && fs.inodes[i].addrs[k] == 0
    requires fs.sb.datastart <= b < fs.sb.size && b !in fs.owner
    ensures SlotsBut(fs, Claimed(Allocated(fs, b), i, k, b), i, {k})
  {
    hide Slot, Word, PutWord, Owned;
    AllocatedKeeps(fs, b);
    ClaimedSlots(Allocated(fs, b), i, k, b);
  }

  lemma AllocEntryOthers(fs: Fs, i: nat, j: nat, b: nat)
    requires WellOwned(fs) && i < |fs.inodes| && j < NINDIRECT && fs.inodes[i].addrs[NDIRECT] != 0
    requires fs.sb.datastart <= b < fs.sb.size && b !in fs.owner
    ensures Allocated(fs, b).inodes == fs.inodes && |Allocated(fs, b).blocks| == |fs.blocks|
    ensures SlotsBut(fs, ClaimedEntry(Allocated(fs, b), i, j, b), i, {NDIRECT + 1 + j})
  {
    hide Slot, Word, PutWord, Owned;
    AllocatedKeeps(fs, b);
    AllocatedLength(fs, b);
    ClaimedEntrySlots(Allocated(fs, b), i, j, b);
  }

  /** The free map is read from metadata blocks only. */
  lemma SameBits(fs: Fs, t: Fs)
    requires InBounds(fs) && InBounds(t) && t.sb == fs.sb
    requires forall c :: 0 <= c < fs.sb.datastart ==> t.blocks[c] == fs.blocks[c]
    ensures forall c :: 0 <= c < fs.sb.size ==> InUse(t, c) == InUse(fs, c)
  {
    forall c | 0 <= c < fs.sb.size ensures InUse(t, c) == InUse(fs, c) {
      BitmapIsMeta(fs.sb, c);
    }
  }

  // ---- contents ----

  lemma BlockIndex(o: nat)
    requires o < MAXBYTES
    ensures o / BSIZE < MAXFILE && o / BSIZE * BSIZE <= o
  {
  }

  /** Byte o of inode i, through the direct or indirect slot of its block. */
  function ByteAt(fs: Fs, i: nat, o: nat): byte
    requires InBounds(fs) && Owned(fs) && i < |fs.inodes| && o < MAXBYTES
  {
    BlockIndex(o);
    fs.blocks[Slot(fs.blocks, fs.inodes[i], DataSlot(o / BSIZE))][o % BSIZE]
  }

  /** The file: one byte sequence as long as the inode says. */
  function Content(fs: Fs, i: nat): (c: seq<byte>)
    requires Valid(fs) && i < |fs.inodes|
    ensures |c| == fs.inodes[i].size
  {
    assert NoHole(fs, i);
    seq(fs.inodes[i].size, o requires 0 <= o < fs.inodes[i].size => ByteAt(fs, i, o))
  }

  lemma GrownBytes(fs: Fs, t: Fs, i: nat, j: nat, o: nat)
    requires WellOwned(fs) && WellOwned(t) && Grown(fs, t, i) && j < |fs.inodes| && o < MAXBYTES
    requires Slot(fs.blocks, fs.inodes[j], DataSlot(o / BSIZE)) != 0
    ensures ByteAt(t, j, o) == ByteAt(fs, j, o)
  {
    hide Word, PutWord, Flip, Bit;
    BlockIndex(o);
  }

  /** Growing files changes no contents and opens no holes. */
  lemma GrownContent(fs: Fs, t: Fs, i: nat)
    requires Valid(fs) && Sound(t) && Grown(fs, t, i)
    ensures Valid(t) && forall j :: 0 <= j < |fs.inodes| ==> Content(t, j) == Content(fs, j)
  {
    hide Word, PutWord, Flip, Bit;
    forall j | 0 <= j < |fs.inodes| ensures NoHole(t, j) { assert NoHole(fs, j); }
    forall j | 0 <= j < |fs.inodes| ensures Content(t, j) == Content(fs, j) {
      assert NoHole(fs, j);
      forall o | 0 <= o < fs.inodes[j].size ensures ByteAt(t, j, o) == ByteAt(fs, j, o) {
        BlockIndex(o);
        GrownBytes(fs, t, i, j, o);
      }
    }
  }

  /** blk with bytes copied in at offset at. */
  function Patch(blk: Block, at: nat, bytes: seq<byte>): (r: Block)
    requires at + |bytes| <= BSIZE
    ensures forall x :: 0 <= x < BSIZE ==> r[x] == if at <= x < at + |bytes| then bytes[x - at] else blk[x]
  {
    blk[..at] + bytes + blk[at + |bytes|..]
  }

  lemma OffsetInBlock(bn: nat, at: nat, len: nat, o: nat)
    requires at + len <= BSIZE && o < MAXBYTES
    ensures o / BSIZE == bn ==> o == bn * BSIZE + o % BSIZE
    ensures bn * BSIZE + at <= o < bn * BSIZE + at + len ==> o / BSIZE == bn
  {
  }

  /** Copying into the block of file block bn changes those bytes of that file and nothing else. */
  lemma PatchBytes(fs: Fs, i: nat, bn: nat, at: nat, bytes: seq<byte>, j: nat, o: nat)
    requires WellOwned(fs) && i < |fs.inodes| && bn < MAXFILE && at + |bytes| <= BSIZE
    requires j < |fs.inodes| && o < MAXBYTES
    requires Slot(fs.blocks, fs.inodes[i], DataSlot(bn)) != 0 && Slot(fs.blocks, fs.inodes[j], DataSlot(o / BSIZE)) != 0
    ensures var b := Slot(fs.blocks, fs.inodes[i], DataSlot(bn));
            var t := WithData(fs, b, Patch(fs.blocks[b], at, bytes));
            WellOwned(t) && ByteAt(t, j, o) == if j == i && bn * BSIZE + at <= o < bn * BSIZE + at + |bytes|
              then bytes[o - bn * BSIZE - at] else ByteAt(fs, j, o)
  {
    var b := Slot(fs.blocks, fs.inodes[i], DataSlot(bn));
    WithDataKeeps(fs, b, Patch(fs.blocks[b], at, bytes));
    BlockIndex(o);
    OffsetInBlock(bn, at, |bytes|, o);
    if Slot(fs.blocks, fs.inodes[j], DataSlot(o / BSIZE)) == b {
      SingleOwner(fs, i, DataSlot(bn), j, DataSlot(o / BSIZE));
    }
  }

  /** t is fs while data is being written into inode i at off: blocks are in place
      for the first hi bytes, which read as the old bytes with data laid over them. */
  predicate Wrote(fs: Fs, t: Fs, i: nat, off: nat, data: seq<byte>, hi: nat)
    requires WellOwned(fs)
  {
    && Sound(t) && t.sb == fs.sb && i < |fs.inodes| && hi <= MAXBYTES
    && (forall j :: 0 <= j < |fs.inodes| ==> t.inodes[j].size == fs.inodes[j].size)
    && (forall j :: 0 <= j < |fs.inodes| && j != i ==> t.inodes[j] == fs.inodes[j] && NoHole(t, j))
    && (forall j, o :: 0 <= j < |fs.inodes| && j != i && 0 <= o < fs.inodes[j].size && o < MAXBYTES ==>
          ByteAt(t, j, o) == ByteAt(fs, j, o))
    && (forall bn :: 0 <= bn < MAXFILE && bn * BSIZE < hi ==> Slot(t.blocks, t.inodes[i], DataSlot(bn)) != 0)
    && (forall o :: 0 <= o < hi ==>
          ByteAt(t, i, o) == if off <= o < off + |data| then data[o - off] else ByteAt(fs, i, o))
  }

  lemma WroteSound(fs: Fs, t: Fs, i: nat, off: nat, data: seq<byte>, hi: nat)
    requires WellOwned(fs) && Wrote(fs, t, i, off, data, hi)
    ensures Sound(t) && t.sb == fs.sb && |t.inodes| == |fs.inodes| && t.inodes[i].size == fs.inodes[i].size && hi <= MAXBYTES
    ensures forall j :: 0 <= j < |fs.inodes| && j != i ==> t.inodes[j] == fs.inodes[j]
  {
  }

  lemma WroteNothing(fs: Fs, i: nat, off: nat)
    requires Valid(fs) && i < |fs.inodes|
    ensures Wrote(fs, fs, i, off, [], fs.inodes[i].size)
  {
    assert NoHole(fs, i);
  }

  /** Allocating the next block on the way disturbs nothing written so far. */
  lemma WroteGrown(fs: Fs, t: Fs, u: Fs, i: nat, off: nat, data: seq<byte>, hi: nat)
    requires WellOwned(fs) && Wrote(fs, t, i, off, data, hi) && Sound(u) && Grown(t, u, i)
    ensures Wrote(fs, u, i, off, data, hi)
  {
    hide Slot;
    forall j | 0 <= j < |fs.inodes| && j != i ensures NoHole(u, j) { assert NoHole(t, j); }
    forall j, o | 0 <= j < |fs.inodes| && j != i && 0 <= o < fs.inodes[j].size && o < MAXBYTES
      ensures ByteAt(u, j, o) == ByteAt(fs, j, o)
    {
      assert NoHole(t, j);
      BlockIndex(o);
      GrownBytes(t, u, i, j, o);
    }
    forall o | 0 <= o < hi ensures ByteAt(u, i, o) == ByteAt(t, i, o) {
      BlockIndex(o);
      GrownBytes(t, u, i, i, o);
    }
  }

  /** Patching inode i's block leaves the other files as they were. */
  lemma PatchOthers(t: Fs, i: nat, bn: nat, at: nat, bytes: seq<byte>, j: nat)
    requires Sound(t) && i < |t.inodes| && bn < MAXFILE && at + |bytes| <= BSIZE
    requires Slot(t.blocks, t.inodes[i], DataSlot(bn)) != 0
    requires j < |t.inodes| && j != i && NoHole(t, j)
    ensures var b := Slot(t.blocks, t.inodes[i], DataSlot(bn));
            var u := WithData(t, b, Patch(t.blocks[b], at, bytes));
            && WellOwned(u) && NoHole(u, j)
            && forall o :: 0 <= o < t.inodes[j].size ==> ByteAt(u, j, o) == ByteAt(t, j, o)
  {
    hide Word, Patch;
    var b := Slot(t.blocks, t.inodes[i], DataSlot(bn));
    var u := WithData(t, b, Patch(t.blocks[b], at, bytes));
    WithDataKeeps(t, b, Patch(t.blocks[b], at, bytes));
    forall o | 0 <= o < t.inodes[j].size ensures ByteAt(u, j, o) == ByteAt(t, j, o) {
      BlockIndex(o);
      PatchBytes(t, i, bn, at, bytes, j, o);
    }
  }

  lemma PatchSound(t: Fs, b: nat, data: Block)
    requires Sound(t) && b in t.owner && t.owner[b].1 != NDIRECT
    ensures Sound(WithData(t, b, data))
  {
    hide Slot, InUse;
    WithDataKeeps(t, b, data);
    SameBits(t, WithData(t, b, data));
  }

  lemma BlockOfSlot(t: Fs, i: nat, bn: nat)
    requires WellOwned(t) && i < |t.inodes| && bn < MAXFILE && Slot(t.blocks, t.inodes[i], DataSlot(bn)) != 0
    ensures var b := Slot(t.blocks, t.inodes[i], DataSlot(bn));
            b < |t.blocks| && b in t.owner && t.owner[b] == (i, DataSlot(bn)) && DataSlot(bn) != NDIRECT
  {
  }

  lemma CoveredBlocks(c: nat, bn: nat, at: nat, len: nat, hi: nat, hi': nat)
    requires bn * BSIZE + at <= hi <= hi' && at + len <= BSIZE
    requires hi' == hi || hi' <= bn * BSIZE + at + len
    requires c * BSIZE < hi'
    ensures c * BSIZE < hi || c == bn
  {
  }

  lemma PatchSlots(t: Fs, i: nat, bn: nat, data: Block)
    requires WellOwned(t) && i < |t.inodes| && bn < MAXFILE && Slot(t.blocks, t.inodes[i], DataSlot(bn)) != 0
    ensures var b := Slot(t.blocks, t.inodes[i], DataSlot(bn));
            b < |t.blocks| && SlotsBut(t, WithData(t, b, data), i, {})
  {
    hide Word;
    BlockOfSlot(t, i, bn);
    WithDataKeeps(t, Slot(t.blocks, t.inodes[i], DataSlot(bn)), data);
  }

  /** One chunk: off plus what is written so far is offset at of file block bn. */
  lemma WrotePatch(fs: Fs, t: Fs, i: nat, off: nat, data: seq<byte>, hi: nat, bn: nat, at: nat, bytes: seq<byte>, hi': nat)
    requires WellOwned(fs) && Wrote(fs, t, i, off, data, hi)
    requires off + |data| == bn * BSIZE + at <= hi && bn < MAXFILE && at + |bytes| <= BSIZE
    requires hi <= hi' <= MAXBYTES && (hi' == hi || hi' <= off + |data| + |bytes|)
    requires Slot(t.blocks, t.inodes[i], DataSlot(bn)) != 0
    ensures var b := Slot(t.blocks, t.inodes[i], DataSlot(bn));
            Wrote(fs, WithData(t, b, Patch(t.blocks[b], at, bytes)), i, off, data + bytes, hi')
  {
    hide Slot, Word, Patch, ByteAt, InUse, Owned, Mapped;
    var b := Slot(t.blocks, t.inodes[i], DataSlot(bn));
    BlockOfSlot(t, i, bn);
    var u := WithData(t, b, Patch(t.blocks[b], at, bytes));
    PatchSound(t, b, Patch(t.blocks[b], at, bytes));
    WithDataKeeps(t, b, Patch(t.blocks[b], at, bytes));
    forall j | 0 <= j < |fs.inodes| && j != i
      ensures NoHole(u, j) && forall o :: 0 <= o < fs.inodes[j].size && o < MAXBYTES ==> ByteAt(u, j, o) == ByteAt(fs, j, o)
    {
      PatchOthers(t, i, bn, at, bytes, j);
    }
    forall c | 0 <= c < MAXFILE && c * BSIZE < hi' ensures Slot(u.blocks, u.inodes[i], DataSlot(c)) != 0 {
      CoveredBlocks(c, bn, at, |bytes|, hi, hi');
    }
    forall o | 0 <= o < hi'
      ensures ByteAt(u, i, o) == if off <= o < off + |data + bytes| then (data + bytes)[o - off] else ByteAt(fs, i, o)
    {
      BlockIndex(o);
      CoveredBlocks(o / BSIZE, bn, at, |bytes|, hi, hi');
      PatchBytes(t, i, bn, at, bytes, i, o);
    }
  }

  /** old with data laid over it at off, cut or extended to n bytes. */
  function Splice(old_: seq<byte>, off: nat, data: seq<byte>, n: nat): (r: seq<byte>)
    requires n <= |old_| || n <= off + |data|
    requires off <= |old_|
    ensures |r| == n
    ensures forall o :: 0 <= o < n ==> r[o] == if off <= o < off + |data| then data[o - off] else old_[o]
  {
    seq(n, o requires 0 <= o < n => if off <= o < off + |data| then data[o - off] else old_[o])
  }

  function WithSize(fs: Fs, i: nat, n: nat): Fs
    requires i < |fs.inodes|
  {
    Fs(fs.sb, fs.blocks, fs.inodes[i := Inode(fs.inodes[i].addrs, n)], fs.owner)
  }

  /** Setting the size makes the written bytes the file. */
  lemma WroteDone(fs: Fs, t: Fs, i: nat, off: nat, data: seq<byte>, n: nat)
    requires Valid(fs) && Wrote(fs, t, i, off, data, n)
    requires off <= fs.inodes[i].size <= n && (n == fs.inodes[i].size || n <= off + |data|)
    ensures var u := WithSize(t, i, n);
            && Valid(u)
            && Content(u, i) == Splice(Content(fs, i), off, data, n)
            && forall j :: 0 <= j < |fs.inodes| && j != i ==> Content(u, j) == Content(fs, j)
  {
    hide Slot, Word, InUse, ByteAt;
    var u := WithSize(t, i, n);
    WroteValid(fs, t, i, off, data, n);
    WithSizeKeeps(t, i, n);
    assert NoHole(fs, i);
    assert Content(u, i) == Splice(Content(fs, i), off, data, n) by {
      forall o | 0 <= o < n ensures Content(u, i)[o] == Splice(Content(fs, i), off, data, n)[o] {
        assert ByteAt(u, i, o) == ByteAt(t, i, o);
      }
    }
    forall j | 0 <= j < |fs.inodes| && j != i ensures Content(u, j) == Content(fs, j) {
      assert NoHole(fs, j);
      forall o | 0 <= o < fs.inodes[j].size ensures ByteAt(u, j, o) == ByteAt(fs, j, o) {
        assert ByteAt(u, j, o) == ByteAt(t, j, o);
      }
    }
  }

  lemma WroteValid(fs: Fs, t: Fs, i: nat, off: nat, data: seq<byte>, n: nat)
    requires WellOwned(fs) && Wrote(fs, t, i, off, data, n)
    ensures Valid(WithSize(t, i, n))
  {
    hide Word, InUse, ByteAt;
    WithSizeKeeps(t, i, n);
    var u := WithSize(t, i, n);
    forall j | 0 <= j < |fs.inodes| && j != i ensures NoHole(u, j) { assert NoHole(t, j); }
    assert NoHole(u, i);
  }

  lemma WithSizeKeeps(t: Fs, i: nat, n: nat)
    requires Sound(t) && i < |t.inodes|
    ensures Sound(WithSize(t, i, n))
    ensures forall j, o :: 0 <= j < |t.inodes| && 0 <= o < MAXBYTES ==>
              ByteAt(WithSize(t, i, n), j, o) == ByteAt(t, j, o)
    ensures forall c :: 0 <= c < t.sb.size ==> InUse(WithSize(t, i, n), c) == InUse(t, c)
  {
    var u := WithSize(t, i, n);
    assert forall j, k :: 0 <= j < |t.inodes| && 0 <= k < NSLOT ==>
              Slot(u.blocks, u.inodes[j], k) == Slot(t.blocks, t.inodes[j], k);
    SameBits(t, u);
  }

  /** Within a file's size a block holds the file's bytes. */
  lemma BlockBytes(fs: Fs, i: nat, bn: nat, at: nat, m: nat)
    requires Valid(fs) && i < |fs.inodes| && at + m <= BSIZE && m > 0
    requires bn * BSIZE + at + m <= fs.inodes[i].size
    ensures bn < MAXFILE
    ensures var b := Slot(fs.blocks, fs.inodes[i], DataSlot(bn));
            0 < b < |fs.blocks| && fs.blocks[b][at..at + m] == Content(fs, i)[bn * BSIZE + at..bn * BSIZE + at + m]
  {
    hide Word, Slot, ByteAt, Owned, Mapped, Content;
    assert NoHole(fs, i);
    var pos := bn * BSIZE + at;
    assert bn < MAXFILE && bn * BSIZE < fs.inodes[i].size;
    var b := Slot(fs.blocks, fs.inodes[i], DataSlot(bn));
    BlockOfSlot(fs, i, bn);
    var got, want := fs.blocks[b][at..at + m], Content(fs, i)[pos..pos + m];
    forall x | 0 <= x < m ensures got[x] == want[x] {
      ContentByte(fs, i, bn, at + x);
    }
  }

  lemma ContentByte(fs: Fs, i: nat, bn: nat, x: nat)
    requires Valid(fs) && i < |fs.inodes| && x < BSIZE && bn < MAXFILE && bn * BSIZE + x < fs.inodes[i].size
    requires Slot(fs.blocks, fs.inodes[i], DataSlot(bn)) < |fs.blocks|
    ensures Content(fs, i)[bn * BSIZE + x] == fs.blocks[Slot(fs.blocks, fs.inodes[i], DataSlot(bn))][x]
  {
    hide Word, Slot;
    assert NoHole(fs, i);
    OffsetInBlock(bn, x, 1, bn * BSIZE + x);
  }

  lemma SpliceNothing(c: seq<byte>, off: nat)
    requires off <= |c|
    ensures Splice(c, off, [], |c|) == c
  {
  }

  /** Writing a then b behind it is writing a + b. */
  lemma SpliceTwice(c: seq<byte>, off: nat, a: seq<byte>, n: nat, b: seq<byte>, n': nat)
    requires off <= |c| && (n <= |c| || n <= off + |a|) && off + |a| <= n <= n' && |c| <= n
    requires n' <= n || n' <= off + |a| + |b|
    ensures Splice(Splice(c, off, a, n), off + |a|, b, n') == Splice(c, off, a + b, n')
  {
  }

  // ---- truncation ----

  /** c belongs to a slot of inode i that itrunc has already been through:
      direct slots below p, indirect entries below q. */
  ghost predicate Released(fs: Fs, i: nat, p: nat, q: nat, c: nat) {
    c in fs.owner && fs.owner[c].0 == i && (fs.owner[c].1 < p || NDIRECT < fs.owner[c].1 < q)
  }

  /** The free map of t is that of fs without the released blocks; all other blocks are untouched. */
  ghost predicate Releasing(fs: Fs, t: Fs, i: nat, p: nat, q: nat) {
    && InBounds(fs) && InBounds(t) && t.sb == fs.sb
    && (forall c :: 0 <= c < fs.sb.size && !(fs.sb.bmapstart <= c < fs.sb.datastart) ==> t.blocks[c] == fs.blocks[c])
    && (forall c :: 0 <= c < fs.sb.size ==> (InUse(t, c) <==> InUse(fs, c) && !Released(fs, i, p, q, c)))
  }

  /** Passing slot k, whether it was empty or its block was just freed, extends what is released. */
  lemma ReleaseNext(fs: Fs, t: Fs, u: Fs, i: nat, p: nat, q: nat, p': nat, q': nat, k: nat)
    requires Sound(fs) && Releasing(fs, t, i, p, q) && i < |fs.inodes| && k < NSLOT
    requires (k == p <= NDIRECT && p' == p + 1 && q' == q && (k < NDIRECT || q == NSLOT)) || (k == q > NDIRECT && q' == q + 1 && p' == p <= NDIRECT)
    requires InBounds(u) && u.sb == fs.sb
    requires forall c :: 0 <= c < fs.sb.size && !(fs.sb.bmapstart <= c < fs.sb.datastart) ==> u.blocks[c] == t.blocks[c]
    requires forall c :: 0 <= c < fs.sb.size ==>
               InUse(u, c) == (InUse(t, c) && (Slot(fs.blocks, fs.inodes[i], k) == 0 || c != Slot(fs.blocks, fs.inodes[i], k)))
    ensures Releasing(fs, u, i, p', q')
  {
    hide Slot, InUse;
  }

  /** The block in a slot not yet passed is still marked in use: freeing it cannot panic. */
  lemma NotYetReleased(fs: Fs, t: Fs, i: nat, p: nat, q: nat, k: nat)
    requires Sound(fs) && Releasing(fs, t, i, p, q) && i < |fs.inodes| && k < NSLOT
    requires k >= p && (k <= NDIRECT || k >= q) && Slot(fs.blocks, fs.inodes[i], k) != 0
    ensures var b := Slot(fs.blocks, fs.inodes[i], k); fs.sb.datastart <= b < fs.sb.size && InUse(t, b)
  {
    hide InUse;
  }

  /** fs with inode i emptied: its slots clear, its blocks disowned. */
  ghost predicate Emptied(fs: Fs, t: Fs, i: nat)
    requires i < |fs.inodes|
  {
    && |t.inodes| == |fs.inodes|
    && (forall k :: 0 <= k <= NDIRECT ==> t.inodes[i].addrs[k] == 0) && t.inodes[i].size == 0
    && (forall j :: 0 <= j < |fs.inodes| && j != i ==> t.inodes[j] == fs.inodes[j])
    && (forall c :: c in t.owner <==> c in fs.owner && fs.owner[c].0 != i)
    && (forall c :: c in t.owner ==> t.owner[c] == fs.owner[c])
  }

  lemma EmptiedSlots(fs: Fs, t: Fs, i: nat)
    requires WellOwned(fs) && i < |fs.inodes| && InBounds(t) && t.sb == fs.sb && Emptied(fs, t, i)
    requires forall c :: fs.sb.datastart <= c < fs.sb.size ==> t.blocks[c] == fs.blocks[c]
    ensures forall j, k :: 0 <= j < |fs.inodes| && 0 <= k < NSLOT ==>
              Slot(t.blocks, t.inodes[j], k) == if j == i then 0 else Slot(fs.blocks, fs.inodes[j], k)
  {
    forall j, k | 0 <= j < |fs.inodes| && 0 <= k < NSLOT
      ensures Slot(t.blocks, t.inodes[j], k) == if j == i then 0 else Slot(fs.blocks, fs.inodes[j], k)
    {
      assert fs.inodes[j].addrs[NDIRECT] == Slot(fs.blocks, fs.inodes[j], NDIRECT);
    }
  }

  /** Once every slot is passed, the emptied inode leaves a valid file system. */
  lemma TruncatedValid(fs: Fs, t: Fs, i: nat)
    requires Valid(fs) && i < |fs.inodes| && Releasing(fs, t, i, NDIRECT + 1, NSLOT) && Emptied(fs, t, i)
    ensures Valid(t) && Content(t, i) == []
    ensures forall j :: 0 <= j < |fs.inodes| && j != i ==> Content(t, j) == Content(fs, j)
  {
    hide Slot, InUse;
    EmptiedSlots(fs, t, i);
    forall j | 0 <= j < |fs.inodes| ensures NoHole(t, j) { assert NoHole(fs, j); }
    forall j | 0 <= j < |fs.inodes| && j != i ensures Content(t, j) == Content(fs, j) {
      assert NoHole(fs, j);
      forall o | 0 <= o < fs.inodes[j].size ensures ByteAt(t, j, o) == ByteAt(fs, j, o) {
        BlockIndex(o);
        BlockOfSlot(fs, j, o / BSIZE);
      }
    }
  }

  lemma ReleasedNothing(fs: Fs, i: nat)
    requires InBounds(fs)
    ensures Releasing(fs, fs, i, 0, NDIRECT + 1)
  {
    hide InUse;
  }

  lemma DirectSlot(fs: Fs, i: nat, k: nat)
    requires InBounds(fs) && i < |fs.inodes| && k <= NDIRECT
    ensures Slot(fs.blocks, fs.inodes[i], k) == fs.inodes[i].addrs[k]
  {
  }

  /** Only blocks matter to what is released, not the inodes or owner in hand. */
  lemma SameMap(fs: Fs, t: Fs, u: Fs, i: nat, p: nat, q: nat)
    requires Releasing(fs, t, i, p, q) && InBounds(u) && u.blocks == t.blocks && u.sb == t.sb
    ensures Releasing(fs, u, i, p, q)
  {
    SameBits(t, u);
  }

  lemma NoIndirectBlock(fs: Fs, i: nat, k: nat)
    requires InBounds(fs) && i < |fs.inodes| && NDIRECT < k < NSLOT && fs.inodes[i].addrs[NDIRECT] == 0
    ensures Slot(fs.blocks, fs.inodes[i], k) == 0
  {
  }

  lemma EntrySlot(fs: Fs, i: nat, j: nat)
    requires InBounds(fs) && i < |fs.inodes| && j < NINDIRECT && fs.inodes[i].addrs[NDIRECT] != 0
    ensures Slot(fs.blocks, fs.inodes[i], NDIRECT + 1 + j) == Word(fs.blocks[fs.inodes[i].addrs[NDIRECT]], j)
  {
  }

  lemma IndirectIsData(fs: Fs, i: nat)
    requires WellOwned(fs) && i < |fs.inodes| && fs.inodes[i].addrs[NDIRECT] != 0
    ensures fs.sb.datastart <= fs.inodes[i].addrs[NDIRECT] < fs.sb.size
  {
    DirectSlot(fs, i, NDIRECT);
  }

  /** Without an indirect block there is nothing left to release. */
  lemma NoEntries(fs: Fs, t: Fs, i: nat)
    requires Sound(fs) && i < |fs.inodes| && Releasing(fs, t, i, NDIRECT, NDIRECT + 1)
    requires fs.inodes[i].addrs[NDIRECT] == 0
    ensures Releasing(fs, t, i, NDIRECT + 1, NSLOT)
  {
    hide InUse, Word;
  }

  lemma AllReleased(fs: Fs, t: Fs, i: nat)
    requires Sound(fs) && i < |fs.inodes| && Releasing(fs, t, i, NDIRECT + 1, NSLOT)
    ensures forall c :: 0 <= c < fs.sb.size ==>
              (InUse(t, c) <==> InUse(fs, c) && !(c in fs.owner && fs.owner[c].0 == i))
  {
    hide InUse, Slot;
  }
}
