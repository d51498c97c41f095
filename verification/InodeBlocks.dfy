/** The inode blocks: where and how iupdate stores an inode's size and block
    addresses, and what a file system looks like when read back from its disk. */
module InodeBlocks {
  import opened Blocks
  import opened FsState

  const DINODE_WORDS: nat := 16   // sizeof(struct dinode) / sizeof(uint)
  const SIZE_WORD: nat := 2       // type, major, minor and nlink, shorts, come first

  predicate Storable(ino: Inode) {
    ino.size < UINT && forall k :: 0 <= k <= NDIRECT ==> ino.addrs[k] < UINT
  }

  function AddrWords(blk: Block, s: nat): (a: Addrs)
    requires s < IPB
    ensures forall k :: 0 <= k <= NDIRECT ==> a[k] == Word(blk, DINODE_WORDS * s + SIZE_WORD + 1 + k)
  {
    var a := seq(NDIRECT + 1, k requires 0 <= k <= NDIRECT => Word(blk, DINODE_WORDS * s + SIZE_WORD + 1 + k));
    assert forall k :: 0 <= k < |a| ==> a[k] == Word(blk, DINODE_WORDS * s + SIZE_WORD + 1 + k);
    a
  }

  /** The inode in slot s of an inode block. */
  function DinodeAt(blk: Block, s: nat): Inode
    requires s < IPB
  {
    Inode(AddrWords(blk, s), Word(blk, DINODE_WORDS * s + SIZE_WORD))
  }

  /** blk after iupdate has stored the size and the first k addresses into slot s. */
  function Stored(blk: Block, s: nat, ino: Inode, k: nat): Block
    requires s < IPB && Storable(ino) && k <= NDIRECT + 1
  {
    if k == 0 then PutWord(blk, DINODE_WORDS * s + SIZE_WORD, ino.size)
    else PutWord(Stored(blk, s, ino, k - 1), DINODE_WORDS * s + SIZE_WORD + k, ino.addrs[k - 1])
  }

  lemma StoreSize(blk: Block, s: nat, ino: Inode)
    requires s < IPB && Storable(ino)
    ensures Stored(blk, s, ino, 0) == PutWord(blk, DINODE_WORDS * s + SIZE_WORD, ino.size)
  {
  }

  lemma StoreAddr(blk: Block, s: nat, ino: Inode, k: nat)
    requires s < IPB && Storable(ino) && k <= NDIRECT
    ensures Stored(blk, s, ino, k + 1) == PutWord(Stored(blk, s, ino, k), DINODE_WORDS * s + SIZE_WORD + 1 + k, ino.addrs[k])
  {
  }

  lemma {:induction false} StoredWord(blk: Block, s: nat, ino: Inode, k: nat, j: nat)
    requires s < IPB && Storable(ino) && k <= NDIRECT + 1 && j < WORDS
    ensures var at := DINODE_WORDS * s + SIZE_WORD;
            Word(Stored(blk, s, ino, k), j)
            == if j == at then ino.size else if at < j <= at + k then ino.addrs[j - at - 1] else Word(blk, j)
  {
    hide Word, PutWord;
    if k == 0 {
      WordOfPut(blk, DINODE_WORDS * s + SIZE_WORD, ino.size, j);
    } else {
      WordOfPut(Stored(blk, s, ino, k - 1), DINODE_WORDS * s + SIZE_WORD + k, ino.addrs[k - 1], j);
      StoredWord(blk, s, ino, k - 1, j);
    }
  }

  /** Storing an inode stores that inode, and leaves the fifteen others in its block alone. */
  lemma StoredDinode(blk: Block, s: nat, ino: Inode, t: nat)
    requires s < IPB && t < IPB && Storable(ino)
    ensures DinodeAt(Stored(blk, s, ino, NDIRECT + 1), t) == if t == s then ino else DinodeAt(blk, t)
  {
    hide Word, PutWord, Stored;
    var r := Stored(blk, s, ino, NDIRECT + 1);
    StoredWord(blk, s, ino, NDIRECT + 1, DINODE_WORDS * t + SIZE_WORD);
    forall k | 0 <= k <= NDIRECT
      ensures AddrWords(r, t)[k] == if t == s then ino.addrs[k] else AddrWords(blk, t)[k]
    {
      StoredWord(blk, s, ino, NDIRECT + 1, DINODE_WORDS * t + SIZE_WORD + 1 + k);
    }
    if t == s { assert AddrWords(r, t) == ino.addrs; } else { assert AddrWords(r, t) == AddrWords(blk, t); }
  }

  lemma InodeBlockBelowMap(sb: Super, i: nat)
    requires Layout(sb) && i < sb.ninodes
    ensures sb.inodestart <= IBlock(sb, i) < sb.bmapstart < sb.size
  {
    assert i / IPB < (sb.ninodes + IPB - 1) / IPB;
    assert (sb.size + BPB - 1) / BPB > 0;
  }

  /** Inode i as the disk has it. */
  function Dinode(sb: Super, blocks: seq<Block>, i: nat): Inode
    requires Layout(sb) && |blocks| == sb.size && i < sb.ninodes
  {
    InodeBlockBelowMap(sb, i);
    DinodeAt(blocks[IBlock(sb, i)], i % IPB)
  }

  /** The blocks after iupdate of inode i. */
  function Iupdated(fs: Fs, i: nat): (r: seq<Block>)
    requires InBounds(fs) && i < |fs.inodes| && Storable(fs.inodes[i])
    ensures |r| == |fs.blocks|
  {
    InodeBlockBelowMap(fs.sb, i);
    var b := IBlock(fs.sb, i);
    fs.blocks[b := Stored(fs.blocks[b], i % IPB, fs.inodes[i], NDIRECT + 1)]
  }

  /** All inodes as the disk has them. */
  function Dinodes(sb: Super, blocks: seq<Block>): (r: seq<Inode>)
    requires Layout(sb) && |blocks| == sb.size
    ensures |r| == sb.ninodes && forall i :: 0 <= i < sb.ninodes ==> r[i] == Dinode(sb, blocks, i)
  {
    seq(sb.ninodes, i requires 0 <= i < sb.ninodes => Dinode(sb, blocks, i))
  }

  lemma IupdatedDinode(fs: Fs, i: nat, j: nat)
    requires InBounds(fs) && i < |fs.inodes| && Storable(fs.inodes[i]) && j < |fs.inodes|
    ensures Dinode(fs.sb, Iupdated(fs, i), j) == if j == i then fs.inodes[i] else Dinode(fs.sb, fs.blocks, j)
  {
    hide Stored, DinodeAt, Storable;
    InodeBlockBelowMap(fs.sb, i);
    InodeBlockBelowMap(fs.sb, j);
    if IBlock(fs.sb, i) == IBlock(fs.sb, j) {
      assert i == i / IPB * IPB + i % IPB && j == j / IPB * IPB + j % IPB;
      StoredDinode(fs.blocks[IBlock(fs.sb, i)], i % IPB, fs.inodes[i], j % IPB);
    }
  }

  /** iupdate changes the one inode on disk and no block from the free map on. */
  lemma IupdatedDinodes(fs: Fs, i: nat)
    requires InBounds(fs) && i < |fs.inodes| && Storable(fs.inodes[i])
    ensures Dinodes(fs.sb, Iupdated(fs, i)) == Dinodes(fs.sb, fs.blocks)[i := fs.inodes[i]]
    ensures forall c :: 0 <= c < |fs.blocks| && c != IBlock(fs.sb, i) ==> Iupdated(fs, i)[c] == fs.blocks[c]
    ensures fs.sb.inodestart <= IBlock(fs.sb, i) < fs.sb.bmapstart
  {
    hide Dinode;
    InodeBlockBelowMap(fs.sb, i);
    forall j | 0 <= j < |fs.inodes|
      ensures Dinode(fs.sb, Iupdated(fs, i), j) == if j == i then fs.inodes[i] else Dinode(fs.sb, fs.blocks, j)
    {
      IupdatedDinode(fs, i, j);
    }
  }

  /** The inodes on disk are in the inode blocks. */
  lemma SameDinodes(sb: Super, blocks: seq<Block>, blocks': seq<Block>)
    requires Layout(sb) && |blocks| == |blocks'| == sb.size
    requires forall c :: sb.inodestart <= c < sb.bmapstart ==> blocks'[c] == blocks[c]
    ensures Dinodes(sb, blocks') == Dinodes(sb, blocks)
  {
    hide DinodeAt;
    forall i | 0 <= i < sb.ninodes ensures Dinode(sb, blocks', i) == Dinode(sb, blocks, i) {
      InodeBlockBelowMap(sb, i);
    }
  }

  lemma ValidIsStorable(fs: Fs, i: nat)
    requires Valid(fs) && i < |fs.inodes|
    ensures Storable(fs.inodes[i])
  {
    hide Slot, Owned, Mapped;
    assert NoHole(fs, i);
  }

  /** Nothing but the free map and the data blocks matters to what the inodes in memory mean. */
  lemma SameFiles(fs: Fs, blocks: seq<Block>)
    requires Valid(fs) && |blocks| == |fs.blocks|
    requires forall c :: fs.sb.bmapstart <= c < fs.sb.size ==> blocks[c] == fs.blocks[c]
    ensures Valid(WithBlocks(fs, blocks))
    ensures forall i :: 0 <= i < |fs.inodes| ==> Content(WithBlocks(fs, blocks), i) == Content(fs, i)
    ensures forall c :: 0 <= c < fs.sb.size ==> InUse(WithBlocks(fs, blocks), c) == InUse(fs, c)
  {
    hide Bit, Word;
    var t := WithBlocks(fs, blocks);
    SameSlots(fs, t);
    forall c | 0 <= c < fs.sb.size ensures InUse(t, c) == InUse(fs, c) { BitmapIsMeta(fs.sb, c); }
    forall i | 0 <= i < |fs.inodes| ensures NoHole(t, i) { assert NoHole(fs, i); }
    forall i | 0 <= i < |fs.inodes| ensures Content(t, i) == Content(fs, i) { SameContent(fs, t, i); }
  }

  lemma SameSlots(fs: Fs, t: Fs)
    requires WellOwned(fs) && t == WithBlocks(fs, t.blocks) && |t.blocks| == |fs.blocks|
    requires forall c :: fs.sb.bmapstart <= c < fs.sb.size ==> t.blocks[c] == fs.blocks[c]
    ensures WellOwned(t)
    ensures forall i, k :: 0 <= i < |fs.inodes| && 0 <= k < NSLOT ==>
              Slot(t.blocks, t.inodes[i], k) == Slot(fs.blocks, fs.inodes[i], k)
  {
    forall i, k | 0 <= i < |fs.inodes| && 0 <= k < NSLOT
      ensures Slot(t.blocks, t.inodes[i], k) == Slot(fs.blocks, fs.inodes[i], k)
    {
      assert fs.inodes[i].addrs[NDIRECT] == Slot(fs.blocks, fs.inodes[i], NDIRECT);
    }
  }

  lemma SameContent(fs: Fs, t: Fs, i: nat)
    requires Valid(fs) && Valid(t) && t == WithBlocks(fs, t.blocks) && i < |fs.inodes|
    requires forall c :: fs.sb.bmapstart <= c < fs.sb.size ==> t.blocks[c] == fs.blocks[c]
    requires forall k :: 0 <= k < NSLOT ==> Slot(t.blocks, t.inodes[i], k) == Slot(fs.blocks, fs.inodes[i], k)
    ensures Content(t, i) == Content(fs, i)
  {
    hide Slot, Mapped, Owned;
    assert NoHole(fs, i);
    forall o | 0 <= o < fs.inodes[i].size ensures ByteAt(t, i, o) == ByteAt(fs, i, o) {
      BlockIndex(o);
      DataBlock(fs, i, o / BSIZE);
    }
  }

  lemma DataBlock(fs: Fs, i: nat, bn: nat)
    requires WellOwned(fs) && i < |fs.inodes| && bn < MAXFILE && Slot(fs.blocks, fs.inodes[i], DataSlot(bn)) != 0
    ensures fs.sb.bmapstart <= fs.sb.datastart <= Slot(fs.blocks, fs.inodes[i], DataSlot(bn)) < fs.sb.size
  {
    hide Slot;
    BlockOfSlot(fs, i, bn);
  }

  /** What is read back from a disk. */
  ghost function Mounted(sb: Super, blocks: seq<Block>, owner: map<nat, (nat, nat)>): Fs
    requires Layout(sb) && |blocks| == sb.size
  {
    Fs(sb, blocks, Dinodes(sb, blocks), owner)
  }
}
