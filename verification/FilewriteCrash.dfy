/** A crash during filewrite, end to end: the transactions that FsCode writes,
    committed by the log as LogDisk has it on the device, write by write, and
    the file system that is read back after recovery. */
module FilewriteCrash {
  import opened Blocks
  import opened LogDisk
  import opened FsState
  import opened InodeBlocks
  import opened FsCode
  import opened Numbers

  /** The log is in front of the inodes. */
  predicate LogInFront(g: Region, sb: Super) {
    Fits(g, sb.size) && g.start + g.size <= sb.inodestart
  }

  /** hs lists what each transaction logged, in the order of log.lh.block. */
  ghost predicate Listed(txns: seq<Txn>, hs: seq<seq<nat>>) {
    |hs| == |txns| && forall k :: 0 <= k < |txns| ==> NoRepeats(hs[k]) && Elems(hs[k]) == txns[k].logged
  }

  /** The device from end_op's commit on, write by write; an empty transaction writes nothing. */
  ghost function Images(g: Region, d: Disk, view: Disk, h: seq<nat>): seq<Disk> {
    if h != [] && Fits(g, |d|) && |view| == |d| && Loggable(g, |d|, h) then [d] + CommitTrace(g, d, view, h) else [d]
  }

  ghost function After(g: Region, d: Disk, view: Disk, h: seq<nat>): Disk {
    if h != [] && Fits(g, |d|) && |view| == |d| && Loggable(g, |d|, h) then Recovered(g, Logged(g, d, view, h)) else d
  }

  lemma AfterIsLast(g: Region, d: Disk, view: Disk, h: seq<nat>)
    ensures var e := Images(g, d, view, h); After(g, d, view, h) == e[|e| - 1]
  {
    hide CommitTrace, Recovered, Logged, Loggable, Fits;
    if h != [] && Fits(g, |d|) && |view| == |d| && Loggable(g, |d|, h) { TraceEnd(g, d, view, h); }
  }

  lemma TraceEnd(g: Region, d: Disk, view: Disk, h: seq<nat>)
    requires Fits(g, |d|) && |view| == |d| && Loggable(g, |d|, h)
    ensures var e := CommitTrace(g, d, view, h); |e| == 2 * |h| + 2 && e[|e| - 1] == Recovered(g, Logged(g, d, view, h))
  {
    hide Recovered, Logged, Loggable, Fits;
  }

  /** The device before the commit of transaction k. */
  ghost function Device(g: Region, d: Disk, txns: seq<Txn>, hs: seq<seq<nat>>, k: nat): Disk
    requires k <= |txns| == |hs|
  {
    if k == 0 then d else After(g, Device(g, d, txns, hs, k - 1), txns[k - 1].view, hs[k - 1])
  }

  lemma HoldsFits(fs: Fs, t: Fs, i: nat, off: nat, data: seq<byte>)
    requires Valid(fs) && i < |fs.inodes| && Holds(fs, t, i, off, data)
    ensures Valid(t) && t.sb == fs.sb && |t.blocks| == fs.sb.size
  {
    hide Content, Splice, Owned, Mapped, NoHole;
  }

  lemma TxnFits(g: Region, before: seq<Block>, t: Txn, iblock: nat, h: seq<nat>)
    requires TxnOk(before, t, iblock) && LogInFront(g, t.fs.sb) && NoRepeats(h) && Elems(h) == t.logged
    ensures Loggable(g, t.fs.sb.size, h)
  {
    ElemsSize(h);
    forall x | 0 <= x < |h| ensures Home(g, t.fs.sb.size, h[x]) {
      assert h[x] in Elems(h);
    }
  }

  lemma TransactionsFit(g: Region, fs: Fs, i: nat, off: nat, src: seq<byte>, txns: seq<Txn>, hs: seq<seq<nat>>, k: nat)
    requires Valid(fs) && i < |fs.inodes| && Durable(fs, i, off, src, txns) && LogInFront(g, fs.sb) && Listed(txns, hs)
    requires k < |txns|
    ensures TxnOk(Before(fs, txns, k), txns[k], IBlock(fs.sb, i)) && Loggable(g, fs.sb.size, hs[k])
    ensures Valid(txns[k].fs) && txns[k].fs.sb == fs.sb && |txns[k].view| == |txns[k].fs.blocks| == |Before(fs, txns, k)| == fs.sb.size
  {
    hide Valid, Holds, Before, NoRepeats, Elems, LogInFront, Loggable;
    assert DurableAt(fs, i, off, src, txns, k);
    HoldsFits(fs, txns[k].fs, i, off, src[..txns[k].done]);
    TxnFits(g, Before(fs, txns, k), txns[k], IBlock(fs.sb, i), hs[k]);
  }

  /** An image without a transaction in its log that has the given home blocks. */
  ghost predicate Clean(g: Region, d: Disk, blocks: seq<Block>) {
    ImageOk(g, d) && Header(g, d) == [] && SameHome(g, d, blocks)
  }

  lemma MergedIs(g: Region, d: Disk, before: seq<Block>, t: Txn, iblock: nat, h: seq<nat>)
    requires SameHome(g, d, before) && TxnOk(before, t, iblock) && Elems(h) == t.logged
    ensures |t.view| == |d| && SameHome(g, Merged(d, t.view, h), t.fs.blocks)
  {
    hide Home, InBudget;
    assert forall b :: b in h <==> b in Elems(h);
  }

  lemma SameHomeTwice(g: Region, d: Disk, e: Disk, f: Disk)
    requires SameHome(g, d, e) && SameHome(g, e, f)
    ensures SameHome(g, d, f)
  {
    hide Home;
  }

  /** While a transaction commits, recovery gives the disk before it or the disk after it. */
  lemma CommitRecovers(g: Region, d: Disk, before: seq<Block>, t: Txn, iblock: nat, h: seq<nat>, j: nat)
    requires Clean(g, d, before) && TxnOk(before, t, iblock) && Elems(h) == t.logged && Loggable(g, |d|, h)
    requires j < |Images(g, d, t.view, h)|
    ensures ImageOk(g, Images(g, d, t.view, h)[j])
    ensures SameHome(g, Recovered(g, Images(g, d, t.view, h)[j]), if j <= |h| then before else t.fs.blocks)
  {
    hide CommitTrace, Recovered, Merged, Loggable, Home, SameHome, TxnOk, Header;
    MergedIs(g, d, before, t, iblock, h);
    if j == 0 {
      EmptyLog(g, d);
      SameHomeTwice(g, Recovered(g, d), d, before);
    } else {
      CommitTraceAtomic(g, d, t.view, h, j - 1);
      SameHomeTwice(g, Recovered(g, CommitTrace(g, d, t.view, h)[j - 1]), if j - 1 < |h| then d else Merged(d, t.view, h),
                    if j <= |h| then before else t.fs.blocks);
    }
  }

  lemma EmptyLog(g: Region, d: Disk)
    requires ImageOk(g, d) && Header(g, d) == []
    ensures SameHome(g, Recovered(g, d), d)
  {
    RecoveredAt(g, d);
  }

  /** After it the device has the transaction's disk, and an empty log. */
  lemma CommitLeaves(g: Region, d: Disk, before: seq<Block>, t: Txn, iblock: nat, h: seq<nat>)
    requires Clean(g, d, before) && TxnOk(before, t, iblock) && Elems(h) == t.logged && Loggable(g, |d|, h)
    ensures Clean(g, After(g, d, t.view, h), t.fs.blocks)
  {
    hide Recovered, Merged, Loggable, Home, SameHome, Header, InBudget, ReadHead, HeadOk;
    MergedIs(g, d, before, t, iblock, h);
    if h == [] {
      assert Elems(h) == {};
      assert t.fs.blocks == before;
    } else {
      LoggedCommits(g, d, t.view, h);
      SameHomeTwice(g, After(g, d, t.view, h), Merged(d, t.view, h), t.fs.blocks);
    }
  }

  lemma {:induction false} DeviceFollows(g: Region, fs: Fs, i: nat, off: nat, src: seq<byte>, txns: seq<Txn>, hs: seq<seq<nat>>, d: Disk, k: nat)
    requires Valid(fs) && i < |fs.inodes| && Durable(fs, i, off, src, txns) && LogInFront(g, fs.sb) && Listed(txns, hs)
    requires Clean(g, d, fs.blocks) && k <= |txns|
    ensures Clean(g, Device(g, d, txns, hs, k), Before(fs, txns, k)) && |Device(g, d, txns, hs, k)| == fs.sb.size
  {
    hide Valid, Durable, LogInFront, After, TxnOk;
    if k == 0 {
      SizeOf(fs);
    } else {
      DeviceFollows(g, fs, i, off, src, txns, hs, d, k - 1);
      TransactionsFit(g, fs, i, off, src, txns, hs, k - 1);
      CommitLeaves(g, Device(g, d, txns, hs, k - 1), Before(fs, txns, k - 1), txns[k - 1], IBlock(fs.sb, i), hs[k - 1]);
    }
  }

  lemma SizeOf(fs: Fs)
    requires Valid(fs)
    ensures |fs.blocks| == fs.sb.size && Layout(fs.sb)
  {
  }

  // ---- what is read back ----

  /** What is mounted from home blocks like t's is t. */
  lemma MountedIs(g: Region, t: Fs, e: Disk)
    requires Valid(t) && Synced(t) && LogInFront(g, t.sb) && SameHome(g, e, t.blocks)
    ensures Mounted(t.sb, e, t.owner) == WithBlocks(t, e) && Valid(WithBlocks(t, e))
    ensures forall i :: 0 <= i < |t.inodes| ==> Content(WithBlocks(t, e), i) == Content(t, i)
  {
    hide Slot, Owned, Mapped, NoHole, Content, Dinodes;
    SameDinodes(t.sb, t.blocks, e);
    SameFiles(t, e);
  }

  lemma CommittedMounted(g: Region, fs: Fs, t: Fs, i: nat, off: nat, data: seq<byte>, e: Disk)
    requires Valid(fs) && i < |fs.inodes| && Committed(fs, t, i, off, data)
    requires Synced(t) && LogInFront(g, t.sb) && SameHome(g, e, t.blocks)
    ensures Layout(fs.sb) && |e| == fs.sb.size && Committed(fs, Mounted(fs.sb, e, t.owner), i, off, data)
  {
    hide Valid, Content, Splice, Dinodes;
    SizeOf(fs);
    SizeOf(t);
    MountedIs(g, t, e);
  }

  /** The file system after p of the transactions, and the bytes counted by then. */
  ghost function Stage(fs: Fs, txns: seq<Txn>, p: nat): Fs
    requires p <= |txns|
  {
    if p == 0 then fs else txns[p - 1].fs
  }

  ghost function DoneBy(txns: seq<Txn>, p: nat): nat
    requires p <= |txns|
  {
    if p == 0 then 0 else txns[p - 1].done
  }

  /** A crash at any point of a filewrite, between its transactions and between any two disk writes of
      any of their commits: recovery leaves a valid file system in which exactly the bytes counted by
      a whole number of the transactions are written, and nothing else is changed. */
  lemma CrashDuringFilewrite(g: Region, fs: Fs, i: nat, off: nat, src: seq<byte>, txns: seq<Txn>, hs: seq<seq<nat>>, d: Disk, k: nat, j: nat)
    requires Valid(fs) && Synced(fs) && i < |fs.inodes| && off <= fs.inodes[i].size
    requires Durable(fs, i, off, src, txns) && forall x :: 0 <= x < |txns| ==> Synced(txns[x].fs)
    requires LogInFront(g, fs.sb) && Listed(txns, hs) && Clean(g, d, fs.blocks)
    requires k < |txns| && j < |Images(g, Device(g, d, txns, hs, k), txns[k].view, hs[k])|
    ensures var image := Images(g, Device(g, d, txns, hs, k), txns[k].view, hs[k])[j];
            var p := if j <= |hs[k]| then k else k + 1;
            && ImageOk(g, image) && |image| == fs.sb.size && Layout(fs.sb) && DoneBy(txns, p) <= |src|
            && Committed(fs, Mounted(fs.sb, Recovered(g, image), Stage(fs, txns, p).owner), i, off, src[..DoneBy(txns, p)])
  {
    hide Valid, LogInFront, Images, Device, TxnOk, Recovered, Synced, Committed, Dinodes, Clean, Mounted;
    var dev, p := Device(g, d, txns, hs, k), if j <= |hs[k]| then k else k + 1;
    DeviceFollows(g, fs, i, off, src, txns, hs, d, k);
    TransactionsFit(g, fs, i, off, src, txns, hs, k);
    CommitRecovers(g, dev, Before(fs, txns, k), txns[k], IBlock(fs.sb, i), hs[k], j);
    StageHolds(fs, i, off, src, txns, p);
    CommittedMounted(g, fs, Stage(fs, txns, p), i, off, src[..DoneBy(txns, p)], Recovered(g, Images(g, dev, txns[k].view, hs[k])[j]));
  }

  lemma StageHolds(fs: Fs, i: nat, off: nat, src: seq<byte>, txns: seq<Txn>, p: nat)
    requires Valid(fs) && i < |fs.inodes| && off <= fs.inodes[i].size && Durable(fs, i, off, src, txns) && p <= |txns|
    ensures DoneBy(txns, p) <= |src| && Committed(fs, Stage(fs, txns, p), i, off, src[..DoneBy(txns, p)])
    ensures Stage(fs, txns, p).sb == fs.sb && Stage(fs, txns, p).blocks == Before(fs, txns, p)
  {
    hide Valid, TxnOk, Content, Splice;
    if p == 0 {
      HoldsNothing(fs, i, off);
      assert src[..0] == [];
    } else {
      assert DurableAt(fs, i, off, src, txns, p - 1);
    }
  }
}
