/** log.c as it updates the log in place: the in-memory header, the buffers and
    the device. `images` records the device after every single write, so that a
    crash between any two writes finds one of them (or the starting image). */
module LogCode {
  import opened Blocks
  import opened LogDisk
  import opened LogProtocol

  lemma UnpinNext(h: seq<nat>, k: nat)
    requires k < |h|
    ensures multiset(h[k..]) - multiset{h[k]} == multiset(h[k + 1..])
  {
    assert h[k..] == [h[k]] + h[k + 1..];
  }

  lemma Regroup(before: seq<Disk>, copies: seq<Disk>, logged: Disk, installs: seq<Disk>, last: Disk)
    ensures before + copies + [logged] + installs + [last] == before + (copies + [logged] + (installs + [last]))
  {
  }

  lemma InstallStart(g: Region, d: Disk, v: Disk, h: seq<nat>)
    requires Fits(g, |d|) && |v| == |d| && Loggable(g, |d|, h)
    ensures Installed(g, d, h, 0) == d && Installed(g, v, h, 0) == v && InstallImages(g, d, h, 0) == []
  {
  }

  /** One turn of install_trans, on the device, on the cache and among the images. */
  lemma InstallTurn(g: Region, d: Disk, v: Disk, h: seq<nat>, k: nat)
    requires Fits(g, |d|) && |v| == |d| && Loggable(g, |d|, h) && k < |h|
    requires forall b :: g.start < b <= g.start + |h| ==> v[b] == d[b]
    ensures h[k] < |d| && g.start + k + 1 < |d|
    ensures var e, w := Installed(g, d, h, k), Installed(g, v, h, k);
            && w[h[k] := w[g.start + k + 1]] == Installed(g, v, h, k + 1)
            && e[h[k] := w[g.start + k + 1]] == Installed(g, d, h, k + 1)
    ensures InstallImages(g, d, h, k + 1) == InstallImages(g, d, h, k) + [Installed(g, d, h, k + 1)]
  {
    hide Loggable, Home;
    LoggedBlock(g, |d|, h, k);
    InstalledSlot(g, d, h, k, k);
    InstalledSlot(g, v, h, k, k);
  }

  class Log {
    const g: Region
    var disk: Disk
    var view: Disk              // what bread returns
    var lh: seq<nat>            // log.lh.block[..log.lh.n]
    var outstanding: nat
    var committing: bool
    var pinned: multiset<nat>   // bpin'ed buffers
    ghost var images: seq<Disk>

    ghost predicate Valid()
      reads this
    {
      Fits(g, |disk|) && |view| == |disk| && Loggable(g, |disk|, lh)
    }

    /** No transaction is half-way to the disk, and the listed blocks are the pinned ones. */
    ghost predicate Quiet()
      reads this
    {
      && Valid()
      && ImageOk(g, disk) && Header(g, disk) == []
      && pinned == multiset(lh)
      && forall b :: 0 <= b < |disk| && !Home(g, |disk|, b) ==> view[b] == disk[b]
    }

    constructor (g: Region, disk: Disk)
      requires Fits(g, |disk|)
      ensures Valid() && this.g == g && this.disk == disk && view == disk && lh == []
      ensures outstanding == 0 && !committing && pinned == multiset{} && images == []
    {
      this.g, this.disk, this.view, this.lh := g, disk, disk, [];
      this.outstanding, this.committing, this.pinned, this.images := 0, false, multiset{}, [];
    }

    method Bwrite(b: nat)
      requires b < |disk| == |view|
      modifies this`disk, this`images
      ensures disk == old(disk)[b := view[b]] && images == old(images) + [disk]
    {
      disk := disk[b := view[b]];
      images := images + [disk];
    }

    method WriteLog()
      requires Valid()
      modifies this`disk, this`view, this`images
      ensures Valid()
      ensures disk == Copied(g, old(disk), old(view), lh, |lh|)
      ensures view == Copied(g, old(view), old(view), lh, |lh|)
      ensures images == old(images) + CopyImages(g, old(disk), old(view), lh, |lh|)
    {
      hide Loggable, Home;
      var tail := 0;
      while tail < |lh|
        invariant tail <= |lh| && |view| == |disk| == |old(disk)|
        invariant disk == Copied(g, old(disk), old(view), lh, tail)
        invariant view == Copied(g, old(view), old(view), lh, tail)
        invariant images == old(images) + CopyImages(g, old(disk), old(view), lh, tail)
      {
        LoggedBlock(g, |disk|, lh, tail);
        SourceIntact(g, old(view), old(view), lh, tail, tail);
        view := view[g.start + tail + 1 := view[lh[tail]]];
        Bwrite(g.start + tail + 1);
        tail := tail + 1;
      }
    }

    method WriteHead()
      requires Valid() && view[g.start] == disk[g.start]
      modifies this`disk, this`view, this`images
      ensures Valid()
      ensures disk == WithHead(g, old(disk), lh) && view == WithHead(g, old(view), lh)
      ensures images == old(images) + [disk]
    {
      var hb := PutWord(view[g.start], 0, |lh|);
      var i := 0;
      while i < |lh|
        invariant i <= |lh| && hb == HeadWritten(view[g.start], lh, i)
      {
        hb := PutWord(hb, i + 1, lh[i]);
        i := i + 1;
      }
      view := view[g.start := hb];
      Bwrite(g.start);
    }

    method ReadHead()
      requires Fits(g, |view|) && HeadOk(view[g.start])
      modifies this`lh
      ensures lh == LogDisk.ReadHead(view[g.start])
    {
      var n := Word(view[g.start], 0);
      lh := [];
      var i := 0;
      while i < n
        invariant i <= n <= LOGSIZE && lh == LogDisk.ReadHead(view[g.start])[..i]
      {
        lh := lh + [Word(view[g.start], 1 + i)];
        i := i + 1;
      }
    }

    /** bunpin of the next installed block. */
    method Bunpin(tail: nat)
      requires tail < |lh| && pinned == multiset(lh[tail..])
      modifies this`pinned
      ensures pinned == multiset(lh[tail + 1..])
    {
      UnpinNext(lh, tail);
      pinned := pinned - multiset{lh[tail]};
    }

    method InstallTrans(recovering: bool)
      requires Valid()
      requires forall b :: g.start < b <= g.start + |lh| ==> view[b] == disk[b]
      requires !recovering ==> pinned == multiset(lh)
      modifies this`disk, this`view, this`pinned, this`images
      ensures Valid()
      ensures disk == Installed(g, old(disk), lh, |lh|) && view == Installed(g, old(view), lh, |lh|)
      ensures pinned == if recovering then old(pinned) else multiset{}
      ensures images == old(images) + InstallImages(g, old(disk), lh, |lh|)
    {
      hide Loggable, Home, Installed, InstallImages;
      InstallStart(g, disk, view, lh);
      var tail := 0;
      while tail < |lh|
        invariant tail <= |lh| && |view| == |disk| == |old(disk)|
        invariant disk == Installed(g, old(disk), lh, tail) && view == Installed(g, old(view), lh, tail)
        invariant recovering ==> pinned == old(pinned)
        invariant !recovering ==> pinned == multiset(lh[tail..])
        invariant images == old(images) + InstallImages(g, old(disk), lh, tail)
      {
        InstallTurn(g, old(disk), old(view), lh, tail);
        view := view[lh[tail] := view[g.start + tail + 1]];
        Bwrite(lh[tail]);
        if !recovering { Bunpin(tail); }
        tail := tail + 1;
      }
    }

    /** initlog's recovery, write by write. */
    method RecoverFromLog()
      requires ImageOk(g, disk) && view == disk
      modifies this`disk, this`view, this`lh, this`pinned, this`images
      ensures Valid() && lh == [] && view == disk == Recovered(g, old(disk))
      ensures images == old(images) + RecoveryTrace(g, old(disk))
    {
      hide LogDisk.ReadHead, HeadOk, HeadWritten, Word, PutWord;
      ReadHead();
      InstallTrans(true);
      EraseLog(old(disk), old(disk));
    }

    /** commit(), write by write. */
    method Commit()
      requires Quiet()
      modifies this`disk, this`view, this`lh, this`pinned, this`images
      ensures Quiet() && lh == [] && SameHome(g, view, old(view))
      ensures SameHome(g, disk, Merged(old(disk), old(view), old(lh)))
      ensures images == old(images) + if old(lh) == [] then [] else CommitTrace(g, old(disk), old(view), old(lh))
    {
      hide LogDisk.ReadHead, HeadOk, HeadWritten, Word, PutWord, Copied, Installed, WithHead;
      if |lh| > 0 {
        CommitWrites();
        LoggedCommits(g, old(disk), old(view), old(lh));
        LoggedCommits(g, old(view), old(view), old(lh));
        CommitAgrees(g, old(disk), old(view), old(lh));
      }
    }

    /** The body of commit() for a transaction that logged something. */
    method CommitWrites()
      requires Quiet()
      modifies this`disk, this`view, this`lh, this`pinned, this`images
      ensures Valid() && lh == [] && pinned == multiset{}
      ensures disk == Recovered(g, Logged(g, old(disk), old(view), old(lh)))
      ensures view == Recovered(g, Logged(g, old(view), old(view), old(lh)))
      ensures images == old(images) + CommitTrace(g, old(disk), old(view), old(lh))
    {
      hide LogDisk.ReadHead, HeadOk, HeadWritten, Word, PutWord, Copied, Installed, WithHead;
      hide InstallImages, CopyImages, SameHome;
      ghost var before, copies := images, CopyImages(g, disk, view, lh, |lh|);
      WriteLog();
      CopiedAt(g, old(disk), old(view), lh, |lh|);
      CopiedAt(g, old(view), old(view), lh, |lh|);
      WriteHead();
      ghost var d := disk;
      InstallTrans(false);
      ghost var installs := InstallImages(g, d, lh, |lh|);
      EraseLog(Logged(g, old(disk), old(view), lh), Logged(g, old(view), old(view), lh)) by {
        SameHeadBlock(g, old(disk), old(view), lh);
      }
      Regroup(before, copies, d, installs, disk);
    }

    /** log.lh.n = 0; write_head() */
    method EraseLog(ghost d: Disk, ghost v: Disk)
      requires Valid() && ImageOk(g, d) && ImageOk(g, v) && |d| == |v| == |disk|
      requires Header(g, d) == Header(g, v) == lh && d[g.start] == v[g.start]
      requires disk == Installed(g, d, lh, |lh|) && view == Installed(g, v, lh, |lh|)
      modifies this`disk, this`view, this`lh, this`images
      ensures Valid() && lh == [] && disk == Recovered(g, d) && view == Recovered(g, v)
      ensures images == old(images) + [disk]
    {
      hide LogDisk.ReadHead, HeadOk, HeadWritten, Word, PutWord, Installed;
      InstallKeepsHead(g, d, lh, |lh|);
      InstallKeepsHead(g, v, lh, |lh|);
      lh := [];
      WriteHead();
    }

    /** log_write: the block is listed once and pinned once. */
    method LogWrite(b: nat) returns (panic: bool)
      requires Valid() && Home(g, |disk|, b)
      modifies this`lh, this`pinned
      ensures panic == (TooBig(g, old(lh)) || outstanding < 1)
      ensures panic ==> lh == old(lh) && pinned == old(pinned)
      ensures !panic ==> lh == Absorb(old(lh), b) && Valid()
      ensures !panic ==> pinned == if b in old(lh) then old(pinned) else old(pinned) + multiset{b}
      ensures old(pinned) == multiset(old(lh)) ==> pinned == multiset(lh)
    {
      if |lh| >= LOGSIZE || |lh| >= g.size - 1 { return true; }
      if outstanding < 1 { return true; }
      var i := 0;
      while i < |lh|
        invariant i <= |lh| && b !in lh[..i]
      {
        if lh[i] == b { break; }
        i := i + 1;
      }
      if i == |lh| {
        lh := lh + [b];
        pinned := pinned + multiset{b};
      } else {
        lh := lh[i := b];
      }
      panic := false;
    }

    /** One round of begin_op's loop; it sleeps and tries again when not admitted. */
    method TryBeginOp() returns (admitted: bool)
      modifies this`outstanding
      ensures admitted == Admits(lh, old(outstanding), committing)
      ensures outstanding == if admitted then old(outstanding) + 1 else old(outstanding)
    {
      if committing {
        admitted := false;
      } else if |lh| + (outstanding + 1) * MAXOPBLOCKS > LOGSIZE {
        admitted := false;
      } else {
        outstanding := outstanding + 1;
        admitted := true;
      }
    }

    /** end_op. The last operation out commits every listed block, and no other. */
    method EndOp() returns (panic: bool)
      requires Valid() && outstanding > 0
      requires outstanding == 1 && !committing ==> Quiet()
      modifies this`disk, this`view, this`lh, this`pinned, this`images, this`outstanding, this`committing
      ensures panic == old(committing)
      ensures outstanding == old(outstanding) - 1 && committing == old(committing)
      ensures panic || outstanding > 0 ==>
                disk == old(disk) && view == old(view) && lh == old(lh) && pinned == old(pinned) && images == old(images)
      ensures !panic && outstanding == 0 ==>
                && Quiet() && lh == [] && SameHome(g, view, old(view))
                && SameHome(g, disk, Merged(old(disk), old(view), old(lh)))
                && images == old(images) + if old(lh) == [] then [] else CommitTrace(g, old(disk), old(view), old(lh))
    {
      hide ImageOk, Header, Loggable, Fits, Home;
      outstanding := outstanding - 1;
      if committing { return true; }
      panic := false;
      if outstanding == 0 {
        committing := true;
        Commit();
        committing := false;
      }
    }
  }
}
