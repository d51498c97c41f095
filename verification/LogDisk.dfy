/** The on-disk redo log: its header block, the copies into and out of the
    log region, and what recovery makes of a disk image. */
module LogDisk {
  import opened Blocks

  const LOGSIZE: nat := 30

  type Disk = seq<Block>

  /** log.start and log.size: the header block and the log blocks behind it. */
  datatype Region = Region(start: nat, size: nat)

  predicate Fits(g: Region, len: nat) {
    LOGSIZE + 1 <= g.size && g.start + g.size <= len <= UINT
  }

  /** A block that file system operations may log: on the disk, outside the log. */
  predicate Home(g: Region, len: nat, b: nat) {
    b < len && !(g.start <= b < g.start + g.size)
  }

  predicate SameHome(g: Region, d: Disk, e: Disk) {
    |d| == |e| && forall b :: 0 <= b < |d| && Home(g, |d|, b) ==> d[b] == e[b]
  }

  /** Block lists that log_write can build: distinct home blocks, no more than fit. */
  predicate Loggable(g: Region, len: nat, h: seq<nat>) {
    && |h| <= LOGSIZE
    && (forall i :: 0 <= i < |h| ==> Home(g, len, h[i]))
    && (forall i, j :: 0 <= i < j < |h| ==> h[i] != h[j])
  }

  lemma LoggedBlock(g: Region, len: nat, h: seq<nat>, i: nat)
    requires Loggable(g, len, h) && i < |h|
    ensures h[i] < len && |h| <= LOGSIZE && Home(g, len, h[i])
  {
  }

  // ---- header block ----

  /** The header block after write_head has stored n and the first k entries of h. */
  function HeadWritten(b: Block, h: seq<nat>, k: nat): Block
    requires |h| <= LOGSIZE && k <= |h|
    requires forall i :: 0 <= i < |h| ==> h[i] < UINT
  {
    if k == 0 then PutWord(b, 0, |h|) else PutWord(HeadWritten(b, h, k - 1), k, h[k - 1])
  }

  predicate HeadOk(b: Block) {
    Word(b, 0) <= LOGSIZE
  }

  function ReadHead(b: Block): (h: seq<nat>)
    requires HeadOk(b)
  {
    seq(Word(b, 0), i requires 0 <= i < LOGSIZE => Word(b, 1 + i))
  }

  lemma {:induction false} HeadWrittenWord(b: Block, h: seq<nat>, k: nat, j: nat)
    requires |h| <= LOGSIZE && k <= |h| && j <= k
    requires forall i :: 0 <= i < |h| ==> h[i] < UINT
    ensures Word(HeadWritten(b, h, k), j) == if j == 0 then |h| else h[j - 1]
  {
    if k == 0 {
      WordOfPut(b, 0, |h|, j);
    } else {
      WordOfPut(HeadWritten(b, h, k - 1), k, h[k - 1], j);
      if j < k { HeadWrittenWord(b, h, k - 1, j); }
    }
  }

  /** read_head gets back exactly the list that write_head stored. */
  lemma ReadWrittenHead(b: Block, h: seq<nat>)
    requires |h| <= LOGSIZE
    requires forall i :: 0 <= i < |h| ==> h[i] < UINT
    ensures HeadOk(HeadWritten(b, h, |h|)) && ReadHead(HeadWritten(b, h, |h|)) == h
  {
    forall j | 0 <= j <= |h|
      ensures Word(HeadWritten(b, h, |h|), j) == if j == 0 then |h| else h[j - 1]
    {
      HeadWrittenWord(b, h, |h|, j);
    }
  }

  // ---- images ----

  predicate ImageOk(g: Region, d: Disk) {
    && Fits(g, |d|)
    && HeadOk(d[g.start])
    && Loggable(g, |d|, ReadHead(d[g.start]))
  }

  function Header(g: Region, d: Disk): seq<nat>
    requires ImageOk(g, d)
  {
    ReadHead(d[g.start])
  }

  /** d after write_log has copied the first k listed blocks of the cache into the log. */
  function Copied(g: Region, d: Disk, cache: Disk, h: seq<nat>, k: nat): (r: Disk)
    requires Fits(g, |d|) && |cache| == |d| && Loggable(g, |d|, h) && k <= |h|
    ensures |r| == |d|
  {
    if k == 0 then d else Copied(g, d, cache, h, k - 1)[g.start + k := cache[h[k - 1]]]
  }

  lemma {:induction false} CopiedBlock(g: Region, d: Disk, cache: Disk, h: seq<nat>, k: nat, b: nat)
    requires Fits(g, |d|) && |cache| == |d| && Loggable(g, |d|, h) && k <= |h| && b < |d|
    ensures Copied(g, d, cache, h, k)[b] == if g.start < b <= g.start + k then cache[h[b - g.start - 1]] else d[b]
  {
    if k > 0 { CopiedBlock(g, d, cache, h, k - 1, b); }
  }

  lemma CopiedAt(g: Region, d: Disk, cache: Disk, h: seq<nat>, k: nat)
    requires Fits(g, |d|) && |cache| == |d| && Loggable(g, |d|, h) && k <= |h|
    ensures forall b :: 0 <= b < |d| ==>
              Copied(g, d, cache, h, k)[b] == if g.start < b <= g.start + k then cache[h[b - g.start - 1]] else d[b]
  {
    hide Copied;
    forall b | 0 <= b < |d|
      ensures Copied(g, d, cache, h, k)[b] == if g.start < b <= g.start + k then cache[h[b - g.start - 1]] else d[b]
    {
      CopiedBlock(g, d, cache, h, k, b);
    }
  }

  /** Copying into the log does not touch the blocks it copies from. */
  lemma SourceIntact(g: Region, d: Disk, cache: Disk, h: seq<nat>, k: nat, i: nat)
    requires Fits(g, |d|) && |cache| == |d| && Loggable(g, |d|, h) && k <= |h| && i < |h|
    ensures Copied(g, d, cache, h, k)[h[i]] == d[h[i]]
  {
    CopiedAt(g, d, cache, h, k);
    assert Home(g, |d|, h[i]);
  }

  /** d after install_trans has copied the first k log blocks to their homes. */
  function Installed(g: Region, d: Disk, h: seq<nat>, k: nat): (r: Disk)
    requires Fits(g, |d|) && Loggable(g, |d|, h) && k <= |h|
    ensures |r| == |d|
  {
    if k == 0 then d
    else
      var e := Installed(g, d, h, k - 1);
      e[h[k - 1] := e[g.start + k]]
  }

  /** Each of the first k homes holds its log block; every other block is untouched. */
  lemma {:induction false} InstalledAt(g: Region, d: Disk, h: seq<nat>, k: nat)
    requires Fits(g, |d|) && Loggable(g, |d|, h) && k <= |h|
    ensures forall i :: 0 <= i < k ==> Installed(g, d, h, k)[h[i]] == d[g.start + 1 + i]
    ensures forall b :: 0 <= b < |d| && b !in h[..k] ==> Installed(g, d, h, k)[b] == d[b]
  {
    if k > 0 {
      InstalledAt(g, d, h, k - 1);
      assert h[..k] == h[..k - 1] + [h[k - 1]];
      assert Home(g, |d|, h[k - 1]);
      assert g.start + k !in h[..k - 1];
    }
  }

  /** Installing does not touch the log blocks it copies from. */
  lemma InstalledSlot(g: Region, d: Disk, h: seq<nat>, k: nat, i: nat)
    requires Fits(g, |d|) && Loggable(g, |d|, h) && k <= |h| && i < LOGSIZE
    ensures Installed(g, d, h, k)[g.start + 1 + i] == d[g.start + 1 + i]
  {
    InstalledAt(g, d, h, k);
  }

  lemma InstallKeepsHead(g: Region, d: Disk, h: seq<nat>, k: nat)
    requires Fits(g, |d|) && Loggable(g, |d|, h) && k <= |h|
    ensures Installed(g, d, h, k)[g.start] == d[g.start]
  {
    InstalledAt(g, d, h, k);
    assert !Home(g, |d|, g.start);
  }

  /** The device after each of the first k writes of write_log. */
  ghost function CopyImages(g: Region, d: Disk, cache: Disk, h: seq<nat>, k: nat): (r: seq<Disk>)
    requires Fits(g, |d|) && |cache| == |d| && Loggable(g, |d|, h) && k <= |h|
    ensures |r| == k && forall j :: 0 <= j < k ==> r[j] == Copied(g, d, cache, h, j + 1)
  {
    if k == 0 then [] else CopyImages(g, d, cache, h, k - 1) + [Copied(g, d, cache, h, k)]
  }

  /** The device after each of the first k writes of install_trans. */
  ghost function InstallImages(g: Region, d: Disk, h: seq<nat>, k: nat): (r: seq<Disk>)
    requires Fits(g, |d|) && Loggable(g, |d|, h) && k <= |h|
    ensures |r| == k && forall j :: 0 <= j < k ==> r[j] == Installed(g, d, h, j + 1)
  {
    if k == 0 then [] else InstallImages(g, d, h, k - 1) + [Installed(g, d, h, k)]
  }

  function WithHead(g: Region, d: Disk, h: seq<nat>): (r: Disk)
    requires Fits(g, |d|) && Loggable(g, |d|, h)
    ensures |r| == |d| && forall b :: 0 <= b < |d| && b != g.start ==> r[b] == d[b]
    ensures ImageOk(g, r) && Header(g, r) == h
  {
    ReadWrittenHead(d[g.start], h);
    d[g.start := HeadWritten(d[g.start], h, |h|)]
  }

  /** What recover_from_log leaves on a disk image. */
  function Recovered(g: Region, d: Disk): (r: Disk)
    requires ImageOk(g, d)
    ensures |r| == |d| && ImageOk(g, r) && Header(g, r) == []
  {
    WithHead(g, Installed(g, d, Header(g, d), |Header(g, d)|), [])
  }

  /** The home part of a recovered image, block by block. */
  lemma RecoveredAt(g: Region, d: Disk)
    requires ImageOk(g, d)
    ensures forall i :: 0 <= i < |Header(g, d)| ==>
              Recovered(g, d)[Header(g, d)[i]] == d[g.start + 1 + i]
    ensures forall b :: 0 <= b < |d| && Home(g, |d|, b) && b !in Header(g, d) ==>
              Recovered(g, d)[b] == d[b]
  {
    var h := Header(g, d);
    InstalledAt(g, d, h, |h|);
    assert h[..|h|] == h;
  }

  /** Recovery is idempotent. */
  lemma RecoverTwice(g: Region, d: Disk)
    requires ImageOk(g, d)
    ensures SameHome(g, Recovered(g, Recovered(g, d)), Recovered(g, d))
  {
    RecoveredAt(g, Recovered(g, d));
  }

  /** Until the header names the new blocks, copying into the log is invisible. */
  lemma CopyingIsInvisible(g: Region, d: Disk, cache: Disk, h: seq<nat>, k: nat)
    requires ImageOk(g, d) && Header(g, d) == []
    requires |cache| == |d| && Loggable(g, |d|, h) && k <= |h|
    ensures var e := Copied(g, d, cache, h, k);
            ImageOk(g, e) && Header(g, e) == [] && SameHome(g, Recovered(g, e), d)
  {
    var e := Copied(g, d, cache, h, k);
    CopiedAt(g, d, cache, h, k);
    assert e[g.start] == d[g.start];
    RecoveredAt(g, e);
  }

  /** d with the cached contents of the listed blocks. */
  function Merged(d: Disk, cache: Disk, h: seq<nat>): (r: Disk)
    requires |cache| == |d|
    ensures |r| == |d| && forall b :: 0 <= b < |d| ==> r[b] == if b in h then cache[b] else d[b]
  {
    seq(|d|, b requires 0 <= b < |d| => if b in h then cache[b] else d[b])
  }

  /** The one header write makes the whole transaction take effect, and nothing but the transaction. */
  lemma HeadCommits(g: Region, d: Disk, cache: Disk, h: seq<nat>)
    requires Fits(g, |d|) && |cache| == |d| && Loggable(g, |d|, h)
    requires forall i :: 0 <= i < |h| ==> d[g.start + 1 + i] == cache[h[i]]
    ensures SameHome(g, Recovered(g, WithHead(g, d, h)), Merged(d, cache, h))
  {
    var e := WithHead(g, d, h);
    RecoveredAt(g, e);
    forall b | 0 <= b < |d| && Home(g, |d|, b)
      ensures Recovered(g, e)[b] == if b in h then cache[b] else d[b]
    {
      if b in h {
        var i :| 0 <= i < |h| && h[i] == b;
        assert Recovered(g, e)[Header(g, e)[i]] == e[g.start + 1 + i];
      }
    }
  }

  /** A crash at any point of installing loses nothing: the image still recovers to the same homes. */
  lemma InstallingIsInvisible(g: Region, d: Disk, k: nat)
    requires ImageOk(g, d) && k <= |Header(g, d)|
    ensures var e := Installed(g, d, Header(g, d), k);
            ImageOk(g, e) && Header(g, e) == Header(g, d) && SameHome(g, Recovered(g, e), Recovered(g, d))
  {
    var h := Header(g, d);
    var e := Installed(g, d, h, k);
    InstalledAt(g, d, h, k);
    assert e[g.start] == d[g.start];
    RecoveredAt(g, d);
    RecoveredAt(g, e);
    forall b | 0 <= b < |d| && Home(g, |d|, b)
      ensures Recovered(g, e)[b] == Recovered(g, d)[b]
    {
      if b in h {
        var i :| 0 <= i < |h| && h[i] == b;
        assert Recovered(g, e)[h[i]] == e[g.start + 1 + i];
        assert e[g.start + 1 + i] == d[g.start + 1 + i];
      }
    }
  }

  // ---- a whole commit and a whole recovery ----

  /** d once the log holds h's blocks from the cache and the header names them. */
  ghost function Logged(g: Region, d: Disk, cache: Disk, h: seq<nat>): (r: Disk)
    requires Fits(g, |d|) && |cache| == |d| && Loggable(g, |d|, h)
    ensures |r| == |d| && ImageOk(g, r) && Header(g, r) == h
  {
    WithHead(g, Copied(g, d, cache, h, |h|), h)
  }

  /** The device after each write of recover_from_log. */
  ghost function RecoveryTrace(g: Region, d: Disk): seq<Disk>
    requires ImageOk(g, d)
  {
    InstallImages(g, d, Header(g, d), |Header(g, d)|) + [Recovered(g, d)]
  }

  /** The device after each write of commit. */
  ghost function CommitTrace(g: Region, d: Disk, cache: Disk, h: seq<nat>): seq<Disk>
    requires Fits(g, |d|) && |cache| == |d| && Loggable(g, |d|, h)
  {
    CopyImages(g, d, cache, h, |h|) + [Logged(g, d, cache, h)] + RecoveryTrace(g, Logged(g, d, cache, h))
  }

  lemma LoggedCommits(g: Region, d: Disk, cache: Disk, h: seq<nat>)
    requires Fits(g, |d|) && |cache| == |d| && Loggable(g, |d|, h)
    ensures SameHome(g, Recovered(g, Logged(g, d, cache, h)), Merged(d, cache, h))
  {
    hide HeadWritten, ReadHead, HeadOk, Copied, Installed, Loggable, WithHead, Recovered;
    var e := Copied(g, d, cache, h, |h|);
    CopiedHome(g, d, cache, h);
    CopiedSlots(g, d, cache, h);
    HeadCommits(g, e, cache, h);
    assert SameHome(g, Merged(e, cache, h), Merged(d, cache, h));
  }

  lemma CopiedHome(g: Region, d: Disk, cache: Disk, h: seq<nat>)
    requires Fits(g, |d|) && |cache| == |d| && Loggable(g, |d|, h)
    ensures SameHome(g, Copied(g, d, cache, h, |h|), d)
  {
    hide Copied, Loggable, Home;
    forall b | 0 <= b < |d| && Home(g, |d|, b) ensures Copied(g, d, cache, h, |h|)[b] == d[b] {
      HomeNotSlot(g, |d|, h, b);
      CopiedBlock(g, d, cache, h, |h|, b);
    }
  }

  lemma HomeNotSlot(g: Region, len: nat, h: seq<nat>, b: nat)
    requires Fits(g, len) && Loggable(g, len, h) && Home(g, len, b)
    ensures !(g.start < b <= g.start + |h|)
  {
  }

  lemma CopiedSlots(g: Region, d: Disk, cache: Disk, h: seq<nat>)
    requires Fits(g, |d|) && |cache| == |d| && Loggable(g, |d|, h)
    ensures forall i :: 0 <= i < |h| ==> Copied(g, d, cache, h, |h|)[g.start + 1 + i] == cache[h[i]]
  {
    hide Copied, Loggable;
    forall i | 0 <= i < |h|
      ensures g.start + 1 + i < |d| && h[i] < |d| && Copied(g, d, cache, h, |h|)[g.start + 1 + i] == cache[h[i]]
    {
      CopiedSlot(g, d, cache, h, i);
    }
  }

  lemma CopiedSlot(g: Region, d: Disk, cache: Disk, h: seq<nat>, i: nat)
    requires Fits(g, |d|) && |cache| == |d| && Loggable(g, |d|, h) && i < |h|
    ensures g.start + 1 + i < |d| && h[i] < |d| && Copied(g, d, cache, h, |h|)[g.start + 1 + i] == cache[h[i]]
  {
    hide Copied, Loggable, Home;
    LoggedBlock(g, |d|, h, i);
    CopiedBlock(g, d, cache, h, |h|, g.start + 1 + i);
    assert g.start + 1 + i - g.start - 1 == i;
  }

  /** Recovery can crash after any of its writes and be started over: every image
      on the way recovers to the same homes as the image found. */
  lemma RecoveryTraceSafe(g: Region, d: Disk, j: nat)
    requires ImageOk(g, d) && j < |RecoveryTrace(g, d)|
    ensures ImageOk(g, RecoveryTrace(g, d)[j])
    ensures SameHome(g, Recovered(g, RecoveryTrace(g, d)[j]), Recovered(g, d))
  {
    hide ReadHead, HeadOk, HeadWritten, Word, PutWord;
    if j < |Header(g, d)| {
      InstallingIsInvisible(g, d, j + 1);
    } else {
      RecoverTwice(g, d);
    }
  }

  /** The device recovers to the old homes before the header write, which is
      write number |h|, and from it on to the homes with every listed block replaced. */
  lemma CommitTraceAtomic(g: Region, d: Disk, cache: Disk, h: seq<nat>, j: nat)
    requires ImageOk(g, d) && Header(g, d) == [] && |cache| == |d| && Loggable(g, |d|, h)
    requires j < |CommitTrace(g, d, cache, h)|
    ensures ImageOk(g, CommitTrace(g, d, cache, h)[j])
    ensures SameHome(g, Recovered(g, CommitTrace(g, d, cache, h)[j]), if j < |h| then d else Merged(d, cache, h))
  {
    hide ReadHead, HeadOk, HeadWritten, Word, PutWord;
    var l := Logged(g, d, cache, h);
    if j < |h| {
      assert CommitTrace(g, d, cache, h)[j] == Copied(g, d, cache, h, j + 1);
      CopyingIsInvisible(g, d, cache, h, j + 1);
    } else {
      LoggedCommits(g, d, cache, h);
      if j > |h| {
        assert CommitTrace(g, d, cache, h)[j] == RecoveryTrace(g, l)[j - |h| - 1];
        RecoveryTraceSafe(g, l, j - |h| - 1);
      }
    }
  }

  lemma SameHeadBlock(g: Region, d: Disk, cache: Disk, h: seq<nat>)
    requires Fits(g, |d|) && |cache| == |d| && Loggable(g, |d|, h) && d[g.start] == cache[g.start]
    ensures Logged(g, d, cache, h)[g.start] == Logged(g, cache, cache, h)[g.start]
  {
    hide HeadWritten, ReadHead, HeadOk;
    CopiedAt(g, d, cache, h, |h|);
    CopiedAt(g, cache, cache, h, |h|);
  }

  /** After a commit cache and device agree on the log. */
  lemma CommitAgrees(g: Region, d: Disk, cache: Disk, h: seq<nat>)
    requires Fits(g, |d|) && |cache| == |d| && Loggable(g, |d|, h)
    requires forall b :: 0 <= b < |d| && !Home(g, |d|, b) ==> cache[b] == d[b]
    ensures forall b :: 0 <= b < |d| && !Home(g, |d|, b) ==>
              Recovered(g, Logged(g, cache, cache, h))[b] == Recovered(g, Logged(g, d, cache, h))[b]
  {
    hide HeadWritten, ReadHead, HeadOk;
    var l, m := Logged(g, d, cache, h), Logged(g, cache, cache, h);
    CopiedAt(g, d, cache, h, |h|);
    CopiedAt(g, cache, cache, h, |h|);
    SameHeadBlock(g, d, cache, h);
    InstallKeepsLog(g, l, h);
    InstallKeepsLog(g, m, h);
  }

  lemma InstallKeepsLog(g: Region, d: Disk, h: seq<nat>)
    requires Fits(g, |d|) && Loggable(g, |d|, h)
    ensures forall b :: 0 <= b < |d| && !Home(g, |d|, b) ==> Installed(g, d, h, |h|)[b] == d[b]
  {
    InstalledAt(g, d, h, |h|);
    assert h[..|h|] == h;
  }
}
