/** Group commit as a step system: any number of file system operations
    interleaved with one committer, disk writes one at a time, and crashes
    between any two of them, also inside recovery.

    `history` (every buffer modification since the disk was made, cut back by a
    crash to what was committed), `durable`, `started` and `left` (the blocks
    that operations modified and had not logged when they ended) only observe
    the run; of these, steps are guarded by `started` alone. */
module LogProtocol {
  import opened Blocks
  import opened LogDisk

  /** One modification of a buffer by an operation. */
  datatype Write = Write(op: nat, blockno: nat, data: Block)

  /** An operation between begin_op and end_op: the buffers it has modified and
      not yet logged, and the log entries it has added. */
  datatype Op = Op(id: nat, dirty: set<nat>, added: nat)

  /** Where the committer or the recovery code stands, in completed disk writes. */
  datatype Phase =
    | Running
    | Copying(k: nat)      // write_log
    | Installing(k: nat)   // header written; install_trans(0)
    | Erased               // header erased; log.committing still set
    | Recovering(k: nat)   // install_trans(1)

  datatype State = State(
    disk: Disk,            // the device; its header block is kept decoded, in head
    head: seq<nat>,        // the block list in the on-disk header
    view: Disk,            // what bread returns
    lh: seq<nat>,          // log.lh.block[..log.lh.n]
    outstanding: nat,
    committing: bool,
    phase: Phase,
    ops: seq<Op>,
    base: Disk,
    history: seq<Write>,
    durable: nat,
    started: set<nat>,
    left: set<nat>)

  datatype Step =
    | Begin(id: nat)
    | Modify(i: nat, blockno: nat, data: Block)
    | LogWrite(i: nat, blockno: nat)
    | End(i: nat)
    | CopyBlock | WriteHead | InstallBlock | EraseHead | Finish
    | Crash | RecoverBlock | RecoverErase

  // ---- decisions shared with the code in LogCode ----

  /** begin_op lets another operation in. */
  predicate Admits(lh: seq<nat>, outstanding: nat, committing: bool) {
    !committing && |lh| + (outstanding + 1) * MAXOPBLOCKS <= LOGSIZE
  }

  /** log_write's "too big a transaction". */
  predicate TooBig(g: Region, lh: seq<nat>) {
    |lh| >= LOGSIZE || |lh| >= g.size - 1
  }

  /** log_write's block list, with absorption. */
  function Absorb(lh: seq<nat>, b: nat): seq<nat> {
    if b in lh then lh else lh + [b]
  }

  // ---- steps ----

  function Replay(base: Disk, ws: seq<Write>): (r: Disk)
    ensures |r| == |base|
  {
    if ws == [] then base
    else
      var w, r := ws[|ws| - 1], Replay(base, ws[..|ws| - 1]);
      if w.blockno < |base| then r[w.blockno := w.data] else r
  }

  predicate Shape(g: Region, s: State) {
    && Fits(g, |s.disk|)
    && |s.disk| == |s.view| == |s.base|
    && Loggable(g, |s.disk|, s.lh)
    && Loggable(g, |s.disk|, s.head)
  }

  predicate Enabled(g: Region, s: State, a: Step)
    requires Shape(g, s)
  {
    match a
    case Begin(id) => !s.phase.Recovering? && id !in s.started && Admits(s.lh, s.outstanding, s.committing)
    case Modify(i, b, _) => i < |s.ops| && Home(g, |s.disk|, b)
    case LogWrite(i, b) =>
      // the caller's part of the bargain: MAXOPBLOCKS entries per operation
      i < |s.ops| && Home(g, |s.disk|, b) && s.ops[i].added < MAXOPBLOCKS
    case End(i) => i < |s.ops|
    case CopyBlock => s.phase.Copying? && s.phase.k < |s.lh|
    case WriteHead => s.phase.Copying? && s.phase.k == |s.lh| > 0
    case InstallBlock => s.phase.Installing? && s.phase.k < |s.lh|
    case EraseHead => s.phase.Installing? && s.phase.k == |s.lh|
    case Finish => s.phase.Erased? || (s.phase.Copying? && s.lh == [])
    case Crash => true
    case RecoverBlock => s.phase.Recovering? && s.phase.k < |s.lh|
    case RecoverErase => s.phase.Recovering? && s.phase.k == |s.lh|
  }

  /** A panic of end_op or log_write that this step would run into. */
  predicate Panics(g: Region, s: State, a: Step) {
    match a
    case LogWrite(_, _) => TooBig(g, s.lh) || s.outstanding < 1
    case End(_) => s.outstanding < 1 || s.committing
    case _ => false
  }

  function Next(g: Region, s: State, a: Step): State
    requires Shape(g, s)
    requires Enabled(g, s, a) && !Panics(g, s, a)
  {
    match a
    case Begin(id) =>
      s.(outstanding := s.outstanding + 1, ops := s.ops + [Op(id, {}, 0)], started := s.started + {id})
    case Modify(i, b, data) =>
      var op := s.ops[i];
      s.(view := s.view[b := data],
         ops := s.ops[i := op.(dirty := op.dirty + {b})],
         history := s.history + [Write(op.id, b, data)])
    case LogWrite(i, b) =>
      var op := s.ops[i];
      s.(lh := Absorb(s.lh, b),
         ops := s.ops[i := Op(op.id, op.dirty - {b}, if b in s.lh then op.added else op.added + 1)])
    case End(i) =>
      var left := s.outstanding - 1;
      s.(outstanding := left, ops := s.ops[..i] + s.ops[i + 1..], left := s.left + s.ops[i].dirty,
         committing := left == 0, phase := if left == 0 then Copying(0) else s.phase)
    case CopyBlock =>
      var k := s.phase.k;
      var data := s.view[s.lh[k]];
      s.(disk := s.disk[g.start + 1 + k := data], view := s.view[g.start + 1 + k := data],
         phase := Copying(k + 1))
    case WriteHead =>
      s.(head := s.lh, phase := Installing(0), durable := |s.history|)
    case InstallBlock =>
      var k := s.phase.k;
      var data := s.view[g.start + 1 + k];
      s.(disk := s.disk[s.lh[k] := data], view := s.view[s.lh[k] := data], phase := Installing(k + 1))
    case EraseHead =>
      s.(head := [], lh := [], phase := Erased)
    case Finish =>
      s.(committing := false, phase := Running)
    case Crash =>
      s.(view := s.disk, lh := s.head, outstanding := 0, committing := false,
         phase := Recovering(0), ops := [],
         history := if s.durable <= |s.history| then s.history[..s.durable] else s.history)
    case RecoverBlock =>
      var k := s.phase.k;
      var data := s.view[g.start + 1 + k];
      s.(disk := s.disk[s.lh[k] := data], view := s.view[s.lh[k] := data], phase := Recovering(k + 1))
    case RecoverErase =>
      s.(head := [], lh := [], phase := Running)
  }

  // ---- the invariant ----

  /** Log space still promised to the outstanding operations. */
  function Promised(ops: seq<Op>): int {
    if ops == [] then 0 else MAXOPBLOCKS - ops[0].added + Promised(ops[1..])
  }

  predicate Dirty(ops: seq<Op>, b: nat) {
    exists i :: 0 <= i < |ops| && b in ops[i].dirty
  }

  /** Modified by an operation that has not logged it, or not logged by one that has ended. */
  predicate Unlogged(s: State, b: nat) {
    Dirty(s.ops, b) || b in s.left
  }

  predicate Reserved(s: State) {
    && s.outstanding == |s.ops| && s.durable <= |s.history|
    && (forall j :: 0 <= j < |s.ops| ==> s.ops[j].id in s.started)
    && |s.lh| + Promised(s.ops) <= LOGSIZE
    && (forall i :: 0 <= i < |s.ops| ==> s.ops[i].added <= MAXOPBLOCKS)
    && (s.committing <==> s.phase.Copying? || s.phase.Installing? || s.phase.Erased?)
    && (!s.phase.Running? ==> s.ops == [])
    && (s.phase.Erased? || (s.phase.Running? && s.ops == []) ==> s.lh == [])
  }

  /** No operation has writes on both sides of the committed prefix. */
  predicate WholeOps(ws: seq<Write>, k: nat) {
    k <= |ws| && forall i, j :: 0 <= i < k <= j < |ws| ==> ws[i].op != ws[j].op
  }

  predicate Attributed(s: State) {
    && WholeOps(s.history, s.durable)
    && (forall i, j :: 0 <= i < s.durable && 0 <= j < |s.ops| ==> s.history[i].op != s.ops[j].id)
    && (forall i :: 0 <= i < |s.history| ==> s.history[i].op in s.started)
    && (forall i :: s.durable <= i < |s.history| ==>
          s.history[i].blockno in s.lh || Unlogged(s, s.history[i].blockno))
    && (s.phase.Installing? || s.phase.Erased? || s.phase.Recovering? ==> s.durable == |s.history|)
  }

  /** How the device, the cache and the log region stand at each point. */
  predicate Aligned(g: Region, s: State)
    requires Shape(g, s)
  {
    && Clean(g, s) && Advanced(g, s)
    && s.head == (if s.phase.Installing? || s.phase.Recovering? then s.lh else [])
  }

  /** A cached block that is neither logged nor about to be is as on disk. */
  predicate Clean(g: Region, s: State)
    requires Shape(g, s)
  {
    && (forall b {:trigger s.view[b]} :: 0 <= b < |s.disk| && !Home(g, |s.disk|, b) ==> s.view[b] == s.disk[b])
    && (forall b {:trigger s.view[b]} :: 0 <= b < |s.disk| && b !in s.lh && !Unlogged(s, b) ==> s.view[b] == s.disk[b])
  }

  /** As much is copied or installed as the phase says. */
  predicate Advanced(g: Region, s: State)
    requires Shape(g, s)
  {
    match s.phase
    case Running => true
    case Copying(k) => k <= |s.lh| && forall i :: 0 <= i < k ==> s.disk[g.start + 1 + i] == s.view[s.lh[i]]
    case Installing(k) =>
      && k <= |s.lh|
      && (forall i :: 0 <= i < |s.lh| ==> s.disk[g.start + 1 + i] == s.view[s.lh[i]])
      && (forall i :: 0 <= i < k ==> s.disk[s.lh[i]] == s.view[s.lh[i]])
    case Erased => true
    case Recovering(k) =>
      && k <= |s.lh| && s.view == s.disk
      && (forall i :: 0 <= i < k ==> s.disk[s.lh[i]] == s.disk[g.start + 1 + i])
  }

  /** What recovery would make of the device as it is now. */
  function Survives(g: Region, s: State): Disk
    requires Shape(g, s)
  {
    Installed(g, s.disk, s.head, |s.head|)
  }

  /** The same home blocks, except some. */
  predicate SameBut(g: Region, left: set<nat>, d: Disk, e: Disk) {
    |d| == |e| && forall b :: 0 <= b < |d| && Home(g, |d|, b) && b !in left ==> d[b] == e[b]
  }

  /** Recovery would give the effect of exactly the committed prefix, and reads
      see the effect of the whole history. */
  predicate Faithful(g: Region, s: State)
    requires Shape(g, s) && s.durable <= |s.history|
  {
    && SameBut(g, s.left, Survives(g, s), Replay(s.base, s.history[..s.durable]))
    && (!s.phase.Recovering? ==> SameBut(g, s.left, s.view, Replay(s.base, s.history)))
  }

  predicate Inv(g: Region, s: State) {
    Shape(g, s) && Reserved(s) && Attributed(s) && Aligned(g, s) && Faithful(g, s)
  }

  /** A file system as mkfs leaves it, before initlog. */
  predicate Init(g: Region, s: State) {
    && Fits(g, |s.disk|)
    && s == State(s.disk, [], s.disk, [], 0, false, Recovering(0), [], s.disk, [], 0, {}, {})
  }

  lemma InitInv(g: Region, s: State)
    requires Init(g, s)
    ensures Inv(g, s)
  {
  }

  // ---- log space ----

  lemma {:induction false} PromisedConcat(a: seq<Op>, b: seq<Op>)
    ensures Promised(a + b) == Promised(a) + Promised(b)
  {
    if a == [] {
      assert a + b == b;
    } else {
      assert (a + b)[1..] == a[1..] + b;
      PromisedConcat(a[1..], b);
    }
  }

  lemma {:induction false} PromisedNonNegative(ops: seq<Op>)
    requires forall i :: 0 <= i < |ops| ==> ops[i].added <= MAXOPBLOCKS
    ensures 0 <= Promised(ops) <= |ops| * MAXOPBLOCKS
  {
    if ops != [] { PromisedNonNegative(ops[1..]); }
  }

  /** The promise is the part of the operation at i and that of all the others. */
  lemma PromisedAt(ops: seq<Op>, i: nat, op: Op)
    requires i < |ops|
    ensures Promised(ops[i := op]) == Promised(ops[..i] + ops[i + 1..]) + MAXOPBLOCKS - op.added
  {
    PromisedConcat(ops[..i], ops[i + 1..]);
    assert ops[i := op] == ops[..i] + ([op] + ops[i + 1..]);
    PromisedConcat(ops[..i], [op] + ops[i + 1..]);
    assert ([op] + ops[i + 1..])[1..] == ops[i + 1..];
  }

  /** The reservation keeps log_write and end_op from panicking, although the
      size test comes before absorption. */
  lemma NoPanic(g: Region, s: State, a: Step)
    requires Shape(g, s) && Reserved(s) && Enabled(g, s, a)
    ensures !Panics(g, s, a)
  {
    if a.LogWrite? {
      assert s.ops[a.i := s.ops[a.i]] == s.ops;
      PromisedAt(s.ops, a.i, s.ops[a.i]);
      PromisedNonNegative(s.ops[..a.i] + s.ops[a.i + 1..]);
    }
  }

  lemma StepKeepsShape(g: Region, s: State, a: Step)
    requires Shape(g, s) && Reserved(s) && Enabled(g, s, a) && !Panics(g, s, a)
    ensures Shape(g, Next(g, s, a))
  {
    if a.LogWrite? { AbsorbLoggable(g, |s.disk|, s.lh, a.blockno); }
  }

  lemma AbsorbLoggable(g: Region, len: nat, lh: seq<nat>, b: nat)
    requires Loggable(g, len, lh) && |lh| < LOGSIZE && Home(g, len, b)
    ensures Loggable(g, len, Absorb(lh, b))
  {
  }

  lemma BeginKeepsReserved(g: Region, s: State, a: Step)
    requires Shape(g, s) && Reserved(s) && a.Begin? && Enabled(g, s, a)
    ensures Reserved(Next(g, s, a))
  {
    hide Loggable, Fits, Home;
    PromisedConcat(s.ops, [Op(a.id, {}, 0)]);
    PromisedNonNegative(s.ops);
    assert Promised([Op(a.id, {}, 0)]) == MAXOPBLOCKS;
  }

  lemma OperationKeepsReserved(g: Region, s: State, a: Step)
    requires Shape(g, s) && Reserved(s) && Enabled(g, s, a) && !Panics(g, s, a)
    requires a.Modify? || a.LogWrite? || a.End?
    ensures Reserved(Next(g, s, a))
  {
    hide Loggable, Fits, Home, Promised, Absorb;
    var t := Next(g, s, a);
    PromisedAt(s.ops, a.i, s.ops[a.i]);
    assert s.ops[a.i := s.ops[a.i]] == s.ops;
    if !a.End? { PromisedAt(s.ops, a.i, t.ops[a.i]); }
    if a.LogWrite? { AbsorbLength(s.lh, a.blockno); }
  }

  lemma AbsorbLength(lh: seq<nat>, b: nat)
    ensures |Absorb(lh, b)| == if b in lh then |lh| else |lh| + 1
  {
  }

  lemma StepKeepsReserved(g: Region, s: State, a: Step)
    requires Shape(g, s) && Reserved(s) && Enabled(g, s, a) && !Panics(g, s, a)
    ensures Reserved(Next(g, s, a))
  {
    if a.Begin? {
      BeginKeepsReserved(g, s, a);
    } else if a.Modify? || a.LogWrite? || a.End? {
      OperationKeepsReserved(g, s, a);
    }
  }

  // ---- attribution of writes to operations ----

  /** Which modified blocks a step leaves unlogged. */
  lemma StepDirty(g: Region, s: State, a: Step)
    requires Shape(g, s) && Reserved(s) && Enabled(g, s, a) && !Panics(g, s, a)
    ensures var t := Next(g, s, a);
            forall b :: Unlogged(t, b) ==
              (if a.Modify? && b == a.blockno then true else if a.Crash? then b in s.left
               else if a.LogWrite? && b == a.blockno then Unlogged(t, b) else Unlogged(s, b))
    ensures s.left <= Next(g, s, a).left && (!a.End? ==> Next(g, s, a).left == s.left)
  {
    var t := Next(g, s, a);
    match a
    case Begin(_) =>
      forall b ensures Dirty(t.ops, b) == Dirty(s.ops, b) {
        if Dirty(s.ops, b) {
          var i :| 0 <= i < |s.ops| && b in s.ops[i].dirty;
          assert b in t.ops[i].dirty;
        }
      }
    case Modify(k, b0, _) =>
      forall b ensures Dirty(t.ops, b) == (b == b0 || Dirty(s.ops, b)) {
        if b == b0 { assert b in t.ops[k].dirty; }
        if Dirty(s.ops, b) {
          var i :| 0 <= i < |s.ops| && b in s.ops[i].dirty;
          assert b in t.ops[i].dirty;
        }
      }
    case LogWrite(k, b0) =>
      forall b | b != b0 ensures Dirty(t.ops, b) == Dirty(s.ops, b) {
        if Dirty(s.ops, b) {
          var i :| 0 <= i < |s.ops| && b in s.ops[i].dirty;
          assert b in t.ops[i].dirty;
        }
      }
    case End(k) =>
      forall b ensures Unlogged(t, b) == Unlogged(s, b) {
        if Dirty(s.ops, b) {
          var i :| 0 <= i < |s.ops| && b in s.ops[i].dirty;
          if i != k { assert b in t.ops[if i < k then i else i - 1].dirty; }
        }
      }
    case _ =>
  }

  lemma OperationKeepsAttributed(g: Region, s: State, a: Step)
    requires Shape(g, s) && Reserved(s) && Attributed(s) && Enabled(g, s, a) && !Panics(g, s, a)
    requires a.Begin? || a.Modify? || a.LogWrite? || a.End?
    ensures Attributed(Next(g, s, a))
  {
    hide Promised, Loggable, Home, Fits, Unlogged, Admits;
    StepDirty(g, s, a);
  }

  lemma StepKeepsAttributed(g: Region, s: State, a: Step)
    requires Shape(g, s) && Reserved(s) && Attributed(s) && Enabled(g, s, a) && !Panics(g, s, a)
    ensures Attributed(Next(g, s, a))
  {
    hide Promised, Loggable, Home, Fits, Unlogged, Admits;
    if a.Begin? || a.Modify? || a.LogWrite? || a.End? {
      OperationKeepsAttributed(g, s, a);
    } else {
      StepDirty(g, s, a);
    }
  }

  // ---- device against cache ----

  lemma OperationKeepsAligned(g: Region, s: State, a: Step)
    requires Shape(g, s) && Reserved(s) && Aligned(g, s) && Enabled(g, s, a) && !Panics(g, s, a)
    requires a.Begin? || a.Modify? || a.LogWrite? || a.End? || a.Crash? || a.Finish?
    ensures Shape(g, Next(g, s, a)) && Aligned(g, Next(g, s, a))
  {
    StepKeepsShape(g, s, a);
    StepDirty(g, s, a);
  }

  lemma CopyKeepsAligned(g: Region, s: State, a: Step)
    requires Shape(g, s) && Reserved(s) && Aligned(g, s) && Enabled(g, s, a)
    requires a.CopyBlock? || a.WriteHead?
    ensures Shape(g, Next(g, s, a)) && Aligned(g, Next(g, s, a))
  {
    StepKeepsShape(g, s, a);
  }

  /** A log slot is not a home block. */
  lemma SlotIsNotHome(g: Region, len: nat, h: seq<nat>, i: nat, k: nat)
    requires Fits(g, len) && Loggable(g, len, h) && i < |h| && k < |h|
    ensures g.start + 1 + i < len && !Home(g, len, g.start + 1 + i) && h[k] < len && Home(g, len, h[k]) && h[k] != g.start + 1 + i
  {
  }

  lemma LogRoom(g: Region, len: nat, h: seq<nat>)
    requires Fits(g, len) && Loggable(g, len, h)
    ensures g.start + 1 + |h| <= len && forall i :: 0 <= i < |h| ==> h[i] < len
  {
  }

  /** Installing a block leaves the cache alone: it reads from the log what the cache has. */
  lemma InstallView(g: Region, s: State)
    requires Shape(g, s) && Aligned(g, s) && Enabled(g, s, InstallBlock)
    ensures var k := s.phase.k; s.lh[k] < |s.view|
    ensures var k := s.phase.k;
            Next(g, s, InstallBlock) == s.(disk := s.disk[s.lh[k] := s.view[s.lh[k]]], phase := Installing(k + 1))
  {
    hide Unlogged, Loggable, Advanced;
    var k := s.phase.k;
    SlotIsNotHome(g, |s.disk|, s.lh, k, k);
    InstallingAt(g, s, k);
    assert s.view[g.start + 1 + k] == s.disk[g.start + 1 + k] == s.view[s.lh[k]];
    assert s.view[s.lh[k] := s.view[s.lh[k]]] == s.view;
  }

  lemma SameUnlogged(s: State, t: State)
    requires t.ops == s.ops && t.left == s.left
    ensures forall b :: Unlogged(t, b) == Unlogged(s, b)
  {
  }

  lemma InstallKeepsAligned(g: Region, s: State)
    requires Shape(g, s) && Aligned(g, s) && Enabled(g, s, InstallBlock)
    ensures Shape(g, Next(g, s, InstallBlock)) && Aligned(g, Next(g, s, InstallBlock))
  {
    hide Next, Clean, Advanced, Loggable, Home;
    InstallView(g, s);
    InstallKeepsClean(g, s);
    InstallAdvances(g, s);
  }

  lemma InstallKeepsClean(g: Region, s: State)
    requires Shape(g, s) && Aligned(g, s) && Enabled(g, s, InstallBlock)
    ensures Shape(g, Next(g, s, InstallBlock)) && Clean(g, Next(g, s, InstallBlock))
  {
    hide Next, Unlogged, Loggable, Home, Advanced;
    InstallView(g, s);
    SameUnlogged(s, Next(g, s, InstallBlock));
  }

  lemma InstallAdvances(g: Region, s: State)
    requires Shape(g, s) && Aligned(g, s) && Enabled(g, s, InstallBlock)
    ensures Shape(g, Next(g, s, InstallBlock)) && Advanced(g, Next(g, s, InstallBlock))
  {
    hide Next, Unlogged, Loggable, Home, Clean, Advanced;
    var k := s.phase.k;
    InstallView(g, s);
    LogRoom(g, |s.disk|, s.lh);
    var t := Next(g, s, InstallBlock);
    assert Shape(g, t);
    forall i | 0 <= i < |s.lh| ensures Installs(g, t, i) {
      InstallingAt(g, s, i);
      SlotIsNotHome(g, |s.disk|, s.lh, i, k);
    }
    AllInstall(g, t);
  }

  /** Entry i of a log being installed: it has its block, and so has the home block if its turn is over. */
  predicate Installs(g: Region, s: State, i: nat)
    requires Shape(g, s) && s.phase.Installing? && i < |s.lh|
  {
    s.disk[g.start + 1 + i] == s.view[s.lh[i]] && (i < s.phase.k ==> s.disk[s.lh[i]] == s.view[s.lh[i]])
  }

  lemma InstallingAt(g: Region, s: State, i: nat)
    requires Shape(g, s) && s.phase.Installing? && Advanced(g, s) && i < |s.lh|
    ensures Installs(g, s, i)
  {
  }

  lemma AllInstall(g: Region, s: State)
    requires Shape(g, s) && s.phase.Installing? && s.phase.k <= |s.lh| && forall i :: 0 <= i < |s.lh| ==> Installs(g, s, i)
    ensures Advanced(g, s)
  {
    forall i | 0 <= i < |s.lh| ensures s.disk[g.start + 1 + i] == s.view[s.lh[i]] { assert Installs(g, s, i); }
    forall i | 0 <= i < s.phase.k ensures s.disk[s.lh[i]] == s.view[s.lh[i]] { assert Installs(g, s, i); }
  }

  lemma RecoverKeepsAligned(g: Region, s: State)
    requires Shape(g, s) && Aligned(g, s) && Enabled(g, s, RecoverBlock)
    ensures Shape(g, Next(g, s, RecoverBlock)) && Aligned(g, Next(g, s, RecoverBlock))
  {
    hide Next, Unlogged, Loggable, Home, Advanced;
    PhaseBound(g, s);
    var k, t := s.phase.k, Next(g, s, RecoverBlock);
    RecoverView(g, s);
    LogRoom(g, |s.disk|, s.lh);
    assert Shape(g, t);
    forall i | 0 <= i <= k ensures Recovers(g, t, i) {
      SlotIsNotHome(g, |s.disk|, s.lh, i, k);
      if i < k {
        RecoveringAt(g, s, i);
        Distinct(g, |s.disk|, s.lh, i, k);
      }
    }
    AllRecover(g, t);
  }

  predicate Recovers(g: Region, s: State, i: nat)
    requires Shape(g, s) && i < |s.lh|
  {
    s.disk[s.lh[i]] == s.disk[g.start + 1 + i]
  }

  lemma RecoveringAt(g: Region, s: State, i: nat)
    requires Shape(g, s) && s.phase.Recovering? && Advanced(g, s) && i < s.phase.k
    ensures i < |s.lh| && Recovers(g, s, i)
  {
  }

  lemma AllRecover(g: Region, s: State)
    requires Shape(g, s) && s.phase.Recovering? && s.phase.k <= |s.lh| && s.view == s.disk && forall i :: 0 <= i < s.phase.k ==> Recovers(g, s, i)
    ensures Advanced(g, s)
  {
    forall i | 0 <= i < s.phase.k ensures s.disk[s.lh[i]] == s.disk[g.start + 1 + i] { assert Recovers(g, s, i); }
  }

  lemma Distinct(g: Region, len: nat, h: seq<nat>, i: nat, k: nat)
    requires Loggable(g, len, h) && i < |h| && k < |h| && i != k
    ensures h[i] != h[k]
  {
  }

  lemma RecoverView(g: Region, s: State)
    requires Shape(g, s) && Aligned(g, s) && Enabled(g, s, RecoverBlock)
    ensures var k := s.phase.k; s.lh[k] < |s.disk| && g.start + 1 + k < |s.disk|
    ensures var k := s.phase.k; var d := s.disk[s.lh[k] := s.disk[g.start + 1 + k]];
            Next(g, s, RecoverBlock) == s.(disk := d, view := d, phase := Recovering(k + 1))
  {
    hide Clean, Loggable;
    SlotIsNotHome(g, |s.disk|, s.lh, s.phase.k, s.phase.k);
  }

  lemma EraseKeepsAligned(g: Region, s: State, a: Step)
    requires Shape(g, s) && Reserved(s) && Aligned(g, s) && Enabled(g, s, a)
    requires a.EraseHead? || a.RecoverErase?
    ensures Shape(g, Next(g, s, a)) && Aligned(g, Next(g, s, a))
  {
    forall b | 0 <= b < |s.disk| && !Unlogged(s, b) ensures s.view[b] == s.disk[b] {
      if b in s.lh {
        var i :| 0 <= i < |s.lh| && s.lh[i] == b;
      }
    }
  }

  lemma StepKeepsAligned(g: Region, s: State, a: Step)
    requires Shape(g, s) && Reserved(s) && Aligned(g, s) && Enabled(g, s, a) && !Panics(g, s, a)
    ensures Shape(g, Next(g, s, a)) && Aligned(g, Next(g, s, a))
  {
    match a
    case CopyBlock => CopyKeepsAligned(g, s, a);
    case WriteHead => CopyKeepsAligned(g, s, a);
    case InstallBlock => InstallKeepsAligned(g, s);
    case RecoverBlock => RecoverKeepsAligned(g, s);
    case EraseHead => EraseKeepsAligned(g, s, a);
    case RecoverErase => EraseKeepsAligned(g, s, a);
    case _ => OperationKeepsAligned(g, s, a);
  }

  // ---- the committed prefix ----

  /** Block by block, what recovery makes of the device. */
  lemma SurvivesAt(g: Region, s: State)
    requires Shape(g, s)
    ensures forall i :: 0 <= i < |s.head| ==> Survives(g, s)[s.head[i]] == s.disk[g.start + 1 + i]
    ensures forall b :: 0 <= b < |s.disk| && b !in s.head ==> Survives(g, s)[b] == s.disk[b]
  {
    InstalledAt(g, s.disk, s.head, |s.head|);
    assert s.head[..|s.head|] == s.head;
  }

  /** Reinstalling a block that is in the log anyway changes nothing recovery would produce. */
  lemma InstallOneMore(g: Region, d: Disk, h: seq<nat>, k: nat)
    requires Fits(g, |d|) && Loggable(g, |d|, h) && k < |h|
    ensures h[k] < |d| && g.start + 1 + k < |d|
    ensures SameHome(g, Installed(g, d[h[k] := d[g.start + 1 + k]], h, |h|), Installed(g, d, h, |h|))
  {
    hide Loggable, Home, Installed;
    SlotIsNotHome(g, |d|, h, k, k);
    var e := d[h[k] := d[g.start + 1 + k]];
    InstalledAll(g, d, h);
    InstalledAll(g, e, h);
    forall b | 0 <= b < |d| && Home(g, |d|, b) ensures Installed(g, e, h, |h|)[b] == Installed(g, d, h, |h|)[b] {
      if b in h {
        var i :| 0 <= i < |h| && h[i] == b;
        SlotIsNotHome(g, |d|, h, i, k);
        assert Installed(g, e, h, |h|)[h[i]] == Installed(g, d, h, |h|)[h[i]];
      }
    }
  }

  lemma InstalledAll(g: Region, d: Disk, h: seq<nat>)
    requires Fits(g, |d|) && Loggable(g, |d|, h)
    ensures forall i :: 0 <= i < |h| ==> h[i] < |d| && Installed(g, d, h, |h|)[h[i]] == d[g.start + 1 + i]
    ensures forall b :: 0 <= b < |d| && b !in h ==> Installed(g, d, h, |h|)[b] == d[b]
  {
    InstalledAt(g, d, h, |h|);
    assert h[..|h|] == h;
  }

  lemma InstalledNone(g: Region, d: Disk)
    requires Fits(g, |d|)
    ensures Loggable(g, |d|, []) && Installed(g, d, [], 0) == d
  {
  }

  /** Once every block is home, the log adds nothing. */
  lemma InstalledAlready(g: Region, d: Disk, h: seq<nat>)
    requires Fits(g, |d|) && Loggable(g, |d|, h) && forall i :: 0 <= i < |h| ==> d[h[i]] == d[g.start + 1 + i]
    ensures SameHome(g, Installed(g, d, [], 0), Installed(g, d, h, |h|))
  {
    hide Loggable, Home, Installed;
    InstalledAll(g, d, h);
    LogRoom(g, |d|, h);
    InstalledNone(g, d);
    forall b | 0 <= b < |d| ensures Installed(g, d, h, |h|)[b] == d[b] {
      if b in h {
        var i :| 0 <= i < |h| && h[i] == b;
        assert Installed(g, d, h, |h|)[h[i]] == d[g.start + 1 + i];
      }
    }
  }

  lemma CopySurvives(g: Region, s: State)
    requires Shape(g, s) && Aligned(g, s) && Enabled(g, s, CopyBlock)
    ensures Shape(g, Next(g, s, CopyBlock)) && SameHome(g, Survives(g, Next(g, s, CopyBlock)), Survives(g, s))
  {
    hide Unlogged, Loggable;
    var k := s.phase.k;
    SlotIsNotHome(g, |s.disk|, s.lh, k, k);
  }

  lemma InstallSurvives(g: Region, s: State, a: Step)
    requires Shape(g, s) && Aligned(g, s) && Enabled(g, s, a) && (a.InstallBlock? || a.RecoverBlock?)
    ensures Shape(g, Next(g, s, a)) && SameHome(g, Survives(g, Next(g, s, a)), Survives(g, s))
  {
    hide Unlogged, Loggable, Installed, SameHome;
    var k := s.phase.k;
    SlotIsNotHome(g, |s.disk|, s.lh, k, k);
    assert s.view[g.start + 1 + k] == s.disk[g.start + 1 + k];
    InstallOneMore(g, s.disk, s.lh, k);
  }

  lemma EraseSurvives(g: Region, s: State, a: Step)
    requires Shape(g, s) && Aligned(g, s) && Enabled(g, s, a) && (a.EraseHead? || a.RecoverErase?)
    ensures Shape(g, Next(g, s, a)) && SameHome(g, Survives(g, Next(g, s, a)), Survives(g, s))
  {
    hide Unlogged, Installed, SameHome;
    InstalledAlready(g, s.disk, s.lh);
  }

  /** Steps that write no disk block. */
  lemma QuietSurvives(g: Region, s: State, a: Step)
    requires Shape(g, s) && Enabled(g, s, a) && !Panics(g, s, a)
    requires a.Begin? || a.Modify? || a.LogWrite? || a.End? || a.Finish? || a.Crash?
    requires Shape(g, Next(g, s, a))
    ensures SameHome(g, Survives(g, Next(g, s, a)), Survives(g, s))
  {
    hide Unlogged, Installed, Loggable;
    assert Next(g, s, a).disk == s.disk && Next(g, s, a).head == s.head;
  }

  /** Disk writes other than the committing header write do not change what would survive a crash. */
  lemma OnlyHeadCommits(g: Region, s: State, a: Step)
    requires Shape(g, s) && Reserved(s) && Aligned(g, s) && Enabled(g, s, a) && !Panics(g, s, a)
    requires !a.WriteHead?
    ensures Shape(g, Next(g, s, a)) && SameHome(g, Survives(g, Next(g, s, a)), Survives(g, s))
  {
    hide Shape, Reserved, Aligned, Next, SameHome, Survives;
    StepKeepsShape(g, s, a);
    match a
    case CopyBlock => CopySurvives(g, s);
    case InstallBlock => InstallSurvives(g, s, a);
    case RecoverBlock => InstallSurvives(g, s, a);
    case EraseHead => EraseSurvives(g, s, a);
    case RecoverErase => EraseSurvives(g, s, a);
    case _ => QuietSurvives(g, s, a);
  }

  /** The header write commits exactly the listed blocks: of these the cached contents will survive,
      of all others what the device has. */
  lemma HeadWriteCommits(g: Region, s: State, b: nat)
    requires Shape(g, s) && Aligned(g, s) && Enabled(g, s, WriteHead) && Home(g, |s.disk|, b)
    ensures Shape(g, Next(g, s, WriteHead))
    ensures Survives(g, Next(g, s, WriteHead))[b] == if b in s.lh then s.view[b] else s.disk[b]
  {
    hide Unlogged;
    var t := Next(g, s, WriteHead);
    SurvivesAt(g, t);
    if b in s.lh {
      var i :| 0 <= i < |s.lh| && s.lh[i] == b;
      assert Survives(g, t)[t.head[i]] == t.disk[g.start + 1 + i];
    }
  }

  /** So the cached state survives whole, except for blocks that were never logged. */
  lemma HeadWriteKeepsView(g: Region, s: State)
    requires Shape(g, s) && Reserved(s) && Aligned(g, s) && Enabled(g, s, WriteHead)
    ensures Shape(g, Next(g, s, WriteHead)) && SameBut(g, s.left, Survives(g, Next(g, s, WriteHead)), s.view)
  {
    forall b | 0 <= b < |s.disk| && Home(g, |s.disk|, b) && b !in s.left
      ensures Survives(g, Next(g, s, WriteHead))[b] == s.view[b]
    {
      HeadWriteCommits(g, s, b);
    }
  }

  lemma SameButTwice(g: Region, left: set<nat>, more: set<nat>, d: Disk, e: Disk, f: Disk)
    requires (SameHome(g, d, e) || SameBut(g, left, d, e)) && SameBut(g, left, e, f) && left <= more
    ensures SameBut(g, more, d, f)
  {
  }

  /** After each step recovery would give the effect of exactly the committed prefix. */
  lemma StepKeepsSurviving(g: Region, s: State, a: Step)
    requires Inv(g, s) && Enabled(g, s, a) && !Panics(g, s, a)
    ensures Shape(g, Next(g, s, a)) && Next(g, s, a).durable <= |Next(g, s, a).history|
    ensures var t := Next(g, s, a);
            SameBut(g, t.left, Survives(g, t), Replay(t.base, t.history[..t.durable]))
  {
    hide Shape, Aligned, Survives, SameBut, SameHome, Promised;
    var t := Next(g, s, a);
    if a.WriteHead? {
      HeadWriteKeepsView(g, s);
      assert t.history[..t.durable] == s.history;
      SameButTwice(g, s.left, t.left, Survives(g, t), s.view, Replay(s.base, s.history));
    } else {
      OnlyHeadCommits(g, s, a);
      assert t.history[..t.durable] == s.history[..s.durable];
      SameButTwice(g, s.left, t.left, Survives(g, t), Survives(g, s), Replay(s.base, s.history[..s.durable]));
    }
  }

  lemma StepKeepsReads(g: Region, s: State, a: Step)
    requires Inv(g, s) && Enabled(g, s, a) && !Panics(g, s, a)
    requires Shape(g, Next(g, s, a)) && !Next(g, s, a).phase.Recovering?
    ensures SameBut(g, Next(g, s, a).left, Next(g, s, a).view, Replay(s.base, Next(g, s, a).history))
  {
    if a.Modify? {
      var t := Next(g, s, a);
      assert t.history[..|t.history| - 1] == s.history;
    } else {
      ReadsUnchanged(g, s, a);
    }
  }

  /** When recovery is done, reads see what survived: the committed prefix. */
  lemma RecoveredReads(g: Region, s: State)
    requires Shape(g, s) && Attributed(s) && Aligned(g, s) && Faithful(g, s)
    requires s.phase.Recovering? && s.phase.k == |s.lh|
    ensures SameBut(g, s.left, s.view, Replay(s.base, s.history))
  {
    SurvivesAt(g, s);
    assert s.history[..s.durable] == s.history;
    forall b | 0 <= b < |s.disk| && Home(g, |s.disk|, b) ensures s.view[b] == Survives(g, s)[b] {
      if b in s.lh {
        var i :| 0 <= i < |s.lh| && s.lh[i] == b;
        assert Survives(g, s)[s.head[i]] == s.disk[g.start + 1 + i];
      }
    }
  }

  /** Only Modify changes what reads see of the home blocks; recovery ends with
      reads seeing what survived. */
  lemma ReadsUnchanged(g: Region, s: State, a: Step)
    requires Inv(g, s) && Enabled(g, s, a) && !Panics(g, s, a) && !a.Modify?
    requires Shape(g, Next(g, s, a)) && !Next(g, s, a).phase.Recovering?
    ensures SameBut(g, Next(g, s, a).left, Next(g, s, a).view, Replay(s.base, s.history)) && Next(g, s, a).history == s.history
  {
    hide Shape, Reserved, Attributed, Aligned, Replay, SameHome, SameBut;
    if a.RecoverErase? {
      RecoveredReads(g, s);
      EraseView(g, s);
    } else {
      ViewUnchanged(g, s, a);
      SameButTwice(g, s.left, Next(g, s, a).left, Next(g, s, a).view, s.view, Replay(s.base, s.history));
    }
  }

  lemma EraseView(g: Region, s: State)
    requires Shape(g, s) && Enabled(g, s, RecoverErase)
    ensures Next(g, s, RecoverErase).view == s.view && s.phase.Recovering? && s.phase.k == |s.lh|
  {
  }

  lemma ViewUnchanged(g: Region, s: State, a: Step)
    requires Shape(g, s) && Reserved(s) && Aligned(g, s) && Enabled(g, s, a) && !Panics(g, s, a) && !a.Modify? && !a.RecoverErase?
    requires !Next(g, s, a).phase.Recovering?
    ensures SameHome(g, Next(g, s, a).view, s.view) && !s.phase.Recovering?
  {
    hide Unlogged, Loggable;
    if a.InstallBlock? {
      InstallView(g, s);
    } else if a.CopyBlock? {
      SlotIsNotHome(g, |s.disk|, s.lh, s.phase.k, s.phase.k);
    }
  }

  lemma StepKeeps(g: Region, s: State, a: Step)
    requires Inv(g, s) && Enabled(g, s, a)
    ensures !Panics(g, s, a) && Inv(g, Next(g, s, a))
  {
    NoPanic(g, s, a);
    StepKeepsReserved(g, s, a);
    StepKeepsAttributed(g, s, a);
    StepKeepsAligned(g, s, a);
    StepKeepsSurviving(g, s, a);
    if !Next(g, s, a).phase.Recovering? { StepKeepsReads(g, s, a); }
  }

  // ---- whole runs ----

  /** ss[0], ss[1], ... is a run from a fresh file system, taking the given steps. */
  predicate Run(g: Region, ss: seq<State>, steps: seq<Step>) {
    && |ss| == |steps| + 1
    && Init(g, ss[0])
    && forall i :: 0 <= i < |steps| ==> Moves(g, ss[i], steps[i], ss[i + 1])
  }

  predicate Moves(g: Region, s: State, a: Step, t: State) {
    Shape(g, s) && Enabled(g, s, a) && (Panics(g, s, a) || t == Next(g, s, a))
  }

  lemma {:induction false} RunInv(g: Region, ss: seq<State>, steps: seq<Step>, i: nat)
    requires Run(g, ss, steps) && i < |ss|
    ensures Inv(g, ss[i])
  {
    hide Shape, Reserved, Attributed, Aligned, Faithful, Inv, Next, Enabled, Panics;
    if i == 0 {
      InitInv(g, ss[0]);
    } else {
      RunInv(g, ss, steps, i - 1);
      assert Moves(g, ss[i - 1], steps[i - 1], ss[i - 1 + 1]);
      StepKeeps(g, ss[i - 1], steps[i - 1]);
    }
  }

  lemma StepKeepsCommitted(g: Region, s: State, a: Step)
    requires Inv(g, s) && Enabled(g, s, a) && !Panics(g, s, a)
    ensures var t := Next(g, s, a);
            t.base == s.base && t.durable <= |t.history| && s.history[..s.durable] <= t.history[..t.durable]
  {
    hide Aligned, Faithful, Shape;
  }

  lemma RunStep(g: Region, ss: seq<State>, steps: seq<Step>, i: nat)
    requires Run(g, ss, steps) && i < |steps|
    ensures Inv(g, ss[i]) && Enabled(g, ss[i], steps[i]) && !Panics(g, ss[i], steps[i]) && ss[i + 1] == Next(g, ss[i], steps[i])
    ensures ss[i + 1].base == ss[i].base
    ensures ss[i].durable <= |ss[i].history| && ss[i + 1].durable <= |ss[i + 1].history|
    ensures ss[i].history[..ss[i].durable] <= ss[i + 1].history[..ss[i + 1].durable]
  {
    hide Aligned, Faithful, Next, Enabled, Panics, Attributed;
    RunInv(g, ss, steps, i);
    assert Moves(g, ss[i], steps[i], ss[i + 1]);
    StepKeeps(g, ss[i], steps[i]);
    StepKeepsCommitted(g, ss[i], steps[i]);
  }

  lemma {:induction false} BaseFixed(g: Region, ss: seq<State>, steps: seq<Step>, i: nat)
    requires Run(g, ss, steps) && i < |ss|
    ensures ss[i].base == ss[0].disk
  {
    if i > 0 {
      BaseFixed(g, ss, steps, i - 1);
      RunStep(g, ss, steps, i - 1);
    }
  }

  /** An operation ended at step j with block b modified and not logged. */
  predicate LeavesBehind(s: State, a: Step, b: nat) {
    a.End? && a.i < |s.ops| && b in s.ops[a.i].dirty
  }

  /** `left` is what it is meant to be: the blocks that some end_op found modified and not logged. */
  lemma {:induction false} LeftExactly(g: Region, ss: seq<State>, steps: seq<Step>, i: nat, b: nat)
    requires Run(g, ss, steps) && i < |ss|
    ensures b in ss[i].left <==> exists j :: 0 <= j < i && LeavesBehind(ss[j], steps[j], b)
  {
    hide Inv, LeavesBehind;
    if i > 0 {
      LeftExactly(g, ss, steps, i - 1, b);
      RunStep(g, ss, steps, i - 1);
      LeftGrows(g, ss[i - 1], steps[i - 1], b);
    }
  }

  lemma LeftGrows(g: Region, s: State, a: Step, b: nat)
    requires Shape(g, s) && Enabled(g, s, a) && !Panics(g, s, a)
    ensures b in Next(g, s, a).left <==> b in s.left || LeavesBehind(s, a, b)
  {
  }

  /** Crash atomicity: at every moment of every run, with any crashes before it and also halfway
      through commits and recoveries, the device recovers to the effect of exactly the committed
      writes, which hold every operation whole or not at all. The only blocks for which this can
      fail are those an operation modified and left unlogged when it ended. */
  lemma CrashAtomicity(g: Region, ss: seq<State>, steps: seq<Step>, i: nat)
    requires Run(g, ss, steps) && i < |ss|
    ensures Shape(g, ss[i]) && WholeOps(ss[i].history, ss[i].durable)
    ensures SameBut(g, ss[i].left, Survives(g, ss[i]), Replay(ss[0].disk, ss[i].history[..ss[i].durable]))
  {
    hide Next, Enabled, Panics, Aligned, Reserved;
    RunInv(g, ss, steps, i);
    BaseFixed(g, ss, steps, i);
  }

  /** With callers that log every block they modify, recovery gives the committed operations
      exactly, each whole or not at all. */
  lemma OperationsAreAtomic(g: Region, ss: seq<State>, steps: seq<Step>, i: nat)
    requires Run(g, ss, steps) && i < |ss|
    requires forall j :: 0 <= j < i && steps[j].End? && steps[j].i < |ss[j].ops| ==> ss[j].ops[steps[j].i].dirty == {}
    ensures Shape(g, ss[i]) && WholeOps(ss[i].history, ss[i].durable)
    ensures SameHome(g, Survives(g, ss[i]), Replay(ss[0].disk, ss[i].history[..ss[i].durable]))
  {
    CrashAtomicity(g, ss, steps, i);
    forall b ensures b !in ss[i].left { LeftExactly(g, ss, steps, i, b); }
  }

  lemma Extend(g: Region, ss: seq<State>, steps: seq<Step>, a: Step, t: State) returns (ss': seq<State>, steps': seq<Step>)
    requires Run(g, ss, steps) && Moves(g, ss[|steps|], a, t)
    ensures Run(g, ss', steps') && |ss'| == |steps'| + 1 && ss'[0] == ss[0] && ss'[|steps'|] == t
    ensures ss' == ss + [t] && steps' == steps + [a]
  {
    hide Moves, Init;
    ss', steps' := ss + [t], steps + [a];
  }

  /** Operation 0 has begun on a fresh file system. */
  function Begun(d: Disk): State {
    State(d, [], d, [], 1, false, Running, [Op(0, {}, 0)], d, [], 0, {0}, {})
  }

  lemma RunToBegun(g: Region, d: Disk) returns (ss: seq<State>, steps: seq<Step>)
    requires Fits(g, |d|)
    ensures Run(g, ss, steps) && |ss| == |steps| + 1 && ss[0].disk == d && ss[|steps|] == Begun(d)
  {
    hide Run, Fits;
    var s := State(d, [], d, [], 0, false, Recovering(0), [], d, [], 0, {}, {});
    ss, steps := [s], [];
    Start(g, s);
    ss, steps := Extend(g, ss, steps, RecoverErase, s.(phase := Running));
    ss, steps := Extend(g, ss, steps, Begin(0), Begun(d)) by { assert {} + {0} == {0}; }
  }

  /** It has modified blocks b and c. */
  function Modified(d: Disk, b: nat, c: nat, x: Block, y: Block): State
    requires b < |d| && c < |d|
  {
    Begun(d).(view := d[b := x][c := y], ops := [Op(0, {b, c}, 0)], history := [Write(0, b, x), Write(0, c, y)])
  }

  lemma RunToModified(g: Region, d: Disk, b: nat, c: nat, x: Block, y: Block) returns (ss: seq<State>, steps: seq<Step>)
    requires Fits(g, |d|) && Home(g, |d|, b) && Home(g, |d|, c)
    ensures Run(g, ss, steps) && |ss| == |steps| + 1 && ss[0].disk == d && ss[|steps|] == Modified(d, b, c, x, y)
  {
    hide Run, Fits, Moves;
    ss, steps := RunToBegun(g, d);
    var s := Begun(d).(view := d[b := x], ops := [Op(0, {} + {b}, 0)], history := [] + [Write(0, b, x)]);
    ModifyOnly(g, Begun(d), b, x);
    ss, steps := Extend(g, ss, steps, Modify(0, b, x), s);
    ModifyOnly(g, s, c, y);
    assert {} + {b} + {c} == {b, c} && [] + [Write(0, b, x)] + [Write(0, c, y)] == [Write(0, b, x), Write(0, c, y)];
    ss, steps := Extend(g, ss, steps, Modify(0, c, y), Modified(d, b, c, x, y));
  }

  /** It has logged c alone and ended, and the commit is about to start. */
  function Ended(d: Disk, b: nat, c: nat, x: Block, y: Block): State
    requires b < |d| && c < |d|
  {
    Modified(d, b, c, x, y).(lh := [c], outstanding := 0, ops := [], left := {b, c} - {c},
                             committing := true, phase := Copying(0))
  }

  lemma RunToEnded(g: Region, d: Disk, b: nat, c: nat, x: Block, y: Block) returns (ss: seq<State>, steps: seq<Step>)
    requires Fits(g, |d|) && Home(g, |d|, b) && Home(g, |d|, c)
    ensures Run(g, ss, steps) && |ss| == |steps| + 1 && ss[0].disk == d && ss[|steps|] == Ended(d, b, c, x, y)
  {
    hide Run, Fits, Moves;
    ss, steps := RunToModified(g, d, b, c, x, y);
    var s := Modified(d, b, c, x, y).(lh := [c], ops := [Op(0, {b, c} - {c}, 1)]);
    LogOnly(g, Modified(d, b, c, x, y), c);
    ss, steps := Extend(g, ss, steps, LogWrite(0, c), s);
    EndOnly(g, s);
    ss, steps := Extend(g, ss, steps, End(0), Ended(d, b, c, x, y)) by { assert {} + ({b, c} - {c}) == {b, c} - {c}; }
  }

  lemma LogOnly(g: Region, s: State, c: nat)
    requires Shape(g, s) && |s.ops| == 1 && s.outstanding == 1 && s.lh == [] && Home(g, |s.disk|, c) && s.ops[0].added == 0
    ensures Moves(g, s, LogWrite(0, c), s.(lh := [c], ops := [Op(s.ops[0].id, s.ops[0].dirty - {c}, 1)]))
  {
    var op := Op(s.ops[0].id, s.ops[0].dirty - {c}, 1);
    assert s.ops[0 := op] == [op];
  }

  lemma EndOnly(g: Region, s: State)
    requires Shape(g, s) && |s.ops| == 1 && s.outstanding == 1 && !s.committing
    ensures Moves(g, s, End(0), s.(outstanding := 0, ops := [], left := s.left + s.ops[0].dirty,
                                   committing := true, phase := Copying(0)))
  {
    assert s.ops[..0] + s.ops[1..] == [];
  }

  lemma ModifyOnly(g: Region, s: State, b: nat, data: Block)
    requires Shape(g, s) && |s.ops| == 1 && Home(g, |s.disk|, b)
    ensures var op := s.ops[0];
            Moves(g, s, Modify(0, b, data), s.(view := s.view[b := data], ops := [Op(op.id, op.dirty + {b}, op.added)],
                                               history := s.history + [Write(op.id, b, data)]))
  {
    hide Fits;
    assert s.ops[0 := Op(s.ops[0].id, s.ops[0].dirty + {b}, s.ops[0].added)] == [Op(s.ops[0].id, s.ops[0].dirty + {b}, s.ops[0].added)];
  }

  lemma Start(g: Region, s: State)
    requires Init(g, s)
    ensures Run(g, [s], [])
  {
  }

  /** And then crash atomicity fails: whatever the disk, the two blocks and the new data, there is a
      run after which recovery gives neither all of an operation nor nothing of it. */
  lemma UnloggedWriteSplits(g: Region, d: Disk, b: nat, c: nat, x: Block, y: Block)
    returns (ss: seq<State>, steps: seq<Step>)
    requires Fits(g, |d|) && Home(g, |d|, b) && Home(g, |d|, c) && b != c && d[b] != x && d[c] != y
    ensures Run(g, ss, steps) && |ss| == |steps| + 1 && ss[0].disk == d
    ensures var s := ss[|steps|];
            && Shape(g, s) && |s.disk| == |d| && s.history == [Write(0, b, x), Write(0, c, y)]
            && Survives(g, s)[c] == y && Survives(g, s)[b] == d[b]
    ensures var s := ss[|steps|];
            forall k :: 0 <= k <= |s.history| && WholeOps(s.history, k) ==>
              !SameHome(g, Survives(g, s), Replay(d, s.history[..k]))
  {
    hide Run, Fits;
    ss, steps := RunToEnded(g, d, b, c, x, y);
    var s, slot := Ended(d, b, c, x, y), g.start + 1;
    OneLogged(g, |d|, c);
    var t := s.(disk := d[slot := y], view := s.view[slot := y], phase := Copying(1));
    ss, steps := Extend(g, ss, steps, CopyBlock, t);
    var u := t.(head := [c], phase := Installing(0), durable := 2);
    ss, steps := Extend(g, ss, steps, WriteHead, u);
    SurvivesAt(g, u);
    assert u.head[0] == c;
    NeitherReplay(d, b, c, x, y, u.history);
  }

  lemma OneLogged(g: Region, len: nat, c: nat)
    requires Fits(g, len) && Home(g, len, c)
    ensures Loggable(g, len, [c]) && g.start + 1 < len && c != g.start + 1 && !Home(g, len, g.start + 1)
  {
  }

  lemma NeitherReplay(d: Disk, b: nat, c: nat, x: Block, y: Block, ws: seq<Write>)
    requires b < |d| && c < |d| && b != c && d[b] != x && d[c] != y && ws == [Write(0, b, x), Write(0, c, y)]
    ensures forall k :: 0 <= k <= 2 && WholeOps(ws, k) ==> Replay(d, ws[..k])[c] != y || Replay(d, ws[..k])[b] != d[b]
  {
    assert !WholeOps(ws, 1) by { assert ws[0].op == ws[1].op; }
    assert ws[..0] == [] && ws[..2] == ws && ws[..1] == [Write(0, b, x)];
    assert Replay(d, ws[..1]) == d[b := x] by { assert ws[..1][..0] == []; }
    assert Replay(d, ws) == d[b := x][c := y];
  }

  /** A committed write is never lost again, whatever crashes follow. */
  lemma {:induction false} CommittedStays(g: Region, ss: seq<State>, steps: seq<Step>, i: nat, j: nat)
    requires Run(g, ss, steps) && i < j < |ss|
    ensures ss[i].durable <= |ss[i].history| && ss[j].durable <= |ss[j].history|
    ensures ss[i].history[..ss[i].durable] <= ss[j].history[..ss[j].durable]
    decreases j - i
  {
    hide Inv, Next, Enabled, Panics;
    RunStep(g, ss, steps, j - 1);
    if i < j - 1 { CommittedStays(g, ss, steps, i, j - 1); }
  }

  /** Once the last end_op has returned, all writes are on disk, and reads, a crash now and the
      full history agree, on all blocks but those left unlogged. */
  lemma QuiescentIsDurable(g: Region, ss: seq<State>, steps: seq<Step>, i: nat)
    requires Run(g, ss, steps) && i < |ss|
    requires ss[i].phase.Running? && ss[i].outstanding == 0
    ensures Shape(g, ss[i]) && (ss[i].left == {} ==> ss[i].durable == |ss[i].history|)
    ensures SameBut(g, ss[i].left, ss[i].view, Survives(g, ss[i]))
    ensures SameBut(g, ss[i].left, ss[i].view, Replay(ss[0].disk, ss[i].history))
  {
    RunInv(g, ss, steps, i);
    BaseFixed(g, ss, steps, i);
    assert ss[i].history[..|ss[i].history|] == ss[i].history;
  }

  /** Group-commit isolation and log space: no operation is in progress, and so
      none modifies or logs a block, while a commit is; and no run panics. */
  lemma CommitIsolation(g: Region, ss: seq<State>, steps: seq<Step>, i: nat)
    requires Run(g, ss, steps) && i < |steps|
    ensures !Panics(g, ss[i], steps[i])
    ensures ss[i].committing ==> ss[i].outstanding == 0 && ss[i].ops == []
    ensures steps[i].Begin? || steps[i].Modify? || steps[i].LogWrite? || steps[i].End? ==> !ss[i].committing
    ensures |ss[i].lh| + Promised(ss[i].ops) <= LOGSIZE
  {
    RunStep(g, ss, steps, i);
  }

  // ---- what was written is what is read ----

  lemma StepView(g: Region, s: State, a: Step, b: nat)
    requires Inv(g, s) && Enabled(g, s, a) && !Panics(g, s, a) && !a.Crash? && !s.phase.Recovering? && Home(g, |s.disk|, b)
    ensures var t := Next(g, s, a);
            && |t.view| == |t.disk| == |s.disk| == |s.view| && !t.phase.Recovering?
            && t.view[b] == if a.Modify? && a.blockno == b then a.data else s.view[b]
  {
    hide Attributed, Faithful;
    if !a.Modify? && !a.RecoverErase? { ViewUnchanged(g, s, a); }
  }

  /** Step n modifies block b, and no step from there up to m does so again or is a crash. */
  predicate LastSet(steps: seq<Step>, n: nat, m: nat) {
    && n < m <= |steps| && steps[n].Modify?
    && forall k :: n < k < m ==> !steps[k].Crash? && (steps[k].Modify? ==> steps[k].blockno != steps[n].blockno)
  }

  /** A block reads as what was last put in it, through any number of commits. */
  lemma {:induction false} ReadYourWrites(g: Region, ss: seq<State>, steps: seq<Step>, n: nat, m: nat)
    requires Run(g, ss, steps) && LastSet(steps, n, m)
    ensures var b := steps[n].blockno;
            Shape(g, ss[m]) && !ss[m].phase.Recovering? && Home(g, |ss[m].disk|, b) && ss[m].view[b] == steps[n].data
    decreases m - n
  {
    hide Reserved, Attributed, Aligned, Faithful, Next, Panics;
    RunStep(g, ss, steps, m - 1);
    RunInv(g, ss, steps, m);
    if m - 1 == n {
      ModifyRuns(g, ss[n], steps[n]);
    } else {
      ReadYourWrites(g, ss, steps, n, m - 1);
    }
    StepView(g, ss[m - 1], steps[m - 1], steps[n].blockno);
  }

  lemma ModifyRuns(g: Region, s: State, a: Step)
    requires Inv(g, s) && a.Modify? && Enabled(g, s, a)
    ensures !s.phase.Recovering? && Home(g, |s.disk|, a.blockno)
  {
  }

  /** Once the last end_op has returned, a crash does not take it away either, provided that no operation
      has left that block unlogged. */
  lemma WritesSurvive(g: Region, ss: seq<State>, steps: seq<Step>, n: nat, m: nat)
    requires Run(g, ss, steps) && LastSet(steps, n, m) && ss[m].phase.Running? && ss[m].outstanding == 0
    requires steps[n].blockno !in ss[m].left
    ensures Shape(g, ss[m]) && steps[n].blockno < |Survives(g, ss[m])| && Survives(g, ss[m])[steps[n].blockno] == steps[n].data
  {
    hide Init, Moves, Survives;
    ReadYourWrites(g, ss, steps, n, m);
    QuiescentIsDurable(g, ss, steps, m);
  }

  // ---- the log's own steps end ----

  /** What commit or recovery does next. */
  function LogStep(s: State): Step {
    match s.phase
    case Running => Finish
    case Copying(k) => if k < |s.lh| then CopyBlock else if s.lh == [] then Finish else WriteHead
    case Installing(k) => if k < |s.lh| then InstallBlock else EraseHead
    case Erased => Finish
    case Recovering(k) => if k < |s.lh| then RecoverBlock else RecoverErase
  }

  /** How many such steps are left. */
  function Work(s: State): int {
    match s.phase
    case Running => 0
    case Copying(k) => if s.lh == [] then 1 else 2 * |s.lh| - k + 3
    case Installing(k) => |s.lh| - k + 2
    case Erased => 1
    case Recovering(k) => |s.lh| - k + 1
  }

  lemma LogStepRuns(g: Region, s: State)
    requires Inv(g, s) && !s.phase.Running?
    ensures Enabled(g, s, LogStep(s)) && !Panics(g, s, LogStep(s))
    ensures 0 <= Work(Next(g, s, LogStep(s))) == Work(s) - 1
  {
    hide Attributed, Faithful, Aligned, Loggable, Fits;
    PhaseBound(g, s);
  }

  lemma PhaseBound(g: Region, s: State)
    requires Shape(g, s) && Aligned(g, s)
    ensures s.phase.Copying? || s.phase.Installing? || s.phase.Recovering? ==> s.phase.k <= |s.lh|
  {
    hide Clean, Loggable, Fits;
  }

  /** From every reachable state the log's own steps, Work many and no more, lead back to running, and then,
      if no operation is outstanding, begin_op admits one. */
  lemma {:induction false} CommitEnds(g: Region, ss: seq<State>, steps: seq<Step>) returns (ss': seq<State>, steps': seq<Step>)
    requires Run(g, ss, steps)
    ensures Run(g, ss', steps') && ss <= ss' && steps <= steps' && |steps'| - |steps| == Work(ss[|steps|]) >= 0
    ensures forall k :: |steps| <= k < |steps'| ==> !ss'[k].phase.Running? && steps'[k] == LogStep(ss'[k])
    ensures ss'[|steps'|].phase.Running?
    ensures var t := ss'[|steps'|]; t.outstanding == 0 ==> Admits(t.lh, t.outstanding, t.committing)
    decreases Work(ss[|steps|])
  {
    hide Reserved, Attributed, Aligned, Faithful, Next, Enabled, Panics, Shape, LogStep, Init, Admits;
    var s := ss[|steps|];
    RunInv(g, ss, steps, |steps|);
    if s.phase.Running? {
      ss', steps' := ss, steps;
      IdleAdmits(g, s);
    } else {
      LogStepRuns(g, s);
      var ts, qs := Extend(g, ss, steps, LogStep(s), Next(g, s, LogStep(s)));
      ss', steps' := CommitEnds(g, ts, qs);
      assert ss'[|steps|] == ts[|steps|] == s;
    }
  }

  lemma IdleAdmits(g: Region, s: State)
    requires Inv(g, s) && s.phase.Running?
    ensures s.outstanding == 0 ==> Admits(s.lh, s.outstanding, s.committing)
    ensures Work(s) == 0
  {
    hide Attributed, Aligned, Faithful, Shape;
  }
}
