/** What ialloc, iget, idup and the holders of an inode were called with, against
    what a later ilock finds, over whole runs of InodeTable. */
module InodeHistory {
  import opened InodeTable

  // ---- which inode an actor has ----

  /** The inode actor a is after once st is done, when it was after i, and what st duplicates is j. */
  function AskedBy(st: Step, a: nat, i: nat, j: nat): nat {
    match st
    case Lookup(b, k, _) => if a == b then k else i
    case Alloc(b, k, _) => if a == b then k else i
    case Dup(_, b) => if a == b then j else i
    case _ => i
  }

  /** The inode number actor a last passed to iget or was given by ialloc or idup. */
  function Asked(steps: seq<Step>, a: nat, n: nat): nat
    requires n <= |steps|
    decreases n
  {
    if n == 0 then 0
    else AskedBy(steps[n - 1], a, Asked(steps, a, n - 1), if steps[n - 1].Dup? then Asked(steps, steps[n - 1].a, n - 1) else 0)
  }

  predicate Has(s: State, a: nat, i: nat)
    requires Shape(s)
  {
    a < |s.pc| ==> (s.pc[a].AllocGot? ==> s.pc[a].i == i) && (Handled(s.pc[a]) ==> s.inum[s.pc[a].e] == i)
  }

  lemma StepHas(s: State, st: Step, a: nat, i: nat, j: nat)
    requires Inv(s) && Enabled(s, st) && Has(s, a, i) && (st.Dup? && st.b == a ==> Has(s, st.a, j))
    ensures Shape(Next(s, st)) && Has(Next(s, st), a, AskedBy(st, a, i, j))
  {
    hide Unique, Locks, Phases, Agree, Counts, Going;
    StepKeeps(s, st);
    if a < |s.pc| && Handled(s.pc[a]) { Referenced(s, a); }
    if st.Go? { GoHas(s, st.a, a, i); }
  }

  lemma GoHas(s: State, b: nat, a: nat, i: nat)
    requires Shape(s) && b < |s.pc| && Handled(s.pc[b]) && Has(s, a, i) && Shape(Going(s, b))
    ensures Has(Going(s, b), a, i)
  {
  }

  /** The entry an actor refers to is the entry of the inode it asked for, however the table's
      entries were reused before and whatever the others do meanwhile. */
  lemma {:induction false} HasWhatItAsked(states: seq<State>, steps: seq<Step>, n: nat, a: nat)
    requires Run(states, steps) && n < |states|
    ensures n <= |steps| && Shape(states[n]) && Has(states[n], a, Asked(steps, a, n))
    decreases n
  {
    hide Inv, Next, Enabled, Has, AskedBy, Tended, Careful;
    RunInv(states, steps, n);
    InvShape(states[n]);
    if n == 0 {
      NobodyHas(states[0], a);
    } else {
      var st := steps[n - 1];
      RunInv(states, steps, n - 1);
      InvShape(states[n - 1]);
      HasWhatItAsked(states, steps, n - 1, a);
      if st.Dup? { HasWhatItAsked(states, steps, n - 1, st.a); }
      StepHas(states[n - 1], st, a, Asked(steps, a, n - 1), if st.Dup? then Asked(steps, st.a, n - 1) else 0);
    }
  }

  lemma InvShape(s: State)
    requires Inv(s)
    ensures Shape(s)
  {
  }

  lemma NobodyHas(s: State, a: nat)
    requires Init(s)
    ensures Shape(s) && Has(s, a, 0)
  {
  }

  /** Has a reference and has not called iput. */
  predicate InHand(pc: Pc) { pc.Held? || pc.Acq? || pc.Read? || pc.Locked? || pc.Dirty? }

  /** The step gives actor a a reference. */
  predicate Grants(st: Step, a: nat) {
    match st
    case Lookup(b, _, _) => a == b
    case AllocGet(b, _) => a == b
    case Dup(_, b) => a == b
    case _ => false
  }

  lemma StepInHand(s: State, st: Step, a: nat)
    requires Shape(s) && Enabled(s, st) && a < |s.pc| && (Grants(st, a) || (InHand(s.pc[a]) && st != Put(a)))
    ensures a < |Next(s, st).pc| && InHand(Next(s, st).pc[a])
  {
  }

  /** What iget, ialloc and idup return can be used until its holder calls iput: the entry stays in use for
      that inode. */
  lemma {:induction false} ReferenceKept(states: seq<State>, steps: seq<Step>, n: nat, m: nat, a: nat)
    requires Run(states, steps) && n < m < |states| && Grants(steps[n], a) && a < |states[n].pc| && (forall k :: n < k < m ==> steps[k] != Put(a))
    ensures a < |states[m].pc| && InHand(states[m].pc[a]) && Shape(states[m])
    ensures var e := states[m].pc[a].e; states[m].ref[e] > 0 && states[m].inum[e] == Asked(steps, a, m)
    decreases m - n
  {
    hide Next, Enabled, Tended, Careful, AskedBy, Asked, Unique, Locks, Phases, Agree, Counts, Grants;
    if n < m - 1 { ReferenceKept(states, steps, n, m - 1, a); }
    StepInHand(states[m - 1], steps[m - 1], a);
    RunInv(states, steps, m);
    HasWhatItAsked(states, steps, m, a);
    Referenced(states[m], a);
  }

  // ---- what is in an inode ----

  /** st changes inode i: it is allocated, changed by the holder of its lock, or freed. */
  predicate Sets(s: State, st: Step, i: nat)
    requires Shape(s) && Enabled(s, st)
  {
    match st
    case Alloc(_, k, _) => k == i
    case Modify(a, _) => s.inum[s.pc[a].e] == i
    case Go(a) => s.pc[a].Freeing? && s.inum[s.pc[a].e] == i
    case _ => false
  }

  /** What it changes it to, when it was d. */
  function SetTo(st: Step, d: Dinode): Dinode {
    match st
    case Alloc(_, _, typ) => Dinode(typ, 0, 0)
    case Modify(_, m) => m
    case _ => Dinode(0, d.nlink, 0)
  }

  /** The inode i as the calls made so far left it. */
  function Content(states: seq<State>, steps: seq<Step>, i: nat, n: nat): Dinode
    requires Run(states, steps) && n <= |steps| && i < |states[0].disk|
  {
    if n == 0 then states[0].disk[i]
    else
      var d := Content(states, steps, i, n - 1);
      if Sets(states[n - 1], steps[n - 1], i) then SetTo(steps[n - 1], d) else d
  }

  /** Actor a has changed inode i in memory and not yet on disk. */
  predicate Pending(s: State, a: nat, i: nat)
    requires Shape(s)
  {
    a < |s.pc| && (s.pc[a].Dirty? || s.pc[a].FreeUpd?) && s.inum[s.pc[a].e] == i
  }

  /** The newest copy of inode i is d. */
  ghost predicate Newest(s: State, i: nat, d: Dinode)
    requires Shape(s)
  {
    && i < |s.disk|
    && (forall a: nat :: Pending(s, a, i) ==> s.mem[s.pc[a].e] == d && s.disk[i].typ != 0)
    && ((forall a: nat :: !Pending(s, a, i)) ==> s.disk[i] == d)
  }

  lemma SameEntry(s: State, a: nat, b: nat)
    requires Inv(s) && a < |s.pc| && b < |s.pc| && Handled(s.pc[a]) && Handled(s.pc[b])
    requires s.inum[s.pc[a].e] == s.inum[s.pc[b].e]
    ensures s.pc[a].e == s.pc[b].e
  {
    hide Locks, Phases, Agree, Counts;
    Referenced(s, a);
    Referenced(s, b);
  }

  /** Of two actors with the lock of the same inode there is one. */
  lemma OneLocker(s: State, a: nat, b: nat)
    requires Inv(s) && a < |s.pc| && b < |s.pc| && HoldsLock(s.pc[a]) && HoldsLock(s.pc[b])
    requires s.inum[s.pc[a].e] == s.inum[s.pc[b].e]
    ensures a == b
  {
    hide Phases, Agree, Counts, Unique;
    SameEntry(s, a, b);
  }

  lemma GotNewest(s: State, a: nat, i: nat, e: nat, k: nat, d: Dinode)
    requires Shape(s) && Takes(s, a, i, e) && Newest(s, k, d)
    ensures Shape(Got(s, a, i, e)) && Newest(Got(s, a, i, e), k, d)
  {
    forall b: nat ensures Pending(Got(s, a, i, e), b, k) == Pending(s, b, k) { }
  }

  /** An actor moves with its entry's memory unchanged, or changed by the holder of the lock, and no
      change is pending with it before or after. */
  lemma ActNewest(s: State, a: nat, b: Pc, l: int, v: bool, m: Dinode, k: nat, d: Dinode)
    requires Inv(s) && a < |s.pc| && Handled(s.pc[a]) && -1 <= l < |s.pc| && Newest(s, k, d)
    requires Handled(b) && b.e == s.pc[a].e && !b.Dirty? && !b.FreeUpd? && !s.pc[a].Dirty? && !s.pc[a].FreeUpd?
    requires m == s.mem[s.pc[a].e] || HoldsLock(s.pc[a])
    ensures Shape(Act(s, a, b, l, v, m)) && Newest(Act(s, a, b, l, v, m), k, d)
  {
    hide Phases, Agree, Counts, Unique, Locks;
    var t := Act(s, a, b, l, v, m);
    forall c: nat ensures Pending(t, c, k) == Pending(s, c, k) { }
    forall c: nat | Pending(s, c, k) ensures t.mem[t.pc[c].e] == s.mem[s.pc[c].e] {
      if HoldsLock(s.pc[a]) && s.pc[c].e == s.pc[a].e { OneLocker(s, a, c); }
    }
  }

  /** The holder of the lock changes its inode in memory. */
  lemma ChangeNewest(s: State, a: nat, b: Pc, m: Dinode, k: nat, d: Dinode)
    requires Inv(s) && a < |s.pc| && (s.pc[a].Locked? || s.pc[a].Freeing?) && Newest(s, k, d)
    requires (b.Dirty? || b.FreeUpd?) && b.e == s.pc[a].e
    ensures var e := s.pc[a].e; var t := Act(s, a, b, s.lock[e], s.valid[e], m);
            Shape(t) && Newest(t, k, if s.inum[e] == k then m else d)
  {
    hide Counts, Unique;
    var e := s.pc[a].e;
    var t := Act(s, a, b, s.lock[e], s.valid[e], m);
    Referenced(s, a);
    assert s.disk[s.inum[e]].typ != 0;
    if s.inum[e] == k {
      forall c: nat | c != a ensures !Pending(t, c, k) {
        if Pending(s, c, k) { OneLocker(s, a, c); }
      }
      assert Pending(t, a, k);
    } else {
      forall c: nat ensures Pending(t, c, k) == Pending(s, c, k) { }
    }
  }

  /** iupdate: the change pending reaches the disk. */
  lemma UpdateNewest(s: State, a: nat, b: Pc, k: nat, d: Dinode)
    requires Inv(s) && a < |s.pc| && (s.pc[a].Dirty? || s.pc[a].FreeUpd?) && Newest(s, k, d)
    requires Handled(b) && b.e == s.pc[a].e && !b.Dirty? && !b.FreeUpd?
    ensures Shape(Updated(s, a, b)) && Newest(Updated(s, a, b), k, d)
  {
    hide Phases, Agree, Counts, Unique, Locks;
    var t := Updated(s, a, b);
    if s.inum[s.pc[a].e] == k {
      assert Pending(s, a, k);
      forall c: nat ensures !Pending(t, c, k) {
        if c != a && Pending(s, c, k) { OneLocker(s, a, c); }
      }
    } else {
      forall c: nat ensures Pending(t, c, k) == Pending(s, c, k) { }
    }
  }

  /** ialloc finds its inode free on disk, so no change to it can be pending. */
  lemma MarkNewest(s: State, a: nat, i: nat, typ: nat, k: nat, d: Dinode)
    requires Shape(s) && a < |s.pc| && s.pc[a].Idle? && i < |s.disk| && s.disk[i].typ == 0 && Newest(s, k, d)
    ensures Shape(Marked(s, a, i, typ)) && Newest(Marked(s, a, i, typ), k, if i == k then Dinode(typ, 0, 0) else d)
  {
    forall c: nat ensures Pending(Marked(s, a, i, typ), c, k) == Pending(s, c, k) { }
  }

  lemma DropNewest(s: State, a: nat, k: nat, d: Dinode)
    requires Shape(s) && a < |s.pc| && Handled(s.pc[a]) && !s.pc[a].Dirty? && !s.pc[a].FreeUpd? && Newest(s, k, d)
    ensures Shape(Dropped(s, a)) && Newest(Dropped(s, a), k, d)
  {
    forall c: nat ensures Pending(Dropped(s, a), c, k) == Pending(s, c, k) { }
  }

  lemma DupNewest(s: State, a: nat, e: nat, k: nat, d: Dinode)
    requires Shape(s) && a < |s.pc| && s.pc[a].Idle? && e < |s.ref| && Newest(s, k, d)
    ensures Shape(Duped(s, a, e)) && Newest(Duped(s, a, e), k, d)
  {
    forall c: nat ensures Pending(Duped(s, a, e), c, k) == Pending(s, c, k) { }
  }

  lemma GoNewest(s: State, a: nat, k: nat, d: Dinode)
    requires Inv(s) && Enabled(s, Go(a)) && Newest(s, k, d)
    ensures Shape(Going(s, a)) && Newest(Going(s, a), k, if Sets(s, Go(a), k) then SetTo(Go(a), d) else d)
  {
    hide Newest, Unique, Phases, Counts, Act, Updated, Dropped;
    var e := s.pc[a].e;
    match s.pc[a]
    case Acq(_) => ActNewest(s, a, Read(e), a, s.valid[e], s.mem[e], k, d);
    case Read(_) => ActNewest(s, a, Locked(e), s.lock[e], true, if s.valid[e] then s.mem[e] else s.disk[s.inum[e]], k, d);
    case Dirty(_) => UpdateNewest(s, a, Locked(e), k, d);
    case Freeing(_) =>
      Settled(s, a, k, d);
      ChangeNewest(s, a, FreeUpd(e), Dinode(0, s.mem[e].nlink, 0), k, d);
    case FreeUpd(_) => UpdateNewest(s, a, Invalidate(e), k, d);
    case Invalidate(_) => ActNewest(s, a, FreeRel(e), s.lock[e], false, s.mem[e], k, d);
    case FreeRel(_) => ActNewest(s, a, Decr(e), -1, s.valid[e], s.mem[e], k, d);
    case Decr(_) => DropNewest(s, a, k, d);
  }

  /** With the lock, and nothing pending, memory is the newest copy. */
  lemma Settled(s: State, a: nat, k: nat, d: Dinode)
    requires Inv(s) && a < |s.pc| && (s.pc[a].Locked? || s.pc[a].Freeing?) && Newest(s, k, d)
    ensures s.inum[s.pc[a].e] == k ==> s.mem[s.pc[a].e] == d
  {
    hide Counts, Unique;
    if s.inum[s.pc[a].e] == k {
      Referenced(s, a);
      forall c: nat ensures !Pending(s, c, k) {
        if Pending(s, c, k) { OneLocker(s, a, c); }
      }
    }
  }

  lemma StepNewest(s: State, st: Step, k: nat, d: Dinode)
    requires Inv(s) && Enabled(s, st) && Newest(s, k, d)
    ensures Shape(Next(s, st)) && Newest(Next(s, st), k, if Sets(s, st, k) then SetTo(st, d) else d)
  {
    hide Newest, Unique, Phases, Agree, Counts, Act, Updated, Dropped, Got, Takes, Going;
    var e := if Handled(s.pc[st.a]) then s.pc[st.a].e else 0;
    match st
    case Lookup(a, i, f) => IgetTakes(s, st); GotNewest(s, a, i, f, k, d);
    case Alloc(a, i, typ) => MarkNewest(s, a, i, typ, k, d);
    case AllocGet(a, f) => IgetTakes(s, st); GotNewest(s, a, s.pc[a].i, f, k, d);
    case Dup(a, b) => DupNewest(s, b, s.pc[a].e, k, d);
    case Lock(a) => ActNewest(s, a, Acq(e), s.lock[e], s.valid[e], s.mem[e], k, d);
    case Unlock(a) => ActNewest(s, a, Held(e), -1, s.valid[e], s.mem[e], k, d);
    case Modify(a, m) => ChangeNewest(s, a, Dirty(e), m, k, d);
    case Put(a) =>
      if s.ref[e] == 1 && s.valid[e] && s.mem[e].nlink == 0 { ActNewest(s, a, Freeing(e), a, s.valid[e], s.mem[e], k, d); }
      else { DropNewest(s, a, k, d); }
    case Go(a) => GoNewest(s, a, k, d);
  }

  lemma SameDisk(s: State, st: Step)
    requires Shape(s) && Enabled(s, st)
    ensures |Next(s, st).disk| == |s.disk|
  {
  }

  lemma {:induction false} RunNewest(states: seq<State>, steps: seq<Step>, i: nat, n: nat)
    requires Run(states, steps) && n <= |steps| && i < |states[0].disk|
    ensures Shape(states[n]) && |states[n].disk| == |states[0].disk| && Newest(states[n], i, Content(states, steps, i, n))
  {
    hide Inv, Next, Enabled, Newest, Sets, SetTo, Tended, Careful;
    RunInv(states, steps, n);
    InvShape(states[n]);
    if n == 0 {
      FirstNewest(states[0], i);
    } else {
      RunInv(states, steps, n - 1);
      InvShape(states[n - 1]);
      RunNewest(states, steps, i, n - 1);
      StepNewest(states[n - 1], steps[n - 1], i, Content(states, steps, i, n - 1));
      SameDisk(states[n - 1], steps[n - 1]);
    }
  }

  lemma FirstNewest(s: State, i: nat)
    requires Init(s) && i < |s.disk|
    ensures Shape(s) && Newest(s, i, s.disk[i])
  {
  }

  /** Whoever has an inode locked sees it as the last ialloc, holder of the lock or free left it. */
  lemma LockSeesLast(states: seq<State>, steps: seq<Step>, n: nat, a: nat)
    requires Run(states, steps) && n < |states| && Shape(states[n]) && a < |states[n].pc| && states[n].pc[a].Locked?
    ensures n <= |steps| && Asked(steps, a, n) < |states[0].disk|
    ensures states[n].mem[states[n].pc[a].e] == Content(states, steps, Asked(steps, a, n), n)
  {
    hide Run, Next, Newest, Counts, Unique, Locks, Phases, Agree;
    RunInv(states, steps, n);
    HasWhatItAsked(states, steps, n, a);
    DiskSize(states, steps, n);
    RunNewest(states, steps, Asked(steps, a, n), n);
    Settled(states[n], a, Asked(steps, a, n), Content(states, steps, Asked(steps, a, n), n));
  }

  lemma {:induction false} DiskSize(states: seq<State>, steps: seq<Step>, n: nat)
    requires Run(states, steps) && n < |states|
    ensures |states[n].disk| == |states[0].disk|
  {
    hide Next, Enabled, Shape;
    if n > 0 {
      DiskSize(states, steps, n - 1);
      SameDisk(states[n - 1], steps[n - 1]);
    }
  }

  // ---- ialloc, then ilock ----

  /** Nobody has inode i locked. */
  predicate NotLocked(s: State, i: nat)
    requires Shape(s)
  {
    forall a :: 0 <= a < |s.pc| && s.pc[a].Locked? ==> s.inum[s.pc[a].e] != i
  }

  /** Inode i is as ialloc left it: nobody is changing or freeing it, and a cached copy that says
      otherwise is about to be dropped. */
  predicate Untouched(s: State, i: nat)
    requires Shape(s)
  {
    && (forall a :: 0 <= a < |s.pc| && (s.pc[a].Dirty? || Sole(s.pc[a])) ==> s.inum[s.pc[a].e] != i)
    && (forall e :: 0 <= e < |s.ref| && s.ref[e] > 0 && s.inum[e] == i && s.valid[e] ==> s.lock[e] >= 0 && s.pc[s.lock[e]].Invalidate?)
  }

  /** A free inode is untouched. */
  lemma FreeIsUntouched(s: State, i: nat, d: Dinode)
    requires Inv(s) && i < |s.disk| && s.disk[i].typ == 0 && Newest(s, i, d)
    ensures Untouched(s, i) && NotLocked(s, i)
  {
    hide Counts, Unique;
    forall a: nat | a < |s.pc| && (s.pc[a].Dirty? || Sole(s.pc[a]) || s.pc[a].Locked?) ensures s.inum[s.pc[a].e] != i {
      Referenced(s, a);
      assert !Pending(s, a, i);
    }
    forall e | 0 <= e < |s.ref| && s.ref[e] > 0 && s.inum[e] == i && s.valid[e] ensures s.lock[e] >= 0 && s.pc[s.lock[e]].Invalidate? {
      assert s.lock[e] >= 0 && Unsettled(s.pc[s.lock[e]]);
      assert !Pending(s, s.lock[e], i);
    }
  }

  lemma GetUntouched(s: State, a: nat, k: nat, e: nat, i: nat)
    requires Shape(s) && Locks(s) && Takes(s, a, k, e) && Untouched(s, i)
    ensures Shape(Got(s, a, k, e)) && Untouched(Got(s, a, k, e), i)
  {
  }

  /** A move that leaves the entry no more valid than it was, its lock to whom it was unless it is the
      mover's to give, and starts no change of i. */
  lemma ActUntouched(s: State, a: nat, b: Pc, l: int, v: bool, m: Dinode, i: nat)
    requires Inv(s) && a < |s.pc| && Handled(s.pc[a]) && Untouched(s, i) && Handled(b) && b.e == s.pc[a].e && -1 <= l < |s.pc|
    requires s.inum[b.e] == i ==> !b.Dirty? && !Sole(b) && (v ==> s.valid[b.e] && l == s.lock[b.e] && !s.pc[a].Invalidate?)
    ensures Shape(Act(s, a, b, l, v, m)) && Untouched(Act(s, a, b, l, v, m), i)
  {
    hide Counts, Unique, Phases, Agree;
  }

  lemma PcUntouched(s: State, a: nat, b: Pc, ref: seq<nat>, disk: seq<Dinode>, i: nat)
    requires Inv(s) && a < |s.pc| && Untouched(s, i) && |ref| == |s.ref| && |disk| == |s.disk| && !HoldsLock(s.pc[a])
    requires (Handled(b) ==> b.e < |ref|) && !HoldsLock(b)
    requires forall e :: 0 <= e < |ref| && ref[e] > 0 ==> s.ref[e] > 0
    ensures var t := s.(pc := s.pc[a := b], ref := ref, disk := disk); Shape(t) && Untouched(t, i)
  {
    hide Counts, Unique, Phases, Agree;
  }

  lemma GoUntouched(s: State, a: nat, i: nat)
    requires Inv(s) && Enabled(s, Go(a)) && Untouched(s, i) && NotLocked(s, i) && Shape(Going(s, a)) && NotLocked(Going(s, a), i)
    ensures Untouched(Going(s, a), i) && !Sets(s, Go(a), i)
  {
    hide Counts, Unique, Phases, Agree;
    var e := s.pc[a].e;
    Referenced(s, a);
    match s.pc[a]
    case Acq(_) => ActUntouched(s, a, Read(e), a, s.valid[e], s.mem[e], i);
    case Read(_) =>
      assert Going(s, a).pc[a] == Locked(e);
      ActUntouched(s, a, Locked(e), s.lock[e], true, if s.valid[e] then s.mem[e] else s.disk[s.inum[e]], i);
    case Dirty(_) =>
    case Freeing(_) => ActUntouched(s, a, FreeUpd(e), s.lock[e], s.valid[e], Dinode(0, s.mem[e].nlink, 0), i);
    case FreeUpd(_) =>
    case Invalidate(_) => ActUntouched(s, a, FreeRel(e), s.lock[e], false, s.mem[e], i);
    case FreeRel(_) => ActUntouched(s, a, Decr(e), -1, s.valid[e], s.mem[e], i);
    case Decr(_) => PcUntouched(s, a, Idle, Dropped(s, a).ref, s.disk, i);
  }

  lemma PutUntouched(s: State, a: nat, i: nat)
    requires Inv(s) && Enabled(s, Put(a)) && Untouched(s, i)
    ensures Shape(Next(s, Put(a))) && Untouched(Next(s, Put(a)), i)
  {
    hide Unique, Phases, Agree, Counts;
    var e := s.pc[a].e;
    Referenced(s, a);
    if s.ref[e] == 1 && s.valid[e] && s.mem[e].nlink == 0 {
      OneIsAlone(s, a);
      SoleUnlocked(s, a);
      ActUntouched(s, a, Freeing(e), a, s.valid[e], s.mem[e], i);
    } else {
      PcUntouched(s, a, Idle, Dropped(s, a).ref, s.disk, i);
    }
  }

  /** An inode ialloc has marked stays so until somebody has locked it. */
  lemma StepUntouched(s: State, st: Step, i: nat)
    requires Inv(s) && Enabled(s, st) && Untouched(s, i) && NotLocked(s, i) && i < |s.disk| && s.disk[i].typ != 0
    requires Shape(Next(s, st)) && NotLocked(Next(s, st), i)
    ensures Untouched(Next(s, st), i) && !Sets(s, st, i)
  {
    hide Unique, Phases, Agree, Counts, Act, Dropped, Got, Takes, Going, Untouched;
    var e := if Handled(s.pc[st.a]) then s.pc[st.a].e else 0;
    if Handled(s.pc[st.a]) { Referenced(s, st.a); }
    match st
    case Lookup(a, k, f) => IgetTakes(s, st); GetUntouched(s, a, k, f, i);
    case Alloc(a, k, typ) => PcUntouched(s, a, AllocGot(k), s.ref, s.disk[k := Dinode(typ, 0, 0)], i);
    case AllocGet(a, f) => IgetTakes(s, st); GetUntouched(s, a, s.pc[a].i, f, i);
    case Dup(a, b) => PcUntouched(s, b, Held(e), s.ref[e := s.ref[e] + 1], s.disk, i);
    case Lock(a) => ActUntouched(s, a, Acq(e), s.lock[e], s.valid[e], s.mem[e], i);
    case Unlock(a) => ActUntouched(s, a, Held(e), -1, s.valid[e], s.mem[e], i);
    case Modify(a, m) => ActUntouched(s, a, Dirty(e), s.lock[e], s.valid[e], m, i);
    case Put(a) => PutUntouched(s, a, i);
    case Go(a) => GoUntouched(s, a, i);
  }

  /** Since an ialloc of i nobody has had i locked, up to state m. */
  predicate UnlockedSince(states: seq<State>, n: nat, m: nat, i: nat) {
    forall k :: n < k <= m && k < |states| ==> Shape(states[k]) && NotLocked(states[k], i)
  }

  lemma Allocated(states: seq<State>, steps: seq<Step>, n: nat, i: nat, typ: nat)
    requires Run(states, steps) && n < |steps| && steps[n].Alloc? && steps[n].i == i && steps[n].typ == typ && i < |states[0].disk|
    ensures Shape(states[n + 1]) && Untouched(states[n + 1], i) && typ != 0
    ensures Content(states, steps, i, n + 1) == Dinode(typ, 0, 0)
  {
    hide Inv, Newest, Untouched;
    var s := states[n];
    RunInv(states, steps, n);
    RunInv(states, steps, n + 1);
    InvShape(states[n + 1]);
    RunNewest(states, steps, i, n);
    FreeIsUntouched(s, i, Content(states, steps, i, n));
    PcUntouched(s, steps[n].a, AllocGot(i), s.ref, s.disk[i := Dinode(typ, 0, 0)], i);
  }

  /** Untouched, an inode has its newest copy on disk. */
  lemma UntouchedOnDisk(s: State, i: nat, d: Dinode)
    requires Shape(s) && Untouched(s, i) && Newest(s, i, d)
    ensures s.disk[i] == d
  {
    forall c: nat ensures !Pending(s, c, i) { }
  }

  lemma Unset(s: State, st: Step, i: nat)
    requires Shape(s) && Enabled(s, st) && Untouched(s, i) && NotLocked(s, i) && i < |s.disk| && s.disk[i].typ != 0
    ensures !Sets(s, st, i)
  {
  }

  /** As long as nobody has locked it, and for the step that first does. */
  lemma StepAllocated(states: seq<State>, steps: seq<Step>, i: nat, d: Dinode, m: nat)
    requires Run(states, steps) && m < |steps| && i < |states[0].disk| && Content(states, steps, i, m) == d && d.typ != 0
    requires Shape(states[m]) && Untouched(states[m], i) && NotLocked(states[m], i)
    ensures Shape(states[m + 1]) && Content(states, steps, i, m + 1) == d
    ensures NotLocked(states[m + 1], i) ==> Untouched(states[m + 1], i)
  {
    hide Inv, Newest, Untouched, Next, NotLocked, Sets, Enabled, Shape, Pending, Init, Careful, Tended;
    RunInv(states, steps, m);
    RunInv(states, steps, m + 1);
    InvShape(states[m + 1]);
    RunNewest(states, steps, i, m);
    UntouchedOnDisk(states[m], i, d);
    Unset(states[m], steps[m], i);
    if NotLocked(states[m + 1], i) { StepUntouched(states[m], steps[m], i); }
  }

  lemma {:induction false} StillAllocated(states: seq<State>, steps: seq<Step>, n: nat, i: nat, typ: nat, m: nat)
    requires Run(states, steps) && n < m <= |steps| && steps[n].Alloc? && steps[n].i == i && steps[n].typ == typ && i < |states[0].disk|
    requires UnlockedSince(states, n, m, i)
    ensures Shape(states[m]) && Untouched(states[m], i) && typ != 0 && Content(states, steps, i, m) == Dinode(typ, 0, 0)
  {
    hide Inv, Newest, Untouched, Next, Sets, NotLocked, Pending, Enabled, Shape, Init, Content;
    if m == n + 1 {
      Allocated(states, steps, n, i, typ);
    } else {
      StillAllocated(states, steps, n, i, typ, m - 1);
      StepAllocated(states, steps, i, Dinode(typ, 0, 0), m - 1);
    }
  }

  /** The first ilock of an inode after ialloc finds the type ialloc was asked for, and no links,
      whoever locks it, however late, and whatever cached copy of the inode's earlier life was
      still in the table. */
  lemma FirstLockSeesType(states: seq<State>, steps: seq<Step>, n: nat, m: nat, a: nat)
    requires Run(states, steps) && n < m < |states| && steps[n].Alloc? && Shape(states[m]) && a < |states[m].pc|
    requires states[m].pc[a].Locked? && Asked(steps, a, m) == steps[n].i && UnlockedSince(states, n, m - 1, steps[n].i)
    ensures states[m].mem[states[m].pc[a].e] == Dinode(steps[n].typ, 0, 0)
  {
    hide Init, Inv, Newest, Untouched, Next, NotLocked, Pending, AskedBy, Sets, Enabled, Shape, Content;
    var i, d := steps[n].i, Dinode(steps[n].typ, 0, 0);
    LockSeesLast(states, steps, m, a);
    if m == n + 1 {
      Allocated(states, steps, n, i, d.typ);
    } else {
      StillAllocated(states, steps, n, i, d.typ, m - 1);
      StepAllocated(states, steps, i, d, m - 1);
    }
  }
}
