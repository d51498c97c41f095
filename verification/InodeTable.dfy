/** iget, idup, ilock, iunlock, iput and ialloc, interleaved one locked section
    at a time. Each actor carries at most one counted reference, so a process
    with several inodes is several actors. Directory contents are not modelled:
    a lookup may name any inode, as a directory entry may, even a free one. */
module InodeTable {
  datatype Dinode = Dinode(typ: nat, nlink: nat, rest: int)

  datatype Pc =
    | Idle
    | AllocGot(i: nat)     // ialloc: marked on disk, before iget
    | Held(e: nat)
    | Acq(e: nat)          // ilock: acquiresleep
    | Read(e: nat)         // ilock: has the sleep-lock
    | Locked(e: nat)
    | Dirty(e: nat)        // changed in memory, iupdate to come
    | Freeing(e: nat)      // iput: has the sleep-lock, itable.lock released
    | FreeUpd(e: nat)      // iput: type cleared in memory, iupdate to come
    | Invalidate(e: nat)   // iput: free on disk, valid still set
    | FreeRel(e: nat)      // iput: releasesleep to come
    | Decr(e: nat)         // iput: itable.lock and ref-- to come

  datatype State = State(
    pc: seq<Pc>, inum: seq<nat>, ref: seq<nat>, valid: seq<bool>, lock: seq<int>, mem: seq<Dinode>, disk: seq<Dinode>)

  datatype Step =
    | Lookup(a: nat, i: nat, e: nat)   // dirlookup's iget of inode i, found or put in entry e
    | Alloc(a: nat, i: nat, typ: nat)
    | AllocGet(a: nat, e: nat)
    | Dup(a: nat, b: nat)
    | Lock(a: nat)
    | Unlock(a: nat)
    | Modify(a: nat, d: Dinode)
    | Put(a: nat)
    | Go(a: nat)                       // the next section of a call in progress

  predicate Handled(pc: Pc) { !pc.Idle? && !pc.AllocGot? }

  predicate HoldsLock(pc: Pc) {
    pc.Read? || pc.Locked? || pc.Dirty? || pc.Freeing? || pc.FreeUpd? || pc.Invalidate? || pc.FreeRel?
  }

  /** In iput, past the point where the inode is free on disk. */
  predicate Post(pc: Pc) { pc.Invalidate? || pc.FreeRel? || pc.Decr? }

  predicate Sole(pc: Pc) { pc.Freeing? || pc.FreeUpd? }

  /** The holder is between a change in memory and its settling. */
  predicate Unsettled(pc: Pc) { pc.Dirty? || pc.FreeUpd? || pc.Invalidate? }

  predicate Shape(s: State) {
    && |s.inum| == |s.ref| == |s.valid| == |s.lock| == |s.mem|
    && (forall a :: 0 <= a < |s.pc| && Handled(s.pc[a]) ==> s.pc[a].e < |s.ref|)
    && (forall e :: 0 <= e < |s.ref| ==> -1 <= s.lock[e] < |s.pc| && s.inum[e] < |s.disk|)
  }

  function Holders(pcs: seq<Pc>, e: nat): set<nat> { set a: nat | a < |pcs| && Handled(pcs[a]) && pcs[a].e == e }

  /** iget's entry: the one that has i already, or an unused one. */
  predicate Picks(s: State, i: nat, e: nat)
    requires Shape(s)
  {
    && e < |s.ref|
    && if s.ref[e] > 0 then s.inum[e] == i
       else forall f :: 0 <= f < |s.ref| && s.ref[f] > 0 ==> s.inum[f] != i
  }

  /** i has a link and nobody is about to free it: what a lookup of i has to see to be safe. */
  predicate Linked(s: State, i: nat)
    requires Shape(s)
  {
    && i < |s.disk| && s.disk[i].typ != 0 && s.disk[i].nlink > 0
    && (forall e :: 0 <= e < |s.ref| && s.ref[e] > 0 && s.inum[e] == i && s.valid[e] ==> s.mem[e].nlink > 0)
  }

  /** ilock's panic: it has read from the disk an inode without a type. */
  predicate Panics(s: State, a: nat)
    requires Shape(s) && a < |s.pc|
  {
    s.pc[a].Read? && !s.valid[s.pc[a].e] && s.disk[s.inum[s.pc[a].e]].typ == 0
  }

  predicate Enabled(s: State, st: Step)
    requires Shape(s)
  {
    st.a < |s.pc| &&
    match st
    case Lookup(a, i, e) => s.pc[a].Idle? && i < |s.disk| && Picks(s, i, e)
    case Alloc(a, i, typ) => s.pc[a].Idle? && 0 < i < |s.disk| && s.disk[i].typ == 0 && typ != 0
    case AllocGet(a, e) => s.pc[a].AllocGot? && s.pc[a].i < |s.disk| && Picks(s, s.pc[a].i, e)
    case Dup(a, b) => (s.pc[a].Held? || s.pc[a].Locked?) && b < |s.pc| && s.pc[b].Idle?
    case Lock(a) => s.pc[a].Held?
    case Unlock(a) => s.pc[a].Locked?
    case Modify(a, d) => s.pc[a].Locked? && d.typ != 0
    case Put(a) => s.pc[a].Held?
    case Go(a) => Handled(s.pc[a]) && !s.pc[a].Held? && !s.pc[a].Locked? && (s.pc[a].Acq? ==> s.lock[s.pc[a].e] == -1) && !Panics(s, a)
  }

  // ---- the sections ----

  /** iget: take entry e for inode i. */
  function Got(s: State, a: nat, i: nat, e: nat): State
    requires Shape(s) && a < |s.pc| && e < |s.ref|
  {
    if s.ref[e] > 0 then s.(pc := s.pc[a := Held(e)], ref := s.ref[e := s.ref[e] + 1])
    else s.(pc := s.pc[a := Held(e)], ref := s.ref[e := 1], inum := s.inum[e := i], valid := s.valid[e := false])
  }

  /** Actor a moves to b, with the lock, valid flag and memory of its entry as given. */
  function Act(s: State, a: nat, b: Pc, l: int, v: bool, m: Dinode): State
    requires Shape(s) && a < |s.pc| && Handled(s.pc[a])
  {
    var e := s.pc[a].e;
    s.(pc := s.pc[a := b], lock := s.lock[e := l], valid := s.valid[e := v], mem := s.mem[e := m])
  }

  /** iupdate, then to b. */
  function Updated(s: State, a: nat, b: Pc): State
    requires Shape(s) && a < |s.pc| && Handled(s.pc[a])
  {
    s.(pc := s.pc[a := b], disk := s.disk[s.inum[s.pc[a].e] := s.mem[s.pc[a].e]])
  }

  function Dropped(s: State, a: nat): State
    requires Shape(s) && a < |s.pc| && Handled(s.pc[a])
  {
    s.(pc := s.pc[a := Idle], ref := s.ref[s.pc[a].e := if s.ref[s.pc[a].e] > 0 then s.ref[s.pc[a].e] - 1 else 0])
  }

  function Next(s: State, st: Step): State
    requires Shape(s) && Enabled(s, st)
  {
    match st
    case Lookup(a, i, e) => Got(s, a, i, e)
    case Alloc(a, i, typ) => s.(pc := s.pc[a := AllocGot(i)], disk := s.disk[i := Dinode(typ, 0, 0)])
    case AllocGet(a, e) => Got(s, a, s.pc[a].i, e)
    case Dup(a, b) => s.(pc := s.pc[b := Held(s.pc[a].e)], ref := s.ref[s.pc[a].e := s.ref[s.pc[a].e] + 1])
    case Lock(a) => Stay(s, a, Acq(s.pc[a].e))
    case Unlock(a) => var e := s.pc[a].e; Act(s, a, Held(e), -1, s.valid[e], s.mem[e])
    case Modify(a, d) => var e := s.pc[a].e; Act(s, a, Dirty(e), s.lock[e], s.valid[e], d)
    case Put(a) =>
      var e := s.pc[a].e;
      if s.ref[e] == 1 && s.valid[e] && s.mem[e].nlink == 0 then Act(s, a, Freeing(e), a, s.valid[e], s.mem[e]) else Dropped(s, a)
    case Go(a) => Going(s, a)
  }

  function Stay(s: State, a: nat, b: Pc): State
    requires Shape(s) && a < |s.pc| && Handled(s.pc[a])
  {
    var e := s.pc[a].e;
    Act(s, a, b, s.lock[e], s.valid[e], s.mem[e])
  }

  function Going(s: State, a: nat): State
    requires Shape(s) && a < |s.pc| && Handled(s.pc[a])
  {
    var e := s.pc[a].e;
    match s.pc[a]
    case Acq(_) => Act(s, a, Read(e), a, s.valid[e], s.mem[e])
    case Read(_) => Act(s, a, Locked(e), s.lock[e], true, if s.valid[e] then s.mem[e] else s.disk[s.inum[e]])
    case Dirty(_) => Updated(s, a, Locked(e))
    case Freeing(_) => Act(s, a, FreeUpd(e), s.lock[e], s.valid[e], Dinode(0, s.mem[e].nlink, 0))
    case FreeUpd(_) => Updated(s, a, Invalidate(e))
    case Invalidate(_) => Act(s, a, FreeRel(e), s.lock[e], false, s.mem[e])
    case FreeRel(_) => Act(s, a, Decr(e), -1, s.valid[e], s.mem[e])
    case Decr(_) => Dropped(s, a)
    case _ => s
  }

  // ---- invariants ----

  predicate Counts(s: State)
    requires Shape(s)
  {
    forall e :: 0 <= e < |s.ref| ==> s.ref[e] == |Holders(s.pc, e)|
  }

  /** Referenced entries hold different inodes. */
  predicate Unique(s: State)
    requires Shape(s)
  {
    forall e, f :: 0 <= e < f < |s.ref| && s.ref[e] > 0 && s.ref[f] > 0 ==> s.inum[e] != s.inum[f]
  }

  predicate Locks(s: State)
    requires Shape(s)
  {
    && (forall a :: 0 <= a < |s.pc| && HoldsLock(s.pc[a]) ==> s.lock[s.pc[a].e] == a)
    && (forall e :: 0 <= e < |s.ref| && s.lock[e] >= 0 ==> HoldsLock(s.pc[s.lock[e]]) && s.pc[s.lock[e]].e == e)
  }

  /** An actor freeing an inode is its only holder until it is free on disk. */
  predicate Alone(s: State)
    requires Shape(s)
  {
    forall a, b :: 0 <= a < |s.pc| && 0 <= b < |s.pc| && a != b && Sole(s.pc[a]) && Handled(s.pc[b]) ==> s.pc[b].e != s.pc[a].e
  }

  /** What holding the lock at each point says of the entry. */
  predicate Phases(s: State)
    requires Shape(s)
  {
    forall a :: 0 <= a < |s.pc| && HoldsLock(s.pc[a]) ==> PhaseFits(s.pc[a], s.valid[s.pc[a].e], s.mem[s.pc[a].e])
  }

  predicate PhaseFits(pc: Pc, v: bool, m: Dinode) {
    && (pc.Locked? || pc.Dirty? || Sole(pc) ==> v)
    && (Sole(pc) ==> m.nlink == 0)
    && (pc.Dirty? ==> m.typ != 0)
    && (pc.FreeUpd? ==> m.typ == 0)
    && (pc.FreeRel? ==> !v)
  }

  /** A reference to an inode keeps it allocated on disk. */
  predicate Typed(s: State)
    requires Shape(s)
  {
    forall a :: 0 <= a < |s.pc| && Handled(s.pc[a]) && !Post(s.pc[a]) ==> s.disk[s.inum[s.pc[a].e]].typ != 0
  }

  /** An inode just allocated is nobody else's but of actors that have finished freeing it. */
  predicate Fresh(s: State)
    requires Shape(s)
  {
    forall a :: 0 <= a < |s.pc| && s.pc[a].AllocGot? ==>
      && s.pc[a].i < |s.disk| && s.disk[s.pc[a].i].typ != 0 && s.disk[s.pc[a].i].nlink == 0
      && (forall b :: 0 <= b < |s.pc| && Handled(s.pc[b]) && !Post(s.pc[b]) ==> s.inum[s.pc[b].e] != s.pc[a].i)
      && (forall b :: 0 <= b < |s.pc| && b != a && s.pc[b].AllocGot? ==> s.pc[b].i != s.pc[a].i)
  }

  /** A valid settled entry is the inode on disk, which is allocated. */
  predicate Agree(s: State)
    requires Shape(s)
  {
    forall e :: 0 <= e < |s.ref| && s.ref[e] > 0 && s.valid[e] && !(s.lock[e] >= 0 && Unsettled(s.pc[s.lock[e]])) ==>
      s.mem[e] == s.disk[s.inum[e]] && s.mem[e].typ != 0
  }

  /** What every run keeps. */
  predicate Inv(s: State) { Shape(s) && Counts(s) && Unique(s) && Locks(s) && Phases(s) && Agree(s) }

  /** What a run keeps as long as its lookups name linked inodes. */
  predicate Tended(s: State)
    requires Shape(s)
  {
    Alone(s) && Typed(s) && Fresh(s)
  }

  // ---- counting references ----

  lemma HoldersSame(pcs: seq<Pc>, a: nat, b: Pc, e: nat)
    requires a < |pcs| && (Handled(b) && b.e == e <==> Handled(pcs[a]) && pcs[a].e == e)
    ensures Holders(pcs[a := b], e) == Holders(pcs, e)
  {
  }

  lemma HoldersMore(pcs: seq<Pc>, a: nat, b: Pc, e: nat)
    requires a < |pcs| && Handled(b) && b.e == e && !(Handled(pcs[a]) && pcs[a].e == e)
    ensures |Holders(pcs[a := b], e)| == |Holders(pcs, e)| + 1
  {
    assert Holders(pcs[a := b], e) == Holders(pcs, e) + {a};
  }

  lemma HoldersLess(pcs: seq<Pc>, a: nat, b: Pc, e: nat)
    requires a < |pcs| && !(Handled(b) && b.e == e) && Handled(pcs[a]) && pcs[a].e == e
    ensures |Holders(pcs[a := b], e)| == |Holders(pcs, e)| - 1
  {
    assert Holders(pcs, e) == Holders(pcs[a := b], e) + {a};
  }

  /** Nobody has a reference to entry e. */
  predicate Unheld(s: State, e: nat) { forall b :: 0 <= b < |s.pc| && Handled(s.pc[b]) ==> s.pc[b].e != e }

  lemma HolderCounts(pcs: seq<Pc>, b: nat)
    requires b < |pcs| && Handled(pcs[b])
    ensures b in Holders(pcs, pcs[b].e) && |Holders(pcs, pcs[b].e)| > 0
  {
  }

  lemma ZeroIsUnheld(s: State, e: nat)
    requires Shape(s) && Counts(s) && e < |s.ref| && s.ref[e] == 0
    ensures Unheld(s, e)
  {
    forall b | 0 <= b < |s.pc| && Handled(s.pc[b]) ensures s.pc[b].e != e { HolderCounts(s.pc, b); }
  }

  lemma OnlyMember(x: set<nat>, a: nat, b: nat)
    requires |x| == 1 && a in x && b in x
    ensures a == b
  {
    assert |x - {a}| == 0;
  }

  /** ref == 1: the actor that sees it is the only holder. */
  lemma OneIsAlone(s: State, a: nat)
    requires Shape(s) && Counts(s) && a < |s.pc| && Handled(s.pc[a]) && s.ref[s.pc[a].e] == 1
    ensures SoleHolder(s, a)
  {
    forall b | 0 <= b < |s.pc| && b != a && Handled(s.pc[b]) ensures s.pc[b].e != s.pc[a].e {
      HolderCounts(s.pc, a);
      HolderCounts(s.pc, b);
      if s.pc[b].e == s.pc[a].e { OnlyMember(Holders(s.pc, s.pc[a].e), a, b); }
    }
  }

  // ---- a move that keeps the reference ----

  predicate Fits(s: State, a: nat, b: Pc, l: int, v: bool, m: Dinode)
    requires Shape(s) && a < |s.pc| && Handled(s.pc[a])
  {
    var p := s.pc[a];
    var e := p.e;
    && Handled(b) && b.e == e && Post(b) == Post(p)
    && l == (if HoldsLock(b) then a else if HoldsLock(p) then -1 else s.lock[e])
    && (HoldsLock(b) && !HoldsLock(p) ==> s.lock[e] == -1)
    && (!HoldsLock(b) && !HoldsLock(p) ==> v == s.valid[e] && m == s.mem[e])
    && (HoldsLock(b) || HoldsLock(p) ==> v && !Unsettled(b) ==> m == s.disk[s.inum[e]] && m.typ != 0)
    && (Sole(b) ==> Sole(p) || SoleHolder(s, a)) && PhaseFits(b, v, m)
  }

  predicate SoleHolder(s: State, a: nat)
    requires a < |s.pc| && Handled(s.pc[a])
  {
    forall c :: 0 <= c < |s.pc| && c != a && Handled(s.pc[c]) ==> s.pc[c].e != s.pc[a].e
  }

  lemma ActCounts(s: State, a: nat, b: Pc, l: int, v: bool, m: Dinode)
    requires Shape(s) && a < |s.pc| && Handled(s.pc[a]) && Fits(s, a, b, l, v, m) && Counts(s)
    ensures Shape(Act(s, a, b, l, v, m)) && Counts(Act(s, a, b, l, v, m))
  {
    forall e | 0 <= e < |s.ref| ensures Holders(s.pc[a := b], e) == Holders(s.pc, e) { HoldersSame(s.pc, a, b, e); }
  }

  lemma ActUnique(s: State, a: nat, b: Pc, l: int, v: bool, m: Dinode)
    requires Shape(s) && a < |s.pc| && Handled(s.pc[a]) && Fits(s, a, b, l, v, m) && Unique(s)
    ensures Shape(Act(s, a, b, l, v, m)) && Unique(Act(s, a, b, l, v, m))
  {
  }

  lemma ActLocks(s: State, a: nat, b: Pc, l: int, v: bool, m: Dinode)
    requires Shape(s) && a < |s.pc| && Handled(s.pc[a]) && Fits(s, a, b, l, v, m) && Locks(s)
    ensures Shape(Act(s, a, b, l, v, m)) && Locks(Act(s, a, b, l, v, m))
  {
  }

  lemma ActAlone(s: State, a: nat, b: Pc, l: int, v: bool, m: Dinode)
    requires Shape(s) && a < |s.pc| && Handled(s.pc[a]) && Fits(s, a, b, l, v, m) && Alone(s)
    ensures Shape(Act(s, a, b, l, v, m)) && Alone(Act(s, a, b, l, v, m))
  {
  }

  lemma ActPhases(s: State, a: nat, b: Pc, l: int, v: bool, m: Dinode)
    requires Shape(s) && a < |s.pc| && Handled(s.pc[a]) && Fits(s, a, b, l, v, m) && Locks(s) && Phases(s)
    ensures Shape(Act(s, a, b, l, v, m)) && Phases(Act(s, a, b, l, v, m))
  {
    hide PhaseFits;
  }

  lemma ActTyped(s: State, a: nat, b: Pc, l: int, v: bool, m: Dinode)
    requires Shape(s) && a < |s.pc| && Handled(s.pc[a]) && Fits(s, a, b, l, v, m) && Typed(s)
    ensures Shape(Act(s, a, b, l, v, m)) && Typed(Act(s, a, b, l, v, m))
  {
  }

  lemma ActFresh(s: State, a: nat, b: Pc, l: int, v: bool, m: Dinode)
    requires Shape(s) && a < |s.pc| && Handled(s.pc[a]) && Fits(s, a, b, l, v, m) && Fresh(s)
    ensures Shape(Act(s, a, b, l, v, m)) && Fresh(Act(s, a, b, l, v, m))
  {
  }

  lemma ActAgree(s: State, a: nat, b: Pc, l: int, v: bool, m: Dinode)
    requires Shape(s) && a < |s.pc| && Handled(s.pc[a]) && Fits(s, a, b, l, v, m) && Locks(s) && Agree(s) && Counts(s)
    ensures Shape(Act(s, a, b, l, v, m)) && Agree(Act(s, a, b, l, v, m))
  {
  }

  lemma ActInv(s: State, a: nat, b: Pc, l: int, v: bool, m: Dinode)
    requires Inv(s) && a < |s.pc| && Handled(s.pc[a]) && Fits(s, a, b, l, v, m)
    ensures Inv(Act(s, a, b, l, v, m))
    ensures Tended(s) ==> Tended(Act(s, a, b, l, v, m))
  {
    hide Counts, Unique, Locks, Alone, Phases, Typed, Fresh, Agree, Act, Fits;
    ActCounts(s, a, b, l, v, m);
    ActUnique(s, a, b, l, v, m);
    ActLocks(s, a, b, l, v, m);
    ActPhases(s, a, b, l, v, m);
    ActAgree(s, a, b, l, v, m);
    if Tended(s) {
      ActAlone(s, a, b, l, v, m);
      ActTyped(s, a, b, l, v, m);
      ActFresh(s, a, b, l, v, m);
    }
  }

  // ---- iupdate ----

  /** From Dirty back to Locked, or from FreeUpd to Invalidate. */
  predicate Updates(s: State, a: nat, b: Pc)
    requires Shape(s)
  {
    && a < |s.pc| && ((s.pc[a].Dirty? && b == Locked(s.pc[a].e)) || (s.pc[a].FreeUpd? && b == Invalidate(s.pc[a].e)))
  }

  /** A referenced entry other than e holds another inode. */
  lemma OtherInode(s: State, a: nat, b: nat)
    requires Shape(s) && Counts(s) && Unique(s) && a < |s.pc| && b < |s.pc| && Handled(s.pc[a]) && Handled(s.pc[b])
    requires s.pc[a].e != s.pc[b].e
    ensures s.inum[s.pc[a].e] != s.inum[s.pc[b].e]
  {
    HolderCounts(s.pc, a);
    HolderCounts(s.pc, b);
  }

  lemma UpdateCounts(s: State, a: nat, b: Pc)
    requires Shape(s) && Updates(s, a, b) && Counts(s)
    ensures Shape(Updated(s, a, b)) && Counts(Updated(s, a, b))
  {
    forall e | 0 <= e < |s.ref| ensures Holders(s.pc[a := b], e) == Holders(s.pc, e) { HoldersSame(s.pc, a, b, e); }
  }

  lemma UpdateUnique(s: State, a: nat, b: Pc)
    requires Shape(s) && Updates(s, a, b) && Unique(s)
    ensures Shape(Updated(s, a, b)) && Unique(Updated(s, a, b))
  {
  }

  lemma UpdateLocks(s: State, a: nat, b: Pc)
    requires Shape(s) && Updates(s, a, b) && Locks(s)
    ensures Shape(Updated(s, a, b)) && Locks(Updated(s, a, b))
  {
  }

  lemma UpdateAlone(s: State, a: nat, b: Pc)
    requires Shape(s) && Updates(s, a, b) && Alone(s)
    ensures Shape(Updated(s, a, b)) && Alone(Updated(s, a, b))
  {
  }

  lemma UpdatePhases(s: State, a: nat, b: Pc)
    requires Shape(s) && Updates(s, a, b) && Phases(s)
    ensures Shape(Updated(s, a, b)) && Phases(Updated(s, a, b))
  {
  }

  lemma UpdateTyped(s: State, a: nat, b: Pc)
    requires Shape(s) && Updates(s, a, b) && Counts(s) && Unique(s) && Alone(s) && Phases(s) && Typed(s)
    ensures Shape(Updated(s, a, b)) && Typed(Updated(s, a, b))
  {
    forall c | 0 <= c < |s.pc| && Handled(s.pc[c]) && s.pc[c].e != s.pc[a].e ensures s.inum[s.pc[c].e] != s.inum[s.pc[a].e] {
      OtherInode(s, a, c);
    }
  }

  lemma UpdateFresh(s: State, a: nat, b: Pc)
    requires Shape(s) && Updates(s, a, b) && Phases(s) && Fresh(s)
    ensures Shape(Updated(s, a, b)) && Fresh(Updated(s, a, b))
  {
  }

  lemma UpdateAgree(s: State, a: nat, b: Pc)
    requires Shape(s) && Updates(s, a, b) && Counts(s) && Unique(s) && Locks(s) && Phases(s) && Agree(s)
    ensures Shape(Updated(s, a, b)) && Agree(Updated(s, a, b))
  {
    HolderCounts(s.pc, a);
  }

  lemma UpdateInv(s: State, a: nat, b: Pc)
    requires Inv(s) && Updates(s, a, b)
    ensures Inv(Updated(s, a, b))
    ensures Tended(s) ==> Tended(Updated(s, a, b))
  {
    hide Counts, Unique, Locks, Alone, Phases, Typed, Fresh, Agree, Updated;
    UpdateCounts(s, a, b);
    UpdateUnique(s, a, b);
    UpdateLocks(s, a, b);
    UpdatePhases(s, a, b);
    UpdateAgree(s, a, b);
    if Tended(s) {
      UpdateAlone(s, a, b);
      UpdateTyped(s, a, b);
      UpdateFresh(s, a, b);
    }
  }

  // ---- a reference given up ----

  predicate Drops(s: State, a: nat)
    requires Shape(s)
  {
    a < |s.pc| && (s.pc[a].Held? || s.pc[a].Decr?)
  }

  lemma DropCounts(s: State, a: nat)
    requires Shape(s) && Drops(s, a) && Counts(s)
    ensures Shape(Dropped(s, a)) && Counts(Dropped(s, a))
  {
    HolderCounts(s.pc, a);
    forall e | 0 <= e < |s.ref| ensures Dropped(s, a).ref[e] == |Holders(s.pc[a := Idle], e)| {
      if e == s.pc[a].e { HoldersLess(s.pc, a, Idle, e); } else { HoldersSame(s.pc, a, Idle, e); }
    }
  }

  lemma DropUnique(s: State, a: nat)
    requires Shape(s) && Drops(s, a) && Unique(s)
    ensures Shape(Dropped(s, a)) && Unique(Dropped(s, a))
  {
  }

  lemma DropLocks(s: State, a: nat)
    requires Shape(s) && Drops(s, a) && Locks(s)
    ensures Shape(Dropped(s, a)) && Locks(Dropped(s, a))
  {
  }

  lemma DropAlone(s: State, a: nat)
    requires Shape(s) && Drops(s, a) && Alone(s)
    ensures Shape(Dropped(s, a)) && Alone(Dropped(s, a))
  {
  }

  lemma DropPhases(s: State, a: nat)
    requires Shape(s) && Drops(s, a) && Phases(s)
    ensures Shape(Dropped(s, a)) && Phases(Dropped(s, a))
  {
  }

  lemma DropTyped(s: State, a: nat)
    requires Shape(s) && Drops(s, a) && Typed(s)
    ensures Shape(Dropped(s, a)) && Typed(Dropped(s, a))
  {
  }

  lemma DropFresh(s: State, a: nat)
    requires Shape(s) && Drops(s, a) && Fresh(s)
    ensures Shape(Dropped(s, a)) && Fresh(Dropped(s, a))
  {
  }

  lemma DropAgree(s: State, a: nat)
    requires Shape(s) && Drops(s, a) && Agree(s)
    ensures Shape(Dropped(s, a)) && Agree(Dropped(s, a))
  {
  }

  lemma DropInv(s: State, a: nat)
    requires Inv(s) && Drops(s, a)
    ensures Inv(Dropped(s, a))
    ensures Tended(s) ==> Tended(Dropped(s, a))
  {
    hide Counts, Unique, Locks, Alone, Phases, Typed, Fresh, Agree, Dropped;
    DropCounts(s, a);
    DropUnique(s, a);
    DropLocks(s, a);
    DropPhases(s, a);
    DropAgree(s, a);
    if Tended(s) {
      DropAlone(s, a);
      DropTyped(s, a);
      DropFresh(s, a);
    }
  }

  // ---- ialloc marks an inode ----

  function Marked(s: State, a: nat, i: nat, typ: nat): State
    requires Shape(s) && a < |s.pc| && i < |s.disk|
  {
    s.(pc := s.pc[a := AllocGot(i)], disk := s.disk[i := Dinode(typ, 0, 0)])
  }

  predicate Marks(s: State, a: nat, i: nat, typ: nat)
    requires Shape(s)
  {
    a < |s.pc| && s.pc[a].Idle? && i < |s.disk| && s.disk[i].typ == 0 && typ != 0
  }

  lemma MarkCounts(s: State, a: nat, i: nat, typ: nat)
    requires Shape(s) && Marks(s, a, i, typ) && Counts(s)
    ensures Shape(Marked(s, a, i, typ)) && Counts(Marked(s, a, i, typ))
  {
    forall e | 0 <= e < |s.ref| ensures Holders(s.pc[a := AllocGot(i)], e) == Holders(s.pc, e) { HoldersSame(s.pc, a, AllocGot(i), e); }
  }

  lemma MarkUnique(s: State, a: nat, i: nat, typ: nat)
    requires Shape(s) && Marks(s, a, i, typ) && Unique(s)
    ensures Shape(Marked(s, a, i, typ)) && Unique(Marked(s, a, i, typ))
  {
  }

  lemma MarkLocks(s: State, a: nat, i: nat, typ: nat)
    requires Shape(s) && Marks(s, a, i, typ) && Locks(s)
    ensures Shape(Marked(s, a, i, typ)) && Locks(Marked(s, a, i, typ))
  {
  }

  lemma MarkAlone(s: State, a: nat, i: nat, typ: nat)
    requires Shape(s) && Marks(s, a, i, typ) && Alone(s)
    ensures Shape(Marked(s, a, i, typ)) && Alone(Marked(s, a, i, typ))
  {
  }

  lemma MarkPhases(s: State, a: nat, i: nat, typ: nat)
    requires Shape(s) && Marks(s, a, i, typ) && Phases(s)
    ensures Shape(Marked(s, a, i, typ)) && Phases(Marked(s, a, i, typ))
  {
  }

  lemma MarkTyped(s: State, a: nat, i: nat, typ: nat)
    requires Shape(s) && Marks(s, a, i, typ) && Typed(s)
    ensures Shape(Marked(s, a, i, typ)) && Typed(Marked(s, a, i, typ))
  {
  }

  lemma MarkFresh(s: State, a: nat, i: nat, typ: nat)
    requires Shape(s) && Marks(s, a, i, typ) && Typed(s) && Fresh(s)
    ensures Shape(Marked(s, a, i, typ)) && Fresh(Marked(s, a, i, typ))
  {
  }

  lemma MarkAgree(s: State, a: nat, i: nat, typ: nat)
    requires Shape(s) && Marks(s, a, i, typ) && Agree(s)
    ensures Shape(Marked(s, a, i, typ)) && Agree(Marked(s, a, i, typ))
  {
  }

  lemma MarkInv(s: State, a: nat, i: nat, typ: nat)
    requires Inv(s) && Marks(s, a, i, typ)
    ensures Inv(Marked(s, a, i, typ))
    ensures Tended(s) ==> Tended(Marked(s, a, i, typ))
  {
    hide Counts, Unique, Locks, Alone, Phases, Typed, Fresh, Agree, Marked;
    MarkCounts(s, a, i, typ);
    MarkUnique(s, a, i, typ);
    MarkLocks(s, a, i, typ);
    MarkPhases(s, a, i, typ);
    MarkAgree(s, a, i, typ);
    if Tended(s) {
      MarkAlone(s, a, i, typ);
      MarkTyped(s, a, i, typ);
      MarkFresh(s, a, i, typ);
    }
  }

  // ---- a reference taken: iget ----

  predicate Takes(s: State, a: nat, i: nat, e: nat)
    requires Shape(s)
  {
    a < |s.pc| && !Handled(s.pc[a]) && i < |s.disk| && Picks(s, i, e) && (s.ref[e] == 0 ==> Unheld(s, e))
  }

  /** iget for i is safe: the inode is allocated, not being freed, and not another's fresh one. */
  predicate Gets(s: State, a: nat, i: nat, e: nat)
    requires Shape(s)
  {
    && Takes(s, a, i, e) && s.disk[i].typ != 0
    && (forall c :: 0 <= c < |s.pc| && Sole(s.pc[c]) ==> s.pc[c].e != e)
    && (forall c :: 0 <= c < |s.pc| && c != a && s.pc[c].AllocGot? ==> s.pc[c].i != i)
  }

  lemma GetCounts(s: State, a: nat, i: nat, e: nat)
    requires Shape(s) && Takes(s, a, i, e) && Counts(s)
    ensures Shape(Got(s, a, i, e)) && Counts(Got(s, a, i, e))
  {
    forall f | 0 <= f < |s.ref| ensures Got(s, a, i, e).ref[f] == |Holders(s.pc[a := Held(e)], f)| {
      if f == e { HoldersMore(s.pc, a, Held(e), f); } else { HoldersSame(s.pc, a, Held(e), f); }
    }
  }

  lemma GetUnique(s: State, a: nat, i: nat, e: nat)
    requires Shape(s) && Takes(s, a, i, e) && Unique(s)
    ensures Shape(Got(s, a, i, e)) && Unique(Got(s, a, i, e))
  {
  }

  lemma GetLocks(s: State, a: nat, i: nat, e: nat)
    requires Shape(s) && Takes(s, a, i, e) && Locks(s)
    ensures Shape(Got(s, a, i, e)) && Locks(Got(s, a, i, e))
  {
  }

  lemma GetAlone(s: State, a: nat, i: nat, e: nat)
    requires Shape(s) && Gets(s, a, i, e) && Alone(s)
    ensures Shape(Got(s, a, i, e)) && Alone(Got(s, a, i, e))
  {
  }

  lemma GetPhases(s: State, a: nat, i: nat, e: nat)
    requires Shape(s) && Takes(s, a, i, e) && Phases(s)
    ensures Shape(Got(s, a, i, e)) && Phases(Got(s, a, i, e))
  {
  }

  lemma GetTyped(s: State, a: nat, i: nat, e: nat)
    requires Shape(s) && Gets(s, a, i, e) && Typed(s)
    ensures Shape(Got(s, a, i, e)) && Typed(Got(s, a, i, e))
  {
  }

  lemma GetFresh(s: State, a: nat, i: nat, e: nat)
    requires Shape(s) && Gets(s, a, i, e) && Fresh(s)
    ensures Shape(Got(s, a, i, e)) && Fresh(Got(s, a, i, e))
  {
  }

  lemma GetAgree(s: State, a: nat, i: nat, e: nat)
    requires Shape(s) && Takes(s, a, i, e) && Agree(s)
    ensures Shape(Got(s, a, i, e)) && Agree(Got(s, a, i, e))
  {
  }

  lemma GetInv(s: State, a: nat, i: nat, e: nat)
    requires Inv(s) && Takes(s, a, i, e)
    ensures Inv(Got(s, a, i, e))
    ensures Tended(s) && Gets(s, a, i, e) ==> Tended(Got(s, a, i, e))
  {
    hide Counts, Unique, Locks, Alone, Phases, Typed, Fresh, Agree, Got;
    GetCounts(s, a, i, e);
    GetUnique(s, a, i, e);
    GetLocks(s, a, i, e);
    GetPhases(s, a, i, e);
    GetAgree(s, a, i, e);
    if Tended(s) && Gets(s, a, i, e) {
      GetAlone(s, a, i, e);
      GetTyped(s, a, i, e);
      GetFresh(s, a, i, e);
    }
  }

  // ---- a reference copied: idup ----

  function Duped(s: State, a: nat, e: nat): State
    requires Shape(s) && a < |s.pc| && e < |s.ref|
  {
    s.(pc := s.pc[a := Held(e)], ref := s.ref[e := s.ref[e] + 1])
  }

  predicate Dups(s: State, a: nat, e: nat)
    requires Shape(s)
  {
    && a < |s.pc| && s.pc[a].Idle? && e < |s.ref|
    && exists c :: 0 <= c < |s.pc| && Handled(s.pc[c]) && !Post(s.pc[c]) && !Sole(s.pc[c]) && s.pc[c].e == e
  }

  lemma DupCounts(s: State, a: nat, e: nat)
    requires Shape(s) && Dups(s, a, e) && Counts(s)
    ensures Shape(Duped(s, a, e)) && Counts(Duped(s, a, e))
  {
    forall f | 0 <= f < |s.ref| ensures Duped(s, a, e).ref[f] == |Holders(s.pc[a := Held(e)], f)| {
      if f == e { HoldersMore(s.pc, a, Held(e), f); } else { HoldersSame(s.pc, a, Held(e), f); }
    }
  }

  lemma DupUnique(s: State, a: nat, e: nat)
    requires Shape(s) && Dups(s, a, e) && Counts(s) && Unique(s)
    ensures Shape(Duped(s, a, e)) && Unique(Duped(s, a, e))
  {
    var c :| 0 <= c < |s.pc| && Handled(s.pc[c]) && !Post(s.pc[c]) && !Sole(s.pc[c]) && s.pc[c].e == e;
    HolderCounts(s.pc, c);
  }

  lemma DupLocks(s: State, a: nat, e: nat)
    requires Shape(s) && Dups(s, a, e) && Locks(s)
    ensures Shape(Duped(s, a, e)) && Locks(Duped(s, a, e))
  {
  }

  lemma DupAlone(s: State, a: nat, e: nat)
    requires Shape(s) && Dups(s, a, e) && Alone(s)
    ensures Shape(Duped(s, a, e)) && Alone(Duped(s, a, e))
  {
  }

  lemma DupPhases(s: State, a: nat, e: nat)
    requires Shape(s) && Dups(s, a, e) && Phases(s)
    ensures Shape(Duped(s, a, e)) && Phases(Duped(s, a, e))
  {
  }

  lemma DupTyped(s: State, a: nat, e: nat)
    requires Shape(s) && Dups(s, a, e) && Typed(s)
    ensures Shape(Duped(s, a, e)) && Typed(Duped(s, a, e))
  {
  }

  lemma DupFresh(s: State, a: nat, e: nat)
    requires Shape(s) && Dups(s, a, e) && Fresh(s)
    ensures Shape(Duped(s, a, e)) && Fresh(Duped(s, a, e))
  {
  }

  lemma DupAgree(s: State, a: nat, e: nat)
    requires Shape(s) && Dups(s, a, e) && Counts(s) && Agree(s)
    ensures Shape(Duped(s, a, e)) && Agree(Duped(s, a, e))
  {
    var c :| 0 <= c < |s.pc| && Handled(s.pc[c]) && !Post(s.pc[c]) && !Sole(s.pc[c]) && s.pc[c].e == e;
    HolderCounts(s.pc, c);
  }

  lemma DupInv(s: State, a: nat, e: nat)
    requires Inv(s) && Dups(s, a, e)
    ensures Inv(Duped(s, a, e))
    ensures Tended(s) ==> Tended(Duped(s, a, e))
  {
    hide Counts, Unique, Locks, Alone, Phases, Typed, Fresh, Agree, Duped;
    DupCounts(s, a, e);
    DupUnique(s, a, e);
    DupLocks(s, a, e);
    DupPhases(s, a, e);
    DupAgree(s, a, e);
    if Tended(s) {
      DupAlone(s, a, e);
      DupTyped(s, a, e);
      DupFresh(s, a, e);
    }
  }

  // ---- every step ----

  lemma IgetTakes(s: State, st: Step)
    requires Inv(s) && Enabled(s, st) && (st.Lookup? || st.AllocGet?)
    ensures Takes(s, st.a, if st.Lookup? then st.i else s.pc[st.a].i, st.e)
  {
    hide Counts, Unique, Locks, Phases, Agree;
    if s.ref[st.e] == 0 { ZeroIsUnheld(s, st.e); }
  }

  lemma LookupGets(s: State, st: Step)
    requires Inv(s) && Tended(s) && Enabled(s, st) && st.Lookup? && Linked(s, st.i)
    ensures Gets(s, st.a, st.i, st.e)
  {
    hide Counts, Unique, Locks, Alone, Typed, Agree;
    IgetTakes(s, st);
    forall c | 0 <= c < |s.pc| && Sole(s.pc[c]) ensures s.pc[c].e != st.e {
      if s.ref[st.e] == 0 { assert Handled(s.pc[c]); }
    }
  }

  lemma AllocGets(s: State, st: Step)
    requires Inv(s) && Tended(s) && Enabled(s, st) && st.AllocGet?
    ensures Gets(s, st.a, s.pc[st.a].i, st.e)
  {
    hide Counts, Unique, Locks, Alone, Typed, Agree, Phases;
    IgetTakes(s, st);
    forall c | 0 <= c < |s.pc| && Sole(s.pc[c]) ensures s.pc[c].e != st.e { assert Handled(s.pc[c]) && !Post(s.pc[c]); }
  }

  lemma CountAt(s: State, e: nat)
    requires Shape(s) && Counts(s) && e < |s.ref|
    ensures s.ref[e] == |Holders(s.pc, e)|
  {
  }

  lemma Referenced(s: State, a: nat)
    requires Shape(s) && Counts(s) && a < |s.pc| && Handled(s.pc[a])
    ensures s.ref[s.pc[a].e] > 0
  {
    HolderCounts(s.pc, a);
    CountAt(s, s.pc[a].e);
  }

  lemma GoFits(s: State, a: nat)
    requires Inv(s) && Enabled(s, Go(a)) && !s.pc[a].Dirty? && !s.pc[a].FreeUpd? && !s.pc[a].Decr?
    ensures var t := Going(s, a); var e := s.pc[a].e;
            && |t.pc| == |s.pc| && |t.lock| == |t.valid| == |t.mem| == |s.ref|
            && t == Act(s, a, t.pc[a], t.lock[e], t.valid[e], t.mem[e]) && Fits(s, a, t.pc[a], t.lock[e], t.valid[e], t.mem[e])
  {
    hide Counts, Unique;
    Referenced(s, a);
  }

  lemma GoInv(s: State, a: nat)
    requires Inv(s) && Enabled(s, Go(a))
    ensures Inv(Going(s, a))
    ensures Tended(s) ==> Tended(Going(s, a))
  {
    hide Counts, Unique, Locks, Tended, Phases, Agree, Fits, Act;
    if s.pc[a].Dirty? {
      UpdateInv(s, a, Locked(s.pc[a].e));
    } else if s.pc[a].FreeUpd? {
      UpdateInv(s, a, Invalidate(s.pc[a].e));
    } else if s.pc[a].Decr? {
      DropInv(s, a);
    } else {
      GoFits(s, a);
      var t, e := Going(s, a), s.pc[a].e;
      ActInv(s, a, t.pc[a], t.lock[e], t.valid[e], t.mem[e]);
    }
  }

  /** Nobody can have locked an inode whose only holder is not locking it. */
  lemma SoleUnlocked(s: State, a: nat)
    requires Shape(s) && Locks(s) && a < |s.pc| && s.pc[a].Held? && SoleHolder(s, a)
    ensures s.lock[s.pc[a].e] == -1
  {
  }

  lemma PutInv(s: State, a: nat)
    requires Inv(s) && Enabled(s, Put(a))
    ensures Inv(Next(s, Put(a)))
    ensures Tended(s) ==> Tended(Next(s, Put(a)))
  {
    hide Counts, Unique, Tended, Phases;
    var e := s.pc[a].e;
    if s.ref[e] == 1 && s.valid[e] && s.mem[e].nlink == 0 {
      OneIsAlone(s, a);
      SoleUnlocked(s, a);
      ActInv(s, a, Freeing(e), a, s.valid[e], s.mem[e]);
    } else {
      DropInv(s, a);
    }
  }

  lemma OwnLockInv(s: State, st: Step)
    requires Inv(s) && Enabled(s, st) && (st.Lock? || st.Unlock? || st.Modify?)
    ensures Inv(Next(s, st))
    ensures Tended(s) ==> Tended(Next(s, st))
  {
    hide Counts, Unique, Tended;
    var a := st.a;
    var e := s.pc[a].e;
    Referenced(s, a);
    match st
    case Lock(_) => ActInv(s, a, Acq(e), s.lock[e], s.valid[e], s.mem[e]);
    case Unlock(_) => ActInv(s, a, Held(e), -1, s.valid[e], s.mem[e]);
    case Modify(_, d) => ActInv(s, a, Dirty(e), s.lock[e], s.valid[e], d);
  }

  /** Every step keeps the invariant, and, if a lookup names a linked inode, also the rest. */
  lemma StepKeeps(s: State, st: Step)
    requires Inv(s) && Enabled(s, st)
    ensures Inv(Next(s, st))
    ensures Tended(s) && (st.Lookup? ==> Linked(s, st.i)) ==> Tended(Next(s, st))
  {
    hide Counts, Unique, Locks, Tended, Phases, Agree, Got, Act, Going, Dropped, Gets, Takes, Linked;
    match st
    case Lookup(a, i, e) =>
      IgetTakes(s, st);
      if Tended(s) && Linked(s, i) { LookupGets(s, st); }
      GetInv(s, a, i, e);
    case Alloc(a, i, typ) => MarkInv(s, a, i, typ);
    case AllocGet(a, e) =>
      IgetTakes(s, st);
      if Tended(s) { AllocGets(s, st); }
      GetInv(s, a, s.pc[a].i, e);
    case Dup(a, b) => assert Handled(s.pc[a]); DupInv(s, b, s.pc[a].e);
    case Lock(_) => OwnLockInv(s, st);
    case Unlock(_) => OwnLockInv(s, st);
    case Modify(_, _) => OwnLockInv(s, st);
    case Put(a) => PutInv(s, a);
    case Go(a) => GoInv(s, a);
  }

  // ---- whole runs ----

  /** After iinit: no entry in use, nothing locked. */
  predicate Init(s: State) {
    && Shape(s) && (forall a :: 0 <= a < |s.pc| ==> s.pc[a].Idle?)
    && (forall e :: 0 <= e < |s.ref| ==> s.ref[e] == 0 && s.lock[e] == -1)
  }

  predicate Run(states: seq<State>, steps: seq<Step>) {
    && |states| == |steps| + 1 && Init(states[0])
    && (forall i :: 0 <= i < |steps| ==> Shape(states[i]) && Enabled(states[i], steps[i]) && states[i + 1] == Next(states[i], steps[i]))
  }

  lemma InitInv(s: State)
    requires Init(s)
    ensures Inv(s) && Tended(s)
  {
    forall e | 0 <= e < |s.ref| ensures Holders(s.pc, e) == {} { }
  }

  /** Every lookup of the run names a linked inode. */
  predicate Careful(states: seq<State>, steps: seq<Step>)
    requires |states| == |steps| + 1
  {
    forall i :: 0 <= i < |steps| && steps[i].Lookup? ==> Shape(states[i]) && Linked(states[i], steps[i].i)
  }

  lemma {:induction false} RunInv(states: seq<State>, steps: seq<Step>, i: nat)
    requires Run(states, steps) && i < |states|
    ensures Inv(states[i]) && (Careful(states, steps) ==> Tended(states[i]))
  {
    hide Inv, Next, Tended;
    if i == 0 {
      InitInv(states[0]);
    } else {
      RunInv(states, steps, i - 1);
      StepKeeps(states[i - 1], steps[i - 1]);
    }
  }

  /** Two entries in use never hold the same inode, whatever is looked up. */
  lemma NoDuplicates(states: seq<State>, steps: seq<Step>, i: nat, e: nat, f: nat)
    requires Run(states, steps) && i < |states| && Shape(states[i]) && e < f < |states[i].ref|
    requires states[i].ref[e] > 0 && states[i].ref[f] > 0
    ensures states[i].inum[e] != states[i].inum[f]
  {
    hide Run, Next, Counts, Locks, Phases, Agree;
    RunInv(states, steps, i);
  }

  /** Whoever has an inode locked, no one else has, and sees the allocated inode that is on disk,
      whatever is looked up. */
  lemma LockedAgrees(states: seq<State>, steps: seq<Step>, i: nat, a: nat)
    requires Run(states, steps) && i < |states| && Shape(states[i]) && a < |states[i].pc| && states[i].pc[a].Locked?
    ensures var s := states[i]; var e := s.pc[a].e;
            && s.valid[e] && s.mem[e] == s.disk[s.inum[e]] && s.mem[e].typ != 0
            && forall b :: 0 <= b < |s.pc| && b != a && HoldsLock(s.pc[b]) ==> s.pc[b].e != e
  {
    hide Run, Next, Unique, Counts;
    RunInv(states, steps, i);
    Referenced(states[i], a);
  }

  /** An iput that frees never waits for the sleep-lock. */
  lemma FreeingNeverWaits(states: seq<State>, steps: seq<Step>, i: nat, a: nat)
    requires Run(states, steps) && i < |states| && Shape(states[i]) && a < |states[i].pc|
    requires states[i].pc[a].Held? && states[i].ref[states[i].pc[a].e] == 1
    ensures states[i].lock[states[i].pc[a].e] == -1
  {
    hide Run, Next, Unique, Phases, Agree;
    RunInv(states, steps, i);
    OneIsAlone(states[i], a);
    SoleUnlocked(states[i], a);
  }

  // ---- when ilock panics ----

  /** ilock, having the sleep-lock, panics exactly when the inode is free on disk at that moment:
      a cached copy is never of a free inode. */
  lemma PanicsExactly(states: seq<State>, steps: seq<Step>, i: nat, a: nat)
    requires Run(states, steps) && i < |states| && Shape(states[i]) && a < |states[i].pc| && states[i].pc[a].Read?
    ensures Panics(states[i], a) <==> states[i].disk[states[i].inum[states[i].pc[a].e]].typ == 0
  {
    hide Run, Next, Unique, Counts, Phases;
    RunInv(states, steps, i);
    Referenced(states[i], a);
  }

  /** No ilock panics in a run whose lookups name linked inodes, not even when ialloc and iget pick up
      an inode number while iput is between its two itable.lock sections. */
  lemma CarefulNeverPanics(states: seq<State>, steps: seq<Step>, i: nat, a: nat)
    requires Run(states, steps) && Careful(states, steps) && i < |states| && Shape(states[i]) && a < |states[i].pc|
    ensures !Panics(states[i], a)
  {
    hide Run, Next, Unique, Counts, Phases, Agree, Alone, Fresh, Careful;
    RunInv(states, steps, i);
  }

  /** The lookup, and ilock up to its read. */
  function Opening(s: State, a: nat, i: nat, e: nat): State
    requires Shape(s) && a < |s.pc| && e < |s.ref|
  {
    s.(pc := s.pc[a := Read(e)], ref := s.ref[e := 1], inum := s.inum[e := i], valid := s.valid[e := false], lock := s.lock[e := a])
  }

  lemma OpeningSteps(s: State, a: nat, i: nat, e: nat)
    requires Inv(s) && Enabled(s, Lookup(a, i, e)) && s.ref[e] == 0
    ensures var t := Next(s, Lookup(a, i, e));
            && Shape(t) && Enabled(t, Lock(a)) && Shape(Next(t, Lock(a))) && Enabled(Next(t, Lock(a)), Go(a))
            && Next(Next(t, Lock(a)), Go(a)) == Opening(s, a, i, e)
  {
    hide Counts, Unique, Phases, Agree;
    ZeroIsUnheld(s, e);
    UnheldUnlocked(s, e);
  }

  lemma UnheldUnlocked(s: State, e: nat)
    requires Shape(s) && Locks(s) && e < |s.ref| && Unheld(s, e)
    ensures s.lock[e] == -1
  {
  }

  /** In every reachable state, looking up an inode that is not in the table and locking it at once
      panics exactly when the inode is free on disk. */
  lemma LookupPanicsExactly(states: seq<State>, steps: seq<Step>, n: nat, a: nat, i: nat, e: nat)
    requires Run(states, steps) && n < |states| && Shape(states[n]) && Enabled(states[n], Lookup(a, i, e)) && states[n].ref[e] == 0
    ensures var s := states[n]; var t := Next(s, Lookup(a, i, e));
            && Shape(t) && Enabled(t, Lock(a)) && Shape(Next(t, Lock(a))) && Enabled(Next(t, Lock(a)), Go(a))
            && Shape(Next(Next(t, Lock(a)), Go(a))) && a < |Next(Next(t, Lock(a)), Go(a)).pc|
            && (Panics(Next(Next(t, Lock(a)), Go(a)), a) <==> s.disk[i].typ == 0)
  {
    hide Run, Next, Counts, Unique, Locks, Phases, Agree;
    RunInv(states, steps, n);
    OpeningSteps(states[n], a, i, e);
  }

  /** A table of one entry and one actor, with inode 1 on disk. */
  function Single(pc: Pc, ref: nat, valid: bool, lock: int, mem: Dinode, on: Dinode): State {
    State([pc], [1], [ref], [valid], [lock], [mem], [Dinode(0, 0, 0), on])
  }

  predicate Hop(s: State, st: Step, t: State) { Shape(s) && Enabled(s, st) && t == Next(s, st) }

  lemma Extend(states: seq<State>, steps: seq<Step>, st: Step, t: State)
    requires Run(states, steps) && Hop(states[|steps|], st, t)
    ensures Run(states + [t], steps + [st])
    ensures Careful(states, steps) && (st.Lookup? ==> Linked(states[|steps|], st.i)) ==> Careful(states + [t], steps + [st])
  {
    hide Next, Enabled, Shape, Linked, Init;
    var ss, ts := states + [t], steps + [st];
    forall i | 0 <= i < |ts| ensures Hop(ss[i], ts[i], ss[i + 1]) { }
  }

  lemma SingleOpen(m: Dinode, on: Dinode)
    ensures Hop(Single(Idle, 0, false, -1, m, on), Lookup(0, 1, 0), Single(Held(0), 1, false, -1, m, on))
    ensures Hop(Single(Held(0), 1, false, -1, m, on), Lock(0), Single(Acq(0), 1, false, -1, m, on))
    ensures Hop(Single(Acq(0), 1, false, -1, m, on), Go(0), Single(Read(0), 1, false, 0, m, on))
  {
  }

  lemma SingleUnlink(m: Dinode, on: Dinode, d: Dinode)
    requires on.typ != 0 && d.typ != 0
    ensures Hop(Single(Read(0), 1, false, 0, m, on), Go(0), Single(Locked(0), 1, true, 0, on, on))
    ensures Hop(Single(Locked(0), 1, true, 0, on, on), Modify(0, d), Single(Dirty(0), 1, true, 0, d, on))
  {
  }

  lemma SingleClose(d: Dinode, on: Dinode)
    ensures Hop(Single(Dirty(0), 1, true, 0, d, on), Go(0), Single(Locked(0), 1, true, 0, d, d))
    ensures Hop(Single(Locked(0), 1, true, 0, d, d), Unlock(0), Single(Held(0), 1, true, -1, d, d))
  {
  }

  lemma SingleFree(d: Dinode, f: Dinode)
    requires d.typ != 0 && d.nlink == 0 && f == Dinode(0, 0, 0)
    ensures Hop(Single(Held(0), 1, true, -1, d, d), Put(0), Single(Freeing(0), 1, true, 0, d, d))
    ensures Hop(Single(Freeing(0), 1, true, 0, d, d), Go(0), Single(FreeUpd(0), 1, true, 0, f, d))
    ensures Hop(Single(FreeUpd(0), 1, true, 0, f, d), Go(0), Single(Invalidate(0), 1, true, 0, f, f))
  {
  }

  lemma SingleRelease(f: Dinode)
    ensures Hop(Single(Invalidate(0), 1, true, 0, f, f), Go(0), Single(FreeRel(0), 1, false, 0, f, f))
    ensures Hop(Single(FreeRel(0), 1, false, 0, f, f), Go(0), Single(Decr(0), 1, false, -1, f, f))
    ensures Hop(Single(Decr(0), 1, false, -1, f, f), Go(0), Single(Idle, 0, false, -1, f, f))
  {
  }

  /** The run so far, and where it stands. */
  predicate RunTo(states: seq<State>, steps: seq<Step>, s: State) { Run(states, steps) && states[|steps|] == s }

  lemma Then(states: seq<State>, steps: seq<Step>, s: State, st: Step, t: State) returns (ss: seq<State>, ts: seq<Step>)
    requires RunTo(states, steps, s) && Hop(s, st, t)
    ensures RunTo(ss, ts, t) && ts == steps + [st]
    ensures Careful(states, steps) && (st.Lookup? ==> Linked(s, st.i)) ==> Careful(ss, ts)
  {
    hide Hop;
    Extend(states, steps, st, t);
    ss, ts := states + [t], steps + [st];
  }

  /** Inode 1, a directory with one link, is opened and unlinked. */
  lemma UnlinkedRun() returns (ss: seq<State>, ts: seq<Step>)
    ensures RunTo(ss, ts, Single(Held(0), 1, true, -1, Dinode(1, 0, 0), Dinode(1, 0, 0))) && Careful(ss, ts)
  {
    hide Run, Careful, Hop, Single;
    var on, d, f := Dinode(1, 1, 0), Dinode(1, 0, 0), Dinode(0, 0, 0);
    SingleOpen(f, on);
    SingleUnlink(f, on, d);
    SingleClose(d, on);
    ss, ts := SingleStart(f, on);
    ss, ts := Then(ss, ts, Single(Idle, 0, false, -1, f, on), Lookup(0, 1, 0), Single(Held(0), 1, false, -1, f, on));
    ss, ts := Then(ss, ts, Single(Held(0), 1, false, -1, f, on), Lock(0), Single(Acq(0), 1, false, -1, f, on));
    ss, ts := Then(ss, ts, Single(Acq(0), 1, false, -1, f, on), Go(0), Single(Read(0), 1, false, 0, f, on));
    ss, ts := Then(ss, ts, Single(Read(0), 1, false, 0, f, on), Go(0), Single(Locked(0), 1, true, 0, on, on));
    ss, ts := Then(ss, ts, Single(Locked(0), 1, true, 0, on, on), Modify(0, d), Single(Dirty(0), 1, true, 0, d, on));
    ss, ts := Then(ss, ts, Single(Dirty(0), 1, true, 0, d, on), Go(0), Single(Locked(0), 1, true, 0, d, d));
    ss, ts := Then(ss, ts, Single(Locked(0), 1, true, 0, d, d), Unlock(0), Single(Held(0), 1, true, -1, d, d));
  }

  lemma SingleStart(f: Dinode, on: Dinode) returns (ss: seq<State>, ts: seq<Step>)
    requires on.typ != 0 && on.nlink > 0
    ensures RunTo(ss, ts, Single(Idle, 0, false, -1, f, on)) && Careful(ss, ts)
    ensures Shape(Single(Idle, 0, false, -1, f, on)) && Linked(Single(Idle, 0, false, -1, f, on), 1)
  {
    ss, ts := [Single(Idle, 0, false, -1, f, on)], [];
  }

  /** Its last reference is dropped, which frees it. */
  lemma FreedRun() returns (ss: seq<State>, ts: seq<Step>)
    ensures RunTo(ss, ts, Single(Idle, 0, false, -1, Dinode(0, 0, 0), Dinode(0, 0, 0))) && Careful(ss, ts)
  {
    hide Run, Careful, Hop, Single;
    var d, f := Dinode(1, 0, 0), Dinode(0, 0, 0);
    SingleFree(d, f);
    SingleRelease(f);
    ss, ts := UnlinkedRun();
    ss, ts := Then(ss, ts, Single(Held(0), 1, true, -1, d, d), Put(0), Single(Freeing(0), 1, true, 0, d, d));
    ss, ts := Then(ss, ts, Single(Freeing(0), 1, true, 0, d, d), Go(0), Single(FreeUpd(0), 1, true, 0, f, d));
    ss, ts := Then(ss, ts, Single(FreeUpd(0), 1, true, 0, f, d), Go(0), Single(Invalidate(0), 1, true, 0, f, f));
    ss, ts := Then(ss, ts, Single(Invalidate(0), 1, true, 0, f, f), Go(0), Single(FreeRel(0), 1, false, 0, f, f));
    ss, ts := Then(ss, ts, Single(FreeRel(0), 1, false, 0, f, f), Go(0), Single(Decr(0), 1, false, -1, f, f));
    ss, ts := Then(ss, ts, Single(Decr(0), 1, false, -1, f, f), Go(0), Single(Idle, 0, false, -1, f, f));
  }

  /** The panic is reachable: a run whose lookups all name linked inodes frees an unlinked directory;
      then a lookup follows a stale entry to it, as ".." is in a removed subdirectory that is still
      some process's current directory, and ilock panics. */
  lemma StaleLookupPanics() returns (states: seq<State>, steps: seq<Step>, n: nat)
    ensures Run(states, steps) && n + 3 == |steps| && Run(states[..n + 1], steps[..n]) && Careful(states[..n + 1], steps[..n])
    ensures steps[n..] == [Lookup(0, 1, 0), Lock(0), Go(0)] && Shape(states[|steps|]) && |states[|steps|].pc| == 1 && Panics(states[|steps|], 0)
  {
    hide Run, Careful, Hop;
    var f := Dinode(0, 0, 0);
    SingleOpen(f, f);
    var ss, ts := FreedRun();
    n := |ts|;
    states, steps := Then3(ss, ts, f);
  }

  lemma Then3(ss: seq<State>, ts: seq<Step>, f: Dinode) returns (states: seq<State>, steps: seq<Step>)
    requires RunTo(ss, ts, Single(Idle, 0, false, -1, f, f))
    ensures |states| == |ss| + 3 && |ss| == |ts| + 1 && states[..|ss|] == ss && RunTo(states, steps, Single(Read(0), 1, false, 0, f, f))
    ensures steps == ts + [Lookup(0, 1, 0), Lock(0), Go(0)]
  {
    hide Careful, Hop, Single;
    SingleOpen(f, f);
    var h, a, r := Single(Held(0), 1, false, -1, f, f), Single(Acq(0), 1, false, -1, f, f), Single(Read(0), 1, false, 0, f, f);
    Extend(ss, ts, Lookup(0, 1, 0), h);
    Extend(ss + [h], ts + [Lookup(0, 1, 0)], Lock(0), a);
    Extend(ss + [h] + [a], ts + [Lookup(0, 1, 0)] + [Lock(0)], Go(0), r);
    states, steps := ss + [h] + [a] + [r], ts + [Lookup(0, 1, 0)] + [Lock(0)] + [Go(0)];
  }

  // ---- iget's scan ----

  class Itable {
    var inum: seq<nat>
    var ref: seq<nat>
    var valid: seq<bool>

    /** What the table's own fields make of a state. */
    ghost predicate In(s: State)
      reads this
    {
      s.inum == inum && s.ref == ref && s.valid == valid
    }

    /** iget under itable.lock: the entry of i, or else the first unused one; none is a panic. It is
        the step of the protocol for the actor a that calls it. */
    method Iget(i: nat, ghost s: State, ghost a: nat) returns (ok: bool, e: nat)
      requires Shape(s) && In(s) && a < |s.pc|
      modifies this
      ensures ok ==> Picks(s, i, e) && In(Got(s, a, i, e)) && (s.ref[e] == 0 ==> forall f :: 0 <= f < e ==> s.ref[f] > 0)
      ensures !ok ==> In(s) && forall f :: 0 <= f < |ref| ==> ref[f] > 0 && inum[f] != i
    {
      var empty := |ref|;
      var k := 0;
      while k < |ref|
        invariant 0 <= k <= |ref| && In(s) && (0 <= empty < k || empty == |ref|)
        invariant forall f :: 0 <= f < k && ref[f] > 0 ==> inum[f] != i
        invariant empty < |ref| ==> ref[empty] == 0 && forall f :: 0 <= f < empty ==> ref[f] > 0
        invariant empty == |ref| ==> forall f :: 0 <= f < k ==> ref[f] > 0
      {
        if ref[k] > 0 && inum[k] == i {
          ref := ref[k := ref[k] + 1];
          return true, k;
        }
        if empty == |ref| && ref[k] == 0 { empty := k; }
        k := k + 1;
      }
      if empty == |ref| { return false, 0; }
      inum, ref, valid := inum[empty := i], ref[empty := 1], valid[empty := false];
      return true, empty;
    }
  }
}
