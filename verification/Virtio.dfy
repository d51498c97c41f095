/** The virtio block driver and the device it talks to, one locked section or
    one device action per step. Descriptors, rings and 16-bit indices are the
    driver's; the device sees a request only through them. `reqs`, `owner`,
    `pend` and `done` record the requests in flight, whose each descriptor is,
    and the heads waiting in the available and in the used ring. */
module Virtio {
  import opened Numbers
  import opened Blocks

  const NUM := 8
  const WRAP := 0x1_0000

  datatype Addr = Nowhere | Header(i: nat) | Data(b: nat) | Status(i: nat)
  datatype Desc = Desc(addr: Addr, len: nat, more: bool, write: bool, next: nat)
  datatype Op = Op(out: bool, sector: nat)

  const SECTOR := 512
  const REQ := 16                  // sizeof(struct virtio_blk_req)

  /** A buffer: BSIZE bytes, as the contents of the sectors they fill. */
  type Image = d: seq<int> | |d| == BSIZE / SECTOR witness [0, 0]

  datatype Phase = Queued | AtDevice | Used | Done
  /** A request in flight: what was asked for, its descriptors, how far it is, what its buffer
      holds and, once the device is done with it, the status the device reported. */
  datatype Req = Req(b: nat, out: bool, sector: nat, i1: nat, i2: nat, phase: Phase, image: Image, st: int)

  datatype State = State(
    free: seq<bool>, desc: seq<Desc>, ops: seq<Op>, info: seq<int>, status: seq<int>,
    ring: seq<nat>, availIdx: nat, used: seq<nat>, usedIdx: nat, seen: nat, devIdx: nat,
    busy: seq<bool>, data: seq<Image>, disk: map<nat, int>,
    reqs: map<nat, Req>, owner: seq<nat>, pend: seq<nat>, done: seq<nat>)

  datatype Step =
    | Submit(b: nat, out: bool, sector: nat, i0: nat, i1: nat, i2: nat)
    | Fetch
    | Complete(h: nat, st: int, junk: Image)   // status 0 is success; an error may leave junk
    | Interrupt
    | Finish(h: nat)

  predicate Shape(s: State) {
    && |s.free| == |s.desc| == |s.ops| == |s.info| == |s.status| == |s.ring| == |s.used| == |s.owner| == NUM
    && |s.busy| == |s.data|
    && s.availIdx < WRAP && s.usedIdx < WRAP && s.seen < WRAP && s.devIdx < WRAP
    && (forall i :: 0 <= i < NUM ==> s.used[i] < NUM && s.ring[i] < NUM)
  }

  function Bump(i: nat): (r: nat)
    requires i < WRAP
    ensures r < WRAP
  {
    if i + 1 == WRAP then 0 else i + 1
  }

  function Slot(i: nat): (r: nat)
    ensures r < NUM
  {
    i % NUM
  }

  /** The 16-bit indices go through the ring's entries in order, around the ring and across the wrap
      of the index alike, as the ring's size divides the index's range. */
  lemma SlotsInOrder(i: nat)
    requires i < WRAP
    ensures Slot(0) == 0 && Slot(Bump(i)) == if Slot(i) == NUM - 1 then 0 else Slot(i) + 1
  {
    if i + 1 < WRAP { assert i == NUM * (i / NUM) + Slot(i); }
  }

  const UNUSED := Desc(Nowhere, 0, false, false, 0)

  // ---- the driver's and the device's actions ----

  function Formatted(s: State, b: nat, out: bool, sector: nat, i0: nat, i1: nat, i2: nat): State
    requires Shape(s) && i0 < NUM && i1 < NUM && i2 < NUM && b < |s.busy|
  {
    s.(desc := s.desc[i0 := Desc(Header(i0), REQ, true, false, i1)][i1 := Desc(Data(b), BSIZE, true, !out, i2)]
                     [i2 := Desc(Status(i0), 1, false, true, 0)],
       ops := s.ops[i0 := Op(out, sector)], info := s.info[i0 := b], status := s.status[i0 := 0xff],
       free := s.free[i0 := false][i1 := false][i2 := false], busy := s.busy[b := true])
  }

  function Submitted(s: State, b: nat, out: bool, sector: nat, i0: nat, i1: nat, i2: nat): State
    requires Shape(s) && i0 < NUM && i1 < NUM && i2 < NUM && b < |s.busy|
  {
    Formatted(s, b, out, sector, i0, i1, i2).(
      ring := s.ring[Slot(s.availIdx) := i0], availIdx := Bump(s.availIdx),
      reqs := s.reqs[i0 := Req(b, out, sector, i1, i2, Queued, s.data[b], 0xff)],
      owner := s.owner[i0 := i0][i1 := i0][i2 := i0], pend := s.pend + [i0])
  }

  function SetPhase(s: State, h: nat, ph: Phase): State {
    if h in s.reqs then s.(reqs := s.reqs[h := s.reqs[h].(phase := ph)]) else s
  }

  function Fetched(s: State): State
    requires Shape(s)
  {
    SetPhase(s, s.ring[Slot(s.devIdx)], AtDevice).(devIdx := Bump(s.devIdx), pend := if |s.pend| > 0 then s.pend[1..] else [])
  }

  function At(disk: map<nat, int>, sector: nat): int { if sector in disk then disk[sector] else 0 }

  /** The sectors from sector on, as many as a buffer has. */
  function Loaded(disk: map<nat, int>, sector: nat): Image { [At(disk, sector), At(disk, sector + 1)] }

  function Stored(disk: map<nat, int>, sector: nat, d: Image): map<nat, int> { disk[sector := d[0]][sector + 1 := d[1]] }

  /** The device reads the chain from head h, one device-readable header and one buffer readable or
      writable as the header's type needs, and moves as many sectors as the buffer's descriptor has
      room for; failing, it moves something else. */
  function Transferred(s: State, h: nat, st: int, junk: Image): State
    requires Shape(s) && h < NUM
  {
    var d0 := s.desc[h];
    if !(d0.addr.Header? && d0.addr.i < NUM && d0.len == REQ && d0.more && !d0.write && d0.next < NUM) then s else
    var d1 := s.desc[d0.next];
    var op := s.ops[d0.addr.i];
    if !(d1.addr.Data? && d1.addr.b < |s.data| && d1.len == SECTOR * |s.data[d1.addr.b]| && d1.more && d1.write == !op.out) then s
    else if op.out then s.(disk := Stored(s.disk, op.sector, if st == 0 then s.data[d1.addr.b] else junk))
    else s.(data := s.data[d1.addr.b := if st == 0 then Loaded(s.disk, op.sector) else junk])
  }

  function Completed(s: State, h: nat, st: int, junk: Image): State
    requires Shape(s) && h < NUM
  {
    var t := Transferred(s, h, st, junk);
    var d2 := s.desc[h].next;
    t.(status := if d2 < NUM && s.desc[d2].next < NUM && s.desc[s.desc[d2].next].addr.Status? && s.desc[s.desc[d2].next].write
                    && s.desc[s.desc[d2].next].addr.i < NUM
                 then s.status[s.desc[s.desc[d2].next].addr.i := st] else s.status,
       used := s.used[Slot(s.usedIdx) := h], usedIdx := Bump(s.usedIdx),
       reqs := if h in s.reqs && s.reqs[h].b < |t.data| then s.reqs[h := s.reqs[h].(phase := Used, image := t.data[s.reqs[h].b], st := st)] else s.reqs,
       done := s.done + [h])
  }

  function Interrupted(s: State): State
    requires Shape(s)
  {
    var h := s.used[Slot(s.seen)];
    var b := s.info[h];
    SetPhase(s, h, Done).(busy := if 0 <= b < |s.busy| then s.busy[b := false] else s.busy,
                          seen := Bump(s.seen), done := if |s.done| > 0 then s.done[1..] else [])
  }

  function FreeDesc(s: State, i: nat): State
    requires Shape(s) && i < NUM
  {
    s.(desc := s.desc[i := UNUSED], free := s.free[i := true], owner := s.owner[i := NUM])
  }

  function Finished(s: State, h: nat): State
    requires Shape(s) && h < NUM && h in s.reqs && s.reqs[h].i1 < NUM && s.reqs[h].i2 < NUM
  {
    FreeDesc(FreeDesc(FreeDesc(s.(info := s.info[h := -1], reqs := s.reqs - {h}), h), s.reqs[h].i1), s.reqs[h].i2)
  }

  /** virtio_disk_intr panics on the next used entry. */
  predicate StatusPanic(s: State)
    requires Shape(s)
  {
    s.seen != s.usedIdx && s.status[s.used[Slot(s.seen)]] != 0
  }

  predicate Enabled(s: State, a: Step)
    requires Shape(s)
  {
    match a
    case Submit(b, _, _, i0, i1, i2) =>
      && i0 < NUM && i1 < NUM && i2 < NUM && i0 != i1 && i0 != i2 && i1 != i2
      && s.free[i0] && s.free[i1] && s.free[i2]
      && b < |s.busy| && (forall h :: h in s.reqs ==> s.reqs[h].b != b)   // the caller holds b's lock
    case Fetch => s.devIdx != s.availIdx
    case Complete(h, _, _) => h < NUM && h in s.reqs && s.reqs[h].phase.AtDevice?
    case Interrupt => s.seen != s.usedIdx && !StatusPanic(s)
    case Finish(h) => h < NUM && h in s.reqs && s.reqs[h].i1 < NUM && s.reqs[h].i2 < NUM && s.reqs[h].b < |s.busy| && !s.busy[s.reqs[h].b]
  }

  function Next(s: State, a: Step): State
    requires Shape(s) && Enabled(s, a)
  {
    match a
    case Submit(b, out, sector, i0, i1, i2) => Submitted(s, b, out, sector, i0, i1, i2)
    case Fetch => Fetched(s)
    case Complete(h, st, junk) => Completed(s, h, st, junk)
    case Interrupt => Interrupted(s)
    case Finish(h) => Finished(s, h)
  }

  // ---- invariants ----

  /** Request h is laid out in its three descriptors just as it was made. */
  predicate Chained(s: State, h: nat)
    requires Shape(s) && h in s.reqs
  {
    var r := s.reqs[h];
    && h < NUM && r.i1 < NUM && r.i2 < NUM && h != r.i1 && h != r.i2 && r.i1 != r.i2
    && s.owner[h] == s.owner[r.i1] == s.owner[r.i2] == h
    && s.desc[h] == Desc(Header(h), REQ, true, false, r.i1)
    && s.desc[r.i1] == Desc(Data(r.b), BSIZE, true, !r.out, r.i2)
    && s.desc[r.i2] == Desc(Status(h), 1, false, true, 0)
    && s.ops[h] == Op(r.out, r.sector)
  }

  predicate Chains(s: State)
    requires Shape(s)
  {
    forall h :: h in s.reqs ==> Chained(s, h)
  }

  /** Every descriptor is free or belongs to one request in flight. */
  predicate Partition(s: State)
    requires Shape(s)
  {
    forall i :: 0 <= i < NUM ==>
      if s.free[i] then s.owner[i] == NUM && s.desc[i] == UNUSED
      else s.owner[i] in s.reqs && (i == s.owner[i] || i == s.reqs[s.owner[i]].i1 || i == s.reqs[s.owner[i]].i2)
  }

  predicate Bufs(s: State)
    requires Shape(s)
  {
    && (forall h :: h in s.reqs ==> h < NUM && s.reqs[h].b < |s.busy| && s.info[h] == s.reqs[h].b && (s.busy[s.reqs[h].b] <==> !s.reqs[h].phase.Done?))
    && (forall h, g :: h in s.reqs && g in s.reqs && h != g ==> s.reqs[h].b != s.reqs[g].b)
  }

  function Add(i: nat, k: nat): (r: nat)
    requires i < WRAP && k <= NUM
    ensures r < WRAP
  {
    if i + k < WRAP then i + k else i + k - WRAP
  }

  /** The ring entries from index lo up to hi, both 16-bit, hold q. */
  predicate Window(ring: seq<nat>, lo: nat, hi: nat, q: seq<nat>)
    requires |ring| == NUM && lo < WRAP && hi < WRAP
  {
    |q| <= NUM && hi == Add(lo, |q|) && forall k :: 0 <= k < |q| ==> ring[Slot(Add(lo, k))] == q[k]
  }

  predicate Queues(s: State)
    requires Shape(s)
  {
    Window(s.ring, s.devIdx, s.availIdx, s.pend) && Window(s.used, s.seen, s.usedIdx, s.done)
  }

  /** The rings hold each waiting request once, and nothing else. */
  ghost predicate Phases(s: State)
    requires Shape(s)
  {
    && NoRepeats(s.pend) && NoRepeats(s.done)
    && (forall h :: h in s.pend <==> h in s.reqs && s.reqs[h].phase.Queued?)
    && (forall h :: h in s.done <==> h in s.reqs && s.reqs[h].phase.Used?)
  }

  /** A buffer in flight holds its request's image, which only its own completion changes; the
      status byte is what the device reported, and no failed request is done. */
  predicate Images(s: State)
    requires Shape(s)
  {
    forall h :: h in s.reqs ==>
      && h < NUM && (s.reqs[h].phase.Used? ==> s.status[h] == s.reqs[h].st) && (s.reqs[h].phase.Done? ==> s.reqs[h].st == 0)
      && s.reqs[h].b < |s.data| && s.data[s.reqs[h].b] == s.reqs[h].image
  }

  ghost predicate Inv(s: State) {
    Shape(s) && Chains(s) && Partition(s) && Bufs(s) && Queues(s) && Phases(s) && Images(s)
  }

  // ---- 16-bit windows ----

  lemma SlotAdd(i: nat, k: nat)
    requires i < WRAP && k <= NUM
    ensures Slot(Add(i, k)) == (i + k) % NUM
  {
  }

  lemma SlotsDiffer(i: nat, j: nat, k: nat)
    requires i < WRAP && j < k < NUM
    ensures Slot(Add(i, j)) != Slot(Add(i, k))
  {
    SlotAdd(i, j);
    SlotAdd(i, k);
  }

  lemma AddOne(i: nat, k: nat)
    requires i < WRAP && k < NUM
    ensures Add(Bump(i), k) == Add(i, k + 1) == Bump(Add(i, k))
  {
  }

  lemma WindowPush(ring: seq<nat>, lo: nat, hi: nat, q: seq<nat>, x: nat)
    requires |ring| == NUM && lo < WRAP && hi < WRAP && Window(ring, lo, hi, q) && |q| < NUM
    ensures Window(ring[Slot(hi) := x], lo, Bump(hi), q + [x])
  {
    AddOne(lo, |q|);
    forall k | 0 <= k < |q| ensures ring[Slot(hi) := x][Slot(Add(lo, k))] == q[k] { SlotsDiffer(lo, k, |q|); }
  }

  lemma WindowPop(ring: seq<nat>, lo: nat, hi: nat, q: seq<nat>)
    requires |ring| == NUM && lo < WRAP && hi < WRAP && Window(ring, lo, hi, q) && lo != hi
    ensures |q| > 0 && ring[Slot(lo)] == q[0] && Window(ring, Bump(lo), hi, q[1..])
  {
    assert Add(lo, 0) == lo;
    forall k | 0 <= k < |q| - 1 ensures ring[Slot(Add(Bump(lo), k))] == q[1..][k] { AddOne(lo, k); }
    AddOne(lo, |q| - 1);
  }

  /** The driver's test of the two 16-bit indices tells exactly whether entries wait. */
  lemma WindowEmpty(ring: seq<nat>, lo: nat, hi: nat, q: seq<nat>)
    requires |ring| == NUM && lo < WRAP && hi < WRAP && Window(ring, lo, hi, q)
    ensures lo == hi <==> q == []
  {
  }

  // ---- at most two requests are in flight ----

  lemma TwoOfThree(s: State, a: nat, b: nat, c: nat)
    requires Shape(s) && Chains(s) && a in s.reqs && b in s.reqs && c in s.reqs
    ensures a == b || a == c || b == c
  {
    assert Chained(s, a) && Chained(s, b) && Chained(s, c);
    if a != b && a != c && b != c {
      var nine := [a, s.reqs[a].i1, s.reqs[a].i2, b, s.reqs[b].i1, s.reqs[b].i2, c, s.reqs[c].i1, s.reqs[c].i2];
      OwnersTell(nine, s.owner, a, b, c);
      Pigeonhole(nine, NUM);
    }
  }

  lemma OwnersTell(q: seq<nat>, owner: seq<nat>, a: nat, b: nat, c: nat)
    requires |q| == 9 && a != b && a != c && b != c && |owner| == NUM
    requires forall i :: 0 <= i < 9 ==> q[i] < NUM && owner[q[i]] == (if i < 3 then a else if i < 6 then b else c)
    requires q[0] != q[1] && q[0] != q[2] && q[1] != q[2] && q[3] != q[4] && q[3] != q[5] && q[4] != q[5]
    requires q[6] != q[7] && q[6] != q[8] && q[7] != q[8]
    ensures NoRepeats(q)
  {
  }

  lemma FewWaiting(s: State, q: seq<nat>)
    requires Shape(s) && Chains(s) && NoRepeats(q) && forall i :: 0 <= i < |q| ==> q[i] in s.reqs
    ensures |q| <= 2
  {
    if |q| > 2 { TwoOfThree(s, q[0], q[1], q[2]); }
  }

  lemma FreeIsNoHead(s: State, i: nat)
    requires Shape(s) && Chains(s) && Partition(s) && i < NUM && s.free[i]
    ensures i !in s.reqs
  {
    if i in s.reqs { ChainAt(s, i); }
  }

  predicate SameLayout(r: Req, q: Req) { r.(phase := q.phase, image := q.image, st := q.st) == q }

  /** Nothing moves but phases and images. */
  predicate OnlyPhases(s: State, t: State) {
    && t.desc == s.desc && t.ops == s.ops && t.owner == s.owner && t.free == s.free && t.info == s.info
    && t.reqs.Keys == s.reqs.Keys && forall h :: h in s.reqs ==> SameLayout(s.reqs[h], t.reqs[h])
  }

  lemma LayoutKept(s: State, t: State)
    requires Shape(s) && Shape(t) && OnlyPhases(s, t)
    ensures Chains(s) ==> Chains(t)
    ensures Partition(s) ==> Partition(t)
  {
    if Chains(s) {
      forall h | h in t.reqs ensures Chained(t, h) { assert Chained(s, h); }
    }
  }

  // ---- Submit ----

  lemma SubmitChains(s: State, a: Step)
    requires Shape(s) && a.Submit? && Enabled(s, a) && Chains(s) && Partition(s)
    ensures Shape(Next(s, a)) && Chains(Next(s, a))
  {
    hide Partition;
    FreeIsNoHead(s, a.i0);
    forall h | h in s.reqs ensures Chained(Next(s, a), h) { SubmitKeepsChain(s, a, h); }
  }

  lemma SubmitKeepsChain(s: State, a: Step, h: nat)
    requires Shape(s) && a.Submit? && Enabled(s, a) && Chains(s) && Partition(s) && h in s.reqs && a.i0 !in s.reqs
    ensures Shape(Next(s, a)) && h in Next(s, a).reqs && Chained(Next(s, a), h)
  {
    hide Chains;
    assert Chained(s, h) by { ChainAt(s, h); }
  }

  lemma ChainAt(s: State, h: nat)
    requires Shape(s) && Chains(s) && h in s.reqs
    ensures Chained(s, h)
  {
  }

  lemma SubmitPartition(s: State, a: Step)
    requires Shape(s) && a.Submit? && Enabled(s, a) && Chains(s) && Partition(s)
    ensures Shape(Next(s, a)) && Partition(Next(s, a))
  {
  }

  lemma SubmitBufs(s: State, a: Step)
    requires Shape(s) && a.Submit? && Enabled(s, a) && Chains(s) && Partition(s) && Bufs(s)
    ensures Shape(Next(s, a)) && Bufs(Next(s, a))
  {
    hide Chains, Partition;
    FreeIsNoHead(s, a.i0);
  }

  lemma SubmitQueues(s: State, a: Step)
    requires Shape(s) && a.Submit? && Enabled(s, a) && Chains(s) && Queues(s) && Phases(s)
    ensures Shape(Next(s, a)) && Queues(Next(s, a))
  {
    FewWaiting(s, s.pend);
    WindowPush(s.ring, s.devIdx, s.availIdx, s.pend, a.i0);
  }

  lemma SubmitPhases(s: State, a: Step)
    requires Shape(s) && a.Submit? && Enabled(s, a) && Chains(s) && Partition(s) && Phases(s)
    ensures Shape(Next(s, a)) && Phases(Next(s, a))
  {
    FreeIsNoHead(s, a.i0);
  }

  lemma SubmitImages(s: State, a: Step)
    requires Shape(s) && a.Submit? && Enabled(s, a) && Chains(s) && Partition(s) && Bufs(s) && Images(s)
    ensures Shape(Next(s, a)) && Images(Next(s, a))
  {
  }

  // ---- Fetch ----

  lemma FetchChains(s: State, a: Step)
    requires Shape(s) && a.Fetch? && Enabled(s, a) && Chains(s)
    ensures Shape(Next(s, a)) && Chains(Next(s, a))
  {
    hide Chains, Partition;
    assert OnlyPhases(s, Next(s, a));
    LayoutKept(s, Next(s, a));
  }

  lemma FetchPartition(s: State, a: Step)
    requires Shape(s) && a.Fetch? && Enabled(s, a) && Partition(s)
    ensures Shape(Next(s, a)) && Partition(Next(s, a))
  {
    hide Chains, Partition;
    assert OnlyPhases(s, Next(s, a));
    LayoutKept(s, Next(s, a));
  }

  lemma FetchBufs(s: State, a: Step)
    requires Shape(s) && a.Fetch? && Enabled(s, a) && Queues(s) && Phases(s) && Bufs(s)
    ensures Shape(Next(s, a)) && Bufs(Next(s, a))
  {
    WindowPop(s.ring, s.devIdx, s.availIdx, s.pend);
  }

  lemma FetchQueues(s: State, a: Step)
    requires Shape(s) && a.Fetch? && Enabled(s, a) && Queues(s)
    ensures Shape(Next(s, a)) && Queues(Next(s, a))
  {
    WindowPop(s.ring, s.devIdx, s.availIdx, s.pend);
  }

  lemma FetchPhases(s: State, a: Step)
    requires Shape(s) && a.Fetch? && Enabled(s, a) && Queues(s) && Phases(s)
    ensures Shape(Next(s, a)) && Phases(Next(s, a))
  {
    WindowPop(s.ring, s.devIdx, s.availIdx, s.pend);
  }

  lemma FetchImages(s: State, a: Step)
    requires Shape(s) && a.Fetch? && Enabled(s, a) && Images(s)
    ensures Shape(Next(s, a)) && Images(Next(s, a))
  {
  }

  // ---- Complete ----

  /** The device's reading of the chain is the request that was submitted. */
  lemma DeviceSeesRequest(s: State, h: nat, st: int, junk: Image)
    requires Shape(s) && h in s.reqs && Chained(s, h) && s.reqs[h].b < |s.data|
    ensures var t := Completed(s, h, st, junk); var r := s.reqs[h];
            && (r.out ==> t.disk == Stored(s.disk, r.sector, if st == 0 then s.data[r.b] else junk) && t.data == s.data)
            && (!r.out ==> t.data == s.data[r.b := if st == 0 then Loaded(s.disk, r.sector) else junk] && t.disk == s.disk)
            && t == s.(disk := t.disk, data := t.data, status := s.status[h := st],
                       used := s.used[Slot(s.usedIdx) := h], usedIdx := Bump(s.usedIdx),
                       reqs := s.reqs[h := r.(phase := Used, image := t.data[r.b], st := st)], done := s.done + [h])
  {
  }

  lemma CompleteChains(s: State, a: Step)
    requires Shape(s) && a.Complete? && Enabled(s, a) && Chained(s, a.h) && s.reqs[a.h].b < |s.data| && Chains(s)
    ensures Shape(Next(s, a)) && Chains(Next(s, a))
  {
    hide Completed, Chains, Partition;
    DeviceSeesRequest(s, a.h, a.st, a.junk);
    assert OnlyPhases(s, Next(s, a));
    LayoutKept(s, Next(s, a));
  }

  lemma CompletePartition(s: State, a: Step)
    requires Shape(s) && a.Complete? && Enabled(s, a) && Chained(s, a.h) && s.reqs[a.h].b < |s.data| && Partition(s)
    ensures Shape(Next(s, a)) && Partition(Next(s, a))
  {
    hide Completed, Chains, Partition;
    DeviceSeesRequest(s, a.h, a.st, a.junk);
    assert OnlyPhases(s, Next(s, a));
    LayoutKept(s, Next(s, a));
  }

  lemma CompleteBufs(s: State, a: Step)
    requires Shape(s) && a.Complete? && Enabled(s, a) && Chained(s, a.h) && s.reqs[a.h].b < |s.data| && Bufs(s)
    ensures Shape(Next(s, a)) && Bufs(Next(s, a))
  {
    hide Completed, Chained;
    DeviceSeesRequest(s, a.h, a.st, a.junk);
  }

  lemma CompleteQueues(s: State, a: Step)
    requires Shape(s) && a.Complete? && Enabled(s, a) && Chained(s, a.h) && s.reqs[a.h].b < |s.data| && Chains(s) && Queues(s) && Phases(s)
    ensures Shape(Next(s, a)) && Queues(Next(s, a))
  {
    hide Completed;
    DeviceSeesRequest(s, a.h, a.st, a.junk);
    FewWaiting(s, s.done);
    WindowPush(s.used, s.seen, s.usedIdx, s.done, a.h);
  }

  lemma CompletePhases(s: State, a: Step)
    requires Shape(s) && a.Complete? && Enabled(s, a) && Chained(s, a.h) && s.reqs[a.h].b < |s.data| && Phases(s)
    ensures Shape(Next(s, a)) && Phases(Next(s, a))
  {
    hide Completed, Chained;
    DeviceSeesRequest(s, a.h, a.st, a.junk);
  }

  lemma CompleteImages(s: State, a: Step)
    requires Shape(s) && a.Complete? && Enabled(s, a) && Chained(s, a.h) && s.reqs[a.h].b < |s.data| && Bufs(s) && Images(s)
    ensures Shape(Next(s, a)) && Images(Next(s, a))
  {
    hide Completed, Chained;
    DeviceSeesRequest(s, a.h, a.st, a.junk);
  }

  // ---- Interrupt ----

  lemma InterruptChains(s: State, a: Step)
    requires Shape(s) && a.Interrupt? && Enabled(s, a) && Chains(s)
    ensures Shape(Next(s, a)) && Chains(Next(s, a))
  {
    hide Chains, Partition;
    assert OnlyPhases(s, Next(s, a));
    LayoutKept(s, Next(s, a));
  }

  lemma InterruptPartition(s: State, a: Step)
    requires Shape(s) && a.Interrupt? && Enabled(s, a) && Partition(s)
    ensures Shape(Next(s, a)) && Partition(Next(s, a))
  {
    hide Chains, Partition;
    assert OnlyPhases(s, Next(s, a));
    LayoutKept(s, Next(s, a));
  }

  lemma InterruptBufs(s: State, a: Step)
    requires Shape(s) && a.Interrupt? && Enabled(s, a) && Queues(s) && Phases(s) && Bufs(s)
    ensures Shape(Next(s, a)) && Bufs(Next(s, a))
  {
    WindowPop(s.used, s.seen, s.usedIdx, s.done);
  }

  lemma InterruptQueues(s: State, a: Step)
    requires Shape(s) && a.Interrupt? && Enabled(s, a) && Queues(s)
    ensures Shape(Next(s, a)) && Queues(Next(s, a))
  {
    WindowPop(s.used, s.seen, s.usedIdx, s.done);
  }

  lemma InterruptPhases(s: State, a: Step)
    requires Shape(s) && a.Interrupt? && Enabled(s, a) && Queues(s) && Phases(s)
    ensures Shape(Next(s, a)) && Phases(Next(s, a))
  {
    WindowPop(s.used, s.seen, s.usedIdx, s.done);
  }

  lemma InterruptImages(s: State, a: Step)
    requires Shape(s) && a.Interrupt? && Enabled(s, a) && Queues(s) && Phases(s) && Images(s)
    ensures Shape(Next(s, a)) && Images(Next(s, a))
  {
    hide Window, NoRepeats;
    WindowPop(s.used, s.seen, s.usedIdx, s.done);
    assert s.done[0] in s.done;
  }

  // ---- Finish ----

  lemma FinishChains(s: State, a: Step)
    requires Shape(s) && a.Finish? && Enabled(s, a) && Chains(s) && Partition(s)
    ensures Shape(Next(s, a)) && Chains(Next(s, a))
  {
    hide Partition, Chained;
    forall h | h in Next(s, a).reqs ensures Chained(Next(s, a), h) { FinishKeepsChain(s, a, h); }
  }

  lemma FinishKeepsChain(s: State, a: Step, h: nat)
    requires Shape(s) && a.Finish? && Enabled(s, a) && Chains(s) && h in s.reqs && h != a.h
    ensures Shape(Next(s, a)) && h in Next(s, a).reqs && Chained(Next(s, a), h)
  {
    hide Chains;
    assert Chained(s, h) && Chained(s, a.h) by { ChainAt(s, h); ChainAt(s, a.h); }
  }

  lemma FinishPartition(s: State, a: Step)
    requires Shape(s) && a.Finish? && Enabled(s, a) && Chains(s) && Partition(s)
    ensures Shape(Next(s, a)) && Partition(Next(s, a))
  {
    hide Chains, Chained, Next;
    FinishTables(s, a);
    ChainAt(s, a.h);
    ChainOwners(s, a.h);
  }

  lemma ChainOwners(s: State, h: nat)
    requires Shape(s) && h in s.reqs && Chained(s, h)
    ensures s.reqs[h].i1 < NUM && s.reqs[h].i2 < NUM && h < NUM
    ensures s.owner[h] == s.owner[s.reqs[h].i1] == s.owner[s.reqs[h].i2] == h
  {
  }

  lemma FinishTables(s: State, a: Step)
    requires Shape(s) && a.Finish? && Enabled(s, a)
    ensures var t := Next(s, a); var r := s.reqs[a.h];
            && Shape(t) && t.reqs == s.reqs - {a.h}
            && (forall i :: 0 <= i < NUM ==>
                  if i == a.h || i == r.i1 || i == r.i2 then t.free[i] && t.owner[i] == NUM && t.desc[i] == UNUSED
                  else t.free[i] == s.free[i] && t.owner[i] == s.owner[i] && t.desc[i] == s.desc[i])
  {
  }

  lemma FinishBufs(s: State, a: Step)
    requires Shape(s) && a.Finish? && Enabled(s, a) && Bufs(s)
    ensures Shape(Next(s, a)) && Bufs(Next(s, a))
  {
  }

  lemma FinishQueues(s: State, a: Step)
    requires Shape(s) && a.Finish? && Enabled(s, a) && Queues(s)
    ensures Shape(Next(s, a)) && Queues(Next(s, a))
  {
  }

  lemma FinishPhases(s: State, a: Step)
    requires Shape(s) && a.Finish? && Enabled(s, a) && Bufs(s) && Phases(s)
    ensures Shape(Next(s, a)) && Phases(Next(s, a))
  {
  }

  lemma FinishImages(s: State, a: Step)
    requires Shape(s) && a.Finish? && Enabled(s, a) && Images(s)
    ensures Shape(Next(s, a)) && Images(Next(s, a))
  {
  }

  // ---- every step, every run ----

  lemma StepKeeps(s: State, a: Step)
    requires Inv(s) && Enabled(s, a)
    ensures Inv(Next(s, a))
  {
    hide Chains, Partition, Bufs, Queues, Phases, Images, Next;
    match a
    case Submit(_, _, _, _, _, _) =>
      SubmitChains(s, a); SubmitPartition(s, a); SubmitBufs(s, a); SubmitQueues(s, a); SubmitPhases(s, a); SubmitImages(s, a);
    case Fetch =>
      FetchChains(s, a); FetchPartition(s, a); FetchBufs(s, a); FetchQueues(s, a); FetchPhases(s, a); FetchImages(s, a);
    case Complete(h, _, _) =>
      ChainAt(s, h);
      BufAt(s, h);
      CompleteChains(s, a); CompletePartition(s, a); CompleteBufs(s, a);
      CompleteQueues(s, a); CompletePhases(s, a); CompleteImages(s, a);
    case Interrupt =>
      InterruptChains(s, a); InterruptPartition(s, a); InterruptBufs(s, a);
      InterruptQueues(s, a); InterruptPhases(s, a); InterruptImages(s, a);
    case Finish(_) =>
      FinishChains(s, a); FinishPartition(s, a); FinishBufs(s, a); FinishQueues(s, a); FinishPhases(s, a); FinishImages(s, a);
  }

  lemma BufAt(s: State, h: nat)
    requires Shape(s) && Bufs(s) && h in s.reqs
    ensures s.reqs[h].b < |s.data|
  {
  }

  /** After virtio_disk_init: everything free, both rings empty. */
  predicate Init(s: State) {
    && Shape(s) && s.reqs == map[] && s.pend == [] && s.done == []
    && s.availIdx == s.devIdx && s.usedIdx == s.seen
    && (forall i :: 0 <= i < NUM ==> s.free[i] && s.owner[i] == NUM && s.desc[i] == UNUSED)
  }

  predicate Run(states: seq<State>, steps: seq<Step>) {
    && |states| == |steps| + 1 && Init(states[0])
    && (forall i :: 0 <= i < |steps| ==> Shape(states[i]) && Enabled(states[i], steps[i]) && states[i + 1] == Next(states[i], steps[i]))
  }

  lemma {:induction false} RunInv(states: seq<State>, steps: seq<Step>, i: nat)
    requires Run(states, steps) && i < |states|
    ensures Inv(states[i])
  {
    hide Next;
    if i > 0 {
      RunInv(states, steps, i - 1);
      StepKeeps(states[i - 1], steps[i - 1]);
    }
  }

  /** At most two requests are in flight, and a new entry of the available ring overwrites none that the device has yet to fetch. */
  lemma RoomInRings(states: seq<State>, steps: seq<Step>, i: nat, h: nat, g: nat, f: nat, k: nat)
    requires Run(states, steps) && i < |states|
    ensures var s := states[i]; h in s.reqs && g in s.reqs && f in s.reqs ==> h == g || h == f || g == f
    ensures var s := states[i]; Shape(s) && (k < |s.pend| ==> k < NUM && Slot(Add(s.devIdx, k)) != Slot(s.availIdx))
  {
    hide Next, Run, Chained, Partition, Bufs, Images;
    RunInv(states, steps, i);
    var s := states[i];
    if h in s.reqs && g in s.reqs && f in s.reqs { TwoOfThree(s, h, g, f); }
    FewWaiting(s, s.pend);
    if k < |s.pend| { SlotsDiffer(s.devIdx, k, |s.pend|); }
  }

  /** The interrupt handler finds a request in flight and the buffer that waits for it, and panics
      exactly when the device reported an error for that request. */
  lemma InterruptIsOwn(states: seq<State>, steps: seq<Step>, i: nat)
    requires Run(states, steps) && i < |states| && Shape(states[i]) && states[i].seen != states[i].usedIdx
    ensures var s := states[i]; var h := s.used[Slot(s.seen)];
            && h in s.reqs && s.reqs[h].phase.Used? && s.info[h] == s.reqs[h].b < |s.busy| && s.busy[s.reqs[h].b]
            && (StatusPanic(s) <==> s.reqs[h].st != 0)
  {
    hide Next, Run, Chained, Partition;
    RunInv(states, steps, i);
    var s := states[i];
    WindowPop(s.used, s.seen, s.usedIdx, s.done);
    assert s.done[0] in s.done;
  }

  /** The device completes r, at device until then, with status a.st. */
  predicate Transfers(s: State, a: Step, t: State, r: Req, done: Req) {
    && a.Complete? && done == r.(phase := Used, image := done.image, st := a.st) && r.phase.AtDevice?
    && (a.st == 0 ==>
          if r.out then Loaded(t.disk, r.sector) == r.image == done.image else done.image == Loaded(s.disk, r.sector))
  }

  predicate Over(s: State, h: nat) { h in s.reqs && (s.reqs[h].phase.Used? || s.reqs[h].phase.Done?) }

  lemma LaterUnchanged(s: State, a: Step, h: nat)
    requires Inv(s) && Enabled(s, a) && Over(s, h) && Over(Next(s, a), h)
    ensures Next(s, a).reqs[h] == s.reqs[h].(phase := Next(s, a).reqs[h].phase) && a != Finish(h)
  {
    hide Chained, Bufs, Queues, Phases, Images, Transferred;
    if a.Submit? { FreeIsNoHead(s, a.i0); }
  }

  lemma BecomesUsed(s: State, a: Step, h: nat)
    requires Inv(s) && Enabled(s, a) && !Over(s, h) && Over(Next(s, a), h)
    ensures a.Complete? && a.h == h && h in s.reqs && Transfers(s, a, Next(s, a), s.reqs[h], Next(s, a).reqs[h])
  {
    hide Chains, Partition, Queues, Phases, Completed;
    if a.Complete? {
      ChainAt(s, a.h);
      DeviceSeesRequest(s, a.h, a.st, a.junk);
    } else if a.Interrupt? {
      InterruptedWasUsed(s);
    }
  }

  lemma InterruptedWasUsed(s: State)
    requires Inv(s) && s.seen != s.usedIdx
    ensures Over(s, s.used[Slot(s.seen)])
  {
    hide Chained, Partition, Bufs, Images;
    WindowPop(s.used, s.seen, s.usedIdx, s.done);
    assert s.done[0] in s.done;
  }

  /** A request that has reached the used ring or beyond was completed by the device, for that very
      buffer and sector, and has not been finished and replaced since. */
  lemma {:induction false} CompletedBefore(states: seq<State>, steps: seq<Step>, i: nat, h: nat) returns (j: nat)
    requires Run(states, steps) && i < |states| && Over(states[i], h)
    ensures j < i && steps[j].Complete? && steps[j].h == h && h in states[j].reqs && h in states[j + 1].reqs
    ensures Transfers(states[j], steps[j], states[j + 1], states[j].reqs[h], states[j + 1].reqs[h])
    ensures states[i].reqs[h] == states[j + 1].reqs[h].(phase := states[i].reqs[h].phase)
    ensures forall m :: j < m < i ==> steps[m] != Finish(h)
  {
    hide Chains, Partition, Bufs, Queues, Phases, Images, Next, Transfers;
    if i == 0 { assert false; }
    var s, a := states[i - 1], steps[i - 1];
    RunInv(states, steps, i - 1);
    if Over(s, h) {
      j := CompletedBefore(states, steps, i - 1, h);
      LaterUnchanged(s, a, h);
    } else {
      j := i - 1;
      BecomesUsed(s, a, h);
    }
  }

  lemma RequestStays(s: State, a: Step, h: nat)
    requires Inv(s) && Enabled(s, a) && h in s.reqs && h in Next(s, a).reqs
    ensures a != Finish(h) && SameLayout(s.reqs[h], Next(s, a).reqs[h])
    ensures !Over(Next(s, a), h) ==> !Over(s, h) && Next(s, a).reqs[h].image == s.reqs[h].image
  {
    hide Chained, Bufs, Images, Transferred, Window;
    if a.Submit? { FreeIsNoHead(s, a.i0); }
    if a.Fetch? { FetchedWasQueued(s); }
  }

  lemma FetchedWasQueued(s: State)
    requires Inv(s) && s.devIdx != s.availIdx
    ensures var h := s.ring[Slot(s.devIdx)]; h in s.reqs && s.reqs[h].phase.Queued?
  {
    hide Chained, Partition, Bufs, Images;
    WindowPop(s.ring, s.devIdx, s.availIdx, s.pend);
    assert s.pend[0] in s.pend;
  }

  lemma RequestAppears(s: State, a: Step, h: nat)
    requires Inv(s) && Enabled(s, a) && h !in s.reqs && h in Next(s, a).reqs
    ensures a.Submit? && a.i0 == h && a.b < |s.data|
    ensures var r := Next(s, a).reqs[h]; r.b == a.b && r.out == a.out && r.sector == a.sector && r.image == s.data[a.b]
  {
    hide Chained, Bufs, Queues, Phases, Images, Transferred;
  }

  /** The submission of the request in flight under head h: no request of that head was in flight
      before it, none has been finished since, and until the device completes the request its buffer
      holds what it held then. */
  lemma {:induction false} SubmittedBefore(states: seq<State>, steps: seq<Step>, j: nat, h: nat) returns (k: nat)
    requires Run(states, steps) && j < |states| && h in states[j].reqs
    ensures k < j && steps[k].Submit? && steps[k].i0 == h && h !in states[k].reqs && steps[k].b < |states[k].data|
    ensures var r := states[j].reqs[h]; r.b == steps[k].b && r.out == steps[k].out && r.sector == steps[k].sector
    ensures forall m :: k < m < j ==> steps[m] != Finish(h)
    ensures !Over(states[j], h) ==> states[j].reqs[h].image == states[k].data[steps[k].b]
  {
    hide Chains, Partition, Bufs, Queues, Phases, Images, Next;
    if j == 0 { assert false; }
    var s, a := states[j - 1], steps[j - 1];
    RunInv(states, steps, j - 1);
    if h in s.reqs {
      k := SubmittedBefore(states, steps, j - 1, h);
      RequestStays(s, a, h);
    } else {
      k := j - 1;
      RequestAppears(s, a, h);
    }
  }

  /** virtio_disk_rw returns only after the device completed the very request it submitted, at step k,
      and successfully: a read returns what the disk held at the completion j, and a write has put on
      the disk there what the buffer held at k. */
  lemma ReturnsAfterCompletion(states: seq<State>, steps: seq<Step>, i: nat, h: nat) returns (k: nat, j: nat)
    requires Run(states, steps) && i < |steps| && steps[i] == Finish(h)
    ensures k < j < i && steps[k].Submit? && steps[k].i0 == h && steps[j].Complete? && steps[j].h == h && steps[j].st == 0
    ensures forall m :: k < m < i ==> steps[m] != Finish(h)
    ensures h in states[i].reqs && states[i].reqs[h].b == steps[k].b && states[i].reqs[h].sector == steps[k].sector
    ensures steps[k].b < |states[i].data| && steps[k].b < |states[k].data|
    ensures var b, n := steps[k].b, steps[k].sector;
            if steps[k].out then Loaded(states[j + 1].disk, n) == states[k].data[b]
            else states[i].data[b] == Loaded(states[j].disk, n)
  {
    hide Chains, Partition, Queues, Phases, Next;
    RunInv(states, steps, i);
    j := CompletedBefore(states, steps, i, h);
    k := SubmittedBefore(states, steps, j, h);
  }

  // ---- requests reach the device in order ----

  /** The heads handed to the device so far. */
  function Offered(steps: seq<Step>, n: nat): seq<nat>
    requires n <= |steps|
  {
    if n == 0 then [] else Offered(steps, n - 1) + if steps[n - 1].Submit? then [steps[n - 1].i0] else []
  }

  /** The heads the device has read from the available ring so far. */
  function Taken(states: seq<State>, steps: seq<Step>, n: nat): seq<nat>
    requires n <= |steps| < |states|
  {
    if n == 0 then [] else Taken(states, steps, n - 1) + if steps[n - 1].Fetch? then [NextHead(states[n - 1])] else []
  }

  function NextHead(s: State): nat { if |s.ring| == NUM then s.ring[Slot(s.devIdx)] else 0 }

  lemma StepPending(s: State, a: Step)
    requires Inv(s) && Enabled(s, a)
    ensures !a.Fetch? ==> Next(s, a).pend == s.pend + if a.Submit? then [a.i0] else []
    ensures a.Fetch? ==> s.pend == [NextHead(s)] + Next(s, a).pend
    ensures a.Fetch? ==> NextHead(s) in Next(s, a).reqs && Next(s, a).reqs[NextHead(s)].phase.AtDevice?
  {
    hide Chained, Partition, Bufs, Images;
    if a.Fetch? {
      FetchedWasQueued(s);
      WindowPop(s.ring, s.devIdx, s.availIdx, s.pend);
    }
  }

  /** The device reads the requests in the order they were submitted, each once, and what is left is waiting. */
  lemma {:induction false} FetchedInOrder(states: seq<State>, steps: seq<Step>, n: nat)
    requires Run(states, steps) && n <= |steps|
    ensures |steps| < |states| && Offered(steps, n) == Taken(states, steps, n) + states[n].pend
  {
    hide Inv, Next, Enabled, NextHead;
    RunInv(states, steps, n);
    if n > 0 {
      FetchedInOrder(states, steps, n - 1);
      RunInv(states, steps, n - 1);
      StepPending(states[n - 1], steps[n - 1]);
    }
  }
}
