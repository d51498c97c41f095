/** The locked sections of the virtio block driver, over the shared tables. The
    device's private state and the bookkeeping of requests are ghost. */
module VirtioCode {
  import opened Virtio
  import opened Numbers
  import opened Blocks

  /** The interrupt handler's loop, one entry at a time, up to the first whose status is an error. */
  ghost function Drained(s: State): State
    requires Shape(s)
    decreases |s.done|
  {
    if s.done == [] || StatusPanic(s) then s else Drained(Interrupted(s))
  }

  /** b->blockno * (BSIZE / 512), in 32 bits */
  function Sector(blockno: nat): nat { blockno * (BSIZE / SECTOR) % UINT }

  lemma InvFree(s: State)
    requires Inv(s)
    ensures Shape(s) && forall i :: 0 <= i < NUM && s.free[i] ==> s.desc[i] == UNUSED
  {
  }

  lemma WaitingHead(s: State)
    requires Inv(s) && s.seen != s.usedIdx && Shape(s)
    ensures var h := s.used[Slot(s.seen)]; |s.done| > 0 && h in s.reqs && 0 <= s.info[h] < |s.busy|
  {
    hide Chains, Partition, Images;
    WindowPop(s.used, s.seen, s.usedIdx, s.done);
    assert s.done[0] in s.done;
  }

  lemma InterruptOne(s: State)
    requires Inv(s) && s.seen != s.usedIdx && Shape(s) && !StatusPanic(s)
    ensures Inv(Interrupted(s)) && Shape(Interrupted(s)) && |s.done| > 0 && Drained(s) == Drained(Interrupted(s))
    ensures var h := s.used[Slot(s.seen)];
            h < NUM && 0 <= s.info[h] < |s.busy|
            && Interrupted(s) == s.(busy := s.busy[s.info[h] := false], seen := Bump(s.seen),
                                    reqs := Interrupted(s).reqs, done := s.done[1..])
  {
    hide Chains, Partition, Bufs, Queues, Phases, Images;
    StepKeeps(s, Interrupt);
    WaitingHead(s);
  }

  lemma Stopped(s: State)
    requires Shape(s) && StatusPanic(s)
    ensures Drained(s) == s
  {
  }

  lemma NothingLeft(s: State)
    requires Inv(s) && s.seen == s.usedIdx
    ensures Shape(s) && s.done == [] && Drained(s) == s
  {
    WindowEmpty(s.used, s.seen, s.usedIdx, s.done);
  }

  lemma FinishFields(s: State, h: nat)
    requires Inv(s) && Enabled(s, Step.Finish(h))
    ensures Shape(s) && |s.free| == |s.desc| == |s.info| == NUM && h < NUM
    ensures var c := [h, s.reqs[h].i1, s.reqs[h].i2];
            && c[0] != c[1] && c[0] != c[2] && c[1] != c[2]
            && (forall k :: 0 <= k < 3 ==> c[k] < NUM && !s.free[c[k]] && s.desc[c[k]].more == (k < 2))
            && s.desc[c[0]].next == c[1] && s.desc[c[1]].next == c[2]
    ensures var c := [h, s.reqs[h].i1, s.reqs[h].i2]; var t := Next(s, Step.Finish(h));
            t == s.(free := s.free[c[0] := true][c[1] := true][c[2] := true], info := s.info[h := -1],
                    desc := s.desc[c[0] := UNUSED][c[1] := UNUSED][c[2] := UNUSED], reqs := t.reqs, owner := t.owner)
  {
    hide Bufs, Queues, Phases, Images;
    ChainAt(s, h);
  }

  lemma SubmitFields(s: State, a: Step)
    requires Shape(s) && a.Submit? && Enabled(s, a)
    ensures var t := Next(s, a);
            t == s.(desc := s.desc[a.i0 := Desc(Header(a.i0), REQ, true, false, a.i1)][a.i1 := Desc(Data(a.b), BSIZE, true, !a.out, a.i2)]
                                  [a.i2 := Desc(Status(a.i0), 1, false, true, 0)],
                    ops := s.ops[a.i0 := Op(a.out, a.sector)], info := s.info[a.i0 := a.b], status := s.status[a.i0 := 0xff],
                    free := s.free[a.i0 := false][a.i1 := false][a.i2 := false], busy := s.busy[a.b := true],
                    ring := s.ring[Slot(s.availIdx) := a.i0], availIdx := Bump(s.availIdx),
                    reqs := t.reqs, owner := t.owner, pend := t.pend)
  {
  }

  predicate FewerThanThree(free: seq<bool>)
    requires |free| == NUM
  {
    forall i, j, k :: 0 <= i < j < k < NUM ==> !(free[i] && free[j] && free[k])
  }

  lemma NotThree(free: seq<bool>, idx: seq<nat>)
    requires |free| == NUM && |idx| < 3 && forall m :: 0 <= m < NUM && free[m] ==> m in idx
    ensures FewerThanThree(free)
  {
  }

  lemma Marked(was: seq<bool>, free: seq<bool>, idx: seq<nat>)
    requires |free| == |was| == NUM && |idx| == 3 && idx[0] < idx[1] < idx[2] < NUM
    requires forall m :: 0 <= m < NUM ==> free[m] == (was[m] && m !in idx)
    ensures free == was[idx[0] := false][idx[1] := false][idx[2] := false]
  {
  }

  class Driver {
    var free: seq<bool>
    var desc: seq<Desc>
    var ops: seq<Op>
    var info: seq<int>           // info[i].b; -1 for none
    var status: seq<int>
    var ring: seq<nat>
    var availIdx: nat
    var used: seq<nat>
    var usedIdx: nat
    var seen: nat
    var busy: seq<bool>          // b->disk
    ghost var data: seq<Image>
    ghost var disk: map<nat, int>
    ghost var devIdx: nat
    ghost var reqs: map<nat, Req>
    ghost var owner: seq<nat>
    ghost var pend: seq<nat>
    ghost var done: seq<nat>

    ghost function View(): State
      reads this
    {
      State(free, desc, ops, info, status, ring, availIdx, used, usedIdx, seen, devIdx, busy, data, disk, reqs, owner, pend, done)
    }

    /** The lowest free descriptor, now taken. */
    method AllocDesc() returns (i: int)
      requires |free| == NUM
      modifies this`free
      ensures -1 <= i < NUM
      ensures i == -1 ==> free == old(free) && forall j :: 0 <= j < NUM ==> !free[j]
      ensures i >= 0 ==> old(free)[i] && free == old(free)[i := false] && forall j :: 0 <= j < i ==> !old(free)[j]
    {
      for k := 0 to NUM
        invariant free == old(free)
        invariant forall j :: 0 <= j < k ==> !free[j]
      {
        if free[k] {
          free := free[k := false];
          return k;
        }
      }
      return -1;
    }

    /** Marks a descriptor in use free, and panics on any other. */
    method FreeDesc(i: nat) returns (panic: bool)
      requires |free| == |desc| == NUM
      modifies this`free, this`desc
      ensures panic == (i >= NUM || old(free)[i])
      ensures panic ==> free == old(free) && desc == old(desc)
      ensures !panic ==> free == old(free)[i := true] && desc == old(desc)[i := UNUSED]
    {
      if i >= NUM || free[i] { return true; }
      desc := desc[i := UNUSED];
      free := free[i := true];
      panic := false;
    }

    /** Three descriptors or none. */
    method Alloc3Desc() returns (ok: bool, idx: seq<nat>)
      requires |free| == |desc| == NUM && forall i :: 0 <= i < NUM && free[i] ==> desc[i] == UNUSED
      modifies this`free, this`desc
      ensures desc == old(desc)
      ensures ok ==> |idx| == 3 && idx[0] < idx[1] < idx[2] < NUM && old(free)[idx[0]] && old(free)[idx[1]] && old(free)[idx[2]]
      ensures ok ==> free == old(free)[idx[0] := false][idx[1] := false][idx[2] := false]
      ensures !ok ==> free == old(free)
      ensures !ok ==> FewerThanThree(free)
    {
      hide FewerThanThree;
      idx := [];
      for i := 0 to 3
        invariant |idx| == i && |free| == NUM && desc == old(desc)
        invariant forall j :: 0 <= j < i ==> idx[j] < NUM && old(free)[idx[j]]
        invariant forall j, k :: 0 <= j < k < i ==> idx[j] < idx[k]
        invariant forall m :: 0 <= m < NUM ==> free[m] == (old(free)[m] && m !in idx)
        invariant forall m, j :: 0 <= j < i && 0 <= m < idx[j] ==> !free[m]
      {
        var d := AllocDesc();
        if d < 0 {
          NotThree(old(free), idx);
          Undo(idx, old(free));
          return false, [];
        }
        idx := idx + [d];
      }
      Marked(old(free), free, idx);
      ok := true;
    }

    /** Give back the descriptors taken before the allocation failed. */
    method Undo(idx: seq<nat>, ghost was: seq<bool>)
      requires |free| == |desc| == |was| == NUM && |idx| < 3 && forall j :: 0 <= j < |idx| ==> idx[j] < NUM && was[idx[j]] && desc[idx[j]] == UNUSED
      requires forall j, k :: 0 <= j < k < |idx| ==> idx[j] != idx[k]
      requires forall m :: 0 <= m < NUM ==> free[m] == (was[m] && m !in idx)
      modifies this`free, this`desc
      ensures free == was && desc == old(desc)
    {
      for j := 0 to |idx|
        invariant |free| == NUM && desc == old(desc)
        invariant forall m :: 0 <= m < NUM ==> free[m] == (was[m] && m !in idx[j..])
      {
        var panic := FreeDesc(idx[j]);
        assert !panic;
      }
    }

    /** Follow the chain from i, freeing each descriptor of it. */
    method FreeChain(h: nat, ghost c: seq<nat>)
      requires |free| == |desc| == NUM && |c| == 3 && c[0] == h && c[0] != c[1] && c[0] != c[2] && c[1] != c[2]
      requires forall k :: 0 <= k < 3 ==> c[k] < NUM && !free[c[k]] && desc[c[k]].more == (k < 2)
      requires desc[c[0]].next == c[1] && desc[c[1]].next == c[2]
      modifies this`free, this`desc
      ensures free == old(free)[c[0] := true][c[1] := true][c[2] := true]
      ensures desc == old(desc)[c[0] := UNUSED][c[1] := UNUSED][c[2] := UNUSED]
    {
      var i := h;
      ghost var k := 0;
      while true
        invariant 0 <= k < 3 && i == c[k] && |free| == |desc| == NUM
        invariant forall m :: 0 <= m < NUM ==> free[m] == (old(free)[m] || m in c[..k])
        invariant forall m :: 0 <= m < NUM ==> desc[m] == if m in c[..k] then UNUSED else old(desc)[m]
        decreases 3 - k
      {
        var flag := desc[i].more;
        var nxt := desc[i].next;
        assert i !in c[..k];
        var panic := FreeDesc(i);
        assert !panic;
        assert c[..k + 1] == c[..k] + [i];
        if flag { i := nxt; } else { break; }
        k := k + 1;
      }
      assert k == 2 && c[..3] == c;
      assert free == old(free)[c[0] := true][c[1] := true][c[2] := true];
      assert desc == old(desc)[c[0] := UNUSED][c[1] := UNUSED][c[2] := UNUSED];
    }

    /** virtio_disk_rw up to its wait: false when it has to sleep for descriptors. */
    method Submit(b: nat, out: bool, blockno: nat) returns (ok: bool, idx: seq<nat>)
      requires Inv(View()) && b < |busy| && blockno < 0x1_0000_0000 && forall h :: h in reqs ==> reqs[h].b != b
      modifies this
      ensures Inv(View())
      ensures !ok ==> View() == old(View()) && FewerThanThree(free)
      ensures ok ==> |idx| == 3 && Enabled(old(View()), Step.Submit(b, out, Sector(blockno), idx[0], idx[1], idx[2]))
      ensures ok ==> View() == Next(old(View()), Step.Submit(b, out, Sector(blockno), idx[0], idx[1], idx[2]))
    {
      hide Inv, Next, Slot, Sector;
      ghost var s := View();
      InvFree(s);
      var sector := Sector(blockno);
      ok, idx := Alloc3Desc();
      if !ok {
        assert View() == s;
        return;
      }
      Publish(b, out, sector, idx, s);
    }

    /** Format the request and hand its head to the device. */
    method Publish(b: nat, out: bool, sector: nat, idx: seq<nat>, ghost s: State)
      requires Inv(s) && Shape(s) && |idx| == 3 && idx[0] < idx[1] < idx[2] < NUM
      requires Enabled(s, Step.Submit(b, out, sector, idx[0], idx[1], idx[2]))
      requires View() == s.(free := s.free[idx[0] := false][idx[1] := false][idx[2] := false])
      modifies this
      ensures Inv(View()) && View() == Next(s, Step.Submit(b, out, sector, idx[0], idx[1], idx[2]))
    {
      hide Inv, Next, Slot;
      ghost var a := Step.Submit(b, out, sector, idx[0], idx[1], idx[2]);
      SubmitFields(s, a);
      StepKeeps(s, a);
      Format(b, out, sector, idx);
      ring := ring[Slot(availIdx) := idx[0]];
      availIdx := (availIdx + 1) % WRAP;
      reqs, owner, pend := Next(s, a).reqs, Next(s, a).owner, Next(s, a).pend;
    }

    /** Fill in the three descriptors, the request header and the bookkeeping. */
    method Format(b: nat, out: bool, sector: nat, idx: seq<nat>)
      requires |desc| == |ops| == |info| == |status| == NUM && b < |busy| && |idx| == 3 && idx[0] < idx[1] < idx[2] < NUM
      modifies this`desc, this`ops, this`info, this`status, this`busy
      ensures desc == old(desc)[idx[0] := Desc(Header(idx[0]), REQ, true, false, idx[1])][idx[1] := Desc(Data(b), BSIZE, true, !out, idx[2])]
                               [idx[2] := Desc(Status(idx[0]), 1, false, true, 0)]
      ensures ops == old(ops)[idx[0] := Op(out, sector)] && info == old(info)[idx[0] := b]
      ensures status == old(status)[idx[0] := 0xff] && busy == old(busy)[b := true]
    {
      ops := ops[idx[0] := Op(out, sector)];
      desc := desc[idx[0] := Desc(Header(idx[0]), REQ, true, false, idx[1])];
      desc := desc[idx[1] := Desc(Data(b), BSIZE, true, !out, idx[2])];
      status := status[idx[0] := 0xff];
      desc := desc[idx[2] := Desc(Status(idx[0]), 1, false, true, 0)];
      busy := busy[b := true];
      info := info[idx[0] := b];
    }

    /** virtio_disk_rw after its wait. */
    method Finish(h: nat)
      requires Inv(View()) && Enabled(View(), Step.Finish(h))
      modifies this
      ensures Inv(View()) && View() == Next(old(View()), Step.Finish(h))
    {
      hide Inv, Next, Shape;
      ghost var s := View();
      FinishFields(s, h);
      StepKeeps(s, Step.Finish(h));
      info := info[h := -1];
      FreeChain(h, [h, reqs[h].i1, reqs[h].i2]);
      reqs, owner := Next(s, Step.Finish(h)).reqs, Next(s, Step.Finish(h)).owner;
    }

    /** virtio_disk_intr: handles the waiting entries in order; panics exactly at the first one for
        which the device reported an error, and otherwise leaves none. */
    method Intr() returns (panic: bool)
      requires Inv(View())
      modifies this
      ensures Inv(View()) && View() == Drained(old(View()))
      ensures panic == StatusPanic(View()) && (!panic ==> done == [])
    {
      hide Inv, Drained, Interrupted;
      InvFree(View());
      while seen != usedIdx
        invariant Inv(View()) && Shape(View()) && Drained(View()) == Drained(old(View()))
        decreases |done|
      {
        ghost var s := View();
        var id := used[Slot(seen)];
        if status[id] != 0 {
          Stopped(s);
          return true;
        }
        Complete(id);
      }
      NothingLeft(View());
      panic := false;
    }

    /** One completed request: its buffer is the caller's again. */
    method Complete(id: nat)
      requires Inv(View()) && Shape(View()) && seen != usedIdx && id == used[Slot(seen)] && id < NUM && status[id] == 0
      modifies this`busy, this`seen, this`reqs, this`done
      ensures Inv(View()) && Shape(View()) && Drained(View()) == old(Drained(View())) && |done| < |old(done)|
    {
      hide Inv, Drained, Interrupted;
      ghost var s := View();
      InterruptOne(s);
      var b := info[id];
      busy := busy[b := false];
      seen := (seen + 1) % WRAP;
      reqs, done := Interrupted(s).reqs, Interrupted(s).done;
      assert View() == Interrupted(s);
    }
  }
}
