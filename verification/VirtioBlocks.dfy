/** The disk the driver shows its callers: blocks, each where its number says,
    against the sectors the device moves, over whole runs of Virtio. */
module VirtioBlocks {
  import opened Virtio
  import opened VirtioCode
  import opened Blocks

  /** As many blocks as 32-bit sector arithmetic can tell apart. */
  const REACH := UINT * SECTOR / BSIZE

  // ---- sector numbers ----

  /** A block starts at its byte offset on the disk exactly when the 32-bit product does not wrap. */
  lemma SectorIsOffset(b: nat)
    requires b < UINT
    ensures Sector(b) * SECTOR == b * BSIZE <==> b < REACH
  {
  }

  /** The sectors of a request for block b. */
  function Covered(b: nat): set<nat> { {Sector(b), Sector(b) + 1} }

  /** Requests for two block numbers touch no common sector, unless the numbers are the same or wrap to the same. */
  lemma SectorsApart(b: nat, c: nat)
    requires b < UINT && c < UINT
    ensures Covered(b) !! Covered(c) <==> b != c && b != c + REACH && c != b + REACH
  {
    SectorParts(b);
    SectorParts(c);
    assert Sector(b) in Covered(b);
    assert Sector(b) + 1 in Covered(b);
  }

  lemma SectorParts(b: nat)
    requires b < UINT
    ensures Sector(b) == if b < REACH then 2 * b else 2 * (b - REACH)
  {
  }

  // ---- the disk as blocks ----

  /** Block n on the disk. */
  function OnDisk(s: State, n: nat): Image { Loaded(s.disk, Sector(n)) }

  predicate IsBlock(sector: nat) { exists n: nat :: n < REACH && sector == Sector(n) }

  /** Every request is for a block the sector arithmetic reaches. */
  predicate ForBlocks(steps: seq<Step>) {
    forall i :: 0 <= i < |steps| && steps[i].Submit? ==> IsBlock(steps[i].sector)
  }

  /** The device completes a write of block n. */
  predicate Writes(s: State, a: Step, n: nat) {
    a.Complete? && a.h in s.reqs && s.reqs[a.h].out && s.reqs[a.h].sector == Sector(n)
  }

  /** Block n as the writes completed so far, by this sequence of steps, have left it. */
  function LastWritten(states: seq<State>, steps: seq<Step>, n: nat, i: nat): Image
    requires i <= |steps| < |states|
  {
    if i == 0 then OnDisk(states[0], n)
    else if !Writes(states[i - 1], steps[i - 1], n) then LastWritten(states, steps, n, i - 1)
    else if steps[i - 1].st == 0 then states[i - 1].reqs[steps[i - 1].h].image
    else steps[i - 1].junk
  }

  lemma StoredLoaded(disk: map<nat, int>, b: nat, d: Image, n: nat)
    requires b < REACH && n < REACH
    ensures Loaded(Stored(disk, Sector(b), d), Sector(n)) == if b == n then d else Loaded(disk, Sector(n))
  {
    SectorParts(b);
    SectorParts(n);
  }

  lemma StepDisk(s: State, a: Step, n: nat)
    requires Inv(s) && Enabled(s, a) && n < REACH && (a.Complete? ==> IsBlock(s.reqs[a.h].sector))
    ensures OnDisk(Next(s, a), n) ==
            if !Writes(s, a, n) then OnDisk(s, n) else if a.st == 0 then s.reqs[a.h].image else a.junk
  {
    hide Chains, Partition, Bufs, Queues, Phases, Stored, Loaded, Sector, Completed;
    if a.Complete? {
      ChainAt(s, a.h);
      DeviceSeesRequest(s, a.h, a.st, a.junk);
      var b: nat :| b < REACH && s.reqs[a.h].sector == Sector(b);
      StoredLoaded(s.disk, b, if a.st == 0 then s.data[s.reqs[a.h].b] else a.junk, n);
      if Sector(b) == Sector(n) { SameSector(b, n); }
    }
  }

  lemma SameSector(b: nat, n: nat)
    requires b < REACH && n < REACH && Sector(b) == Sector(n)
    ensures b == n
  {
  }

  /** On disk a block is what the last completed write of that block put there: no request for another
      block reaches it. */
  lemma {:induction false} DiskHoldsLastWrite(states: seq<State>, steps: seq<Step>, n: nat, i: nat)
    requires Run(states, steps) && ForBlocks(steps) && n < REACH && i < |states|
    ensures i <= |steps| < |states| && OnDisk(states[i], n) == LastWritten(states, steps, n, i)
  {
    hide Inv, Next, OnDisk, Writes, IsBlock;
    if i > 0 {
      var s, a := states[i - 1], steps[i - 1];
      RunInv(states, steps, i - 1);
      DiskHoldsLastWrite(states, steps, n, i - 1);
      if a.Complete? { var k := SubmittedBefore(states, steps, i - 1, a.h); }
      StepDisk(s, a, n);
    }
  }

  /** virtio_disk_rw over blocks. A read of block n returns what the last write of n that the device
      completed before its completion j wrote; a write makes the buffer it was given, as it was at the
      call k, that last write. */
  lemma BlockReadWrite(states: seq<State>, steps: seq<Step>, i: nat, h: nat, n: nat) returns (k: nat, j: nat)
    requires Run(states, steps) && ForBlocks(steps) && i < |steps| && steps[i] == Finish(h)
    requires n < REACH && h in states[i].reqs && states[i].reqs[h].sector == Sector(n)
    ensures k < j < i && steps[k].Submit? && steps[k].i0 == h && steps[k].sector == Sector(n) && steps[j].Complete? && steps[j].h == h
    ensures |steps| < |states| && steps[k].b < |states[k].data| && steps[k].b < |states[i].data|
    ensures if steps[k].out then LastWritten(states, steps, n, j + 1) == states[k].data[steps[k].b]
            else states[i].data[steps[k].b] == LastWritten(states, steps, n, j)
  {
    hide Inv, Next, Enabled, LastWritten;
    k, j := ReturnsAfterCompletion(states, steps, i, h);
    DiskHoldsLastWrite(states, steps, n, j);
    DiskHoldsLastWrite(states, steps, n, j + 1);
  }
}
