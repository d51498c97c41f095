/** The pipe: a ring of PIPESIZE bytes under two free-running 32-bit counters. */
module Pipe {
  import opened Blocks

  const PIPESIZE := 512

  datatype Ring = Ring(data: seq<byte>, nread: nat, nwrite: nat)

  predicate Shape(r: Ring) { |r.data| == PIPESIZE && r.nread < UINT && r.nwrite < UINT }

  function Bump(i: nat): nat { if i + 1 == UINT then 0 else i + 1 }

  /** i + k in 32 bits */
  function Add(i: nat, k: nat): (r: nat)
    requires i < UINT && k <= PIPESIZE
    ensures r < UINT
  {
    if i + k < UINT then i + k else i + k - UINT
  }

  function Slot(i: nat): (r: nat)
    ensures r < PIPESIZE
  {
    i % PIPESIZE
  }

  /** The ring buffers exactly the bytes q, oldest first. */
  predicate Holds(r: Ring, q: seq<byte>)
    requires Shape(r)
  {
    |q| <= PIPESIZE && r.nwrite == Add(r.nread, |q|) && forall k :: 0 <= k < |q| ==> r.data[Slot(Add(r.nread, k))] == q[k]
  }

  /** nwrite == nread + PIPESIZE, as uint */
  predicate Full(r: Ring)
    requires Shape(r)
  {
    r.nwrite == Add(r.nread, PIPESIZE)
  }

  predicate Empty(r: Ring) { r.nread == r.nwrite }

  function Pushed(r: Ring, x: byte): Ring
    requires Shape(r)
  {
    r.(data := r.data[Slot(r.nwrite) := x], nwrite := Bump(r.nwrite))
  }

  function Popped(r: Ring): Ring { r.(nread := Bump(r.nread)) }

  lemma SlotAdd(i: nat, k: nat)
    requires i < UINT && k <= PIPESIZE
    ensures Slot(Add(i, k)) == (i + k) % PIPESIZE
  {
  }

  lemma SlotsDiffer(i: nat, j: nat, k: nat)
    requires i < UINT && j < k < PIPESIZE
    ensures Slot(Add(i, j)) != Slot(Add(i, k))
  {
    SlotAdd(i, j);
    SlotAdd(i, k);
  }

  lemma AddOne(i: nat, k: nat)
    requires i < UINT && k < PIPESIZE
    ensures Bump(i) < UINT && Add(Bump(i), k) == Add(i, k + 1) == Bump(Add(i, k))
  {
  }

  /** The two tests on the wrapped counters are exact. */
  lemma FullEmpty(r: Ring, q: seq<byte>)
    requires Shape(r) && Holds(r, q)
    ensures |q| <= PIPESIZE && (Full(r) <==> |q| == PIPESIZE)
    ensures Empty(r) <==> q == []
  {
  }

  lemma EmptyHolds(r: Ring)
    requires Shape(r) && Empty(r)
    ensures Holds(r, [])
  {
  }

  lemma PushHolds(r: Ring, q: seq<byte>, x: byte)
    requires Shape(r) && Holds(r, q) && !Full(r)
    ensures Shape(Pushed(r, x)) && Holds(Pushed(r, x), q + [x])
  {
    hide Slot;
    AddOne(r.nread, |q|);
    forall k | 0 <= k < |q| ensures Pushed(r, x).data[Slot(Add(r.nread, k))] == q[k] { SlotsDiffer(r.nread, k, |q|); }
  }

  lemma PopHolds(r: Ring, q: seq<byte>)
    requires Shape(r) && Holds(r, q) && !Empty(r)
    ensures |q| > 0 && r.data[Slot(r.nread)] == q[0] && Shape(Popped(r)) && Holds(Popped(r), q[1..])
  {
    hide Slot;
    assert Add(r.nread, 0) == r.nread;
    AddOne(r.nread, |q| - 1);
    forall k | 0 <= k < |q| - 1 ensures r.data[Slot(Add(Bump(r.nread), k))] == q[1..][k] { AddOne(r.nread, k); }
  }

  // ---- any interleaving of readers and writers ----

  datatype Op = Push(x: byte) | Pop

  predicate Step(r: Ring, a: Op, t: Ring)
    requires Shape(r)
  {
    match a
    case Push(x) => !Full(r) && t == Pushed(r, x)
    case Pop => !Empty(r) && t == Popped(r)
  }

  predicate Run(rs: seq<Ring>, ops: seq<Op>) {
    && |rs| == |ops| + 1 && Shape(rs[0]) && Empty(rs[0])
    && (forall i :: 0 <= i < |ops| ==> Shape(rs[i]) && Step(rs[i], ops[i], rs[i + 1]))
  }

  function Inserted(ops: seq<Op>): seq<byte> {
    if ops == [] then [] else
    var a := ops[|ops| - 1];
    Inserted(ops[..|ops| - 1]) + (if a.Push? then [a.x] else [])
  }

  /** What piperead takes out next */
  function Oldest(r: Ring): byte { if |r.data| == PIPESIZE then r.data[Slot(r.nread)] else 0 }

  function Removed(rs: seq<Ring>, ops: seq<Op>): seq<byte>
    requires |rs| == |ops| + 1
  {
    if ops == [] then [] else
    var n := |ops| - 1;
    Removed(rs[..n + 1], ops[..n]) + (if ops[n].Pop? then [Oldest(rs[n])] else [])
  }

  /** First in, first out: what was removed, followed by what the ring still holds, is what was
      inserted, through any number of counter overflows. */
  lemma {:induction false} Fifo(rs: seq<Ring>, ops: seq<Op>) returns (q: seq<byte>)
    requires Run(rs, ops)
    ensures Shape(rs[|ops|]) && Holds(rs[|ops|], q) && Removed(rs, ops) + q == Inserted(ops)
    decreases |ops|
  {
    hide Holds, Pushed, Popped, Empty, Full;
    if ops == [] {
      q := [];
      EmptyHolds(rs[0]);
    } else {
      var n := |ops| - 1;
      var q0 := Fifo(rs[..n + 1], ops[..n]);
      assert Step(rs[n], ops[n], rs[n + 1]);
      if ops[n].Push? {
        PushHolds(rs[n], q0, ops[n].x);
        q := q0 + [ops[n].x];
      } else {
        PopHolds(rs[n], q0);
        q := q0[1..];
      }
    }
  }

  // ---- the system calls, one section under pi->lock at a time ----

  datatype Outcome = Sleeps | Returns(r: int)

  class Buffer {
    var data: array<byte>
    var nread: nat
    var nwrite: nat
    var readopen: bool
    var writeopen: bool
    ghost var held: seq<byte>
    ghost var given: seq<byte>   // every byte ever put in
    ghost var taken: seq<byte>   // every byte ever taken out

    ghost function View(): Ring
      reads this, data
    {
      Ring(data[..], nread, nwrite)
    }

    ghost predicate Valid()
      reads this, data
    {
      data.Length == PIPESIZE && Shape(View()) && Holds(View(), held) && given == taken + held
    }

    constructor ()
      ensures Valid() && fresh(data) && held == [] && given == [] && readopen && writeopen
    {
      data := new byte[PIPESIZE](_ => 0);
      nread, nwrite, readopen, writeopen := 0, 0, true, true;
      held, given, taken := [], [], [];
    }

    method Put(x: byte)
      requires Valid() && !Full(View())
      modifies this`nwrite, this`held, this`given, data
      ensures Valid() && held == old(held) + [x] && given == old(given) + [x]
    {
      PushHolds(View(), held, x);
      data[Slot(nwrite)] := x;
      nwrite := (nwrite + 1) % UINT;
      held, given := held + [x], given + [x];
      assert View() == old(Pushed(View(), x));
    }

    method Get() returns (x: byte)
      requires Valid() && !Empty(View())
      modifies this`nread, this`held, this`taken
      ensures Valid() && old(held) == [x] + held && taken == old(taken) + [x]
    {
      PopHolds(View(), held);
      x := data[Slot(nread)];
      nread := (nread + 1) % UINT;
      held, taken := held[1..], taken + [x];
      assert View() == old(Popped(View()));
    }

    /** pipewrite from byte i0 of src until it returns or sleeps. copyin fails beyond src; killed
        is seen from byte `killedAt` on. */
    method Write(src: seq<byte>, n: int, i0: nat, killedAt: nat) returns (i: nat, o: Outcome)
      requires Valid() && i0 <= |src| <= if n < 0 then 0 else n
      modifies this`nwrite, this`held, this`given, data
      ensures Valid() && i0 <= i <= |src| && given == old(given) + src[i0..i] && held == old(held) + src[i0..i]
      ensures o.Sleeps? ==> |held| == PIPESIZE && i < n && readopen
      ensures o == Returns(-1) <==> i < n && (!readopen || i >= killedAt)
      ensures o.Returns? && o.r != -1 ==> o.r == i && (i >= n || (i == |src| && |held| < PIPESIZE))
    {
      hide Holds, Slot;
      i := i0;
      while i < n
        invariant i0 <= i <= |src| && Valid() && given == old(given) + src[i0..i] && held == old(held) + src[i0..i]
        invariant data == old(data) && taken == old(taken)
        decreases |src| - i
      {
        if !readopen || i >= killedAt { return i, Returns(-1); }
        FullEmpty(View(), held);
        if nwrite == (nread + PIPESIZE) % UINT {
          return i, Sleeps;
        }
        if i == |src| { break; }
        Put(src[i]);
        i := i + 1;
      }
      return i, Returns(i);
    }

    /** piperead until it returns or sleeps. copyout fails at byte `room`; the byte it fails on is
        taken out of the pipe all the same. */
    method Read(n: int, room: nat, killed: bool) returns (out: seq<byte>, o: Outcome)
      requires Valid()
      modifies this`nread, this`held, this`taken
      ensures Valid() && (o.Returns? && o.r != -1 ==> o.r == |out|)
      ensures o.Sleeps? || o == Returns(-1) ==> out == [] && held == old(held) == [] && writeopen && (o.Sleeps? <==> !killed)
      ensures old(held) == [] && writeopen ==> o == if killed then Returns(-1) else Sleeps
      ensures o.Returns? && o.r != -1 ==> |out| == Least(n, Least(room, |old(held)|))
      ensures var lost := o.Returns? && o.r != -1 && room < n && room < |old(held)|;
              taken == old(taken) + out + (if lost then [old(held)[room]] else [])
    {
      hide Holds, Slot, Full;
      out := [];
      FullEmpty(View(), held);
      if nread == nwrite && writeopen {
        return [], if killed then Returns(-1) else Sleeps;
      }
      var i := 0;
      while i < n
        invariant 0 <= i == |out| <= room && (i <= n || i == 0) && i <= |old(held)|
        invariant Valid() && data == old(data) && out == old(held)[..i] && held == old(held)[i..] && taken == old(taken) + out
      {
        FullEmpty(View(), held);
        if nread == nwrite { break; }
        var ch := Get();
        if i == room { return out, Returns(i); }
        out := out + [ch];
        i := i + 1;
      }
      return out, Returns(i);
    }
  }

  function Least(a: int, b: nat): nat { if a < 0 then 0 else if a < b then a else b }
}
