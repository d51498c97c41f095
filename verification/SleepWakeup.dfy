/** sleep and wakeup for any condition: one spinlock lk, any number of channels,
    and for each channel a condition of the data lk protects, interleaved one
    lock operation at a time. -1 stands for a free lock. `owed` collects the
    channels whose condition has stopped blocking since they were last woken;
    callers keep the rule that lk is not given up while a wakeup is owed. */
module SleepWakeup {
  datatype Pc =
    | Out
    | Acquire                    // acquire(lk), also at the end of sleep
    | Crit                       // holds lk
    | SleepPlock(c: nat)         // holds lk: sleep's acquire(&p->lock)
    | SleepRelease(c: nat)       // holds lk and p->lock: release(lk)
    | SleepMark(c: nat)          // holds p->lock: chan, SLEEPING, sched()
    | Asleep(c: nat)             // SLEEPING, p->chan == c
    | Woken                      // RUNNABLE; will tidy up and reacquire lk
    | Wake(c: nat, q: nat)       // holds lk: wakeup's loop, about to look at process q
    | WakeCheck(c: nat, q: nat)  // holds lk and q's lock

  datatype State = State(blocks: seq<bool>, owed: set<nat>, lk: int, plock: seq<int>, pc: seq<Pc>)

  datatype Step =
    | Enter(p: nat)
    | Change(p: nat, blocks: seq<bool>)   // any change of the protected data, as the conditions see it
    | Sleep(p: nat, c: nat)
    | Wakeup(p: nat, c: nat)
    | Leave(p: nat)
    | Kill(p: nat)
    | Go(p: nat)                          // the next operation inside acquire, sleep or wakeup

  predicate Shape(s: State) { |s.plock| == |s.pc| && -1 <= s.lk < |s.pc| }

  predicate Enabled(s: State, a: Step)
    requires Shape(s)
  {
    a.p < |s.pc| &&
    match a
    case Enter(p) => s.pc[p].Out?
    case Change(p, b) => s.pc[p].Crit? && |b| == |s.blocks|
    case Sleep(p, c) => s.pc[p].Crit? && c < |s.blocks| && s.blocks[c] && s.owed == {}
    case Wakeup(p, c) => s.pc[p].Crit? && c < |s.blocks|
    case Leave(p) => s.pc[p].Crit? && s.owed == {}
    case Kill(p) => s.pc[p].Asleep? && s.plock[p] == -1
    case Go(p) =>
      match s.pc[p]
      case Acquire => s.lk == -1
      case SleepPlock(_) => s.plock[p] == -1
      case SleepRelease(_) => true
      case SleepMark(_) => true
      case Woken => s.plock[p] == -1
      case Wake(_, q) => q >= |s.pc| || q == p || s.plock[q] == -1
      case WakeCheck(_, q) => q < |s.pc|
      case _ => false
  }

  function At(s: State, p: nat, pc: Pc): State
    requires p < |s.pc|
  {
    s.(pc := s.pc[p := pc])
  }

  /** The channels that b no longer blocks. */
  function Freed(was: seq<bool>, b: seq<bool>): set<nat>
    requires |was| == |b|
  {
    set c: nat | c < |was| && was[c] && !b[c]
  }

  function Next(s: State, a: Step): State
    requires Shape(s) && Enabled(s, a)
  {
    match a
    case Enter(p) => At(s, p, Acquire)
    case Change(p, b) => s.(blocks := b, owed := s.owed + Freed(s.blocks, b))
    case Sleep(p, c) => At(s, p, SleepPlock(c))
    case Wakeup(p, c) => At(s, p, Wake(c, 0))
    case Leave(p) => At(s, p, Out).(lk := -1)
    case Kill(p) => At(s, p, Woken)
    case Go(p) =>
      match s.pc[p]
      case Acquire => At(s, p, Crit).(lk := p)
      case SleepPlock(c) => At(s, p, SleepRelease(c)).(plock := s.plock[p := p])
      case SleepRelease(c) => At(s, p, SleepMark(c)).(lk := -1)
      case SleepMark(c) => At(s, p, Asleep(c)).(plock := s.plock[p := -1])
      case Woken => At(s, p, Acquire)
      case Wake(c, q) =>
        if q >= |s.pc| then At(s, p, Crit).(owed := s.owed - {c})
        else if q == p then At(s, p, Wake(c, q + 1))
        else At(s, p, WakeCheck(c, q)).(plock := s.plock[q := p])
      case WakeCheck(c, q) =>
        // p->state == SLEEPING && p->chan == chan
        var t := if s.pc[q] == Asleep(c) then At(s, q, Woken) else s;
        At(t, p, Wake(c, q + 1)).(plock := s.plock[q := -1])
      case _ => s
  }

  predicate HoldsLk(pc: Pc) {
    pc.Crit? || pc.SleepPlock? || pc.SleepRelease? || pc.Wake? || pc.WakeCheck?
  }

  /** Going to sleep or asleep, having seen the condition block. */
  predicate Waiting(pc: Pc) { pc.SleepPlock? || pc.SleepRelease? || pc.SleepMark? || pc.Asleep? }

  /** A wakeup of c is still to come to process p. */
  predicate Coming(s: State, c: nat, p: nat)
    requires Shape(s)
  {
    && s.lk != -1 && c in s.owed
    && ((s.pc[s.lk].Wake? || s.pc[s.lk].WakeCheck?) && s.pc[s.lk].c == c ==> s.pc[s.lk].q <= p)
  }

  predicate LkHeld(s: State)
    requires Shape(s)
  {
    forall p :: 0 <= p < |s.pc| ==> (HoldsLk(s.pc[p]) <==> s.lk == p)
  }

  predicate PlocksHeld(s: State)
    requires Shape(s)
  {
    && (forall p :: 0 <= p < |s.pc| ==> (s.pc[p].SleepRelease? || s.pc[p].SleepMark? ==> s.plock[p] == p))
    && (forall p :: 0 <= p < |s.pc| && s.pc[p].WakeCheck? ==>
          s.pc[p].q < |s.pc| && s.pc[p].q != p && s.plock[s.pc[p].q] == p)
  }

  /** The rule about owed wakeups. */
  predicate Settled(s: State)
    requires Shape(s)
  {
    s.owed != {} ==> s.lk != -1 && !s.pc[s.lk].SleepPlock? && !s.pc[s.lk].SleepRelease?
  }

  /** Every waiter still has a reason to wait, or a wakeup on its way to it. */
  predicate NoneLost(s: State)
    requires Shape(s)
  {
    forall p :: 0 <= p < |s.pc| && Waiting(s.pc[p]) ==>
      s.pc[p].c < |s.blocks| && (s.blocks[s.pc[p].c] || Coming(s, s.pc[p].c, p))
  }

  predicate Inv(s: State) { Shape(s) && LkHeld(s) && PlocksHeld(s) && Settled(s) && NoneLost(s) }

  predicate Init(s: State) {
    Shape(s) && s.owed == {} && s.lk == -1 && (forall p :: 0 <= p < |s.pc| ==> s.pc[p] == Out && s.plock[p] == -1)
  }

  lemma StepKeepsLk(s: State, a: Step)
    requires Shape(s) && LkHeld(s) && Enabled(s, a)
    ensures Shape(Next(s, a)) && LkHeld(Next(s, a))
  {
    hide Freed;
  }

  /** A turn of wakeup's loop. */
  predicate InWakeup(s: State, a: Step) { a.Go? && a.p < |s.pc| && (s.pc[a.p].Wake? || s.pc[a.p].WakeCheck?) }

  lemma WakePlocks(s: State, a: Step)
    requires Shape(s) && LkHeld(s) && PlocksHeld(s) && Enabled(s, a) && InWakeup(s, a)
    ensures Shape(Next(s, a)) && PlocksHeld(Next(s, a))
  {
    hide Freed;
  }

  lemma OtherPlocks(s: State, a: Step)
    requires Shape(s) && LkHeld(s) && PlocksHeld(s) && Enabled(s, a) && !InWakeup(s, a)
    ensures Shape(Next(s, a)) && PlocksHeld(Next(s, a))
  {
    hide Freed;
  }

  lemma StepKeepsPlocks(s: State, a: Step)
    requires Shape(s) && LkHeld(s) && PlocksHeld(s) && Enabled(s, a)
    ensures Shape(Next(s, a)) && PlocksHeld(Next(s, a))
  {
    hide Next;
    if InWakeup(s, a) { WakePlocks(s, a); } else { OtherPlocks(s, a); }
  }

  lemma StepKeepsSettled(s: State, a: Step)
    requires Shape(s) && LkHeld(s) && Settled(s) && Enabled(s, a)
    ensures Shape(Next(s, a)) && Settled(Next(s, a))
  {
    hide Freed;
  }

  lemma WakeNoneLost(s: State, a: Step)
    requires Inv(s) && Enabled(s, a) && InWakeup(s, a)
    ensures Shape(Next(s, a)) && NoneLost(Next(s, a))
  {
    hide Freed;
  }

  lemma OtherNoneLost(s: State, a: Step)
    requires Inv(s) && Enabled(s, a) && !InWakeup(s, a)
    ensures Shape(Next(s, a)) && NoneLost(Next(s, a))
  {
  }

  lemma StepKeepsNoneLost(s: State, a: Step)
    requires Inv(s) && Enabled(s, a)
    ensures Shape(Next(s, a)) && NoneLost(Next(s, a))
  {
    hide Next;
    if InWakeup(s, a) { WakeNoneLost(s, a); } else { OtherNoneLost(s, a); }
  }

  lemma StepKeeps(s: State, a: Step)
    requires Inv(s) && Enabled(s, a)
    ensures Inv(Next(s, a))
  {
    hide Next, Enabled, LkHeld, PlocksHeld, Settled, NoneLost, Shape;
    StepKeepsLk(s, a);
    StepKeepsPlocks(s, a);
    StepKeepsSettled(s, a);
    StepKeepsNoneLost(s, a);
  }

  predicate Runs(ss: seq<State>, steps: seq<Step>) {
    && |ss| == |steps| + 1 && Init(ss[0])
    && forall i :: 0 <= i < |steps| ==> Moves(ss[i], steps[i], ss[i + 1])
  }

  predicate Moves(s: State, a: Step, t: State) { Shape(s) && Enabled(s, a) && t == Next(s, a) }

  lemma {:induction false} RunInv(ss: seq<State>, steps: seq<Step>, i: nat)
    requires Runs(ss, steps) && i < |ss|
    ensures Inv(ss[i])
  {
    hide Next, Enabled;
    if i > 0 {
      RunInv(ss, steps, i - 1);
      assert Moves(ss[i - 1], steps[i - 1], ss[i - 1 + 1]);
      StepKeeps(ss[i - 1], steps[i - 1]);
    }
  }

  /** No lost wakeup, for any conditions and channels: in every interleaving, while lk is free, a
      process that is asleep, or past giving up lk on its way there, waits on a channel whose
      condition still blocks. */
  lemma NoLostWakeup(ss: seq<State>, steps: seq<Step>, i: nat, p: nat)
    requires Runs(ss, steps) && i < |ss| && ss[i].lk == -1 && p < |ss[i].pc| && Waiting(ss[i].pc[p])
    ensures ss[i].pc[p].c < |ss[i].blocks| && ss[i].blocks[ss[i].pc[p].c]
  {
    hide Runs, Next, PlocksHeld;
    RunInv(ss, steps, i);
  }

  // ---- who wakes whom ----

  /** Process q sleeps on c, and a is a kill, or a wakeup of c that has come to q. */
  predicate Wakes(s: State, a: Step, q: nat, c: nat) {
    q < |s.pc| && s.pc[q] == Asleep(c) && (a == Kill(q) || (a.Go? && a.p < |s.pc| && s.pc[a.p] == WakeCheck(c, q)))
  }

  predicate WaitsOn(pc: Pc, c: nat) { Waiting(pc) && pc.c == c }

  predicate WakesUp(pc: Pc, c: nat) { (pc.Wake? || pc.WakeCheck?) && pc.c == c }

  /** How a process comes to wait on c, to wake c up, or to be woken. */
  lemma StepOrigins(s: State, a: Step, q: nat, c: nat)
    requires Shape(s) && Enabled(s, a) && q < |s.pc|
    ensures var t := Next(s, a);
            && |t.pc| == |s.pc|
            && (WaitsOn(t.pc[q], c) ==> WaitsOn(s.pc[q], c) || a == Sleep(q, c))
            && (WakesUp(t.pc[q], c) ==> WakesUp(s.pc[q], c) || a == Wakeup(q, c))
            && (t.pc[q].Woken? ==> s.pc[q].Woken? || (s.pc[q].Asleep? && Wakes(s, a, q, s.pc[q].c)))
  {
  }

  lemma RunStep(ss: seq<State>, steps: seq<Step>, i: nat)
    requires Runs(ss, steps) && i < |steps|
    ensures Shape(ss[i]) && Enabled(ss[i], steps[i]) && ss[i + 1] == Next(ss[i], steps[i])
  {
    hide Next, Enabled;
    assert Moves(ss[i], steps[i], ss[i + 1]);
  }

  lemma {:induction false} SleptOn(ss: seq<State>, steps: seq<Step>, i: nat, q: nat, c: nat) returns (k: nat)
    requires Runs(ss, steps) && i < |ss| && q < |ss[i].pc| && WaitsOn(ss[i].pc[q], c)
    ensures k < i && steps[k] == Sleep(q, c)
  {
    hide Next, Enabled;
    if i == 0 { assert false; }
    RunStep(ss, steps, i - 1);
    SamePcs(ss[i - 1], steps[i - 1]);
    StepOrigins(ss[i - 1], steps[i - 1], q, c);
    if steps[i - 1] == Sleep(q, c) { k := i - 1; } else { k := SleptOn(ss, steps, i - 1, q, c); }
  }

  lemma SamePcs(s: State, a: Step)
    requires Shape(s) && Enabled(s, a)
    ensures |Next(s, a).pc| == |s.pc|
  {
  }

  lemma {:induction false} WokeUp(ss: seq<State>, steps: seq<Step>, i: nat, q: nat, c: nat) returns (k: nat)
    requires Runs(ss, steps) && i < |ss| && q < |ss[i].pc| && WakesUp(ss[i].pc[q], c)
    ensures k < i && steps[k] == Wakeup(q, c)
  {
    hide Next, Enabled;
    if i == 0 { assert false; }
    RunStep(ss, steps, i - 1);
    SamePcs(ss[i - 1], steps[i - 1]);
    StepOrigins(ss[i - 1], steps[i - 1], q, c);
    if steps[i - 1] == Wakeup(q, c) { k := i - 1; } else { k := WokeUp(ss, steps, i - 1, q, c); }
  }

  /** A process wakes only from the channel c that it called sleep on, at step k, and only by a kill or
      by a wakeup of that channel, called at step m and come to it at step j. */
  lemma {:induction false} WokenOnItsChannel(ss: seq<State>, steps: seq<Step>, i: nat, q: nat) returns (c: nat, k: nat, m: nat, j: nat)
    requires Runs(ss, steps) && i < |ss| && q < |ss[i].pc| && ss[i].pc[q].Woken?
    ensures k < j < i && steps[k] == Sleep(q, c) && Wakes(ss[j], steps[j], q, c)
    ensures steps[j] == Kill(q) || (m < j && steps[m] == Wakeup(steps[j].p, c))
  {
    hide Next, Enabled;
    if i == 0 { assert false; }
    RunStep(ss, steps, i - 1);
    SamePcs(ss[i - 1], steps[i - 1]);
    StepOrigins(ss[i - 1], steps[i - 1], q, 0);
    if ss[i - 1].pc[q].Woken? {
      c, k, m, j := WokenOnItsChannel(ss, steps, i - 1, q);
    } else {
      j, c, m := i - 1, ss[i - 1].pc[q].c, 0;
      k := SleptOn(ss, steps, j, q, c);
      if steps[j] != Kill(q) { m := WokeUp(ss, steps, j, steps[j].p, c); }
    }
  }
}
