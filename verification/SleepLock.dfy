/** The sleep-lock, a client of sleep and wakeup, interleaved one lock operation
    at a time: lk is the sleep-lock's spinlock, plock[p] is process p's own lock,
    and -1 stands for a free lock. Every run of it is a run of SleepWakeup with
    one channel, whose condition is that the lock is taken. */
module SleepLock {
  import G = SleepWakeup

  datatype Pc =
    | Out
    | AcquireLk        // acquiresleep and the end of sleep: acquire(&lk->lk)
    | Test             // holds lk: while (lk->locked)
    | SleepPlock       // holds lk: sleep's acquire(&p->lock)
    | SleepRelease     // holds lk and p->lock: release(lk)
    | SleepMark        // holds p->lock: chan, SLEEPING, sched()
    | Asleep           // SLEEPING on the sleep-lock's channel
    | Woken            // RUNNABLE; will tidy up and reacquire lk
    | Held             // owns the sleep-lock
    | ReleaseLk        // releasesleep: acquire(&lk->lk)
    | Unlock           // holds lk: locked = 0; pid = 0
    | Wake(q: nat)     // holds lk: wakeup's loop, about to look at process q
    | WakeCheck(q: nat) // holds lk and q's lock

  datatype State = State(locked: bool, owner: int, lk: int, plock: seq<int>, pc: seq<Pc>)

  datatype Step =
    | Run(p: nat)      // process p's next operation
    | Call(p: nat)     // p enters acquiresleep, or, holding the lock, releasesleep
    | Kill(p: nat)     // kill() makes a sleeping process runnable

  predicate Shape(s: State) {
    |s.plock| == |s.pc| && -1 <= s.lk < |s.pc|
  }

  predicate Enabled(s: State, a: Step)
    requires Shape(s)
  {
    a.p < |s.pc| &&
    match a
    case Call(p) => s.pc[p].Out? || s.pc[p].Held?
    case Kill(p) => s.pc[p].Asleep? && s.plock[p] == -1
    case Run(p) =>
      match s.pc[p]
      case Out => false
      case Held => false
      case Asleep => false
      case AcquireLk => s.lk == -1
      case ReleaseLk => s.lk == -1
      case SleepPlock => s.plock[p] == -1
      case Woken => s.plock[p] == -1
      case Wake(q) => q >= |s.pc| || q == p || s.plock[q] == -1
      case WakeCheck(q) => q < |s.pc|
      case _ => true
  }

  function At(s: State, p: nat, pc: Pc): State
    requires p < |s.pc|
  {
    s.(pc := s.pc[p := pc])
  }

  function Next(s: State, a: Step): State
    requires Shape(s) && Enabled(s, a)
  {
    var p := a.p;
    match a
    case Call(_) => At(s, p, if s.pc[p].Out? then AcquireLk else ReleaseLk)
    case Kill(_) => At(s, p, Woken)
    case Run(_) =>
      match s.pc[p]
      case AcquireLk => At(s, p, Test).(lk := p)
      case Test =>
        if s.locked then At(s, p, SleepPlock)
        else At(s, p, Held).(locked := true, owner := p, lk := -1)
      case SleepPlock => At(s, p, SleepRelease).(plock := s.plock[p := p])
      case SleepRelease => At(s, p, SleepMark).(lk := -1)
      case SleepMark => At(s, p, Asleep).(plock := s.plock[p := -1])
      case Woken => At(s, p, AcquireLk)
      case ReleaseLk => At(s, p, Unlock).(lk := p)
      case Unlock => At(s, p, Wake(0)).(locked := false, owner := -1)
      case Wake(q) =>
        if q >= |s.pc| then At(s, p, Out).(lk := -1)
        else if q == p then At(s, p, Wake(q + 1))
        else At(s, p, WakeCheck(q)).(plock := s.plock[q := p])
      case WakeCheck(q) =>
        // p->state == SLEEPING && p->chan == chan
        var t := if s.pc[q].Asleep? then At(s, q, Woken) else s;
        At(t, p, Wake(q + 1)).(plock := s.plock[q := -1])
      case _ => s
  }

  predicate HoldsLk(pc: Pc) {
    pc.Test? || pc.SleepPlock? || pc.SleepRelease? || pc.Unlock? || pc.Wake? || pc.WakeCheck?
  }

  predicate Owns(pc: Pc) {
    pc.Held? || pc.ReleaseLk? || pc.Unlock?
  }

  /** Going to sleep or asleep, having seen the lock taken. */
  predicate Waiting(pc: Pc) {
    pc.SleepPlock? || pc.SleepRelease? || pc.SleepMark? || pc.Asleep?
  }

  predicate LkHeld(s: State)
    requires Shape(s)
  {
    forall p :: 0 <= p < |s.pc| ==> (HoldsLk(s.pc[p]) <==> s.lk == p)
  }

  predicate PlocksHeld(s: State)
    requires Shape(s)
  {
    && (forall p :: 0 <= p < |s.pc| ==> (s.pc[p].SleepRelease? || s.pc[p].SleepMark? ==> s.plock[p] == p))
    && (forall p :: 0 <= p < |s.pc| && s.pc[p].WakeCheck? ==>
          s.pc[p].q < |s.pc| && s.pc[p].q != p && s.plock[s.pc[p].q] == p)
  }

  /** The lock is taken exactly when one process owns it, and never during a wakeup. */
  predicate OneOwner(s: State)
    requires Shape(s)
  {
    && (forall p :: 0 <= p < |s.pc| && Owns(s.pc[p]) ==> s.locked && s.owner == p)
    && (s.locked ==> 0 <= s.owner < |s.pc| && Owns(s.pc[s.owner]))
    && (s.lk != -1 && (s.pc[s.lk].Wake? || s.pc[s.lk].WakeCheck?) ==> !s.locked)
  }

  predicate Inv(s: State) { Shape(s) && LkHeld(s) && PlocksHeld(s) && OneOwner(s) }

  predicate Init(s: State) {
    Shape(s) && !s.locked && s.lk == -1 && (forall p :: 0 <= p < |s.pc| ==> s.pc[p] == Out && s.plock[p] == -1)
  }

  /** A turn of wakeup's loop. */
  predicate InWakeup(s: State, a: Step) { a.Run? && a.p < |s.pc| && (s.pc[a.p].Wake? || s.pc[a.p].WakeCheck?) }

  lemma WakeLk(s: State, a: Step)
    requires Shape(s) && LkHeld(s) && PlocksHeld(s) && Enabled(s, a) && InWakeup(s, a)
    ensures Shape(Next(s, a)) && LkHeld(Next(s, a))
  {
  }

  lemma StepKeepsLk(s: State, a: Step)
    requires Shape(s) && LkHeld(s) && PlocksHeld(s) && Enabled(s, a)
    ensures Shape(Next(s, a)) && LkHeld(Next(s, a))
  {
    hide PlocksHeld;
    if InWakeup(s, a) { WakeLk(s, a); }
  }

  lemma WakePlocks(s: State, a: Step)
    requires Shape(s) && LkHeld(s) && PlocksHeld(s) && Enabled(s, a) && InWakeup(s, a)
    ensures Shape(Next(s, a)) && PlocksHeld(Next(s, a))
  {
  }

  lemma OtherPlocks(s: State, a: Step)
    requires Shape(s) && LkHeld(s) && PlocksHeld(s) && Enabled(s, a) && !InWakeup(s, a)
    ensures Shape(Next(s, a)) && PlocksHeld(Next(s, a))
  {
  }

  lemma StepKeepsPlocks(s: State, a: Step)
    requires Shape(s) && LkHeld(s) && PlocksHeld(s) && Enabled(s, a)
    ensures Shape(Next(s, a)) && PlocksHeld(Next(s, a))
  {
    hide Next;
    if InWakeup(s, a) { WakePlocks(s, a); } else { OtherPlocks(s, a); }
  }

  lemma StepKeepsOwner(s: State, a: Step)
    requires Shape(s) && LkHeld(s) && OneOwner(s) && Enabled(s, a)
    ensures Shape(Next(s, a)) && OneOwner(Next(s, a))
  {
  }

  lemma StepKeeps(s: State, a: Step)
    requires Inv(s) && Enabled(s, a)
    ensures Inv(Next(s, a))
  {
    hide Next, Enabled, LkHeld, PlocksHeld, OneOwner, Shape;
    StepKeepsLk(s, a);
    StepKeepsPlocks(s, a);
    StepKeepsOwner(s, a);
  }

  predicate Runs(ss: seq<State>, steps: seq<Step>) {
    && |ss| == |steps| + 1 && Init(ss[0])
    && forall i :: 0 <= i < |steps| ==> Moves(ss[i], steps[i], ss[i + 1])
  }

  predicate Moves(s: State, a: Step, t: State) {
    Shape(s) && Enabled(s, a) && t == Next(s, a)
  }

  lemma {:induction false} RunInv(ss: seq<State>, steps: seq<Step>, i: nat)
    requires Runs(ss, steps) && i < |ss|
    ensures Inv(ss[i])
  {
    if i > 0 {
      RunInv(ss, steps, i - 1);
      assert Moves(ss[i - 1], steps[i - 1], ss[i - 1 + 1]);
      StepKeeps(ss[i - 1], steps[i - 1]);
    }
  }

  // ---- as a run of sleep and wakeup ----

  function AbsPc(pc: Pc): G.Pc {
    match pc
    case Out => G.Out
    case Held => G.Out
    case AcquireLk => G.Acquire
    case ReleaseLk => G.Acquire
    case Test => G.Crit
    case Unlock => G.Crit
    case SleepPlock => G.SleepPlock(0)
    case SleepRelease => G.SleepRelease(0)
    case SleepMark => G.SleepMark(0)
    case Asleep => G.Asleep(0)
    case Woken => G.Woken
    case Wake(q) => G.Wake(0, q)
    case WakeCheck(q) => G.WakeCheck(0, q)
  }

  function AbsPcs(pcs: seq<Pc>): (r: seq<G.Pc>)
    ensures |r| == |pcs| && forall i :: 0 <= i < |pcs| ==> r[i] == AbsPc(pcs[i])
  {
    if pcs == [] then [] else AbsPcs(pcs[..|pcs| - 1]) + [AbsPc(pcs[|pcs| - 1])]
  }

  predicate Waking(pc: Pc) { pc.Wake? || pc.WakeCheck? }

  function Abs(s: State): G.State
    requires Shape(s)
  {
    G.State([s.locked], Owed(s), s.lk, s.plock, AbsPcs(s.pc))
  }

  function Owed(s: State): set<nat>
    requires Shape(s)
  {
    if s.lk != -1 && Waking(s.pc[s.lk]) then {0} else {}
  }

  lemma AbsAt(pcs: seq<Pc>, p: nat, pc: Pc)
    requires p < |pcs|
    ensures AbsPcs(pcs[p := pc]) == AbsPcs(pcs)[p := AbsPc(pc)]
  {
  }

  /** The steps of SleepWakeup that a step of the sleep-lock takes. */
  function Plan(s: State, a: Step): seq<G.Step>
    requires Shape(s) && Enabled(s, a)
  {
    var p := a.p;
    match a
    case Call(_) => [G.Enter(p)]
    case Kill(_) => [G.Kill(p)]
    case Run(_) =>
      if s.pc[p].Test? then if s.locked then [G.Sleep(p, 0)] else [G.Change(p, [true]), G.Leave(p)]
      else if s.pc[p].Unlock? then [G.Change(p, [false]), G.Wakeup(p, 0)]
      else if s.pc[p].Wake? && s.pc[p].q >= |s.pc| then [G.Go(p), G.Leave(p)]
      else [G.Go(p)]
  }

  predicate Takes(s: G.State, plan: seq<G.Step>, t: G.State)
    decreases |plan|
  {
    if plan == [] then s == t
    else G.Shape(s) && G.Enabled(s, plan[0]) && Takes(G.Next(s, plan[0]), plan[1..], t)
  }

  lemma TakesOne(s: G.State, a: G.Step, t: G.State)
    requires G.Moves(s, a, t)
    ensures Takes(s, [a], t)
  {
    assert [a][1..] == [];
  }

  lemma TakesTwo(s: G.State, a: G.Step, m: G.State, b: G.Step, t: G.State)
    requires G.Moves(s, a, m) && G.Moves(m, b, t)
    ensures Takes(s, [a, b], t)
  {
    assert [a, b][1..] == [b];
    TakesOne(m, b, t);
  }

  lemma SimulatesCall(s: State, a: Step)
    requires Inv(s) && Enabled(s, a) && !a.Run?
    ensures Shape(Next(s, a)) && Takes(Abs(s), Plan(s, a), Abs(Next(s, a)))
  {
    hide PlocksHeld, OneOwner, AbsPcs, Takes;
    var p, t := a.p, Next(s, a);
    assert !HoldsLk(s.pc[p]) && s.lk != p;
    AbsAt(s.pc, p, t.pc[p]);
    assert Owed(t) == Owed(s);
    TakesOne(Abs(s), Plan(s, a)[0], Abs(t));
  }

  lemma SimulatesTest(s: State, a: Step)
    requires Inv(s) && Enabled(s, a) && a.Run? && s.pc[a.p].Test?
    ensures Shape(Next(s, a)) && Takes(Abs(s), Plan(s, a), Abs(Next(s, a)))
  {
    hide PlocksHeld, OneOwner, AbsPcs, Takes;
    var p, t := a.p, Next(s, a);
    assert s.lk == p && Owed(s) == {} == Owed(t);
    AbsAt(s.pc, p, t.pc[p]);
    if s.locked {
      TakesOne(Abs(s), G.Sleep(p, 0), Abs(t));
    } else {
      var m := Abs(s).(blocks := [true]);
      assert G.Freed([false], [true]) == {};
      TakesTwo(Abs(s), G.Change(p, [true]), m, G.Leave(p), Abs(t));
    }
  }

  lemma SimulatesUnlock(s: State, a: Step)
    requires Inv(s) && Enabled(s, a) && a.Run? && s.pc[a.p].Unlock?
    ensures Shape(Next(s, a)) && Takes(Abs(s), Plan(s, a), Abs(Next(s, a)))
  {
    hide PlocksHeld, AbsPcs, Takes;
    var p, t := a.p, Next(s, a);
    assert s.lk == p && Owed(s) == {} && Owed(t) == {0};
    AbsAt(s.pc, p, t.pc[p]);
    var m := Abs(s).(blocks := [false], owed := {0});
    assert G.Freed([true], [false]) == {0};
    TakesTwo(Abs(s), G.Change(p, [false]), m, G.Wakeup(p, 0), Abs(t));
  }

  lemma SimulatesWakeEnd(s: State, a: Step)
    requires Inv(s) && Enabled(s, a) && a.Run? && s.pc[a.p].Wake? && s.pc[a.p].q >= |s.pc|
    ensures Shape(Next(s, a)) && Takes(Abs(s), Plan(s, a), Abs(Next(s, a)))
  {
    hide OneOwner, PlocksHeld, AbsPcs, Takes;
    var p, t := a.p, Next(s, a);
    assert s.lk == p && Owed(s) == {0} && Owed(t) == {};
    AbsAt(s.pc, p, t.pc[p]);
    var m := Abs(s).(pc := AbsPcs(s.pc)[p := G.Crit], owed := {});
    TakesTwo(Abs(s), G.Go(p), m, G.Leave(p), Abs(t));
  }

  lemma SimulatesWakeTurn(s: State, a: Step)
    requires Inv(s) && Enabled(s, a) && a.Run? && s.pc[a.p].Wake? && s.pc[a.p].q < |s.pc|
    ensures Shape(Next(s, a)) && Takes(Abs(s), Plan(s, a), Abs(Next(s, a)))
  {
    hide OneOwner, PlocksHeld, AbsPcs, Takes;
    var p, t := a.p, Next(s, a);
    assert s.lk == p && Owed(s) == {0} == Owed(t);
    AbsAt(s.pc, p, t.pc[p]);
    TakesOne(Abs(s), G.Go(p), Abs(t));
  }

  lemma SimulatesWakeCheck(s: State, a: Step)
    requires Inv(s) && Enabled(s, a) && a.Run? && s.pc[a.p].WakeCheck?
    ensures Shape(Next(s, a)) && Takes(Abs(s), Plan(s, a), Abs(Next(s, a)))
  {
    hide OneOwner, AbsPcs, Takes;
    var p, t, q := a.p, Next(s, a), s.pc[a.p].q;
    assert s.lk == p && q != p && Owed(s) == {0} == Owed(t);
    var pcs := if s.pc[q].Asleep? then s.pc[q := Woken] else s.pc;
    assert t.pc == pcs[p := Wake(q + 1)];
    AbsAt(s.pc, q, Woken);
    AbsAt(pcs, p, Wake(q + 1));
    SameSleeper(s.pc[q]);
    TakesOne(Abs(s), G.Go(p), Abs(t));
  }

  lemma SameSleeper(pc: Pc)
    ensures AbsPc(pc) == G.Asleep(0) <==> pc.Asleep?
  {
  }

  lemma SimulatesRest(s: State, a: Step)
    requires Inv(s) && Enabled(s, a) && a.Run? && !InWakeup(s, a) && !s.pc[a.p].Test? && !s.pc[a.p].Unlock?
    ensures Shape(Next(s, a)) && Takes(Abs(s), Plan(s, a), Abs(Next(s, a)))
  {
    hide PlocksHeld, OneOwner, AbsPcs, Takes;
    var p, t := a.p, Next(s, a);
    AbsAt(s.pc, p, t.pc[p]);
    assert Owed(t) == Owed(s);
    TakesOne(Abs(s), G.Go(p), Abs(t));
  }

  lemma Simulates(s: State, a: Step)
    requires Inv(s) && Enabled(s, a)
    ensures Shape(Next(s, a)) && Takes(Abs(s), Plan(s, a), Abs(Next(s, a)))
  {
    hide Next, Takes, Plan, Abs, PlocksHeld, OneOwner, LkHeld;
    if !a.Run? { SimulatesCall(s, a); }
    else if s.pc[a.p].Test? { SimulatesTest(s, a); }
    else if s.pc[a.p].Unlock? { SimulatesUnlock(s, a); }
    else if s.pc[a.p].WakeCheck? { SimulatesWakeCheck(s, a); }
    else if s.pc[a.p].Wake? && s.pc[a.p].q >= |s.pc| { SimulatesWakeEnd(s, a); }
    else if s.pc[a.p].Wake? { SimulatesWakeTurn(s, a); }
    else { SimulatesRest(s, a); }
  }

  lemma {:induction false} Append(gs: seq<G.State>, gsteps: seq<G.Step>, plan: seq<G.Step>, t: G.State) returns (hs: seq<G.State>, hsteps: seq<G.Step>)
    requires G.Runs(gs, gsteps) && Takes(gs[|gsteps|], plan, t)
    ensures G.Runs(hs, hsteps) && hs[|hsteps|] == t
    decreases |plan|
  {
    hide G.Next, G.Enabled, G.Shape;
    if plan == [] {
      hs, hsteps := gs, gsteps;
    } else {
      var u := G.Next(gs[|gsteps|], plan[0]);
      var ks, ksteps := gs + [u], gsteps + [plan[0]];
      forall i | 0 <= i < |ksteps| ensures G.Moves(ks[i], ksteps[i], ks[i + 1]) {
        if i < |gsteps| { assert G.Moves(gs[i], gsteps[i], gs[i + 1]); }
      }
      hs, hsteps := Append(ks, ksteps, plan[1..], t);
    }
  }

  /** Every run of the sleep-lock is a run of sleep and wakeup. */
  lemma {:induction false} Refines(ss: seq<State>, steps: seq<Step>, i: nat) returns (gs: seq<G.State>, gsteps: seq<G.Step>)
    requires Runs(ss, steps) && i < |ss|
    ensures Shape(ss[i]) && G.Runs(gs, gsteps) && gs[|gsteps|] == Abs(ss[i])
  {
    hide Next, Enabled, Takes, Plan, G.Runs, LkHeld, PlocksHeld, OneOwner;
    if i == 0 {
      gs, gsteps := Start(ss[0]);
    } else {
      gs, gsteps := Refines(ss, steps, i - 1);
      RunInv(ss, steps, i - 1);
      assert Moves(ss[i - 1], steps[i - 1], ss[i - 1 + 1]);
      Simulates(ss[i - 1], steps[i - 1]);
      gs, gsteps := Append(gs, gsteps, Plan(ss[i - 1], steps[i - 1]), Abs(ss[i]));
    }
  }

  lemma Start(s: State) returns (gs: seq<G.State>, gsteps: seq<G.Step>)
    requires Init(s)
    ensures G.Runs(gs, gsteps) && gs[|gsteps|] == Abs(s)
  {
    gs, gsteps := [Abs(s)], [];
  }

  /** No lost wakeup, by way of SleepWakeup: in every interleaving, once the inner lock is free and the
      sleep-lock unlocked, nobody sleeps on it or is on the way to sleep. */
  lemma NoLostWakeup(ss: seq<State>, steps: seq<Step>, i: nat, p: nat)
    requires Runs(ss, steps) && i < |ss| && ss[i].lk == -1 && !ss[i].locked && p < |ss[i].pc|
    ensures !Waiting(ss[i].pc[p])
  {
    hide Runs, Next, G.Moves, G.Init;
    var gs, gsteps := Refines(ss, steps, i);
    if Waiting(ss[i].pc[p]) { G.NoLostWakeup(gs, gsteps, |gsteps|, p); }
  }

  /** Mutual exclusion: at most one process owns the sleep-lock. */
  lemma AtMostOneOwner(ss: seq<State>, steps: seq<Step>, i: nat, p: nat, q: nat)
    requires Runs(ss, steps) && i < |ss| && p < |ss[i].pc| && q < |ss[i].pc|
    requires Owns(ss[i].pc[p]) && Owns(ss[i].pc[q])
    ensures p == q && ss[i].locked && ss[i].owner == p
  {
    RunInv(ss, steps, i);
  }
}
