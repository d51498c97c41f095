/** fork, exit, wait, reparent and kill, interleaved one lock operation at a
    time. Process 0 is initproc; -1 stands for a free lock or for no parent.
    wakeup(x) is one check of process x under its lock: x's channel is used by
    nobody else. `exited` and `reaped` record pid and status of every exit and
    of every successful wait. */
module ExitWait {
  datatype Pc =
    | Unused
    | Used                             // allocproc'ed, not yet RUNNABLE
    | Out                              // running or runnable
    | ForkParent(q: nat)               // fork: acquire(&wait_lock); np->parent = p
    | ForkRun(q: nat)                  // fork: np->state = RUNNABLE
    | WaitLk                           // wait: acquire(&wait_lock)
    | Scan(k: nat, kids: bool)         // holds wait_lock
    | SleepPlock                       // holds wait_lock: sleep's acquire(&p->lock)
    | SleepRelease                     // holds wait_lock and p->lock
    | SleepMark                        // holds p->lock: SLEEPING, sched()
    | Asleep
    | Woken
    | ExitLk(status: int)              // exit: acquire(&wait_lock)
    | Reparent(k: nat, status: int)    // holds wait_lock
    | WakeInit(k: nat, status: int)    // holds wait_lock: wakeup(initproc) for child k
    | WakeParent(status: int)          // holds wait_lock
    | BecomeZombie(status: int)        // holds wait_lock
    | DeadLocked                       // ZOMBIE, still holding p->lock on its way to sched()
    | Dead                             // ZOMBIE

  datatype State = State(
    pc: seq<Pc>, parent: seq<int>, pid: seq<nat>, xstate: seq<int>,
    wl: int, plock: seq<int>, nextpid: nat,
    exited: map<nat, int>, reaped: map<nat, int>)

  datatype Step =
    | Fork(p: nat, q: nat)
    | Wait(p: nat)
    | Exit(p: nat, status: int)
    | Run(p: nat, fails: bool)   // fails: copyout in wait fails, or killed(p) is seen
    | Kill(p: nat)

  predicate Shape(s: State) {
    && 0 < |s.pc| == |s.parent| == |s.pid| == |s.xstate| == |s.plock|
    && -1 <= s.wl < |s.pc|
    && (forall q :: 0 <= q < |s.pc| ==> -1 <= s.parent[q] < |s.pc|)
  }

  predicate Zombie(pc: Pc) { pc.Dead? || pc.DeadLocked? }

  predicate Alive(pc: Pc) { !pc.Unused? && !pc.Used? && !Zombie(pc) }

  predicate HoldsWl(pc: Pc) {
    pc.Scan? || pc.SleepPlock? || pc.SleepRelease? || pc.Reparent? || pc.WakeInit? || pc.WakeParent? || pc.BecomeZombie?
  }

  /** Committed to sleep in wait, past the point of looking again. */
  predicate Sleeping(pc: Pc) { pc.SleepMark? || pc.Asleep? }

  predicate Enabled(s: State, a: Step)
    requires Shape(s)
  {
    a.p < |s.pc| &&
    match a
    case Fork(p, q) => s.pc[p].Out? && q < |s.pc| && s.pc[q].Unused? && s.plock[q] == -1
    case Wait(p) => s.pc[p].Out?
    case Exit(p, _) => s.pc[p].Out? && p != 0
    case Kill(p) => s.pc[p].Asleep? && s.plock[p] == -1
    case Run(p, _) =>
      match s.pc[p]
      case ForkParent(_) => s.wl == -1
      case ForkRun(q) => q < |s.pc| && s.plock[q] == -1
      case WaitLk => s.wl == -1
      case Scan(k, _) => k < |s.pc| && s.parent[k] == p ==> s.plock[k] == -1
      case SleepPlock => s.plock[p] == -1
      case SleepRelease => true
      case SleepMark => true
      case Woken => s.plock[p] == -1
      case ExitLk(_) => s.wl == -1
      case Reparent(_, _) => true
      case WakeInit(_, _) => s.plock[0] == -1
      case WakeParent(_) => s.parent[p] >= 0 && s.parent[p] != p ==> s.plock[s.parent[p]] == -1
      case BecomeZombie(_) => s.plock[p] == -1
      case DeadLocked => true
      case _ => false
  }

  function At(s: State, p: nat, pc: Pc): State
    requires p < |s.pc|
  {
    s.(pc := s.pc[p := pc])
  }

  /** wakeup(x) as seen by x */
  function Waken(s: State, x: int): State {
    if 0 <= x < |s.pc| && s.pc[x].Asleep? then At(s, x, Woken) else s
  }

  /** freeproc(pp), recording what wait returns */
  function Reap(s: State, z: nat): State
    requires Shape(s) && z < |s.pc|
  {
    s.(pc := s.pc[z := Unused], parent := s.parent[z := -1], pid := s.pid[z := 0], xstate := s.xstate[z := 0],
       reaped := s.reaped[s.pid[z] := s.xstate[z]])
  }

  function RunWait(s: State, p: nat, fails: bool): State
    requires Shape(s) && p < |s.pc|
  {
    match s.pc[p]
    case WaitLk => At(s, p, Scan(0, false)).(wl := p)
    case Scan(k, kids) =>
      if k < |s.pc| then
        if s.parent[k] != p then At(s, p, Scan(k + 1, kids))
        else if !Zombie(s.pc[k]) then At(s, p, Scan(k + 1, true))
        else if fails then At(s, p, Out).(wl := -1)
        else At(Reap(s, k), p, Out).(wl := -1)
      else if !kids || fails then At(s, p, Out).(wl := -1)
      else At(s, p, SleepPlock)
    case SleepPlock => At(s, p, SleepRelease).(plock := s.plock[p := p])
    case SleepRelease => At(s, p, SleepMark).(wl := -1)
    case SleepMark => At(s, p, Asleep).(plock := s.plock[p := -1])
    case Woken => At(s, p, WaitLk)
    case _ => s
  }

  function RunExit(s: State, p: nat): State
    requires Shape(s) && p < |s.pc|
  {
    match s.pc[p]
    case ExitLk(st) => At(s, p, Reparent(0, st)).(wl := p)
    case Reparent(k, st) =>
      if k >= |s.pc| then At(s, p, WakeParent(st))
      else if s.parent[k] == p then At(s, p, WakeInit(k, st)).(parent := s.parent[k := 0])
      else At(s, p, Reparent(k + 1, st))
    case WakeInit(k, st) => At(Waken(s, 0), p, Reparent(k + 1, st))
    case WakeParent(st) => At(Waken(s, s.parent[p]), p, BecomeZombie(st))
    case BecomeZombie(st) =>
      At(s, p, DeadLocked).(plock := s.plock[p := p], xstate := s.xstate[p := st], wl := -1,
                            exited := s.exited[s.pid[p] := st])
    case DeadLocked => At(s, p, Dead).(plock := s.plock[p := -1])
    case _ => s
  }

  function RunFork(s: State, p: nat): State
    requires Shape(s) && p < |s.pc|
  {
    match s.pc[p]
    case ForkParent(q) => if q < |s.pc| then At(s, p, ForkRun(q)).(parent := s.parent[q := p]) else s
    case ForkRun(q) => if q < |s.pc| then At(At(s, q, Out), p, Out) else s
    case _ => s
  }

  predicate InWait(pc: Pc) {
    pc.WaitLk? || pc.Scan? || pc.SleepPlock? || pc.SleepRelease? || pc.SleepMark? || pc.Woken?
  }

  predicate InFork(pc: Pc) { pc.ForkParent? || pc.ForkRun? }

  function Next(s: State, a: Step): State
    requires Shape(s) && Enabled(s, a)
  {
    match a
    case Fork(p, q) => At(At(s, q, Used), p, ForkParent(q)).(pid := s.pid[q := s.nextpid], nextpid := s.nextpid + 1)
    case Wait(p) => At(s, p, WaitLk)
    case Exit(p, status) => At(s, p, ExitLk(status))
    case Kill(p) => At(s, p, Woken)
    case Run(p, fails) =>
      if InFork(s.pc[p]) then RunFork(s, p)
      else if InWait(s.pc[p]) then RunWait(s, p, fails)
      else RunExit(s, p)
  }

  // ---- invariants ----

  predicate WlHeld(s: State)
    requires Shape(s)
  {
    forall p :: 0 <= p < |s.pc| ==> (HoldsWl(s.pc[p]) <==> s.wl == p)
  }

  predicate PlocksHeld(s: State)
    requires Shape(s)
  {
    forall p :: 0 <= p < |s.pc| && (s.pc[p].SleepRelease? || s.pc[p].SleepMark? || s.pc[p].DeadLocked?) ==> s.plock[p] == p
  }

  /** A fork in progress has its own USED slot. */
  predicate Forks(s: State)
    requires Shape(s)
  {
    && (forall p :: 0 <= p < |s.pc| && InFork(s.pc[p]) ==> s.pc[p].q < |s.pc| && s.pc[s.pc[p].q].Used?)
    && (forall p, r :: 0 <= p < r < |s.pc| && InFork(s.pc[p]) && InFork(s.pc[r]) ==> s.pc[p].q != s.pc[r].q)
    && (forall q :: 0 <= q < |s.pc| && s.pc[q].Unused? ==> s.parent[q] == -1)
  }

  /** Which children an exiting process x may still have. */
  predicate MayHaveChild(pc: Pc, q: nat) {
    && Alive(pc) && !pc.WakeParent? && !pc.BecomeZombie?
    && (pc.Reparent? ==> pc.k <= q) && (pc.WakeInit? ==> pc.k < q)
  }

  /** Every process's parent is alive: children of an exited parent are init's. */
  predicate ParentsAlive(s: State)
    requires Shape(s)
  {
    && Alive(s.pc[0]) && (s.pc[0].Out? || InFork(s.pc[0]) || InWait(s.pc[0]) || s.pc[0].Asleep?)
    && (forall q :: 0 <= q < |s.pc| && s.parent[q] >= 0 ==> MayHaveChild(s.pc[s.parent[q]], q))
  }

  /** No waiter sleeps on a zombie child, save init while a reparenting exit is about to wake it. */
  predicate NoneMissed(s: State)
    requires Shape(s)
  {
    && (forall q :: 0 <= q < |s.pc| && Zombie(s.pc[q]) && s.parent[q] >= 0 ==> NotMissed(s, s.parent[q], q))
    && (s.wl != -1 && s.pc[s.wl].BecomeZombie? && s.parent[s.wl] >= 0 ==> !Sleeping(s.pc[s.parent[s.wl]]))
  }

  predicate NotMissed(s: State, p: nat, q: nat)
    requires Shape(s) && p < |s.pc|
  {
    && !s.pc[p].SleepPlock? && !s.pc[p].SleepRelease? && (s.pc[p].Scan? ==> s.pc[p].k <= q)
    && (Sleeping(s.pc[p]) ==> p == 0 && s.wl != -1 && s.pc[s.wl].WakeInit?)
  }

  /** pids are never reused; an exit's status waits in its zombie until it is reaped. */
  predicate Pids(s: State)
    requires Shape(s)
  {
    && (forall p :: 0 <= p < |s.pc| && !s.pc[p].Unused? ==> s.pid[p] < s.nextpid)
    && (forall p, q :: 0 <= p < q < |s.pc| && !s.pc[p].Unused? && !s.pc[q].Unused? ==> s.pid[p] != s.pid[q])
    && (forall p :: 0 <= p < |s.pc| && !s.pc[p].Unused? ==>
          if Zombie(s.pc[p]) then s.pid[p] in s.exited && s.exited[s.pid[p]] == s.xstate[p] && s.pid[p] !in s.reaped
          else s.pid[p] !in s.exited)
    && (forall d :: d in s.exited ==> d < s.nextpid)
    && (forall d :: d in s.reaped ==> d in s.exited && s.reaped[d] == s.exited[d])
  }

  ghost predicate HasZombie(s: State, d: nat)
    requires Shape(s)
  {
    exists q :: 0 <= q < |s.pc| && Zombie(s.pc[q]) && s.pid[q] == d
  }

  ghost predicate Unclaimed(s: State)
    requires Shape(s)
  {
    forall d :: d in s.exited && d !in s.reaped ==> HasZombie(s, d)
  }

  /** Everyone but init has a parent once fork is done with it. */
  predicate Raised(s: State)
    requires Shape(s)
  {
    && (forall q :: 0 < q < |s.pc| && !s.pc[q].Unused? && !s.pc[q].Used? ==> s.parent[q] >= 0)
    && (forall p :: 0 <= p < |s.pc| && s.pc[p].ForkRun? && s.pc[p].q < |s.pc| ==> s.parent[s.pc[p].q] >= 0)
  }

  /** After userinit: only initproc. */
  predicate Init(s: State) {
    && Shape(s) && s.pc[0].Out? && s.wl == -1 && s.exited == map[] && s.reaped == map[] && s.pid[0] < s.nextpid
    && (forall p :: 0 <= p < |s.pc| ==> s.plock[p] == -1 && s.parent[p] == -1)
    && (forall p :: 0 < p < |s.pc| ==> s.pc[p].Unused?)
  }

  ghost predicate Inv(s: State) {
    && Shape(s) && WlHeld(s) && PlocksHeld(s) && Forks(s) && ParentsAlive(s) && NoneMissed(s) && Pids(s)
    && Raised(s) && Unclaimed(s)
  }

  // ---- a process moving from one point to another, taking or dropping locks ----

  function Local(s: State, p: nat, b: Pc, wl: int, pl: int): State
    requires Shape(s) && p < |s.pc|
  {
    s.(pc := s.pc[p := b], wl := wl, plock := s.plock[p := pl])
  }

  lemma LocalWl(s: State, p: nat, b: Pc, wl: int, pl: int)
    requires Shape(s) && p < |s.pc| && WlHeld(s)
    requires wl == (if HoldsWl(b) then p else if s.wl == p then -1 else s.wl) && (HoldsWl(b) ==> s.wl == p || s.wl == -1)
    ensures Shape(Local(s, p, b, wl, pl)) && WlHeld(Local(s, p, b, wl, pl))
  {
  }

  lemma LocalPlocks(s: State, p: nat, b: Pc, wl: int, pl: int)
    requires Shape(s) && p < |s.pc| && PlocksHeld(s) && -1 <= wl < |s.pc|
    requires b.SleepRelease? || b.SleepMark? || b.DeadLocked? ==> pl == p
    ensures Shape(Local(s, p, b, wl, pl)) && PlocksHeld(Local(s, p, b, wl, pl))
  {
  }

  lemma LocalForks(s: State, p: nat, b: Pc, wl: int, pl: int)
    requires Shape(s) && p < |s.pc| && Forks(s) && -1 <= wl < |s.pc|
    requires !s.pc[p].Used? && !b.Unused? && !InFork(b)
    requires s.pc[p].Unused? ==> b.Used?
    ensures Shape(Local(s, p, b, wl, pl)) && Forks(Local(s, p, b, wl, pl))
  {
  }

  predicate InitPc(pc: Pc) { pc.Out? || InFork(pc) || InWait(pc) || pc.Asleep? }

  lemma LocalParents(s: State, p: nat, b: Pc, wl: int, pl: int)
    requires Shape(s) && p < |s.pc| && ParentsAlive(s) && -1 <= wl < |s.pc|
    requires p == 0 ==> InitPc(b)
    requires forall q :: 0 <= q < |s.pc| && s.parent[q] == p ==> MayHaveChild(b, q)
    ensures Shape(Local(s, p, b, wl, pl)) && ParentsAlive(Local(s, p, b, wl, pl))
  {
  }

  /** At b, p will still come to each of its zombie children or is not about to sleep. */
  predicate Watches(s: State, p: nat, b: Pc)
    requires Shape(s)
  {
    b.SleepPlock? || b.SleepRelease? || b.Scan? ==>
      forall q :: 0 <= q < |s.pc| && Zombie(s.pc[q]) && s.parent[q] == p ==> b.Scan? && b.k <= q
  }

  lemma LocalMissed(s: State, p: nat, b: Pc, wl: int, pl: int)
    requires Shape(s) && p < |s.pc| && NoneMissed(s) && WlHeld(s)
    requires wl == (if HoldsWl(b) then p else if s.wl == p then -1 else s.wl) && (HoldsWl(b) ==> s.wl == p || s.wl == -1)
    requires Zombie(b) ==> Zombie(s.pc[p])
    requires s.pc[p].WakeInit? ==> !Sleeping(s.pc[0])
    requires b.BecomeZombie? && s.parent[p] >= 0 ==> s.parent[p] != p && !Sleeping(s.pc[s.parent[p]])
    requires Sleeping(b) ==> Sleeping(s.pc[p]) || s.pc[p].SleepRelease?
    requires Watches(s, p, b)
    ensures Shape(Local(s, p, b, wl, pl)) && NoneMissed(Local(s, p, b, wl, pl))
  {
  }

  lemma LocalPids(s: State, p: nat, b: Pc, wl: int, pl: int)
    requires Shape(s) && p < |s.pc| && Pids(s) && -1 <= wl < |s.pc|
    requires !s.pc[p].Unused? && !b.Unused? && Zombie(s.pc[p]) == Zombie(b)
    ensures Shape(Local(s, p, b, wl, pl)) && Pids(Local(s, p, b, wl, pl))
  {
  }

  lemma LocalRaised(s: State, p: nat, b: Pc, wl: int, pl: int)
    requires Shape(s) && p < |s.pc| && Raised(s) && -1 <= wl < |s.pc|
    requires !s.pc[p].Unused? && !s.pc[p].Used? && !InFork(b)
    ensures Shape(Local(s, p, b, wl, pl)) && Raised(Local(s, p, b, wl, pl))
  {
  }

  lemma LocalUnclaimed(s: State, p: nat, b: Pc, wl: int, pl: int)
    requires Shape(s) && p < |s.pc| && Unclaimed(s) && -1 <= wl < |s.pc| && Zombie(s.pc[p]) == Zombie(b)
    ensures Shape(Local(s, p, b, wl, pl)) && Unclaimed(Local(s, p, b, wl, pl))
  {
    SameZombies(s, Local(s, p, b, wl, pl));
  }

  /** Unclaimed survives when each zombie stays or its pid is reaped. */
  lemma SameZombies(s: State, t: State)
    requires Shape(s) && Shape(t) && |s.pc| == |t.pc| && Unclaimed(s)
    requires forall q :: 0 <= q < |s.pc| && Zombie(s.pc[q]) ==> (Zombie(t.pc[q]) && t.pid[q] == s.pid[q]) || s.pid[q] in t.reaped
    requires forall d :: d in t.exited && d !in s.exited ==> HasZombie(t, d)
    requires forall d :: d in s.reaped ==> d in t.reaped
    ensures Unclaimed(t)
  {
    forall d | d in t.exited && d !in t.reaped ensures HasZombie(t, d) {
      if d in s.exited {
        var q :| 0 <= q < |s.pc| && Zombie(s.pc[q]) && s.pid[q] == d;
        assert Zombie(t.pc[q]) && t.pid[q] == d;
      }
    }
  }

  /** When a process may move on its own without breaking anything. */
  predicate Harmless(s: State, p: nat, b: Pc, wl: int, pl: int)
    requires Shape(s)
  {
    p < |s.pc| && LocksFit(s, p, b, wl, pl) && KinFit(s, p, b) && MoveFits(s, p, b) && Watches(s, p, b)
  }

  predicate LocksFit(s: State, p: nat, b: Pc, wl: int, pl: int)
    requires Shape(s) && p < |s.pc|
  {
    && wl == (if HoldsWl(b) then p else if s.wl == p then -1 else s.wl)
    && (HoldsWl(b) ==> s.wl == p || s.wl == -1)
    && (b.SleepRelease? || b.SleepMark? || b.DeadLocked? ==> pl == p)
  }

  predicate KinFit(s: State, p: nat, b: Pc)
    requires Shape(s) && p < |s.pc|
  {
    && (p == 0 ==> InitPc(b))
    && (forall q :: 0 <= q < |s.pc| && s.parent[q] == p ==> MayHaveChild(b, q))
  }

  predicate MoveFits(s: State, p: nat, b: Pc)
    requires Shape(s) && p < |s.pc|
  {
    && !s.pc[p].Used? && !s.pc[p].Unused? && !b.Unused? && !InFork(b) && Zombie(s.pc[p]) == Zombie(b)
    && (s.pc[p].WakeInit? ==> !Sleeping(s.pc[0]))
    && (b.BecomeZombie? && s.parent[p] >= 0 ==> s.parent[p] != p && !Sleeping(s.pc[s.parent[p]]))
    && (Sleeping(b) ==> Sleeping(s.pc[p]) || s.pc[p].SleepRelease?)
  }

  lemma LocalCore(s: State, p: nat, b: Pc, wl: int, pl: int)
    requires Inv(s) && Harmless(s, p, b, wl, pl)
    ensures Inv(Local(s, p, b, wl, pl))
  {
    hide WlHeld, PlocksHeld, Forks, ParentsAlive, NoneMissed, Pids, Raised, Unclaimed, Local, Watches;
    LocalWl(s, p, b, wl, pl);
    LocalPlocks(s, p, b, wl, pl);
    LocalForks(s, p, b, wl, pl);
    LocalParents(s, p, b, wl, pl);
    LocalMissed(s, p, b, wl, pl);
    LocalPids(s, p, b, wl, pl);
    LocalRaised(s, p, b, wl, pl);
    LocalUnclaimed(s, p, b, wl, pl);
  }

  lemma WakenCore(s: State, x: int)
    requires Inv(s) && (0 <= x < |s.pc| ==> s.plock[x] == -1)
    ensures Inv(Waken(s, x)) && |Waken(s, x).pc| == |s.pc|
    ensures 0 <= x < |s.pc| ==> !Sleeping(Waken(s, x).pc[x])
  {
    hide Forks, NoneMissed, Pids, Raised, Unclaimed;
    if 0 <= x < |s.pc| && s.pc[x].Asleep? {
      assert s.wl != x;
      LocalCore(s, x, Woken, s.wl, s.plock[x]);
      assert Local(s, x, Woken, s.wl, s.plock[x]) == Waken(s, x);
    }
  }

  /** wait's own moves, short of reaping */
  predicate Waits(s: State, p: nat, fails: bool) {
    && Shape(s) && Enabled(s, Run(p, fails)) && InWait(s.pc[p])
    && !(s.pc[p].Scan? && s.pc[p].k < |s.pc| && s.parent[s.pc[p].k] == p && Zombie(s.pc[s.pc[p].k]) && !fails)
  }

  lemma WaitIsLocal(s: State, p: nat, fails: bool)
    requires Waits(s, p, fails)
    ensures var t := RunWait(s, p, fails);
            |t.pc| == |t.plock| == |s.pc| && t == Local(s, p, t.pc[p], t.wl, t.plock[p])
  {
  }

  lemma WaitWatches(s: State, p: nat, fails: bool)
    requires Waits(s, p, fails) && NoneMissed(s)
    ensures |RunWait(s, p, fails).pc| == |s.pc| && Watches(s, p, RunWait(s, p, fails).pc[p])
  {
  }

  lemma WaitLocks(s: State, p: nat, fails: bool)
    requires Waits(s, p, fails) && WlHeld(s) && PlocksHeld(s)
    ensures var t := RunWait(s, p, fails);
            |t.pc| == |t.plock| == |s.pc| && LocksFit(s, p, t.pc[p], t.wl, t.plock[p])
  {
    hide Reap;
  }

  /** Neither exiting nor forking: free to have any children. */
  predicate Tame(pc: Pc) { pc.Out? || InWait(pc) || pc.Asleep? }

  lemma WaitMoves(s: State, p: nat, fails: bool)
    requires Waits(s, p, fails)
    ensures var t := RunWait(s, p, fails);
            |t.pc| == |s.pc| && Tame(t.pc[p]) && MoveFits(s, p, t.pc[p])
  {
    hide Reap;
  }

  lemma WaitCore(s: State, p: nat, fails: bool)
    requires Inv(s) && Waits(s, p, fails)
    ensures Inv(RunWait(s, p, fails))
  {
    hide LocksFit, MoveFits, Watches, Local, RunWait, WlHeld, PlocksHeld, Forks, ParentsAlive, NoneMissed, Pids, Raised, Unclaimed;
    var t := RunWait(s, p, fails);
    WaitIsLocal(s, p, fails);
    WaitLocks(s, p, fails);
    WaitMoves(s, p, fails);
    assert KinFit(s, p, t.pc[p]);
    WaitWatches(s, p, fails);
    LocalCore(s, p, t.pc[p], t.wl, t.plock[p]);
  }

  lemma CallCore(s: State, a: Step)
    requires Inv(s) && Enabled(s, a) && (a.Wait? || a.Exit? || a.Kill?)
    ensures Inv(Next(s, a))
  {
    hide PlocksHeld, Forks, NoneMissed, Pids, Raised, Unclaimed, Local;
    var t := Next(s, a);
    assert t == Local(s, a.p, t.pc[a.p], s.wl, s.plock[a.p]) by { CallIsLocal(s, a); }
    LocalCore(s, a.p, t.pc[a.p], s.wl, s.plock[a.p]);
  }

  lemma CallIsLocal(s: State, a: Step)
    requires Shape(s) && Enabled(s, a) && (a.Wait? || a.Exit? || a.Kill?)
    ensures |Next(s, a).pc| == |s.pc| && Next(s, a) == Local(s, a.p, Next(s, a).pc[a.p], s.wl, s.plock[a.p])
  {
  }

  // ---- exit ----

  /** exit's moves that touch nothing but the process itself */
  predicate Leaves(s: State, p: nat) {
    && Shape(s) && Enabled(s, Run(p, false))
    && (s.pc[p].ExitLk? || s.pc[p].DeadLocked? || (s.pc[p].Reparent? && (s.pc[p].k < |s.pc| ==> s.parent[s.pc[p].k] != p)))
  }

  lemma LeaveIsLocal(s: State, p: nat)
    requires Leaves(s, p)
    ensures var t := RunExit(s, p);
            |t.pc| == |t.plock| == |s.pc| && t == Local(s, p, t.pc[p], t.wl, t.plock[p])
  {
  }

  lemma LeaveFits(s: State, p: nat)
    requires Leaves(s, p) && WlHeld(s) && PlocksHeld(s)
    ensures var t := RunExit(s, p);
            && |t.pc| == |t.plock| == |s.pc| && LocksFit(s, p, t.pc[p], t.wl, t.plock[p])
            && MoveFits(s, p, t.pc[p]) && Watches(s, p, t.pc[p])
  {
  }

  lemma LeaveKin(s: State, p: nat)
    requires Leaves(s, p) && ParentsAlive(s)
    ensures |RunExit(s, p).pc| == |s.pc| && KinFit(s, p, RunExit(s, p).pc[p])
  {
  }

  lemma LeaveCore(s: State, p: nat)
    requires Inv(s) && Leaves(s, p)
    ensures Inv(RunExit(s, p))
  {
    hide LocksFit, KinFit, MoveFits, Watches, Local, RunExit, WlHeld, PlocksHeld, Forks, ParentsAlive, NoneMissed, Pids, Raised, Unclaimed;
    var t := RunExit(s, p);
    LeaveIsLocal(s, p);
    LeaveFits(s, p);
    LeaveKin(s, p);
    LocalCore(s, p, t.pc[p], t.wl, t.plock[p]);
  }

  lemma WakeCore(s: State, p: nat)
    requires Inv(s) && Enabled(s, Run(p, false)) && (s.pc[p].WakeInit? || s.pc[p].WakeParent?)
    ensures Inv(RunExit(s, p))
  {
    hide PlocksHeld, Forks, NoneMissed, Pids, Raised, Unclaimed, Local, Waken;
    var x := if s.pc[p].WakeInit? then 0 else s.parent[p];
    assert x != p;
    WakenCore(s, x);
    WakenElse(s, x, p);
    var w := Waken(s, x);
    var t := RunExit(s, p);
    assert t == At(w, p, t.pc[p]);
    LocalCore(w, p, t.pc[p], w.wl, w.plock[p]);
    assert Local(w, p, t.pc[p], w.wl, w.plock[p]) == t by { AtIsLocal(w, p, t.pc[p]); }
  }

  lemma WakenElse(s: State, x: int, p: nat)
    requires Shape(s) && p < |s.pc| && x != p
    ensures var w := Waken(s, x); Shape(w) && w.(pc := s.pc) == s && |w.pc| == |s.pc| && w.pc[p] == s.pc[p]
  {
  }

  lemma AtIsLocal(s: State, p: nat, b: Pc)
    requires Shape(s) && p < |s.pc|
    ensures Local(s, p, b, s.wl, s.plock[p]) == At(s, p, b)
  {
  }

  /** reparent found a child */
  predicate Adopts(s: State, p: nat) {
    Shape(s) && p < |s.pc| && s.pc[p].Reparent? && s.pc[p].k < |s.pc| && s.parent[s.pc[p].k] == p
  }

  lemma AdoptLocks(s: State, p: nat)
    requires Adopts(s, p) && WlHeld(s) && PlocksHeld(s)
    ensures var t := RunExit(s, p); Shape(t) && WlHeld(t) && PlocksHeld(t)
  {
  }

  lemma AdoptForks(s: State, p: nat)
    requires Adopts(s, p) && Forks(s)
    ensures var t := RunExit(s, p); Shape(t) && Forks(t)
  {
  }

  lemma AdoptKin(s: State, p: nat)
    requires Adopts(s, p) && ParentsAlive(s)
    ensures var t := RunExit(s, p); Shape(t) && ParentsAlive(t)
  {
  }

  lemma AdoptMissed(s: State, p: nat)
    requires Adopts(s, p) && WlHeld(s) && NoneMissed(s) && ParentsAlive(s)
    ensures var t := RunExit(s, p); Shape(t) && NoneMissed(t)
  {
  }

  lemma AdoptPids(s: State, p: nat)
    requires Adopts(s, p) && Pids(s)
    ensures var t := RunExit(s, p); Shape(t) && Pids(t)
  {
  }

  lemma AdoptRaised(s: State, p: nat)
    requires Adopts(s, p) && Raised(s) && Forks(s)
    ensures var t := RunExit(s, p); Shape(t) && Raised(t)
  {
  }

  lemma AdoptUnclaimed(s: State, p: nat)
    requires Adopts(s, p) && Unclaimed(s)
    ensures var t := RunExit(s, p); Shape(t) && Unclaimed(t)
  {
    SameZombies(s, RunExit(s, p));
  }

  lemma AdoptCore(s: State, p: nat)
    requires Inv(s) && Adopts(s, p)
    ensures Inv(RunExit(s, p))
  {
    hide RunExit, WlHeld, PlocksHeld, Forks, ParentsAlive, NoneMissed, Pids, Raised, Unclaimed;
    AdoptLocks(s, p);
    AdoptForks(s, p);
    AdoptKin(s, p);
    AdoptMissed(s, p);
    AdoptPids(s, p);
    AdoptRaised(s, p);
    AdoptUnclaimed(s, p);
  }

  /** The process becomes a zombie. */
  predicate Dies(s: State, p: nat) {
    Shape(s) && p < |s.pc| && s.pc[p].BecomeZombie? && s.plock[p] == -1
  }

  lemma DieLocks(s: State, p: nat)
    requires Dies(s, p) && WlHeld(s) && PlocksHeld(s)
    ensures var t := RunExit(s, p); Shape(t) && WlHeld(t) && PlocksHeld(t)
  {
  }

  lemma DieForks(s: State, p: nat)
    requires Dies(s, p) && Forks(s)
    ensures var t := RunExit(s, p); Shape(t) && Forks(t)
  {
  }

  lemma DieKin(s: State, p: nat)
    requires Dies(s, p) && ParentsAlive(s)
    ensures var t := RunExit(s, p); Shape(t) && ParentsAlive(t)
  {
  }

  lemma DieMissed(s: State, p: nat)
    requires Dies(s, p) && WlHeld(s) && NoneMissed(s) && ParentsAlive(s)
    ensures var t := RunExit(s, p); Shape(t) && NoneMissed(t)
  {
  }

  lemma DiePids(s: State, p: nat)
    requires Dies(s, p) && Pids(s)
    ensures var t := RunExit(s, p); Shape(t) && Pids(t)
  {
  }

  lemma DieRaised(s: State, p: nat)
    requires Dies(s, p) && Raised(s)
    ensures var t := RunExit(s, p); Shape(t) && Raised(t)
  {
  }

  lemma DieUnclaimed(s: State, p: nat)
    requires Dies(s, p) && Unclaimed(s)
    ensures var t := RunExit(s, p); Shape(t) && Unclaimed(t)
  {
    assert Zombie(RunExit(s, p).pc[p]) && RunExit(s, p).pid[p] == s.pid[p];
    SameZombies(s, RunExit(s, p));
  }

  lemma DieCore(s: State, p: nat)
    requires Inv(s) && Dies(s, p)
    ensures Inv(RunExit(s, p))
  {
    hide RunExit, WlHeld, PlocksHeld, Forks, ParentsAlive, NoneMissed, Pids, Raised, Unclaimed;
    DieLocks(s, p);
    DieForks(s, p);
    DieKin(s, p);
    DieMissed(s, p);
    DiePids(s, p);
    DieRaised(s, p);
    DieUnclaimed(s, p);
  }

  // ---- wait finds a zombie child ----

  predicate Reaps(s: State, p: nat) {
    && Shape(s) && p < |s.pc| && s.pc[p].Scan? && s.pc[p].k < |s.pc| && s.parent[s.pc[p].k] == p
    && Zombie(s.pc[s.pc[p].k]) && s.plock[s.pc[p].k] == -1
  }

  function ReapedBy(s: State, p: nat): State
    requires Reaps(s, p)
  {
    var z := s.pc[p].k;
    s.(pc := s.pc[z := Unused][p := Out], parent := s.parent[z := -1], pid := s.pid[z := 0], xstate := s.xstate[z := 0],
       reaped := s.reaped[s.pid[z] := s.xstate[z]], wl := -1)
  }

  lemma ReapIs(s: State, p: nat)
    requires Reaps(s, p)
    ensures RunWait(s, p, false) == ReapedBy(s, p)
  {
  }

  lemma ReapLocks(s: State, p: nat)
    requires Reaps(s, p) && WlHeld(s) && PlocksHeld(s)
    ensures var t := ReapedBy(s, p); Shape(t) && WlHeld(t) && PlocksHeld(t)
  {
  }

  lemma ReapForks(s: State, p: nat)
    requires Reaps(s, p) && Forks(s)
    ensures var t := ReapedBy(s, p); Shape(t) && Forks(t)
  {
  }

  lemma ReapKin(s: State, p: nat)
    requires Reaps(s, p) && ParentsAlive(s)
    ensures var t := ReapedBy(s, p); Shape(t) && ParentsAlive(t)
  {
  }

  lemma ReapMissed(s: State, p: nat)
    requires Reaps(s, p) && WlHeld(s) && NoneMissed(s)
    ensures var t := ReapedBy(s, p); Shape(t) && NoneMissed(t)
  {
  }

  lemma ReapPids(s: State, p: nat)
    requires Reaps(s, p) && Pids(s)
    ensures var t := ReapedBy(s, p); Shape(t) && Pids(t)
  {
  }

  lemma ReapRaised(s: State, p: nat)
    requires Reaps(s, p) && Raised(s) && Forks(s)
    ensures var t := ReapedBy(s, p); Shape(t) && Raised(t)
  {
  }

  lemma ReapUnclaimed(s: State, p: nat)
    requires Reaps(s, p) && Unclaimed(s)
    ensures var t := ReapedBy(s, p); Shape(t) && Unclaimed(t)
  {
    SameZombies(s, ReapedBy(s, p));
  }

  lemma ReapCore(s: State, p: nat)
    requires Inv(s) && Reaps(s, p)
    ensures Inv(RunWait(s, p, false))
  {
    hide RunWait, ReapedBy, WlHeld, PlocksHeld, Forks, ParentsAlive, NoneMissed, Pids, Raised, Unclaimed;
    ReapIs(s, p);
    ReapLocks(s, p);
    ReapForks(s, p);
    ReapKin(s, p);
    ReapMissed(s, p);
    ReapPids(s, p);
    ReapRaised(s, p);
    ReapUnclaimed(s, p);
  }

  // ---- fork ----

  function Allocated(s: State, p: nat, q: nat): State
    requires Shape(s) && Enabled(s, Fork(p, q))
  {
    Next(s, Fork(p, q))
  }

  predicate Allocs(s: State, p: nat, q: nat) { Shape(s) && Enabled(s, Fork(p, q)) }

  lemma AllocLocks(s: State, p: nat, q: nat)
    requires Allocs(s, p, q) && WlHeld(s) && PlocksHeld(s)
    ensures var t := Allocated(s, p, q); Shape(t) && WlHeld(t) && PlocksHeld(t)
  {
  }

  lemma AllocForks(s: State, p: nat, q: nat)
    requires Allocs(s, p, q) && Forks(s)
    ensures var t := Allocated(s, p, q); Shape(t) && Forks(t)
  {
  }

  lemma AllocKin(s: State, p: nat, q: nat)
    requires Allocs(s, p, q) && ParentsAlive(s)
    ensures var t := Allocated(s, p, q); Shape(t) && ParentsAlive(t)
  {
  }

  lemma AllocMissed(s: State, p: nat, q: nat)
    requires Allocs(s, p, q) && WlHeld(s) && NoneMissed(s)
    ensures var t := Allocated(s, p, q); Shape(t) && NoneMissed(t)
  {
  }

  lemma AllocPids(s: State, p: nat, q: nat)
    requires Allocs(s, p, q) && Pids(s)
    ensures var t := Allocated(s, p, q); Shape(t) && Pids(t)
  {
  }

  lemma AllocRaised(s: State, p: nat, q: nat)
    requires Allocs(s, p, q) && Raised(s) && Forks(s)
    ensures var t := Allocated(s, p, q); Shape(t) && Raised(t)
  {
  }

  lemma AllocUnclaimed(s: State, p: nat, q: nat)
    requires Allocs(s, p, q) && Unclaimed(s)
    ensures var t := Allocated(s, p, q); Shape(t) && Unclaimed(t)
  {
    SameZombies(s, Allocated(s, p, q));
  }

  lemma AllocCore(s: State, p: nat, q: nat)
    requires Inv(s) && Allocs(s, p, q)
    ensures Inv(Allocated(s, p, q))
  {
    hide Allocated, WlHeld, PlocksHeld, Forks, ParentsAlive, NoneMissed, Pids, Raised, Unclaimed;
    AllocLocks(s, p, q);
    AllocForks(s, p, q);
    AllocKin(s, p, q);
    AllocMissed(s, p, q);
    AllocPids(s, p, q);
    AllocRaised(s, p, q);
    AllocUnclaimed(s, p, q);
  }

  lemma ForkSlot(s: State, p: nat)
    requires Shape(s) && Forks(s) && p < |s.pc| && InFork(s.pc[p])
    ensures s.pc[p].q < |s.pc| && s.pc[s.pc[p].q].Used?
  {
  }

  /** fork makes itself the parent of its new child. */
  predicate Names(s: State, p: nat) { Shape(s) && p < |s.pc| && s.pc[p].ForkParent? && s.wl == -1 }

  lemma NameLocks(s: State, p: nat)
    requires Names(s, p) && WlHeld(s) && PlocksHeld(s) && s.pc[p].q < |s.pc| && s.pc[s.pc[p].q].Used?
    ensures var t := RunFork(s, p); Shape(t) && WlHeld(t) && PlocksHeld(t)
  {
  }

  lemma NameForks(s: State, p: nat)
    requires Names(s, p) && Forks(s)
    ensures var t := RunFork(s, p); Shape(t) && Forks(t)
  {
  }

  lemma NameKin(s: State, p: nat)
    requires Names(s, p) && ParentsAlive(s) && s.pc[p].q < |s.pc| && s.pc[s.pc[p].q].Used?
    ensures var t := RunFork(s, p); Shape(t) && ParentsAlive(t)
  {
  }

  lemma NameMissed(s: State, p: nat)
    requires Names(s, p) && WlHeld(s) && NoneMissed(s) && s.pc[p].q < |s.pc| && s.pc[s.pc[p].q].Used?
    ensures var t := RunFork(s, p); Shape(t) && NoneMissed(t)
  {
  }

  lemma NamePids(s: State, p: nat)
    requires Names(s, p) && Pids(s) && s.pc[p].q < |s.pc| && s.pc[s.pc[p].q].Used?
    ensures var t := RunFork(s, p); Shape(t) && Pids(t)
  {
  }

  lemma NameRaised(s: State, p: nat)
    requires Names(s, p) && Raised(s) && s.pc[p].q < |s.pc| && s.pc[s.pc[p].q].Used?
    ensures var t := RunFork(s, p); Shape(t) && Raised(t)
  {
  }

  lemma NameUnclaimed(s: State, p: nat)
    requires Names(s, p) && Unclaimed(s) && s.pc[p].q < |s.pc| && s.pc[s.pc[p].q].Used?
    ensures var t := RunFork(s, p); Shape(t) && Unclaimed(t)
  {
    SameZombies(s, RunFork(s, p));
  }

  lemma NameCore(s: State, p: nat)
    requires Inv(s) && Names(s, p)
    ensures Inv(RunFork(s, p))
  {
    hide RunFork, WlHeld, PlocksHeld, Forks, ParentsAlive, NoneMissed, Pids, Raised, Unclaimed;
    ForkSlot(s, p);
    NameLocks(s, p);
    NameForks(s, p);
    NameKin(s, p);
    NameMissed(s, p);
    NamePids(s, p);
    NameRaised(s, p);
    NameUnclaimed(s, p);
  }

  /** fork makes the child runnable. */
  predicate Starts(s: State, p: nat) { Shape(s) && p < |s.pc| && s.pc[p].ForkRun? }

  lemma StartLocks(s: State, p: nat)
    requires Starts(s, p) && WlHeld(s) && PlocksHeld(s) && s.pc[p].q < |s.pc| && s.pc[s.pc[p].q].Used?
    ensures var t := RunFork(s, p); Shape(t) && WlHeld(t) && PlocksHeld(t)
  {
  }

  lemma UsedGoes(s: State, q: nat)
    requires Shape(s) && Forks(s) && q < |s.pc| && s.pc[q].Used?
    requires forall r :: 0 <= r < |s.pc| && InFork(s.pc[r]) ==> s.pc[r].q != q
    ensures Shape(At(s, q, Out)) && Forks(At(s, q, Out))
  {
  }

  lemma StartForks(s: State, p: nat)
    requires Starts(s, p) && Forks(s)
    ensures var t := RunFork(s, p); Shape(t) && Forks(t)
  {
    hide Forks;
    var q := s.pc[p].q;
    ForkSlot(s, p);
    var m := Local(s, p, Out, s.wl, s.plock[p]);
    LocalForks(s, p, Out, s.wl, s.plock[p]);
    OtherForks(s, p);
    UsedGoes(m, q);
    assert RunFork(s, p) == At(m, q, Out);
  }

  lemma OtherForks(s: State, p: nat)
    requires Shape(s) && Forks(s) && p < |s.pc| && InFork(s.pc[p])
    ensures forall r :: 0 <= r < |s.pc| && r != p && InFork(s.pc[r]) ==> s.pc[r].q != s.pc[p].q
  {
  }

  lemma StartKin(s: State, p: nat)
    requires Starts(s, p) && ParentsAlive(s) && s.pc[p].q < |s.pc| && s.pc[s.pc[p].q].Used?
    ensures var t := RunFork(s, p); Shape(t) && ParentsAlive(t)
  {
  }

  lemma StartMissed(s: State, p: nat)
    requires Starts(s, p) && WlHeld(s) && NoneMissed(s) && s.pc[p].q < |s.pc| && s.pc[s.pc[p].q].Used?
    ensures var t := RunFork(s, p); Shape(t) && NoneMissed(t)
  {
    hide NoneMissed;
    var q := s.pc[p].q;
    var m := Local(s, q, Out, s.wl, s.plock[q]);
    LocalMissed(s, q, Out, s.wl, s.plock[q]);
    LocalWl(s, q, Out, s.wl, s.plock[q]);
    LocalMissed(m, p, Out, s.wl, m.plock[p]);
    assert RunFork(s, p) == Local(m, p, Out, s.wl, m.plock[p]);
  }

  lemma StartPids(s: State, p: nat)
    requires Starts(s, p) && Pids(s) && s.pc[p].q < |s.pc| && s.pc[s.pc[p].q].Used?
    ensures var t := RunFork(s, p); Shape(t) && Pids(t)
  {
    hide Pids;
    var q := s.pc[p].q;
    var m := Local(s, q, Out, s.wl, s.plock[q]);
    LocalPids(s, q, Out, s.wl, s.plock[q]);
    LocalPids(m, p, Out, s.wl, m.plock[p]);
    assert RunFork(s, p) == Local(m, p, Out, s.wl, m.plock[p]);
  }

  lemma StartRaised(s: State, p: nat)
    requires Starts(s, p) && Raised(s) && s.pc[p].q < |s.pc| && s.pc[s.pc[p].q].Used?
    ensures var t := RunFork(s, p); Shape(t) && Raised(t)
  {
  }

  lemma StartUnclaimed(s: State, p: nat)
    requires Starts(s, p) && Unclaimed(s) && s.pc[p].q < |s.pc| && s.pc[s.pc[p].q].Used?
    ensures var t := RunFork(s, p); Shape(t) && Unclaimed(t)
  {
    SameZombies(s, RunFork(s, p));
  }

  lemma StartCore(s: State, p: nat)
    requires Inv(s) && Starts(s, p)
    ensures Inv(RunFork(s, p))
  {
    hide RunFork, WlHeld, PlocksHeld, Forks, ParentsAlive, NoneMissed, Pids, Raised, Unclaimed;
    ForkSlot(s, p);
    StartLocks(s, p);
    StartForks(s, p);
    StartKin(s, p);
    StartMissed(s, p);
    StartPids(s, p);
    StartRaised(s, p);
    StartUnclaimed(s, p);
  }

  // ---- every step ----

  lemma StepCore(s: State, a: Step)
    requires Inv(s) && Enabled(s, a)
    ensures Inv(Next(s, a))
  {
    hide WlHeld, PlocksHeld, Forks, ParentsAlive, NoneMissed, Pids, Raised, Unclaimed, RunWait, RunExit, RunFork;
    match a
    case Fork(p, q) => AllocCore(s, p, q);
    case Wait(_) => CallCore(s, a);
    case Exit(_, _) => CallCore(s, a);
    case Kill(_) => CallCore(s, a);
    case Run(p, fails) => RunCore(s, p, fails);
  }

  lemma RunCore(s: State, p: nat, fails: bool)
    requires Inv(s) && Enabled(s, Run(p, fails))
    ensures Inv(Next(s, Run(p, fails)))
  {
    hide WlHeld, PlocksHeld, Forks, ParentsAlive, NoneMissed, Pids, Raised, Unclaimed, RunWait, RunExit, RunFork;
    if s.pc[p].ForkParent? {
      NameCore(s, p);
    } else if s.pc[p].ForkRun? {
      StartCore(s, p);
    } else if InWait(s.pc[p]) {
      if Waits(s, p, fails) { WaitCore(s, p, fails); } else { ReapCore(s, p); }
    } else if s.pc[p].WakeInit? || s.pc[p].WakeParent? {
      WakeCore(s, p);
    } else if s.pc[p].BecomeZombie? {
      DieCore(s, p);
    } else if Adopts(s, p) {
      AdoptCore(s, p);
    } else {
      LeaveCore(s, p);
    }
  }

  // ---- whole runs ----

  predicate History(states: seq<State>, steps: seq<Step>) {
    && |states| == |steps| + 1 && Init(states[0])
    && (forall i :: 0 <= i < |steps| ==> Shape(states[i]) && Enabled(states[i], steps[i]) && states[i + 1] == Next(states[i], steps[i]))
  }

  lemma InitInv(s: State)
    requires Init(s)
    ensures Inv(s)
  {
  }

  lemma {:induction false} RunInv(states: seq<State>, steps: seq<Step>, i: nat)
    requires History(states, steps) && i < |states|
    ensures Inv(states[i])
  {
    hide Inv, Next;
    if i == 0 {
      InitInv(states[0]);
    } else {
      RunInv(states, steps, i - 1);
      StepCore(states[i - 1], steps[i - 1]);
    }
  }

  /** No exit is missed: with wait_lock free, nobody sleeps in wait while having a zombie child. */
  lemma NoMissedExit(states: seq<State>, steps: seq<Step>, i: nat, p: nat, q: nat)
    requires History(states, steps) && i < |states| && p < |states[i].pc| && q < |states[i].pc| == |states[i].parent|
    requires states[i].wl == -1 && Zombie(states[i].pc[q]) && states[i].parent[q] == p
    ensures !Sleeping(states[i].pc[p])
  {
    hide History, Next, WlHeld, PlocksHeld, Forks, ParentsAlive, Pids, Raised, Unclaimed;
    RunInv(states, steps, i);
    assert NoneMissed(states[i]);
  }

  /** Every process but init, zombies included, has a parent that has not exited. */
  lemma ParentLives(states: seq<State>, steps: seq<Step>, i: nat, q: nat)
    requires History(states, steps) && i < |states| && 0 < q < |states[i].pc|
    requires Alive(states[i].pc[q]) || Zombie(states[i].pc[q])
    ensures |states[i].parent| == |states[i].pc| && 0 <= states[i].parent[q] < |states[i].pc|
    ensures Alive(states[i].pc[states[i].parent[q]])
  {
    hide History, Next, WlHeld, PlocksHeld, Forks, NoneMissed, Pids, Unclaimed;
    RunInv(states, steps, i);
  }

  /** Each exit's status reaches wait at most once and unchanged; until then it stays in a zombie. */
  lemma ExitAccounting(states: seq<State>, steps: seq<Step>, i: nat, d: nat)
    requires History(states, steps) && i < |states| && Shape(states[i])
    ensures d in states[i].reaped ==> d in states[i].exited && states[i].reaped[d] == states[i].exited[d]
    ensures d in states[i].exited && d !in states[i].reaped ==> HasZombie(states[i], d)
  {
    hide History, Next, WlHeld, PlocksHeld, Forks, NoneMissed, ParentsAlive, Raised;
    RunInv(states, steps, i);
  }

  /** wait frees only a process that is off its stack, and hands over a pid never handed over before. */
  lemma ReapFresh(states: seq<State>, steps: seq<Step>, i: nat, z: nat)
    requires History(states, steps) && i < |steps| && Shape(states[i]) && Shape(states[i + 1]) && |states[i].pc| == |states[i + 1].pc|
    requires z < |states[i].pc| && !states[i].pc[z].Unused? && states[i + 1].pc[z].Unused?
    ensures states[i].pc[z].Dead? && states[i].pid[z] !in states[i].reaped && steps[i].Run? && states[i].parent[z] == steps[i].p
    ensures states[i].pid[z] in states[i].exited
    ensures states[i + 1].reaped == states[i].reaped[states[i].pid[z] := states[i].exited[states[i].pid[z]]]
  {
    RunInv(states, steps, i);
    FreedByWait(states[i], steps[i], z);
  }

  lemma FreedByWait(s: State, a: Step, z: nat)
    requires Shape(s) && Enabled(s, a) && z < |s.pc| == |Next(s, a).pc| && PlocksHeld(s)
    requires !s.pc[z].Unused? && Next(s, a).pc[z].Unused?
    ensures a.Run? && s.pc[z].Dead? && s.parent[z] == a.p && Next(s, a).reaped == s.reaped[s.pid[z] := s.xstate[z]]
  {
    hide RunWait, RunExit, RunFork, PlocksHeld;
    if a.Run? && !InWait(s.pc[a.p]) {
      ExitKeepsSlots(s, a.p, z);
      ForkKeepsSlots(s, a.p, z);
    } else if a.Run? {
      WaitFrees(s, a.p, a.fails, z);
    }
  }

  lemma AtKeepsSlots(s: State, p: nat, b: Pc, z: nat)
    requires p < |s.pc| && z < |s.pc| && !s.pc[z].Unused? && !b.Unused?
    ensures |At(s, p, b).pc| == |s.pc| && !At(s, p, b).pc[z].Unused?
  {
  }

  lemma ExitKeepsSlots(s: State, p: nat, z: nat)
    requires Shape(s) && p < |s.pc| && z < |s.pc| && !s.pc[z].Unused?
    ensures z < |RunExit(s, p).pc| && !RunExit(s, p).pc[z].Unused?
  {
    hide At;
    match s.pc[p]
    case ExitLk(st) => AtKeepsSlots(s, p, Reparent(0, st), z);
    case Reparent(k, st) =>
      AtKeepsSlots(s, p, WakeParent(st), z);
      AtKeepsSlots(s, p, WakeInit(k, st), z);
      AtKeepsSlots(s, p, Reparent(k + 1, st), z);
    case WakeInit(k, st) =>
      AtKeepsSlots(s, 0, Woken, z);
      AtKeepsSlots(Waken(s, 0), p, Reparent(k + 1, st), z);
    case WakeParent(st) =>
      if 0 <= s.parent[p] < |s.pc| { AtKeepsSlots(s, s.parent[p], Woken, z); }
      AtKeepsSlots(Waken(s, s.parent[p]), p, BecomeZombie(st), z);
    case BecomeZombie(_) => AtKeepsSlots(s, p, DeadLocked, z);
    case DeadLocked => AtKeepsSlots(s, p, Dead, z);
    case _ =>
  }

  lemma ForkKeepsSlots(s: State, p: nat, z: nat)
    requires Shape(s) && p < |s.pc| && z < |s.pc| && !s.pc[z].Unused?
    ensures z < |RunFork(s, p).pc| && !RunFork(s, p).pc[z].Unused?
  {
  }

  lemma WaitFrees(s: State, p: nat, fails: bool, z: nat)
    requires Shape(s) && Enabled(s, Run(p, fails)) && InWait(s.pc[p]) && z < |s.pc| == |RunWait(s, p, fails).pc| && PlocksHeld(s)
    requires !s.pc[z].Unused? && RunWait(s, p, fails).pc[z].Unused?
    ensures s.pc[z].Dead? && s.parent[z] == p && RunWait(s, p, fails).reaped == s.reaped[s.pid[z] := s.xstate[z]]
  {
  }

  // ---- who a process's parent has been ----

  /** What a step may do to the slot q of a process that is past fork. */
  predicate Follows(s: State, t: State, q: nat)
    requires Shape(s) && Shape(t) && q < |s.pc| == |t.pc|
  {
    && s.nextpid <= t.nextpid
    && (!t.pc[q].Unused? ==> if s.pc[q].Unused? then t.pid[q] == s.nextpid else t.pid[q] == s.pid[q])
    && (!s.pc[q].Unused? && !s.pc[q].Used? && !t.pc[q].Unused? ==> !t.pc[q].Used? && (t.parent[q] == s.parent[q] || t.parent[q] == 0))
  }

  lemma ExitFollows(s: State, p: nat, q: nat)
    requires Shape(s) && p < |s.pc| && q < |s.pc| && !s.pc[p].Unused? && !s.pc[p].Used? && Shape(RunExit(s, p)) && |RunExit(s, p).pc| == |s.pc|
    ensures Follows(s, RunExit(s, p), q)
  {
    hide At;
    match s.pc[p]
    case ExitLk(st) => AtElse(s, p, Reparent(0, st), q);
    case Reparent(k, st) =>
      AtElse(s, p, WakeParent(st), q);
      AtElse(s, p, WakeInit(k, st), q);
      AtElse(s, p, Reparent(k + 1, st), q);
    case WakeInit(_, _) => WakerFollows(s, p, q);
    case WakeParent(_) => WakerFollows(s, p, q);
    case BecomeZombie(_) => AtElse(s, p, DeadLocked, q);
    case DeadLocked => AtElse(s, p, Dead, q);
    case _ =>
  }

  lemma WakerFollows(s: State, p: nat, q: nat)
    requires Shape(s) && p < |s.pc| && q < |s.pc| && (s.pc[p].WakeInit? || s.pc[p].WakeParent?)
    requires Shape(RunExit(s, p)) && |RunExit(s, p).pc| == |s.pc|
    ensures Follows(s, RunExit(s, p), q)
  {
    hide At;
    match s.pc[p]
    case WakeInit(k, st) =>
      if s.pc[0].Asleep? { AtElse(s, 0, Woken, q); }
      AtElse(Waken(s, 0), p, Reparent(k + 1, st), q);
    case WakeParent(st) =>
      if 0 <= s.parent[p] < |s.pc| && s.pc[s.parent[p]].Asleep? { AtElse(s, s.parent[p], Woken, q); }
      AtElse(Waken(s, s.parent[p]), p, BecomeZombie(st), q);
  }

  lemma AtElse(s: State, p: nat, b: Pc, q: nat)
    requires p < |s.pc| && q < |s.pc| && !b.Unused? && !b.Used?
    ensures At(s, p, b).(pc := s.pc) == s && |At(s, p, b).pc| == |s.pc| && At(s, p, b).pc[q] == if q == p then b else s.pc[q]
  {
  }

  lemma WaitFollows(s: State, p: nat, fails: bool, q: nat)
    requires Shape(s) && Enabled(s, Run(p, fails)) && q < |s.pc| && InWait(s.pc[p])
    requires Shape(RunWait(s, p, fails)) && |RunWait(s, p, fails).pc| == |s.pc|
    ensures Follows(s, RunWait(s, p, fails), q)
  {
    hide RunWait;
    if Waits(s, p, fails) {
      WaitIsLocal(s, p, fails);
      WaitMoves(s, p, fails);
    } else {
      ReapIs(s, p);
    }
  }

  lemma ForkFollows(s: State, p: nat, q: nat)
    requires Shape(s) && p < |s.pc| && q < |s.pc| && InFork(s.pc[p]) && Forks(s) && Shape(RunFork(s, p)) && |RunFork(s, p).pc| == |s.pc|
    ensures Follows(s, RunFork(s, p), q)
  {
    ForkSlot(s, p);
  }

  lemma StepFollows(s: State, a: Step, q: nat)
    requires Shape(s) && Forks(s) && Enabled(s, a) && q < |s.pc| == |Next(s, a).pc| && Shape(Next(s, a))
    ensures Follows(s, Next(s, a), q)
  {
    hide RunWait, RunExit, RunFork, Forks;
    if a.Run? {
      if InFork(s.pc[a.p]) { ForkFollows(s, a.p, q); }
      else if InWait(s.pc[a.p]) { WaitFollows(s, a.p, a.fails, q); }
      else { ExitFollows(s, a.p, q); }
    }
  }

  /** A pid names one process for the whole run: whoever has it now had it at every moment since it was given out. */
  lemma {:induction false} SamePid(states: seq<State>, steps: seq<Step>, i: nat, j: nat, q: nat, m: nat)
    requires History(states, steps) && i <= m <= j < |states| && Shape(states[i]) && Shape(states[j])
    requires q < |states[i].pc| && q < |states[j].pc| && !states[j].pc[q].Unused? && states[j].pid[q] < states[i].nextpid
    ensures Shape(states[m]) && |states[m].pc| == |states[j].pc| && !states[m].pc[q].Unused? && states[m].pid[q] == states[j].pid[q]
    ensures states[i].nextpid <= states[m].nextpid
    decreases j - m
  {
    hide Next, Enabled, WlHeld, PlocksHeld, Forks, ParentsAlive, NoneMissed, Pids, Raised, Unclaimed, Follows;
    RunInv(states, steps, j);
    RunInv(states, steps, m);
    NextpidGrows(states, steps, i, m);
    NextpidGrows(states, steps, m, j);
    if m < j {
      SamePid(states, steps, i, j, q, m + 1);
      RunInv(states, steps, m + 1);
      StepFollows(states[m], steps[m], q);
      FollowsBack(states[m], states[m + 1], q);
    }
  }

  lemma FollowsBack(s: State, t: State, q: nat)
    requires Shape(s) && Shape(t) && q < |s.pc| == |t.pc| && Follows(s, t, q) && !t.pc[q].Unused? && t.pid[q] < s.nextpid
    ensures !s.pc[q].Unused? && t.pid[q] == s.pid[q]
  {
  }

  lemma {:induction false} NextpidGrows(states: seq<State>, steps: seq<Step>, i: nat, j: nat)
    requires History(states, steps) && i <= j < |states|
    ensures Shape(states[i]) && Shape(states[j]) && |states[i].pc| == |states[j].pc| && states[i].nextpid <= states[j].nextpid
    decreases j - i
  {
    hide Next, Enabled, WlHeld, PlocksHeld, Forks, ParentsAlive, NoneMissed, Pids, Raised, Unclaimed;
    RunInv(states, steps, j);
    if i < j {
      NextpidGrows(states, steps, i, j - 1);
      RunInv(states, steps, j - 1);
      SameSlots(states[j - 1], steps[j - 1]);
      StepFollows(states[j - 1], steps[j - 1], 0);
    }
  }

  lemma SameSlots(s: State, a: Step)
    requires Shape(s) && Enabled(s, a)
    ensures |Next(s, a).pc| == |s.pc|
  {
    hide RunWait, RunExit, RunFork, Shape;
    if a.Run? {
      WaitSlots(s, a.p, a.fails);
      ExitSlots(s, a.p);
      ForkSlots(s, a.p);
    }
  }

  lemma WaitSlots(s: State, p: nat, fails: bool)
    requires Shape(s) && p < |s.pc|
    ensures |RunWait(s, p, fails).pc| == |s.pc|
  {
  }

  lemma ExitSlots(s: State, p: nat)
    requires Shape(s) && p < |s.pc|
    ensures |RunExit(s, p).pc| == |s.pc|
  {
  }

  lemma ForkSlots(s: State, p: nat)
    requires Shape(s) && p < |s.pc|
    ensures |RunFork(s, p).pc| == |s.pc|
  {
  }

  /** A child keeps its parent as long as the parent has not exited, and from then on is init's. */
  lemma {:induction false} ParentOrInit(states: seq<State>, steps: seq<Step>, i: nat, j: nat, p: nat, q: nat)
    requires History(states, steps) && i <= j < |states| && Shape(states[i]) && Shape(states[j]) && q < |states[i].pc| && q < |states[j].pc|
    requires (Alive(states[i].pc[q]) || Zombie(states[i].pc[q])) && states[i].parent[q] == p
    requires !states[j].pc[q].Unused? && states[j].pid[q] == states[i].pid[q]
    ensures !states[j].pc[q].Used?
    ensures states[j].parent[q] == 0 || (states[j].parent[q] == p < |states[j].pc| && states[j].pid[p] == states[i].pid[p] && Alive(states[j].pc[p]))
    decreases j - i
  {
    hide Next, Enabled, WlHeld, PlocksHeld, Forks, NoneMissed, Pids, Raised, Unclaimed, Follows;
    RunInv(states, steps, i);
    RunInv(states, steps, j);
    PidBelow(states[i], q);
    if i < j {
      SamePid(states, steps, i, j, q, j - 1);
      ParentOrInit(states, steps, i, j - 1, p, q);
      RunInv(states, steps, j - 1);
      FollowsRun(states, steps, j - 1, q);
      KeepsParent(states[j - 1], states[j], q);
      if states[j].parent[q] == p && states[j - 1].parent[q] == p {
        FollowsRun(states, steps, j - 1, p);
        KeepsPid(states[j - 1], states[j], p);
      }
    }
  }

  lemma PidBelow(s: State, q: nat)
    requires Shape(s) && Pids(s) && q < |s.pc| && !s.pc[q].Unused?
    ensures s.pid[q] < s.nextpid
  {
  }

  lemma FollowsRun(states: seq<State>, steps: seq<Step>, m: nat, q: nat)
    requires History(states, steps) && m < |steps| && Shape(states[m]) && q < |states[m].pc|
    ensures Shape(states[m + 1]) && |states[m + 1].pc| == |states[m].pc| && Follows(states[m], states[m + 1], q)
  {
    hide Next, Enabled, WlHeld, PlocksHeld, Forks, ParentsAlive, NoneMissed, Pids, Raised, Unclaimed, Follows;
    RunInv(states, steps, m);
    RunInv(states, steps, m + 1);
    SameSlots(states[m], steps[m]);
    StepFollows(states[m], steps[m], q);
  }

  lemma KeepsParent(s: State, t: State, q: nat)
    requires Shape(s) && Shape(t) && q < |s.pc| == |t.pc| && Follows(s, t, q)
    requires !s.pc[q].Unused? && !s.pc[q].Used? && !t.pc[q].Unused?
    ensures !t.pc[q].Used? && (t.parent[q] == s.parent[q] || t.parent[q] == 0)
  {
  }

  lemma KeepsPid(s: State, t: State, p: nat)
    requires Shape(s) && Shape(t) && p < |s.pc| == |t.pc| && Follows(s, t, p) && !s.pc[p].Unused? && !t.pc[p].Unused?
    ensures t.pid[p] == s.pid[p]
  {
  }

  /** Once a process has exited, every child it had that is still there belongs to init. */
  lemma OrphansAreInits(states: seq<State>, steps: seq<Step>, i: nat, j: nat, p: nat, q: nat)
    requires History(states, steps) && i <= j < |states| && Shape(states[i]) && Shape(states[j]) && q < |states[i].pc| && q < |states[j].pc|
    requires (Alive(states[i].pc[q]) || Zombie(states[i].pc[q])) && states[i].parent[q] == p
    requires !states[j].pc[q].Unused? && states[j].pid[q] == states[i].pid[q]
    requires states[i].pid[p] in states[j].exited
    ensures states[j].parent[q] == 0
  {
    hide History, Next, WlHeld, PlocksHeld, Forks, ParentsAlive, NoneMissed, Raised, Unclaimed;
    RunInv(states, steps, j);
    ParentOrInit(states, steps, i, j, p, q);
  }
}
