/** What fork and exit were called with, against what wait returns and whose
    child a process is, over whole runs of ExitWait. */
module ExitStatus {
  import opened ExitWait

  /** On the way out with a status. */
  predicate Carries(pc: Pc, st: int) {
    match pc
    case ExitLk(x) => x == st
    case Reparent(_, x) => x == st
    case WakeInit(_, x) => x == st
    case WakeParent(x) => x == st
    case BecomeZombie(x) => x == st
    case _ => false
  }

  predicate Leaving(pc: Pc) {
    pc.ExitLk? || pc.Reparent? || pc.WakeInit? || pc.WakeParent? || pc.BecomeZombie? || Zombie(pc)
  }

  /** How process q may move: what it carries it was given or carried before, and it does not come back. */
  predicate PcMoves(b: Pc, c: Pc, given: bool, st: int) {
    && (Carries(c, st) ==> Carries(b, st) || given)
    && (Leaving(b) ==> Leaving(c) || c.Unused?)
  }

  /** exit touches no other process but to wake it. */
  lemma ExitOthers(s: State, p: nat, q: nat)
    requires Shape(s) && p < |s.pc| && q < |s.pc| == |RunExit(s, p).pc| && p != q
    ensures var c := RunExit(s, p).pc[q]; c == s.pc[q] || (s.pc[q].Asleep? && c.Woken?)
  {
    hide At;
    match s.pc[p]
    case ExitLk(st) => AtElse(s, p, Reparent(0, st), q);
    case Reparent(k, st) =>
      AtElse(s, p, WakeParent(st), q);
      AtElse(s, p, WakeInit(k, st), q);
      AtElse(s, p, Reparent(k + 1, st), q);
    case WakeInit(k, st) =>
      if s.pc[0].Asleep? { AtElse(s, 0, Woken, q); }
      AtElse(Waken(s, 0), p, Reparent(k + 1, st), q);
    case WakeParent(st) =>
      if 0 <= s.parent[p] < |s.pc| && s.pc[s.parent[p]].Asleep? { AtElse(s, s.parent[p], Woken, q); }
      AtElse(Waken(s, s.parent[p]), p, BecomeZombie(st), q);
    case BecomeZombie(_) => AtElse(s, p, DeadLocked, q);
    case DeadLocked => AtElse(s, p, Dead, q);
    case _ =>
  }

  /** It takes children only from the process that exits. */
  lemma ExitParents(s: State, p: nat, q: nat)
    requires Shape(s) && p < |s.pc| && q < |s.pc| && |RunExit(s, p).parent| == |s.pc|
    ensures var t := RunExit(s, p);
            t.parent[q] == s.parent[q] || (s.parent[q] == p && s.pc[p].Reparent? && t.parent[q] == 0 && p < |t.pc| && t.pc[p].WakeInit?)
  {
  }

  lemma ExitOwn(s: State, p: nat, st: int)
    requires Shape(s) && p < |s.pc| == |RunExit(s, p).pc|
    ensures PcMoves(s.pc[p], RunExit(s, p).pc[p], false, st)
  {
    hide At;
    match s.pc[p]
    case ExitLk(x) => AtElse(s, p, Reparent(0, x), p);
    case Reparent(k, x) => ReparentOwn(s, p, st);
    case WakeInit(k, x) =>
      AtElse(s, 0, Woken, p);
      AtElse(Waken(s, 0), p, Reparent(k + 1, x), p);
    case WakeParent(x) =>
      if 0 <= s.parent[p] < |s.pc| { AtElse(s, s.parent[p], Woken, p); }
      AtElse(Waken(s, s.parent[p]), p, BecomeZombie(x), p);
    case BecomeZombie(_) => AtElse(s, p, DeadLocked, p);
    case DeadLocked => AtElse(s, p, Dead, p);
    case _ =>
  }

  lemma ReparentOwn(s: State, p: nat, st: int)
    requires Shape(s) && p < |s.pc| == |RunExit(s, p).pc| && s.pc[p].Reparent?
    ensures PcMoves(s.pc[p], RunExit(s, p).pc[p], false, st)
  {
  }

  lemma ExitPc(s: State, p: nat, q: nat, st: int)
    requires Shape(s) && p < |s.pc| && q < |s.pc| == |RunExit(s, p).pc|
    ensures PcMoves(s.pc[q], RunExit(s, p).pc[q], false, st)
  {
    hide RunExit;
    if p == q { ExitOwn(s, p, st); } else { ExitOthers(s, p, q); }
  }

  lemma WaitPc(s: State, p: nat, fails: bool, q: nat, st: int)
    requires Shape(s) && Enabled(s, Run(p, fails)) && q < |s.pc| == |RunWait(s, p, fails).pc| && InWait(s.pc[p])
    ensures PcMoves(s.pc[q], RunWait(s, p, fails).pc[q], false, st)
  {
    hide RunWait;
    if Waits(s, p, fails) {
      WaitIsLocal(s, p, fails);
      WaitMoves(s, p, fails);
    } else {
      ReapIs(s, p);
    }
  }

  lemma ForkPc(s: State, p: nat, q: nat, st: int)
    requires Shape(s) && Forks(s) && p < |s.pc| && InFork(s.pc[p]) && q < |s.pc| == |RunFork(s, p).pc|
    ensures PcMoves(s.pc[q], RunFork(s, p).pc[q], false, st)
  {
  }

  lemma StepPc(s: State, a: Step, q: nat, st: int)
    requires Shape(s) && Forks(s) && Enabled(s, a) && q < |s.pc| == |Next(s, a).pc|
    ensures PcMoves(s.pc[q], Next(s, a).pc[q], a == Exit(q, st), st)
  {
    hide RunWait, RunExit, RunFork, Forks;
    if a.Run? {
      if InFork(s.pc[a.p]) { ForkPc(s, a.p, q, st); }
      else if InWait(s.pc[a.p]) { WaitPc(s, a.p, a.fails, q, st); }
      else { ExitPc(s, a.p, q, st); }
    }
  }

  lemma WaitExited(s: State, p: nat, fails: bool)
    requires Shape(s) && p < |s.pc|
    ensures RunWait(s, p, fails).exited == s.exited
  {
    hide Shape;
  }

  lemma ExitExited(s: State, p: nat)
    requires Shape(s) && p < |s.pc|
    ensures RunExit(s, p).exited == s.exited || (s.pc[p].BecomeZombie? && RunExit(s, p).exited == s.exited[s.pid[p] := s.pc[p].status])
  {
    hide Shape;
  }

  /** An exit is recorded when its process becomes a zombie. */
  lemma StepExited(s: State, a: Step)
    requires Shape(s) && Enabled(s, a)
    ensures var t := Next(s, a);
            t.exited == s.exited || (a.Run? && s.pc[a.p].BecomeZombie? && t.exited == s.exited[s.pid[a.p] := s.pc[a.p].status])
  {
    hide Shape, RunWait, RunExit;
    if a.Run? {
      WaitExited(s, a.p, a.fails);
      ExitExited(s, a.p);
    }
  }

  lemma RunStep(states: seq<State>, steps: seq<Step>, i: nat)
    requires History(states, steps) && i < |steps|
    ensures Inv(states[i]) && Inv(states[i + 1]) && Enabled(states[i], steps[i]) && states[i + 1] == Next(states[i], steps[i])
    ensures |states[i + 1].pc| == |states[i].pc|
  {
    hide Next, Enabled, WlHeld, PlocksHeld, Forks, ParentsAlive, NoneMissed, Pids, Raised, Unclaimed;
    RunInv(states, steps, i);
    RunInv(states, steps, i + 1);
    SameSlots(states[i], steps[i]);
  }

  // ---- the status ----

  /** The status a process is exiting with is the one it called exit with. */
  lemma {:induction false} StatusGiven(states: seq<State>, steps: seq<Step>, i: nat, p: nat, st: int) returns (j: nat)
    requires History(states, steps) && i < |states| && Shape(states[i]) && p < |states[i].pc| && Carries(states[i].pc[p], st)
    ensures j < i && steps[j] == Exit(p, st) && Shape(states[j]) && p < |states[j].pc| && states[j].pid[p] == states[i].pid[p]
  {
    hide Next, Enabled, WlHeld, PlocksHeld, Forks, ParentsAlive, NoneMissed, Pids, Raised, Unclaimed, Follows;
    if i == 0 {
      NoneAtStart(states[0], p, st);
    } else {
      RunStep(states, steps, i - 1);
      StepPc(states[i - 1], steps[i - 1], p, st);
      StepFollows(states[i - 1], steps[i - 1], p);
      CarriesPid(states[i - 1], steps[i - 1], p, st);
      if steps[i - 1] == Exit(p, st) {
        j := i - 1;
      } else {
        j := StatusGiven(states, steps, i - 1, p, st);
      }
    }
  }

  lemma NoneAtStart(s: State, p: nat, st: int)
    requires Init(s) && p < |s.pc|
    ensures !Carries(s.pc[p], st)
  {
  }

  lemma CarriesPid(s: State, a: Step, p: nat, st: int)
    requires Shape(s) && Enabled(s, a) && Shape(Next(s, a)) && p < |s.pc| == |Next(s, a).pc| && Follows(s, Next(s, a), p)
    requires Carries(Next(s, a).pc[p], st) && (Carries(s.pc[p], st) || a == Exit(p, st))
    ensures Next(s, a).pid[p] == s.pid[p]
  {
    hide Next;
  }

  lemma {:induction false} ExitedGiven(states: seq<State>, steps: seq<Step>, i: nat, d: nat) returns (j: nat)
    requires History(states, steps) && i < |states| && d in states[i].exited
    ensures j < i && steps[j].Exit? && Shape(states[j]) && steps[j].p < |states[j].pid| && states[j].pid[steps[j].p] == d
    ensures steps[j].status == states[i].exited[d]
  {
    hide Next, Enabled, WlHeld, PlocksHeld, Forks, ParentsAlive, NoneMissed, Pids, Raised, Unclaimed;
    if i == 0 {
      assert false;
    } else {
      RunStep(states, steps, i - 1);
      StepExited(states[i - 1], steps[i - 1]);
      if d in states[i - 1].exited && states[i - 1].exited[d] == states[i].exited[d] {
        j := ExitedGiven(states, steps, i - 1, d);
      } else {
        DiesHere(states[i - 1], steps[i - 1]);
        j := StatusGiven(states, steps, i - 1, steps[i - 1].p, states[i].exited[d]);
      }
    }
  }

  lemma DiesHere(s: State, a: Step)
    requires Shape(s) && Enabled(s, a) && a.Run? && s.pc[a.p].BecomeZombie?
    ensures a.p < |s.pc| && Carries(s.pc[a.p], s.pc[a.p].status)
  {
  }

  /** What wait hands over for a pid is what the process with that pid called exit with. */
  lemma ReapedAsGiven(states: seq<State>, steps: seq<Step>, i: nat, d: nat) returns (j: nat)
    requires History(states, steps) && i < |states| && d in states[i].reaped
    ensures j < i && steps[j].Exit? && Shape(states[j]) && steps[j].p < |states[j].pid| && states[j].pid[steps[j].p] == d
    ensures steps[j].status == states[i].reaped[d]
  {
    hide Next, Enabled, WlHeld, PlocksHeld, Forks, ParentsAlive, NoneMissed, Raised, Unclaimed;
    RunInv(states, steps, i);
    ExitAccounting(states, steps, i, d);
    j := ExitedGiven(states, steps, i, d);
  }

  // ---- one exit per pid ----

  /** Whoever has pid d is on its way out, for good. */
  predicate Gone(s: State, d: nat)
    requires Shape(s)
  {
    d < s.nextpid && forall p :: 0 <= p < |s.pc| && !s.pc[p].Unused? && s.pid[p] == d ==> Leaving(s.pc[p])
  }

  lemma ExitGoes(s: State, a: Step)
    requires Inv(s) && a.Exit? && Enabled(s, a) && Shape(Next(s, a))
    ensures Gone(Next(s, a), s.pid[a.p])
  {
    hide WlHeld, PlocksHeld, Forks, ParentsAlive, NoneMissed, Raised, Unclaimed;
  }

  lemma StaysGone(s: State, a: Step, d: nat)
    requires Inv(s) && Enabled(s, a) && Inv(Next(s, a)) && |Next(s, a).pc| == |s.pc| && Gone(s, d)
    ensures Gone(Next(s, a), d)
  {
    hide Next, Enabled, WlHeld, PlocksHeld, Forks, ParentsAlive, NoneMissed, Pids, Raised, Unclaimed;
    StepFollows(s, a, 0);
    forall p | 0 <= p < |s.pc| && !Next(s, a).pc[p].Unused? && Next(s, a).pid[p] == d ensures Leaving(Next(s, a).pc[p]) {
      StepFollows(s, a, p);
      StepPc(s, a, p, 0);
    }
  }

  lemma {:induction false} GoneForGood(states: seq<State>, steps: seq<Step>, j: nat, k: nat)
    requires History(states, steps) && j < k < |states| && steps[j].Exit? && Shape(states[j]) && steps[j].p < |states[j].pid|
    ensures Shape(states[k]) && Gone(states[k], states[j].pid[steps[j].p])
    decreases k - j
  {
    hide Next, Enabled, WlHeld, PlocksHeld, Forks, ParentsAlive, NoneMissed, Pids, Raised, Unclaimed, Gone;
    RunStep(states, steps, k - 1);
    if j == k - 1 {
      ExitGoes(states[j], steps[j]);
    } else {
      GoneForGood(states, steps, j, k - 1);
      StaysGone(states[k - 1], steps[k - 1], states[j].pid[steps[j].p]);
    }
  }

  /** A pid exits once. */
  lemma OneExit(states: seq<State>, steps: seq<Step>, j: nat, k: nat)
    requires History(states, steps) && j < k < |steps| && steps[j].Exit? && steps[k].Exit?
    requires Shape(states[j]) && Shape(states[k]) && steps[j].p < |states[j].pid| && steps[k].p < |states[k].pid|
    ensures states[j].pid[steps[j].p] != states[k].pid[steps[k].p]
  {
    hide Next, WlHeld, PlocksHeld, Forks, ParentsAlive, NoneMissed, Pids, Raised, Unclaimed;
    GoneForGood(states, steps, j, k);
    RunStep(states, steps, k);
  }

  // ---- whose child ----

  /** p is forking q, and has named itself its parent once it is past that point. */
  predicate Forking(s: State, p: nat, q: nat)
    requires Shape(s)
  {
    && p < |s.pc| && q < |s.pc| && s.pc[q].Used?
    && (s.pc[p] == ForkParent(q) || (s.pc[p] == ForkRun(q) && s.parent[q] == p))
  }

  /** The fork is done: q runs, and is p's child. */
  predicate Forked(s: State, p: nat, q: nat)
    requires Shape(s)
  {
    p < |s.pc| && q < |s.pc| && s.pc[q].Out? && s.parent[q] == p && s.pc[p].Out?
  }

  lemma ExitForking(s: State, x: nat, p: nat, q: nat)
    requires Shape(s) && x < |s.pc| && Leaving(s.pc[x]) && Forking(s, p, q) && |RunExit(s, x).pc| == |s.pc| && Shape(RunExit(s, x))
    ensures Forking(RunExit(s, x), p, q)
  {
    hide RunExit;
    ExitOthers(s, x, p);
    ExitOthers(s, x, q);
    ExitParents(s, x, q);
  }

  lemma WaitForking(s: State, x: nat, fails: bool, p: nat, q: nat)
    requires Shape(s) && Enabled(s, Run(x, fails)) && InWait(s.pc[x]) && Forking(s, p, q)
    requires |RunWait(s, x, fails).pc| == |s.pc| && Shape(RunWait(s, x, fails))
    ensures Forking(RunWait(s, x, fails), p, q)
  {
    hide RunWait;
    if Waits(s, x, fails) { WaitIsLocal(s, x, fails); } else { ReapIs(s, x); }
  }

  lemma ForkForking(s: State, x: nat, p: nat, q: nat)
    requires Shape(s) && Forks(s) && x < |s.pc| && InFork(s.pc[x]) && Forking(s, p, q) && |RunFork(s, x).pc| == |s.pc| && Shape(RunFork(s, x))
    ensures Forking(RunFork(s, x), p, q) || Forked(RunFork(s, x), p, q)
  {
  }

  lemma StepForking(s: State, a: Step, p: nat, q: nat)
    requires Shape(s) && Forks(s) && Enabled(s, a) && Forking(s, p, q) && Shape(Next(s, a)) && |Next(s, a).pc| == |s.pc|
    ensures Forking(Next(s, a), p, q) || Forked(Next(s, a), p, q)
  {
    hide RunWait, RunExit, RunFork, Forks;
    if a.Run? {
      if InFork(s.pc[a.p]) { ForkForking(s, a.p, p, q); }
      else if InWait(s.pc[a.p]) { WaitForking(s, a.p, a.fails, p, q); }
      else { ExitForking(s, a.p, p, q); }
    }
  }

  /** A process loses its parent only to init, when that parent exits. */
  predicate ParentMoves(s: State, a: Step, t: State, q: nat)
    requires Shape(s) && Shape(t) && q < |s.pc| == |t.pc|
  {
    t.pc[q].Unused? || t.parent[q] == s.parent[q]
    || (t.parent[q] == 0 && a.Run? && a.p < |t.pc| && a.p == s.parent[q] && Leaving(t.pc[a.p]))
  }

  lemma StepParent(s: State, a: Step, q: nat)
    requires Shape(s) && Forks(s) && Enabled(s, a) && q < |s.pc| == |Next(s, a).pc| && Shape(Next(s, a)) && (Alive(s.pc[q]) || Zombie(s.pc[q]))
    ensures ParentMoves(s, a, Next(s, a), q)
  {
    hide RunWait, RunExit, RunFork;
    if a.Run? {
      if InFork(s.pc[a.p]) { ForkParentKept(s, a.p, q); }
      else if InWait(s.pc[a.p]) { WaitParentKept(s, a.p, a.fails, q); }
      else { ExitParent(s, a, q); }
    }
  }

  lemma ForkParentKept(s: State, p: nat, q: nat)
    requires Shape(s) && Forks(s) && p < |s.pc| && q < |s.pc| && InFork(s.pc[p]) && |RunFork(s, p).parent| == |s.pc| && !s.pc[q].Used?
    ensures RunFork(s, p).parent[q] == s.parent[q]
  {
  }

  lemma WaitParentKept(s: State, p: nat, fails: bool, q: nat)
    requires Shape(s) && Enabled(s, Run(p, fails)) && InWait(s.pc[p]) && q < |s.pc| == |RunWait(s, p, fails).pc| == |RunWait(s, p, fails).parent|
    ensures RunWait(s, p, fails).pc[q].Unused? || RunWait(s, p, fails).parent[q] == s.parent[q]
  {
    hide RunWait;
    if Waits(s, p, fails) { WaitIsLocal(s, p, fails); } else { ReapIs(s, p); }
  }

  lemma ExitParent(s: State, a: Step, q: nat)
    requires Shape(s) && a.Run? && a.p < |s.pc| && q < |s.pc| == |RunExit(s, a.p).pc| && Shape(RunExit(s, a.p))
    ensures ParentMoves(s, a, RunExit(s, a.p), q)
  {
    hide RunExit;
    ExitParents(s, a.p, q);
  }

  /** What is left of a fork by p of q: it goes on, or q is the child of p, which has its pid, or of init and p is gone. */
  ghost predicate Descends(s: State, p: nat, d: nat, q: nat)
    requires Shape(s) && p < |s.pc| && q < |s.pc|
  {
    if s.pc[q].Used? then Forking(s, p, q) && s.pid[p] == d
    else (s.parent[q] == p && s.pid[p] == d) || (s.parent[q] == 0 && Gone(s, d))
  }

  lemma StepDescends(s: State, a: Step, p: nat, d: nat, q: nat)
    requires Inv(s) && Enabled(s, a) && Inv(Next(s, a)) && |Next(s, a).pc| == |s.pc| && p < |s.pc| && q < |s.pc|
    requires !s.pc[q].Unused? && !Next(s, a).pc[q].Unused? && Descends(s, p, d, q)
    ensures Descends(Next(s, a), p, d, q)
  {
    hide Next, Enabled, WlHeld, PlocksHeld, Forks, NoneMissed, Pids, Raised, Unclaimed, Follows, Gone, MayHaveChild;
    var t := Next(s, a);
    StepFollows(s, a, q);
    StepFollows(s, a, p);
    if s.pc[q].Used? {
      StepForking(s, a, p, q);
      KeepsPid(s, t, p);
    } else {
      StepParent(s, a, q);
      KeepsParent(s, t, q);
      if Gone(s, d) { StaysGone(s, a, d); }
      if s.parent[q] == p && s.pid[p] == d {
        ParentHere(s, q);
        if t.parent[q] == p { ParentHere(t, q); KeepsPid(s, t, p); } else { LeavesGone(s, a, p); }
      }
    }
  }

  lemma ParentHere(s: State, q: nat)
    requires Shape(s) && ParentsAlive(s) && q < |s.pc| && s.parent[q] >= 0
    ensures !s.pc[s.parent[q]].Unused? && !s.pc[s.parent[q]].Used?
  {
  }

  /** A process that is leaving is the only one with its pid. */
  lemma LeavesGone(s: State, a: Step, p: nat)
    requires Inv(s) && Enabled(s, a) && Inv(Next(s, a)) && |Next(s, a).pc| == |s.pc| && p < |s.pc| && !s.pc[p].Unused? && Leaving(Next(s, a).pc[p])
    ensures Gone(Next(s, a), s.pid[p])
  {
    hide Next, Enabled, WlHeld, PlocksHeld, Forks, ParentsAlive, NoneMissed, Raised, Unclaimed;
    StepFollows(s, a, p);
  }

  lemma ForkDescends(s: State, p: nat, q: nat)
    requires Shape(s) && Enabled(s, Fork(p, q)) && Shape(Next(s, Fork(p, q)))
    ensures var t := Next(s, Fork(p, q)); t.pid[q] == s.nextpid < t.nextpid && Descends(t, p, s.pid[p], q)
  {
  }

  /** A process has the one that forked it as its parent, from the moment fork has named it until that
      process exits; then it is init's. */
  lemma {:induction false} ChildOfForker(states: seq<State>, steps: seq<Step>, n: nat, m: nat, p: nat, q: nat)
    requires History(states, steps) && n < m < |states| && steps[n] == Fork(p, q) && Shape(states[n]) && Shape(states[m])
    requires p < |states[n].pc| && p < |states[m].pc| && q < |states[m].pc| && !states[m].pc[q].Unused? && states[m].pid[q] == states[n].nextpid
    ensures Descends(states[m], p, states[n].pid[p], q)
    decreases m - n
  {
    hide Next, Enabled, WlHeld, PlocksHeld, Forks, ParentsAlive, NoneMissed, Pids, Raised, Unclaimed, Follows, Descends;
    RunStep(states, steps, n);
    ForkDescends(states[n], p, q);
    if m > n + 1 {
      RunStep(states, steps, m - 1);
      NextpidGrows(states, steps, n + 1, m - 1);
      StepFollows(states[m - 1], steps[m - 1], q);
      FollowsBack(states[m - 1], states[m], q);
      ChildOfForker(states, steps, n, m - 1, p, q);
      StepDescends(states[m - 1], steps[m - 1], p, states[n].pid[p], q);
    }
  }

  // ---- what wait returns ----

  /** p has a child in the table before entry k. */
  predicate HasChild(s: State, p: nat, k: nat) { exists j :: 0 <= j < k && j < |s.parent| && s.parent[j] == p }

  /** A scan has its flag set exactly if it has passed a child. */
  predicate ScanTells(s: State, p: nat) { p < |s.pc| && s.pc[p].Scan? ==> (s.pc[p].kids <==> HasChild(s, p, s.pc[p].k)) }

  lemma ExitLeavesScan(s: State, x: nat, p: nat)
    requires Shape(s) && WlHeld(s) && x < |s.pc| && p < |s.pc| == |RunExit(s, x).pc| && p != x && RunExit(s, x).pc[p].Scan?
    requires |RunExit(s, x).parent| == |s.parent|
    ensures s.pc[p] == RunExit(s, x).pc[p] && RunExit(s, x).parent == s.parent
  {
    hide RunExit;
    ExitOthers(s, x, p);
    forall q | 0 <= q < |s.pc| ensures RunExit(s, x).parent[q] == s.parent[q] { ExitParents(s, x, q); }
  }

  lemma WaitLeavesScan(s: State, x: nat, fails: bool, p: nat)
    requires Shape(s) && WlHeld(s) && Enabled(s, Run(x, fails)) && InWait(s.pc[x]) && p < |s.pc| == |RunWait(s, x, fails).pc| && p != x
    requires RunWait(s, x, fails).pc[p].Scan?
    ensures s.pc[p] == RunWait(s, x, fails).pc[p] && RunWait(s, x, fails).parent == s.parent
  {
    hide RunWait;
    if Waits(s, x, fails) { WaitIsLocal(s, x, fails); } else { ReapIs(s, x); }
  }

  lemma ForkLeavesScan(s: State, x: nat, p: nat)
    requires Shape(s) && WlHeld(s) && x < |s.pc| && (s.pc[x].ForkParent? ==> s.wl == -1) && p < |s.pc| == |RunFork(s, x).pc| && p != x
    requires InFork(s.pc[x]) && RunFork(s, x).pc[p].Scan?
    ensures s.pc[p] == RunFork(s, x).pc[p] && RunFork(s, x).parent == s.parent
  {
  }

  lemma OwnScan(s: State, p: nat, fails: bool)
    requires Shape(s) && Enabled(s, Run(p, fails)) && InWait(s.pc[p]) && ScanTells(s, p)
    ensures ScanTells(RunWait(s, p, fails), p)
  {
  }

  lemma StepScan(s: State, a: Step, p: nat)
    requires Shape(s) && WlHeld(s) && Enabled(s, a) && p < |s.pc| == |Next(s, a).pc| && |Next(s, a).parent| == |s.parent| && ScanTells(s, p)
    ensures ScanTells(Next(s, a), p)
  {
    hide RunWait, RunExit, RunFork, WlHeld;
    if a.Run? && Next(s, a).pc[p].Scan? {
      if InFork(s.pc[a.p]) { if a.p != p { ForkLeavesScan(s, a.p, p); } else { NoScan(s, p); } }
      else if InWait(s.pc[a.p]) { if a.p != p { WaitLeavesScan(s, a.p, a.fails, p); } else { OwnScan(s, p, a.fails); } }
      else { if a.p != p { ExitLeavesScan(s, a.p, p); } else { NoScan(s, p); } }
    }
  }

  lemma NoScan(s: State, p: nat)
    requires Shape(s) && p < |s.pc|
    ensures InFork(s.pc[p]) && p < |RunFork(s, p).pc| ==> !RunFork(s, p).pc[p].Scan?
    ensures !InFork(s.pc[p]) && !InWait(s.pc[p]) && p < |RunExit(s, p).pc| ==> !RunExit(s, p).pc[p].Scan?
  {
  }

  lemma {:induction false} ScanKnows(states: seq<State>, steps: seq<Step>, i: nat, p: nat)
    requires History(states, steps) && i < |states|
    ensures ScanTells(states[i], p)
  {
    hide Next, Enabled, WlHeld, PlocksHeld, Forks, ParentsAlive, NoneMissed, Pids, Raised, Unclaimed;
    if i > 0 {
      ScanKnows(states, steps, i - 1, p);
      RunStep(states, steps, i - 1);
      if p < |states[i].pc| { StepScan(states[i - 1], steps[i - 1], p); }
    }
  }

  /** A wait of a process that is not killed, and that can copy the status out, ends in one of two
      ways: it takes a child that is a zombie, or the caller has no children. It goes to sleep only
      with a child and no zombie among them. */
  lemma WaitEnds(states: seq<State>, steps: seq<Step>, i: nat, p: nat)
    requires History(states, steps) && i < |steps| && steps[i] == Run(p, false) && Shape(states[i]) && p < |states[i].pc| == |states[i + 1].pc|
    requires InWait(states[i].pc[p])
    ensures states[i + 1].pc[p].Out? ==> Takes(states[i], states[i + 1], p) || !HasChild(states[i], p, |states[i].pc|)
    ensures states[i + 1].pc[p].SleepPlock? ==> HasChild(states[i], p, |states[i].pc|)
    ensures states[i + 1].pc[p].SleepPlock? ==> forall k :: 0 <= k < |states[i].pc| && states[i].parent[k] == p ==> !Zombie(states[i].pc[k])
  {
    hide WlHeld, PlocksHeld, Forks, ParentsAlive, Pids, Raised, Unclaimed;
    RunStep(states, steps, i);
    ScanKnows(states, steps, i, p);
    WaitOutcome(states[i], p);
  }

  /** p has taken one zombie child: its slot is free, and its pid and status are p's. */
  predicate Takes(s: State, t: State, p: nat)
    requires Shape(s)
  {
    exists z :: 0 <= z < |s.pc| && s.parent[z] == p && Zombie(s.pc[z]) && t == s.(pc := s.pc[z := Unused][p := Out], wl := -1,
      parent := s.parent[z := -1], pid := s.pid[z := 0], xstate := s.xstate[z := 0], reaped := s.reaped[s.pid[z] := s.xstate[z]])
  }

  lemma WaitOutcome(s: State, p: nat)
    requires Shape(s) && Enabled(s, Run(p, false)) && InWait(s.pc[p]) && NoneMissed(s) && ScanTells(s, p)
    ensures var t := RunWait(s, p, false);
            && |t.pc| == |s.pc| && (t.pc[p].Out? ==> Takes(s, t, p) || !HasChild(s, p, |s.pc|))
            && (t.pc[p].SleepPlock? ==> HasChild(s, p, |s.pc|) && forall k :: 0 <= k < |s.pc| && s.parent[k] == p ==> !Zombie(s.pc[k]))
  {
  }

  // ---- calls end ----

  /** At most how many sections of its call are left to a process, unless it is woken from sleep; n is the size
      of the process table. */
  function Rank(pc: Pc, n: nat): nat {
    match pc
    case ForkParent(_) => 2
    case ForkRun(_) => 1
    case Woken => n + 9
    case WaitLk => n + 8
    case Scan(k, _) => Gap(k, n) + 6
    case SleepPlock => 5
    case SleepRelease => 4
    case SleepMark => 3
    case Asleep => 2
    case ExitLk(_) => 2 * n + 8
    case Reparent(k, _) => 2 * Gap(k, n) + 6
    case WakeInit(k, _) => 2 * (if k < n then n - k else 1) + 5
    case WakeParent(_) => 4
    case BecomeZombie(_) => 3
    case DeadLocked => 2
    case _ => 0
  }

  function Gap(k: nat, n: nat): nat { if k < n then n - k else 0 }

  lemma WaitRank(s: State, p: nat, fails: bool, q: nat)
    requires Shape(s) && Enabled(s, Run(p, fails)) && InWait(s.pc[p]) && q < |s.pc| == |RunWait(s, p, fails).pc|
    ensures var t := RunWait(s, p, fails); if q == p then Rank(t.pc[q], |s.pc|) < Rank(s.pc[q], |s.pc|) else Undisturbed(s.pc[q], t.pc[q])
  {
  }

  lemma ExitRank(s: State, p: nat, fails: bool)
    requires Shape(s) && Enabled(s, Run(p, fails)) && !InWait(s.pc[p]) && !InFork(s.pc[p]) && |RunExit(s, p).pc| == |s.pc|
    ensures Rank(RunExit(s, p).pc[p], |s.pc|) < Rank(s.pc[p], |s.pc|)
  {
  }

  lemma ForkRank(s: State, p: nat, q: nat)
    requires Shape(s) && Forks(s) && p < |s.pc| && InFork(s.pc[p]) && q < |s.pc| == |RunFork(s, p).pc|
    ensures var t := RunFork(s, p); if q == p then Rank(t.pc[q], |s.pc|) < Rank(s.pc[q], |s.pc|) else Undisturbed(s.pc[q], t.pc[q])
  {
  }

  /** What others do to a process: wake it, free its slot, fill it, or nothing. */
  predicate Undisturbed(b: Pc, c: Pc) {
    c == b || (b.Asleep? && c.Woken?) || (Zombie(b) && c.Unused?) || (b.Unused? && c.Used?) || (b.Used? && c.Out?)
  }

  /** p begins a call. */
  predicate Calls(a: Step, p: nat) { a.p == p && (a.Fork? || a.Wait? || a.Exit?) }

  lemma StepRank(s: State, a: Step, q: nat)
    requires Shape(s) && Forks(s) && Enabled(s, a) && q < |s.pc| == |Next(s, a).pc|
    ensures var t := Next(s, a);
            && (a.Run? && a.p == q ==> Rank(t.pc[q], |s.pc|) < Rank(s.pc[q], |s.pc|))
            && (a == Wait(q) ==> t.pc[q].WaitLk?)
            && (a == Kill(q) ==> s.pc[q].Asleep? && t.pc[q].Woken?)
            && (a.p != q ==> Undisturbed(s.pc[q], t.pc[q]))
  {
    hide RunWait, RunExit, RunFork, Forks, Rank;
    if a.Run? {
      if InFork(s.pc[a.p]) { ForkRank(s, a.p, q); }
      else if InWait(s.pc[a.p]) { WaitRank(s, a.p, a.fails, q); }
      else if a.p == q { ExitRank(s, q, a.fails); } else { ExitOthers(s, a.p, q); }
    }
  }

  /** The sections p has run from step i up to step j. */
  function Sections(steps: seq<Step>, i: nat, j: nat, p: nat): nat
    requires i <= j <= |steps|
    decreases j - i
  {
    if i == j then 0 else Sections(steps, i, j - 1, p) + if steps[j - 1].Run? && steps[j - 1].p == p then 1 else 0
  }

  /** From i to j, p begins no call and is not woken. */
  predicate GoesOn(states: seq<State>, steps: seq<Step>, i: nat, j: nat, p: nat) {
    j <= |steps| < |states| && forall k :: i <= k < j ==> Steady(states[k], steps[k], states[k + 1], p)
  }

  predicate Steady(s: State, a: Step, t: State, p: nat) {
    !Calls(a, p) && p < |s.pc| && p < |t.pc| && (s.pc[p].Asleep? ==> t.pc[p].Asleep?)
  }

  /** A call of fork, wait or exit runs at most Rank many sections before it ends or sleeps: no loop in them
      goes on for ever, whatever the others do meanwhile. */
  lemma {:induction false} CallsEnd(states: seq<State>, steps: seq<Step>, i: nat, j: nat, p: nat)
    requires History(states, steps) && i <= j && GoesOn(states, steps, i, j, p) && p < |states[i].pc|
    ensures |states[j].pc| == |states[i].pc| && Sections(steps, i, j, p) + Rank(states[j].pc[p], |states[i].pc|) <= Rank(states[i].pc[p], |states[i].pc|)
    decreases j - i
  {
    hide Next, Enabled, WlHeld, PlocksHeld, Forks, ParentsAlive, NoneMissed, Pids, Raised, Unclaimed;
    if i < j {
      CallsEnd(states, steps, i, j - 1, p);
      RunStep(states, steps, j - 1);
      assert Steady(states[j - 1], steps[j - 1], states[j - 1 + 1], p);
      StepRank(states[j - 1], steps[j - 1], p);
    }
  }

  /** A process asleep in wait that is killed, and sees it, does not sleep again before wait returns. */
  lemma {:induction false} KilledReturns(states: seq<State>, steps: seq<Step>, i: nat, j: nat, p: nat)
    requires History(states, steps) && i < j <= |steps| && steps[i] == Kill(p) && (forall k :: i < k < j && steps[k].p == p ==> steps[k] == Run(p, true))
    ensures p < |states[j].pc| && (states[j].pc[p].Woken? || states[j].pc[p].WaitLk? || states[j].pc[p].Scan? || states[j].pc[p].Out?)
    decreases j - i
  {
    hide Next, WlHeld, PlocksHeld, Forks, ParentsAlive, NoneMissed, Pids, Raised, Unclaimed;
    RunStep(states, steps, j - 1);
    if i < j - 1 {
      KilledReturns(states, steps, i, j - 1, p);
      if steps[j - 1].p == p { SeesKill(states[j - 1], p); }
    }
    StepRank(states[j - 1], steps[j - 1], p);
  }

  lemma SeesKill(s: State, p: nat)
    requires Shape(s) && Enabled(s, Run(p, true)) && (s.pc[p].Woken? || s.pc[p].WaitLk? || s.pc[p].Scan? || s.pc[p].Out?)
    ensures var t := Next(s, Run(p, true)); p < |t.pc| && (t.pc[p].WaitLk? || t.pc[p].Scan? || t.pc[p].Out?)
  {
  }
}
