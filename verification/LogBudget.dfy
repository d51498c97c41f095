/** What a caller has to do to keep its part of the log's bargain: count the
    distinct blocks it logs. */
module LogBudget {
  import opened Blocks
  import opened LogDisk
  import opened LogProtocol
  import opened Numbers

  predicate LogsFor(s: State, a: Step, id: nat) { a.LogWrite? && a.i < |s.ops| && s.ops[a.i].id == id }

  /** The blocks that operation id has passed to log_write in the first n steps. */
  function LoggedBy(ss: seq<State>, steps: seq<Step>, id: nat, n: nat): set<nat>
    requires n <= |steps| < |ss|
  {
    if n == 0 then {} else
    LoggedBy(ss, steps, id, n - 1) + (if LogsFor(ss[n - 1], steps[n - 1], id) then {steps[n - 1].blockno} else {})
  }

  predicate IdsDiffer(s: State) { forall i, j :: 0 <= i < j < |s.ops| ==> s.ops[i].id != s.ops[j].id }

  lemma StepIds(g: Region, s: State, a: Step)
    requires Shape(g, s) && Reserved(s) && IdsDiffer(s) && Enabled(g, s, a) && !Panics(g, s, a)
    ensures IdsDiffer(Next(g, s, a)) && s.started <= Next(g, s, a).started
  {
    hide Shape, Promised;
  }

  lemma RunNext(g: Region, ss: seq<State>, steps: seq<Step>, n: nat)
    requires Run(g, ss, steps) && n < |steps|
    ensures Shape(g, ss[n]) && Reserved(ss[n]) && Enabled(g, ss[n], steps[n]) && !Panics(g, ss[n], steps[n]) && ss[n + 1] == Next(g, ss[n], steps[n])
  {
    RunStep(g, ss, steps, n);
  }

  lemma {:induction false} RunIds(g: Region, ss: seq<State>, steps: seq<Step>, n: nat)
    requires Run(g, ss, steps) && n < |ss|
    ensures IdsDiffer(ss[n])
  {
    hide Next, Enabled, Panics, Shape, Reserved;
    if n > 0 {
      RunIds(g, ss, steps, n - 1);
      RunNext(g, ss, steps, n - 1);
      StepIds(g, ss[n - 1], steps[n - 1]);
    }
  }

  /** An operation that has not begun has logged nothing. */
  lemma {:induction false} Unstarted(g: Region, ss: seq<State>, steps: seq<Step>, id: nat, n: nat)
    requires Run(g, ss, steps) && n < |ss| && id !in ss[n].started
    ensures LoggedBy(ss, steps, id, n) == {}
  {
    hide Next, Enabled, Panics, Shape, Promised;
    if n > 0 {
      RunNext(g, ss, steps, n - 1);
      RunIds(g, ss, steps, n - 1);
      StepIds(g, ss[n - 1], steps[n - 1]);
      Unstarted(g, ss, steps, id, n - 1);
    }
  }

  /** Where an outstanding operation was before the step. */
  lemma OpBefore(g: Region, s: State, a: Step, j: nat) returns (k: nat)
    requires Shape(g, s) && Reserved(s) && Enabled(g, s, a) && !Panics(g, s, a) && j < |Next(g, s, a).ops|
    ensures var t := Next(g, s, a);
            && Elems(s.lh) <= Elems(t.lh)
            && if a.Begin? && j == |s.ops| then k == |s.ops| && t.ops[j] == Op(a.id, {}, 0)
               else k < |s.ops| && t.ops[j].id == s.ops[k].id
    ensures var t := Next(g, s, a);
            k < |s.ops| ==> t.ops[j].added == if a.LogWrite? && a.i == k && a.blockno !in s.lh then s.ops[k].added + 1 else s.ops[k].added
    ensures a.LogWrite? ==> a.blockno in Next(g, s, a).lh
  {
    hide Shape, Promised;
    k := if a.End? && j >= a.i then j + 1 else j;
  }

  /** The new entries an operation is charged for are at most the distinct blocks it has logged,
      all of which are in the log's list. */
  lemma {:induction false} ChargedForDistinct(g: Region, ss: seq<State>, steps: seq<Step>, n: nat, j: nat)
    requires Run(g, ss, steps) && n < |ss| && j < |ss[n].ops|
    ensures var b := LoggedBy(ss, steps, ss[n].ops[j].id, n); b <= Elems(ss[n].lh) && ss[n].ops[j].added <= |b|
  {
    hide Reserved, Next, Enabled, Panics, Elems;
    if n == 0 {
      assert false;
    }
    var s, a := ss[n - 1], steps[n - 1];
    RunNext(g, ss, steps, n - 1);
    var k := OpBefore(g, s, a, j);
    if k == |s.ops| {
      NotYetStarted(g, s, a);
      Unstarted(g, ss, steps, a.id, n - 1);
    } else {
      ChargedForDistinct(g, ss, steps, n - 1, k);
      RunIds(g, ss, steps, n - 1);
      OneMore(s, a, k, LoggedBy(ss, steps, s.ops[k].id, n - 1), ss[n].lh);
    }
  }

  lemma NotYetStarted(g: Region, s: State, a: Step)
    requires Shape(g, s) && Enabled(g, s, a) && a.Begin?
    ensures a.id !in s.started
  {
  }

  lemma OneMore(s: State, a: Step, k: nat, b: set<nat>, lh: seq<nat>)
    requires k < |s.ops| && IdsDiffer(s) && b <= Elems(s.lh) <= Elems(lh) && s.ops[k].added <= |b|
    requires a.LogWrite? ==> a.blockno in lh
    ensures var c := b + (if LogsFor(s, a, s.ops[k].id) then {a.blockno} else {});
            c <= Elems(lh) && (if a.LogWrite? && a.i == k && a.blockno !in s.lh then s.ops[k].added + 1 else s.ops[k].added) <= |c|
  {
    if LogsFor(s, a, s.ops[k].id) {
      assert a.i == k;
      if a.blockno in b { assert b + {a.blockno} == b; }
    }
  }

  /** An operation that has logged fewer than MAXOPBLOCKS distinct blocks may log another: its next
      log_write is a step of the protocol, so it does not panic. */
  lemma WithinBudget(g: Region, ss: seq<State>, steps: seq<Step>, n: nat, j: nat, blockno: nat)
    requires Run(g, ss, steps) && n < |ss| && j < |ss[n].ops| && Home(g, |ss[n].disk|, blockno)
    requires |LoggedBy(ss, steps, ss[n].ops[j].id, n)| < MAXOPBLOCKS
    ensures Shape(g, ss[n]) && Enabled(g, ss[n], LogWrite(j, blockno)) && !Panics(g, ss[n], LogWrite(j, blockno))
  {
    hide LoggedBy;
    RunInv(g, ss, steps, n);
    ChargedForDistinct(g, ss, steps, n, j);
    NoPanic(g, ss[n], LogWrite(j, blockno));
  }
}
