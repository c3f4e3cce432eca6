/**
 The order of the updates that a single instance commits, and the document's last editor.
 */
module DocumentOrder {
  import opened Common
  import opened DocumentTables
  import opened DocumentSystem
  import FM = FlushMachine
  import FO = FlushOrder

  /** The updates appended by the first `n` steps. */
  function AppendedIn(steps: seq<Step>, n: nat): seq<Pending>
    requires n <= |steps|
  {
    if n == 0 then []
    else AppendedIn(steps, n - 1) + (if steps[n - 1].Flush? then FO.IncomingSeq(steps[n - 1].e) else [])
  }

  predicate OneFlying(s: Sys) { |s.nodes| == 1 && FO.OneFlying(s.nodes[0].inst.tasks) }

  predicate InOrder(s: Sys, appended: seq<Pending>) {
    |s.nodes| == 1 && s.log + FO.Held(s.nodes[0].inst) == appended
  }

  lemma {:induction false} FlushOf(s: Sys, x: Step, c: FM.Config)
    requires FM.ValidConfig(c) && Enabled(s, x) && x.Flush? && |s.nodes| == 1
    ensures var s', inst := Next(s, x, c), s.nodes[0].inst;
            && |s'.nodes| == 1 && s'.nodes[0].inst == FM.Next(inst, x.e, c) && s'.log == s.log + FM.Written(inst, x.e)
  {
  }

  lemma {:induction false} OtherStep(s: Sys, x: Step, c: FM.Config)
    requires FM.ValidConfig(c) && Enabled(s, x) && !x.Flush? && |s.nodes| == 1
    ensures var s' := Next(s, x, c); |s'.nodes| == 1 && s'.nodes[0].inst == s.nodes[0].inst && s'.log == s.log
  {
  }

  lemma {:induction false} OrderStep(s: Sys, x: Step, c: FM.Config, appended: seq<Pending>)
    requires FM.ValidConfig(c) && Enabled(s, x) && OneFlying(s) && OneFlying(Next(s, x, c)) && !SkipsRestore(x)
    requires InOrder(s, appended)
    ensures InOrder(Next(s, x, c), appended + (if x.Flush? then FO.IncomingSeq(x.e) else []))
  {
    if x.Flush? {
      var inst := s.nodes[0].inst;
      FlushOf(s, x, c);
      FO.OrderStep(inst, x.e, c);
      FO.Regroup(s.log, FM.Written(inst, x.e), FO.Held(FM.Next(inst, x.e, c)), FO.Held(inst), appended, FO.IncomingSeq(x.e));
    } else {
      OtherStep(s, x, c);
    }
  }

  /**
   A single instance commits updates in the order they were appended, as long as at most one of its
   non-empty flushes is in flight and every failed batch is restored.
   */
  lemma {:induction false} LogInOrder(states: seq<Sys>, steps: seq<Step>, c: FM.Config, n: nat)
    requires FM.ValidConfig(c) && IsRun(states, steps, c) && n < |states|
    requires forall m: nat | m <= n :: OneFlying(states[m])
    requires AllRestored(steps, n)
    ensures |states[n].nodes| == 1
    ensures states[n].log + (FO.FlyingUpdates(states[n].nodes[0].inst.tasks) + states[n].nodes[0].inst.pending) == AppendedIn(steps, n)
  {
    if n > 0 {
      OneMoreRestored(steps, n - 1);
      LogInOrder(states, steps, c, n - 1);
      assert StepAt(states, steps, c, n - 1);
      assert OneFlying(states[n - 1]) && OneFlying(states[n]);
      OrderStep(states[n - 1], steps[n - 1], c, AppendedIn(steps, n - 1));
    } else {
      assert OneFlying(states[0]);
      assert FO.Held(FM.Fresh) == [];
    }
  }

  /** The actor is absent, or the empty string. */
  predicate Anonymous(p: Pending) { p.actor == None || p.actor == Some("") }

  /** Then the committed updates are the oldest appended ones, and the last editor is the newest actor among them. */
  lemma {:induction false} LastEditorIsNewest(states: seq<Sys>, steps: seq<Step>, c: FM.Config, n: nat)
    requires FM.ValidConfig(c) && IsRun(states, steps, c) && n < |states|
    requires forall m: nat | m <= n :: OneFlying(states[m])
    requires AllRestored(steps, n)
    ensures states[n].log <= AppendedIn(steps, n)
    ensures var (editor, appended, committed) := (states[n].tables.lastEditedBy, AppendedIn(steps, n), |states[n].log|);
            if editor.None? then forall k :: 0 <= k < committed ==> Anonymous(appended[k])
            else exists k :: 0 <= k < committed && appended[k].actor == editor && !Anonymous(appended[k])
                             && forall j :: k < j < committed ==> Anonymous(appended[j])
  {
    LogInOrder(states, steps, c, n);
    TablesAlways(states, steps, c, n);
    var log, appended, editor := states[n].log, AppendedIn(steps, n), states[n].tables.lastEditedBy;
    assert editor == LastActor(log);
    assert log <= appended;
    if editor.Some? {
      var k := LastActorIsNewest(log);
      assert appended[k] == log[k];
    }
  }
}
