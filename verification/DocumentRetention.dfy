/**
 Which committed batches are still in the table: a batch carries the time of its commit, and it goes
 with the first prune that compacted past it after its retention time.
 */
module DocumentRetention {
  import opened Common
  import opened DocumentTables
  import opened DocumentSystem
  import FM = FlushMachine

  /** Step `m` is a prune past the batch whose cutoff is after the batch's time. */
  predicate Drops(states: seq<Sys>, steps: seq<Step>, m: nat, b: Batch)
    requires |states| == |steps| + 1 && m < |steps|
  {
    var s, x := states[m], steps[m];
    x.PruneStored? && Enabled(s, x) && b.toSeq <= s.nodes[x.i].stores[x.k].seqRead && b.createdAt < x.cutoff
  }

  lemma {:induction false} EverStep(s: Sys, x: Step, c: FM.Config)
    requires FM.ValidConfig(c) && Enabled(s, x)
    ensures s.ever <= Next(s, x, c).ever
    ensures forall b :: b in Next(s, x, c).ever && b !in s.ever ==> x.Flush? && b.createdAt == x.now && b in Next(s, x, c).tables.batches
  {
  }

  lemma {:induction false} EverGrows(states: seq<Sys>, steps: seq<Step>, c: FM.Config, m: nat, n: nat)
    requires FM.ValidConfig(c) && IsRun(states, steps, c) && m <= n < |states|
    ensures states[m].ever <= states[n].ever
  {
    if m < n {
      EverGrows(states, steps, c, m, n - 1);
      assert StepAt(states, steps, c, n - 1);
      EverStep(states[n - 1], steps[n - 1], c);
    }
  }

  lemma {:induction false} CommitKeepsBatches(s: Sys, x: Step, c: FM.Config, b: Batch)
    requires FM.ValidConfig(c) && Enabled(s, x) && x.Flush? && TablesOk(s) && b in s.ever
    ensures b in Next(s, x, c).tables.batches <==> b in s.tables.batches
  {
    var k :| 0 <= k < |s.ever| && s.ever[k] == b;
    TileContents(s.ever, s.log, k);
  }

  lemma {:induction false} OtherKeepsBatches(s: Sys, x: Step, c: FM.Config, b: Batch)
    requires FM.ValidConfig(c) && Enabled(s, x) && !x.Flush?
    ensures b in Next(s, x, c).tables.batches <==>
            b in s.tables.batches &&
            !(x.PruneStored? && b.toSeq <= s.nodes[x.i].stores[x.k].seqRead && b.createdAt < x.cutoff)
  {
  }

  /** Every batch carries the time of the flush that committed it. */
  lemma {:induction false} BatchHasItsTime(states: seq<Sys>, steps: seq<Step>, c: FM.Config, n: nat, b: Batch) returns (m: nat)
    requires FM.ValidConfig(c) && IsRun(states, steps, c) && n < |states| && b in states[n].ever
    ensures m < n && b !in states[m].ever && b in states[m + 1].ever && steps[m].Flush? && b.createdAt == steps[m].now
  {
    assert StepAt(states, steps, c, n - 1);
    EverStep(states[n - 1], steps[n - 1], c);
    if b in states[n - 1].ever {
      m := BatchHasItsTime(states, steps, c, n - 1, b);
    } else {
      m := n - 1;
    }
  }

  lemma {:induction false} NewIsKept(states: seq<Sys>, steps: seq<Step>, c: FM.Config, k: nat, b: Batch)
    requires FM.ValidConfig(c) && IsRun(states, steps, c) && k < |steps| && b in states[k + 1].ever
    ensures b !in states[k].ever ==> b in states[k + 1].tables.batches
  {
    assert StepAt(states, steps, c, k);
    EverStep(states[k], steps[k], c);
  }

  lemma {:induction false} OldIsKept(states: seq<Sys>, steps: seq<Step>, c: FM.Config, k: nat, b: Batch)
    requires FM.ValidConfig(c) && IsRun(states, steps, c) && k < |steps| && b in states[k].ever
    ensures b in states[k + 1].tables.batches <==> b in states[k].tables.batches && !Drops(states, steps, k, b)
  {
    assert StepAt(states, steps, c, k);
    TablesAlways(states, steps, c, k);
    if steps[k].Flush? {
      CommitKeepsBatches(states[k], steps[k], c, b);
    } else {
      OtherKeepsBatches(states[k], steps[k], c, b);
    }
  }

  /** In every run a committed batch is in the table if and only if no prune since has dropped it. */
  lemma {:induction false} KeptUnlessDropped(states: seq<Sys>, steps: seq<Step>, c: FM.Config, n: nat, b: Batch)
    requires FM.ValidConfig(c) && IsRun(states, steps, c) && n < |states| && b in states[n].ever
    ensures b in states[n].tables.batches <==>
            forall m: nat | m < n && b in states[m].ever :: !Drops(states, steps, m, b)
  {
    NewIsKept(states, steps, c, n - 1, b);
    if b in states[n - 1].ever {
      KeptUnlessDropped(states, steps, c, n - 1, b);
      OldIsKept(states, steps, c, n - 1, b);
    } else {
      forall m: nat | m < n ensures b !in states[m].ever {
        EverGrows(states, steps, c, m, n - 1);
      }
    }
  }
}
