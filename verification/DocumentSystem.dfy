/**
 One collaborative document served by any number of service instances that share the
 database. Every step is one atomic section of the service: a flush-machine event, a
 database transaction, or a change of an instance's open document.

 The fields after `nodes` are history: they record what happened and are read by no step.
 */
module DocumentSystem {
  import opened Common
  import opened DocumentTables
  import FM = FlushMachine

  /**
   A `store` call: it has encoded the document, or committed its snapshot and not yet pruned.
   `seen` is history: what had been appended when the document was encoded.
   */
  datatype Store = Encoded(ops: set<Op>, seen: multiset<Pending>) | Stored(seqRead: nat) | Finished

  datatype Node = Node(inst: FM.Inst, doc: set<Op>, stores: seq<Store>)

  datatype Sys = Sys(tables: Tables, nodes: seq<Node>,
                     log: seq<Pending>, ever: seq<Batch>, appended: multiset<Pending>,
                     lost: multiset<Pending>, seeded: set<Op>)

  datatype Step =
    | Apply(i: nat, ops: set<Op>)              // a load, or an update of another instance, reaches the open document
    | Flush(i: nat, e: FM.Event, now: int)
    | Encode(i: nat, id: nat)                  // by a `store` whose flush, task `id`, has returned
    | StoreCommit(i: nat, k: nat)
    | PruneStored(i: nat, k: nat, cutoff: int)
    | Initialize(content: set<Op>)

  predicate Enabled(s: Sys, x: Step) {
    match x
    case Apply(i, _) => i < |s.nodes|
    case Flush(i, e, _) => i < |s.nodes| && FM.Enabled(s.nodes[i].inst, e)
    case Encode(i, id) => i < |s.nodes| && FM.Returned(s.nodes[i].inst, id)
    case StoreCommit(i, k) => i < |s.nodes| && k < |s.nodes[i].stores| && s.nodes[i].stores[k].Encoded?
    case PruneStored(i, k, _) => i < |s.nodes| && k < |s.nodes[i].stores| && s.nodes[i].stores[k].Stored?
    case Initialize(_) => true
  }

  /** Appending follows the change of the open document that caused it. */
  function GrownDoc(doc: set<Op>, e: FM.Event): set<Op> {
    if e.Appended? then doc + e.u.ops else doc
  }

  function Next(s: Sys, x: Step, c: FM.Config): Sys
    requires FM.ValidConfig(c) && Enabled(s, x)
  {
    match x
    case Apply(i, ops) =>
      s.(nodes := s.nodes[i := s.nodes[i].(doc := s.nodes[i].doc + ops)])
    case Flush(i, e, now) =>
      var n := s.nodes[i];
      var written := FM.Written(n.inst, e);
      var s1 := s.(nodes := s.nodes[i := n.(inst := FM.Next(n.inst, e, c), doc := GrownDoc(n.doc, e))],
                   appended := s.appended + FM.Incoming(e), lost := s.lost + FM.Dropped(n.inst, e));
      if written == [] then s1
      else
        var t := CommitBatch(s.tables, written, now);
        s1.(tables := t, log := s.log + written, ever := s.ever + [t.batches[|s.tables.batches|]])
    case Encode(i, _) =>
      var n := s.nodes[i];
      s.(nodes := s.nodes[i := n.(stores := n.stores + [Encoded(n.doc, s.appended)])])
    case StoreCommit(i, k) =>
      var n := s.nodes[i];
      s.(tables := StoreSnapshot(s.tables, n.stores[k].ops),
         nodes := s.nodes[i := n.(stores := n.stores[k := Stored(s.tables.currentSeq)])])
    case PruneStored(i, k, cutoff) =>
      var n := s.nodes[i];
      s.(tables := Prune(s.tables, n.stores[k].seqRead, cutoff),
         nodes := s.nodes[i := n.(stores := n.stores[k := Finished])])
    case Initialize(content) =>
      s.(tables := InsertInitial(s.tables, content),
         seeded := if s.tables.snapshot.Some? then s.seeded else content)
  }

  /** A document without updates, initialised from its project or not. */
  predicate Initial(s: Sys) {
    && s.tables.currentSeq == 0 && s.tables.batches == [] && s.tables.lastEditedBy.None?
    && s.tables.snapshot in {None, Some(Snapshot(s.seeded, 0))}
    && (s.tables.snapshot.None? ==> s.seeded == {})
    && (forall i :: 0 <= i < |s.nodes| ==> s.nodes[i].inst == FM.Fresh && s.nodes[i].stores == [])
    && s.log == [] && s.ever == [] && s.appended == multiset{} && s.lost == multiset{}
  }

  predicate IsRun(states: seq<Sys>, steps: seq<Step>, c: FM.Config)
    requires FM.ValidConfig(c)
  {
    && |states| == |steps| + 1
    && Initial(states[0])
    && forall k: nat | k < |steps| :: StepAt(states, steps, c, k)
  }

  predicate StepAt(states: seq<Sys>, steps: seq<Step>, c: FM.Config, k: nat)
    requires FM.ValidConfig(c) && |states| == |steps| + 1 && k < |steps|
  {
    Enabled(states[k], steps[k]) && states[k + 1] == Next(states[k], steps[k], c)
  }

  // ---- Tiling of the sequence numbers -------------------------------------------------

  /** The batches ever committed cover 1..|log| in order, without gap or overlap, and carry their updates. */
  predicate Tiles(ever: seq<Batch>, log: seq<Pending>) {
    if ever == [] then log == []
    else
      var b := ever[|ever| - 1];
      && 1 <= b.updateCount <= |log|
      && b.toSeq == |log|
      && b.fromSeq == |log| - b.updateCount + 1
      && b.payload == Merge(log[|log| - b.updateCount..])
      && Tiles(ever[..|ever| - 1], log[..|log| - b.updateCount])
  }

  predicate Boundary(ever: seq<Batch>, n: nat) {
    n == 0 || exists k :: 0 <= k < |ever| && ever[k].toSeq == n
  }

  predicate TablesOk(s: Sys) {
    && s.tables.currentSeq == |s.log|
    && s.tables.lastEditedBy == LastActor(s.log)
    && (s.tables.snapshot.None? ==> s.seeded == {})
    && Tiles(s.ever, s.log)
    && Boundary(s.ever, Compacted(s.tables))
    && (forall b :: b in s.tables.batches ==> b in s.ever)
    && (forall b :: b in s.ever ==> b in s.tables.batches || b.toSeq <= Compacted(s.tables))
  }

  predicate StoresOk(s: Sys) {
    forall i, k :: 0 <= i < |s.nodes| && 0 <= k < |s.nodes[i].stores| && s.nodes[i].stores[k].Stored?
      ==> s.nodes[i].stores[k].seqRead <= Compacted(s.tables)
  }

  /** Each batch's width is its update count and its payload the merge of the updates it numbers. */
  lemma {:induction false} TileContents(ever: seq<Batch>, log: seq<Pending>, k: nat)
    requires Tiles(ever, log) && k < |ever|
    ensures 1 <= ever[k].fromSeq <= ever[k].toSeq <= |log|
    ensures ever[k].updateCount == ever[k].toSeq - ever[k].fromSeq + 1
    ensures ever[k].payload == Merge(log[ever[k].fromSeq - 1..ever[k].toSeq])
  {
    var b := ever[|ever| - 1];
    var shorter := log[..|log| - b.updateCount];
    if k == |ever| - 1 {
      assert log[|log| - b.updateCount..] == log[b.fromSeq - 1..b.toSeq];
    } else {
      TileContents(ever[..|ever| - 1], shorter, k);
      assert shorter[ever[k].fromSeq - 1..ever[k].toSeq] == log[ever[k].fromSeq - 1..ever[k].toSeq];
    }
  }

  /** Every sequence number up to the counter lies in exactly one batch ever committed. */
  lemma {:induction false} NumberedOnce(ever: seq<Batch>, log: seq<Pending>, n: nat)
    requires Tiles(ever, log) && 1 <= n <= |log|
    ensures exists k :: 0 <= k < |ever| && ever[k].fromSeq <= n <= ever[k].toSeq
    ensures forall j, k | 0 <= j < |ever| && 0 <= k < |ever| ::
              ever[j].fromSeq <= n <= ever[j].toSeq && ever[k].fromSeq <= n <= ever[k].toSeq ==> j == k
  {
    var m := |ever| - 1;
    var b, front := ever[m], ever[..m];
    var shorter := log[..|log| - b.updateCount];
    forall k | 0 <= k < m ensures ever[k].toSeq <= |shorter| {
      TileContents(front, shorter, k);
      assert front[k] == ever[k];
    }
    if n > |shorter| {
      assert ever[m].fromSeq <= n <= ever[m].toSeq;
    } else {
      NumberedOnce(front, shorter, n);
      var k :| 0 <= k < |front| && front[k].fromSeq <= n <= front[k].toSeq;
      assert ever[k] == front[k];
      forall j | 0 <= j < |ever| && ever[j].fromSeq <= n <= ever[j].toSeq ensures j == k {
        assert j < m;
        assert front[j] == ever[j];
      }
    }
  }

  lemma {:induction false} TablesBounded(s: Sys)
    requires TablesOk(s)
    ensures Bounded(s.tables)
  {
    forall b | b in s.ever ensures b.toSeq <= |s.log| {
      var k :| 0 <= k < |s.ever| && s.ever[k] == b;
      TileContents(s.ever, s.log, k);
    }
    if Compacted(s.tables) != 0 {
      var k :| 0 <= k < |s.ever| && s.ever[k].toSeq == Compacted(s.tables);
      assert s.ever[k] in s.ever;
    }
  }

  /** `initializeProjectDocument` never finds a counter without a snapshot and without batches. */
  lemma {:induction false} NeverIncomplete(s: Sys, linked: bool)
    requires TablesOk(s)
    ensures InitDecide(linked, s.tables) != Incomplete
  {
    if s.tables.snapshot.None? && s.tables.batches == [] && s.tables.currentSeq != 0 {
      assert s.ever[|s.ever| - 1] in s.ever;
    }
  }

  lemma {:induction false} CommitTiles(ever: seq<Batch>, log: seq<Pending>, b: Batch, written: seq<Pending>)
    requires Tiles(ever, log) && written != []
    requires b.updateCount == |written| && b.fromSeq == |log| + 1 && b.toSeq == |log| + |written| && b.payload == Merge(written)
    ensures Tiles(ever + [b], log + written)
  {
    var more := log + written;
    assert more[|more| - |written|..] == written && more[..|more| - |written|] == log;
    assert (ever + [b])[..|ever|] == ever;
  }

  lemma {:induction false} CommitBoundary(ever: seq<Batch>, b: Batch, n: nat)
    requires Boundary(ever, n)
    ensures Boundary(ever + [b], n)
  {
    if n != 0 {
      var k :| 0 <= k < |ever| && ever[k].toSeq == n;
      assert (ever + [b])[k].toSeq == n;
    }
  }

  lemma {:induction false} CommitKeepsTables(s: Sys, x: Step, c: FM.Config)
    requires FM.ValidConfig(c) && Enabled(s, x) && x.Flush? && TablesOk(s)
    ensures TablesOk(Next(s, x, c))
  {
    var s' := Next(s, x, c);
    var written := FM.Written(s.nodes[x.i].inst, x.e);
    if written != [] {
      var b := s'.ever[|s.ever|];
      LastActorConcat(s.log, written);
      CommitTiles(s.ever, s.log, b, written);
      CommitBoundary(s.ever, b, Compacted(s.tables));
    }
  }

  lemma {:induction false} StoreKeepsTables(s: Sys, x: Step, c: FM.Config)
    requires FM.ValidConfig(c) && Enabled(s, x) && x.StoreCommit? && TablesOk(s)
    ensures TablesOk(Next(s, x, c))
  {
    TablesBounded(s);
    var s' := Next(s, x, c);
    assert s.ever != [] ==> s.ever[|s.ever| - 1].toSeq == Compacted(s'.tables);
    forall b | b in s.ever ensures b.toSeq <= Compacted(s'.tables) {
      var k :| 0 <= k < |s.ever| && s.ever[k] == b;
      TileContents(s.ever, s.log, k);
    }
  }

  lemma {:induction false} PruneKeepsTables(s: Sys, x: Step, c: FM.Config)
    requires FM.ValidConfig(c) && Enabled(s, x) && x.PruneStored? && TablesOk(s) && StoresOk(s)
    ensures TablesOk(Next(s, x, c)) && StoresOk(Next(s, x, c))
    ensures Compacted(s.tables) <= Compacted(Next(s, x, c).tables)
  {
  }

  lemma {:induction false} InitializeKeepsTables(s: Sys, x: Step, c: FM.Config)
    requires FM.ValidConfig(c) && Enabled(s, x) && x.Initialize? && TablesOk(s) && StoresOk(s)
    ensures TablesOk(Next(s, x, c)) && StoresOk(Next(s, x, c))
    ensures Compacted(s.tables) <= Compacted(Next(s, x, c).tables)
  {
  }

  lemma {:induction false} DocumentKeepsTables(s: Sys, x: Step, c: FM.Config)
    requires FM.ValidConfig(c) && Enabled(s, x) && (x.Apply? || x.Encode?) && TablesOk(s) && StoresOk(s)
    ensures TablesOk(Next(s, x, c)) && StoresOk(Next(s, x, c))
    ensures Next(s, x, c).tables == s.tables
  {
  }

  lemma {:induction false} FlushKeepsStores(s: Sys, x: Step, c: FM.Config)
    requires FM.ValidConfig(c) && Enabled(s, x) && x.Flush? && StoresOk(s)
    ensures StoresOk(Next(s, x, c)) && Compacted(Next(s, x, c).tables) == Compacted(s.tables)
  {
  }

  lemma {:induction false} StoreKeepsStores(s: Sys, x: Step, c: FM.Config)
    requires FM.ValidConfig(c) && Enabled(s, x) && x.StoreCommit? && Bounded(s.tables) && StoresOk(s)
    ensures StoresOk(Next(s, x, c)) && Compacted(s.tables) <= Compacted(Next(s, x, c).tables)
  {
  }

  /** Tiling, boundaries and the bound on pruning hold after every step of every instance. */
  lemma {:induction false} TablesStep(s: Sys, x: Step, c: FM.Config)
    requires FM.ValidConfig(c) && Enabled(s, x) && TablesOk(s) && StoresOk(s)
    ensures TablesOk(Next(s, x, c)) && StoresOk(Next(s, x, c))
    ensures Compacted(s.tables) <= Compacted(Next(s, x, c).tables)
  {
    TablesBounded(s);
    match x
    case Flush(i, e, now) =>
      CommitKeepsTables(s, x, c);
      FlushKeepsStores(s, x, c);
    case StoreCommit(i, k) =>
      StoreKeepsTables(s, x, c);
      StoreKeepsStores(s, x, c);
    case Apply(i, ops) => DocumentKeepsTables(s, x, c);
    case Encode(i, id) => DocumentKeepsTables(s, x, c);
    case PruneStored(i, k, cutoff) => PruneKeepsTables(s, x, c);
    case Initialize(content) => InitializeKeepsTables(s, x, c);
  }

  lemma {:induction false} TablesAlways(states: seq<Sys>, steps: seq<Step>, c: FM.Config, n: nat)
    requires FM.ValidConfig(c) && IsRun(states, steps, c) && n < |states|
    ensures TablesOk(states[n]) && StoresOk(states[n])
  {
    if n > 0 {
      TablesAlways(states, steps, c, n - 1);
      assert StepAt(states, steps, c, n - 1);
      TablesStep(states[n - 1], steps[n - 1], c);
    }
  }

  /** The compaction mark never moves back between any two states of a run. */
  lemma {:induction false} CompactionGrows(states: seq<Sys>, steps: seq<Step>, c: FM.Config, m: nat, n: nat)
    requires FM.ValidConfig(c) && IsRun(states, steps, c) && m <= n < |states|
    ensures Compacted(states[m].tables) <= Compacted(states[n].tables)
  {
    if m < n {
      CompactionGrows(states, steps, c, m, n - 1);
      TablesAlways(states, steps, c, n - 1);
      assert StepAt(states, steps, c, n - 1);
      TablesStep(states[n - 1], steps[n - 1], c);
    }
  }

  // ---- Loading ------------------------------------------------------------------------

  /** What a reader is owed: the initial content and every committed update. */
  function Owed(s: Sys): set<Op> { s.seeded + Merge(s.log) }

  /** A store commits with a state that holds at least what is owed at that moment. */
  predicate CoveringStore(s: Sys, x: Step) {
    Enabled(s, x) && x.StoreCommit? ==> Owed(s) <= s.nodes[x.i].stores[x.k].ops
  }

  predicate ExactStore(s: Sys, x: Step) {
    Enabled(s, x) && x.StoreCommit? ==> Owed(s) == s.nodes[x.i].stores[x.k].ops
  }

  /** The operations a step newly owes to readers. */
  function Added(s: Sys, x: Step): set<Op>
    requires Enabled(s, x)
  {
    match x
    case Flush(i, e, _) => Merge(FM.Written(s.nodes[i].inst, e))
    case Initialize(content) => if s.tables.snapshot.Some? then {} else content
    case _ => {}
  }

  /** Only a store changes the loaded document by anything but the newly owed operations. */
  lemma {:induction false} LoadStep(s: Sys, x: Step, c: FM.Config)
    requires FM.ValidConfig(c) && Enabled(s, x) && TablesOk(s) && StoresOk(s)
    ensures Owed(Next(s, x, c)) == Owed(s) + Added(s, x)
    ensures Load(Next(s, x, c).tables) ==
            if x.StoreCommit? then s.nodes[x.i].stores[x.k].ops else Load(s.tables) + Added(s, x)
  {
    TablesBounded(s);
    match x {
      case Apply(i, ops) =>
      case Encode(i, id) =>
      case StoreCommit(i, k) =>
        StoreLoads(s.tables, s.nodes[i].stores[k].ops);
      case PruneStored(i, k, cutoff) =>
        PruneLoads(s.tables, s.nodes[i].stores[k].seqRead, cutoff);
      case Flush(i, e, now) =>
        var written := FM.Written(s.nodes[i].inst, e);
        MergeConcat(s.log, written);
        if written != [] {
          CommitLoads(s.tables, written, now);
        }
      case Initialize(content) =>
        InitialLoads(s.tables, content);
    }
  }

  lemma {:induction false} InitialExact(s: Sys)
    requires Initial(s)
    ensures Load(s.tables) == Owed(s)
  {
  }

  predicate Complete(s: Sys) { Owed(s) <= Load(s.tables) }

  predicate Exact(s: Sys) { Owed(s) == Load(s.tables) }

  lemma {:induction false} CompleteStep(s: Sys, x: Step, c: FM.Config)
    requires FM.ValidConfig(c) && Enabled(s, x) && TablesOk(s) && StoresOk(s)
    ensures Complete(s) ==> (Complete(Next(s, x, c)) <==> CoveringStore(s, x))
    ensures Exact(s) ==> (Exact(Next(s, x, c)) <==> ExactStore(s, x))
  {
    LoadStep(s, x, c);
  }

  predicate CompleteAt(states: seq<Sys>, m: nat)
    requires m < |states|
  {
    Complete(states[m])
  }

  predicate ExactAt(states: seq<Sys>, m: nat)
    requires m < |states|
  {
    Exact(states[m])
  }

  predicate CoversAt(states: seq<Sys>, steps: seq<Step>, m: nat)
    requires |states| == |steps| + 1 && m < |steps|
  {
    CoveringStore(states[m], steps[m])
  }

  predicate MatchesAt(states: seq<Sys>, steps: seq<Step>, m: nat)
    requires |states| == |steps| + 1 && m < |steps|
  {
    ExactStore(states[m], steps[m])
  }

  predicate AllComplete(states: seq<Sys>, n: nat)
    requires n < |states|
  {
    forall m: nat | m <= n :: CompleteAt(states, m)
  }

  predicate AllExact(states: seq<Sys>, n: nat)
    requires n < |states|
  {
    forall m: nat | m <= n :: ExactAt(states, m)
  }

  predicate AllCover(states: seq<Sys>, steps: seq<Step>, n: nat)
    requires |states| == |steps| + 1 && n <= |steps|
  {
    forall m: nat | m < n :: CoversAt(states, steps, m)
  }

  predicate AllMatch(states: seq<Sys>, steps: seq<Step>, n: nat)
    requires |states| == |steps| + 1 && n <= |steps|
  {
    forall m: nat | m < n :: MatchesAt(states, steps, m)
  }

  lemma {:induction false} RunCompletes(states: seq<Sys>, steps: seq<Step>, c: FM.Config, k: nat)
    requires FM.ValidConfig(c) && IsRun(states, steps, c) && k < |steps|
    ensures CompleteAt(states, k) ==> (CompleteAt(states, k + 1) <==> CoversAt(states, steps, k))
    ensures ExactAt(states, k) ==> (ExactAt(states, k + 1) <==> MatchesAt(states, steps, k))
  {
    TablesAlways(states, steps, c, k);
    assert StepAt(states, steps, c, k);
    CompleteStep(states[k], steps[k], c);
  }

  /**
   Every state of a run loads at least what is owed if and only if every store that
   committed had encoded at least what was owed at its commit.
   */
  lemma {:induction false} LoadsCompletely(states: seq<Sys>, steps: seq<Step>, c: FM.Config, n: nat)
    requires FM.ValidConfig(c) && IsRun(states, steps, c) && n < |states|
    ensures AllComplete(states, n) <==> AllCover(states, steps, n)
  {
    if n == 0 {
      InitialExact(states[0]);
      assert CompleteAt(states, 0);
    } else {
      LoadsCompletely(states, steps, c, n - 1);
      RunCompletes(states, steps, c, n - 1);
      assert AllComplete(states, n) <==> AllComplete(states, n - 1) && CompleteAt(states, n);
      assert AllCover(states, steps, n) <==> AllCover(states, steps, n - 1) && CoversAt(states, steps, n - 1);
    }
  }

  /** The same with equality: loads are exact throughout if and only if every stored state was. */
  lemma {:induction false} LoadsExactly(states: seq<Sys>, steps: seq<Step>, c: FM.Config, n: nat)
    requires FM.ValidConfig(c) && IsRun(states, steps, c) && n < |states|
    ensures AllExact(states, n) <==> AllMatch(states, steps, n)
  {
    if n == 0 {
      InitialExact(states[0]);
      assert ExactAt(states, 0);
    } else {
      LoadsExactly(states, steps, c, n - 1);
      RunCompletes(states, steps, c, n - 1);
      assert AllExact(states, n) <==> AllExact(states, n - 1) && ExactAt(states, n);
      assert AllMatch(states, steps, n) <==> AllMatch(states, steps, n - 1) && MatchesAt(states, steps, n - 1);
    }
  }

  // ---- Conservation across instances --------------------------------------------------

  function Sum(parts: seq<multiset<Pending>>): multiset<Pending> {
    if parts == [] then multiset{} else Sum(parts[..|parts| - 1]) + parts[|parts| - 1]
  }

  lemma {:induction false} SumChange(a: seq<multiset<Pending>>, i: nat, part: multiset<Pending>, p: Pending)
    requires i < |a|
    ensures Sum(a[i := part])[p] + a[i][p] == Sum(a)[p] + part[p]
  {
    var m := |a| - 1;
    if i == m {
      assert a[i := part][..m] == a[..m];
    } else {
      SumChange(a[..m], i, part, p);
      assert a[i := part][..m] == a[..m][i := part];
    }
  }

  function Parts(nodes: seq<Node>): (parts: seq<multiset<Pending>>)
    ensures |parts| == |nodes| && forall i | 0 <= i < |nodes| :: parts[i] == FM.Outstanding(nodes[i].inst)
  {
    seq(|nodes|, i requires 0 <= i < |nodes| => FM.Outstanding(nodes[i].inst))
  }

  /** What the instances hold, buffered or in flight. */
  function Held(nodes: seq<Node>): multiset<Pending> { Sum(Parts(nodes)) }

  lemma {:induction false} HeldChange(a: seq<Node>, i: nat, n: Node)
    requires i < |a|
    ensures Held(a[i := n]) + FM.Outstanding(a[i].inst) == Held(a) + FM.Outstanding(n.inst)
  {
    assert Parts(a[i := n]) == Parts(a)[i := FM.Outstanding(n.inst)];
    HeldCounts(Parts(a), i, FM.Outstanding(n.inst));
  }

  lemma {:induction false} HeldCounts(parts: seq<multiset<Pending>>, i: nat, part: multiset<Pending>)
    requires i < |parts|
    ensures Sum(parts[i := part]) + parts[i] == Sum(parts) + part
  {
    forall p: Pending ensures (Sum(parts[i := part]) + parts[i])[p] == (Sum(parts) + part)[p] {
      SumChange(parts, i, part, p);
    }
  }

  lemma {:induction false} NothingHeld(nodes: seq<Node>)
    requires forall i :: 0 <= i < |nodes| ==> nodes[i].inst == FM.Fresh
    ensures Held(nodes) == multiset{}
  {
    EmptySum(Parts(nodes));
  }

  lemma {:induction false} EmptySum(parts: seq<multiset<Pending>>)
    requires forall i | 0 <= i < |parts| :: parts[i] == multiset{}
    ensures Sum(parts) == multiset{}
  {
    if parts != [] {
      EmptySum(parts[..|parts| - 1]);
    }
  }

  predicate Conserved(s: Sys) { s.appended == multiset(s.log) + Held(s.nodes) + s.lost }

  lemma {:induction false} BalanceStep(appended: multiset<Pending>, log: multiset<Pending>, held: multiset<Pending>, lost: multiset<Pending>,
                    held': multiset<Pending>, own: multiset<Pending>, own': multiset<Pending>,
                    incoming: multiset<Pending>, written: multiset<Pending>, dropped: multiset<Pending>)
    requires appended == log + held + lost
    requires held' + own == held + own'
    requires own' + written + dropped == own + incoming
    ensures appended + incoming == log + written + held' + (lost + dropped)
  {
    forall p: Pending ensures (appended + incoming)[p] == (log + written + held' + (lost + dropped))[p] {
      assert (held' + own)[p] == (held + own')[p];
      assert (own' + written + dropped)[p] == (own + incoming)[p];
    }
  }

  lemma {:induction false} FlushConserved(s: Sys, x: Step, c: FM.Config)
    requires FM.ValidConfig(c) && Enabled(s, x) && Conserved(s) && x.Flush?
    ensures Conserved(Next(s, x, c))
  {
    var s' := Next(s, x, c);
    var inst, inst' := s.nodes[x.i].inst, s'.nodes[x.i].inst;
    var written := FM.Written(inst, x.e);
    HeldChange(s.nodes, x.i, s'.nodes[x.i]);
    FM.EventConserves(inst, x.e, c);
    BalanceStep(s.appended, multiset(s.log), Held(s.nodes), s.lost, Held(s'.nodes), FM.Outstanding(inst),
                FM.Outstanding(inst'), FM.Incoming(x.e), multiset(written), FM.Dropped(inst, x.e));
    assert multiset(s'.log) == multiset(s.log) + multiset(written);
  }

  lemma {:induction false} ConservedStep(s: Sys, x: Step, c: FM.Config)
    requires FM.ValidConfig(c) && Enabled(s, x) && Conserved(s)
    ensures Conserved(Next(s, x, c))
  {
    if x.Flush? {
      FlushConserved(s, x, c);
    } else if !x.Initialize? {
      SameInstanceHeld(s.nodes, x.i, Next(s, x, c).nodes[x.i]);
    }
  }

  lemma {:induction false} SameInstanceHeld(a: seq<Node>, i: nat, n: Node)
    requires i < |a| && n.inst == a[i].inst
    ensures Held(a[i := n]) == Held(a)
  {
    HeldChange(a, i, n);
    var own := FM.Outstanding(n.inst);
    forall p: Pending ensures Held(a[i := n])[p] == Held(a)[p] {
      assert (Held(a[i := n]) + own)[p] == (Held(a) + own)[p];
    }
  }

  /** A failed BEGIN, or a ROLLBACK that itself failed. */
  predicate SkipsRestore(x: Step) { x.Flush? && x.e.Failed? && !x.e.restored }

  /**
   Appended updates are committed, in flight, buffered or lost, with multiplicity; none is
   lost exactly when every failing flush completed its ROLLBACK.
   */
  lemma {:induction false} NothingLostOrDuplicated(states: seq<Sys>, steps: seq<Step>, c: FM.Config, n: nat)
    requires FM.ValidConfig(c) && IsRun(states, steps, c) && n < |states|
    ensures Conserved(states[n])
    ensures states[n].lost == multiset{} <==> AllRestored(steps, n)
    ensures states[n].appended == multiset(states[n].log) + Held(states[n].nodes) <==> AllRestored(steps, n)
  {
    if n == 0 {
      NothingHeld(states[0].nodes);
    } else {
      NothingLostOrDuplicated(states, steps, c, n - 1);
      RunConserves(states, steps, c, n - 1);
      OneMoreRestored(steps, n - 1);
    }
    BalanceWithoutLoss(states[n].appended, multiset(states[n].log) + Held(states[n].nodes), states[n].lost);
  }

  predicate AllRestored(steps: seq<Step>, n: nat)
    requires n <= |steps|
  {
    forall m :: 0 <= m < n ==> !SkipsRestore(steps[m])
  }

  lemma {:induction false} OneMoreRestored(steps: seq<Step>, n: nat)
    requires n < |steps|
    ensures AllRestored(steps, n + 1) <==> AllRestored(steps, n) && !SkipsRestore(steps[n])
  {
  }

  lemma {:induction false} RunConserves(states: seq<Sys>, steps: seq<Step>, c: FM.Config, k: nat)
    requires FM.ValidConfig(c) && IsRun(states, steps, c) && k < |steps| && Conserved(states[k])
    ensures Conserved(states[k + 1])
    ensures states[k + 1].lost == multiset{} <==> states[k].lost == multiset{} && !SkipsRestore(steps[k])
  {
    assert StepAt(states, steps, c, k);
    ConservedStep(states[k], steps[k], c);
    LostStep(states[k], steps[k], c);
  }

  lemma {:induction false} LostStep(s: Sys, x: Step, c: FM.Config)
    requires FM.ValidConfig(c) && Enabled(s, x)
    ensures Next(s, x, c).lost == multiset{} <==> s.lost == multiset{} && !SkipsRestore(x)
  {
    if SkipsRestore(x) {
      var batch := s.nodes[x.i].inst.tasks[x.e.id].phase.batch;
      assert batch[0] in multiset(batch);
      assert batch[0] in Next(s, x, c).lost;
    }
  }

  lemma {:induction false} BalanceWithoutLoss(whole: multiset<Pending>, kept: multiset<Pending>, lost: multiset<Pending>)
    requires whole == kept + lost
    ensures whole == kept <==> lost == multiset{}
  {
    if lost != multiset{} {
      var p :| p in lost;
      assert whole[p] == kept[p] + lost[p];
    }
  }

  // ---- One instance -------------------------------------------------------------------

  /** A change event, and so an append, carries something new to the document. */
  predicate FreshAppend(s: Sys, x: Step) {
    Enabled(s, x) && x.Flush? && x.e.Appended? ==> !(x.e.u.ops <= s.nodes[x.i].doc)
  }

  /** The encoded state holds an appended update exactly if it had been appended before the encoding. */
  predicate SeenIsHeld(st: Store, doc: set<Op>, appended: multiset<Pending>) {
    st.Encoded? ==>
      && st.ops <= doc
      && (forall p | p in st.seen :: p.ops <= st.ops)
      && (forall p | p in appended && st.seen[p] < appended[p] :: !(p.ops <= st.ops))
  }

  /** The only instance's document holds everything appended. */
  predicate SingleOk(s: Sys) {
    && |s.nodes| == 1
    && (forall p | p in s.appended :: p.ops <= s.nodes[0].doc)
    && (forall k: nat | k < |s.nodes[0].stores| :: SeenIsHeld(s.nodes[0].stores[k], s.nodes[0].doc, s.appended))
  }

  lemma {:induction false} SeenStays(st: Store, doc: set<Op>, appended: multiset<Pending>, ops: set<Op>)
    requires SeenIsHeld(st, doc, appended)
    ensures SeenIsHeld(st, doc + ops, appended)
  {
  }

  lemma {:induction false} SeenAppend(st: Store, doc: set<Op>, appended: multiset<Pending>, u: Pending)
    requires SeenIsHeld(st, doc, appended) && !(u.ops <= doc)
    ensures SeenIsHeld(st, doc + u.ops, appended + multiset{u})
  {
  }

  lemma {:induction false} SingleFlush(s: Sys, x: Step, c: FM.Config)
    requires FM.ValidConfig(c) && Enabled(s, x) && x.Flush? && SingleOk(s)
    ensures var s', n := Next(s, x, c), s.nodes[0];
            && |s'.nodes| == 1 && s'.nodes[0].stores == n.stores
            && s'.nodes[0].doc == (if x.e.Appended? then n.doc + x.e.u.ops else n.doc)
            && s'.appended == (if x.e.Appended? then s.appended + multiset{x.e.u} else s.appended)
  {
  }

  lemma {:induction false} SingleFlushStep(s: Sys, x: Step, c: FM.Config)
    requires FM.ValidConfig(c) && Enabled(s, x) && x.Flush? && SingleOk(s) && FreshAppend(s, x)
    ensures SingleOk(Next(s, x, c))
  {
    SingleFlush(s, x, c);
    if x.e.Appended? {
      forall k: nat | k < |s.nodes[0].stores|
        ensures SeenIsHeld(s.nodes[0].stores[k], s.nodes[0].doc + x.e.u.ops, s.appended + multiset{x.e.u})
      {
        SeenAppend(s.nodes[0].stores[k], s.nodes[0].doc, s.appended, x.e.u);
      }
    }
  }

  lemma {:induction false} SingleOtherStep(s: Sys, x: Step, c: FM.Config)
    requires FM.ValidConfig(c) && Enabled(s, x) && !x.Flush? && SingleOk(s)
    ensures SingleOk(Next(s, x, c))
  {
    if x.Apply? {
      forall k: nat | k < |s.nodes[0].stores|
        ensures SeenIsHeld(s.nodes[0].stores[k], s.nodes[0].doc + x.ops, s.appended)
      {
        SeenStays(s.nodes[0].stores[k], s.nodes[0].doc, s.appended, x.ops);
      }
    }
  }

  /** Of a committing store: every logged update was appended before the document was encoded. */
  predicate LogCaptured(s: Sys, x: Step) {
    Enabled(s, x) && x.StoreCommit? ==> multiset(s.log) <= s.nodes[x.i].stores[x.k].seen
  }

  /** The initial content was in the document when it was encoded. */
  predicate SeedCaptured(s: Sys, x: Step) {
    Enabled(s, x) && x.StoreCommit? ==> s.seeded <= s.nodes[x.i].stores[x.k].ops
  }

  lemma {:induction false} LogIsAppended(s: Sys, p: Pending)
    requires Conserved(s)
    ensures multiset(s.log)[p] <= s.appended[p]
  {
  }

  lemma {:induction false} CapturedCovers(s: Sys, x: Step)
    requires Enabled(s, x) && x.StoreCommit? && SingleOk(s) && LogCaptured(s, x)
    ensures Merge(s.log) <= s.nodes[x.i].stores[x.k].ops
  {
    var st := s.nodes[0].stores[x.k];
    assert SeenIsHeld(st, s.nodes[0].doc, s.appended);
    forall o | o in Merge(s.log) ensures o in st.ops {
      var p :| p in s.log && o in p.ops;
      assert p in multiset(s.log);
      assert p in st.seen;
    }
  }

  lemma {:induction false} CoveredIsCaptured(s: Sys, x: Step)
    requires Enabled(s, x) && x.StoreCommit? && SingleOk(s) && Conserved(s)
    requires Merge(s.log) <= s.nodes[x.i].stores[x.k].ops
    ensures LogCaptured(s, x)
  {
    var st := s.nodes[0].stores[x.k];
    assert SeenIsHeld(st, s.nodes[0].doc, s.appended);
    forall p: Pending ensures multiset(s.log)[p] <= st.seen[p] {
      LogIsAppended(s, p);
      if p in s.log {
        assert p.ops <= Merge(s.log);
      }
    }
  }

  lemma {:induction false} CoversIffCaptured(s: Sys, x: Step)
    requires Enabled(s, x) && SingleOk(s) && Conserved(s)
    ensures CoveringStore(s, x) <==> LogCaptured(s, x) && SeedCaptured(s, x)
  {
    if x.StoreCommit? {
      if LogCaptured(s, x) { CapturedCovers(s, x); }
      if Merge(s.log) <= s.nodes[x.i].stores[x.k].ops { CoveredIsCaptured(s, x); }
    }
  }

  predicate FreshAt(states: seq<Sys>, steps: seq<Step>, m: nat)
    requires |states| == |steps| + 1 && m < |steps|
  {
    FreshAppend(states[m], steps[m])
  }

  predicate LogCapturedAt(states: seq<Sys>, steps: seq<Step>, m: nat)
    requires |states| == |steps| + 1 && m < |steps|
  {
    LogCaptured(states[m], steps[m])
  }

  predicate SeedCapturedAt(states: seq<Sys>, steps: seq<Step>, m: nat)
    requires |states| == |steps| + 1 && m < |steps|
  {
    SeedCaptured(states[m], steps[m])
  }

  lemma {:induction false} SingleAlways(states: seq<Sys>, steps: seq<Step>, c: FM.Config, n: nat)
    requires FM.ValidConfig(c) && IsRun(states, steps, c) && n < |states| && |states[0].nodes| == 1
    requires forall m: nat | m < n :: FreshAt(states, steps, m)
    ensures SingleOk(states[n])
  {
    if n > 0 {
      SingleAlways(states, steps, c, n - 1);
      assert StepAt(states, steps, c, n - 1) && FreshAt(states, steps, n - 1);
      if steps[n - 1].Flush? {
        SingleFlushStep(states[n - 1], steps[n - 1], c);
      } else {
        SingleOtherStep(states[n - 1], steps[n - 1], c);
      }
    }
  }

  lemma {:induction false} CapturedAt(states: seq<Sys>, steps: seq<Step>, c: FM.Config, k: nat)
    requires FM.ValidConfig(c) && IsRun(states, steps, c) && k < |steps| && |states[0].nodes| == 1
    requires forall m: nat | m < |steps| :: FreshAt(states, steps, m)
    ensures CoversAt(states, steps, k) <==> LogCapturedAt(states, steps, k) && SeedCapturedAt(states, steps, k)
  {
    SingleAlways(states, steps, c, k);
    NothingLostOrDuplicated(states, steps, c, k);
    assert StepAt(states, steps, c, k);
    CoversIffCaptured(states[k], steps[k]);
  }

  /**
   One instance: every load is complete if and only if, at every store's lock, all logged updates
   had been appended before the store encoded the document, and the initial content was in it.
   */
  lemma {:induction false} SingleInstanceLoads(states: seq<Sys>, steps: seq<Step>, c: FM.Config)
    requires FM.ValidConfig(c) && IsRun(states, steps, c) && |states[0].nodes| == 1
    requires forall m: nat | m < |steps| :: FreshAt(states, steps, m)
    ensures AllComplete(states, |steps|)
       <==> forall m: nat | m < |steps| :: LogCapturedAt(states, steps, m) && SeedCapturedAt(states, steps, m)
  {
    LoadsCompletely(states, steps, c, |steps|);
    forall m: nat | m < |steps|
      ensures CoversAt(states, steps, m) <==> LogCapturedAt(states, steps, m) && SeedCapturedAt(states, steps, m)
    {
      CapturedAt(states, steps, c, m);
    }
  }

  /** The document was opened with the initial content in it. */
  predicate SeedOk(s: Sys) {
    && |s.nodes| == 1 && s.tables.snapshot.Some? && s.seeded <= s.nodes[0].doc
    && (forall k: nat | k < |s.nodes[0].stores| && s.nodes[0].stores[k].Encoded? :: s.seeded <= s.nodes[0].stores[k].ops)
  }

  lemma {:induction false} SeedFlush(s: Sys, x: Step, c: FM.Config)
    requires FM.ValidConfig(c) && Enabled(s, x) && x.Flush? && SeedOk(s)
    ensures SeedOk(Next(s, x, c))
  {
    var s' := Next(s, x, c);
    assert s'.nodes[0].stores == s.nodes[0].stores && s'.seeded == s.seeded;
    assert s'.nodes[0].doc == GrownDoc(s.nodes[0].doc, x.e);
  }

  lemma {:induction false} SeedStep(s: Sys, x: Step, c: FM.Config)
    requires FM.ValidConfig(c) && Enabled(s, x) && SeedOk(s)
    ensures SeedOk(Next(s, x, c)) && SeedCaptured(s, x)
  {
    if x.Flush? {
      SeedFlush(s, x, c);
    }
  }

  lemma {:induction false} SeedAlways(states: seq<Sys>, steps: seq<Step>, c: FM.Config, n: nat)
    requires FM.ValidConfig(c) && IsRun(states, steps, c) && n < |states| && SeedOk(states[0])
    ensures SeedOk(states[n])
  {
    if n > 0 {
      SeedAlways(states, steps, c, n - 1);
      assert StepAt(states, steps, c, n - 1);
      SeedStep(states[n - 1], steps[n - 1], c);
    }
  }

  /** When the document was opened after its initialisation, only the logged updates matter. */
  lemma {:induction false} OpenedInstanceLoads(states: seq<Sys>, steps: seq<Step>, c: FM.Config)
    requires FM.ValidConfig(c) && IsRun(states, steps, c) && SeedOk(states[0])
    requires forall m: nat | m < |steps| :: FreshAt(states, steps, m)
    ensures AllComplete(states, |steps|) <==> forall m: nat | m < |steps| :: LogCapturedAt(states, steps, m)
  {
    SingleInstanceLoads(states, steps, c);
    forall m: nat | m < |steps| ensures SeedCapturedAt(states, steps, m) {
      SeedAlways(states, steps, c, m);
      assert StepAt(states, steps, c, m);
      SeedStep(states[m], steps[m], c);
    }
  }

  // ---- Two runs of one instance that lose content from loads ---------------------------

  const Called: FM.Inst := FM.Inst([], None, Some(0), 0, [FM.Task(false, FM.InFlight([]))])

  const Flushed: FM.Inst := FM.Inst([], None, None, 0, [FM.Task(false, FM.Done)])

  lemma {:induction false} CallFlushes(c: FM.Config)
    requires FM.ValidConfig(c)
    ensures FM.Next(FM.Fresh, FM.Called, c) == Called
    ensures FM.Enabled(Called, FM.Committed(0)) && FM.Next(Called, FM.Committed(0), c) == Flushed
    ensures FM.Written(FM.Fresh, FM.Called) == [] && FM.Written(Called, FM.Committed(0)) == []
    ensures FM.Dropped(FM.Fresh, FM.Called) == multiset{} && FM.Dropped(Called, FM.Committed(0)) == multiset{}
  {
    assert FM.Next(Called, FM.Committed(0), c).tasks == Flushed.tasks;
  }

  /** A run whose appends all carry something new. */
  predicate FreshRun(states: seq<Sys>, steps: seq<Step>, c: FM.Config)
    requires FM.ValidConfig(c)
  {
    IsRun(states, steps, c) && forall m: nat | m < |steps| :: FreshAt(states, steps, m)
  }

  predicate FreshMove(s: Sys, x: Step, s': Sys, c: FM.Config)
    requires FM.ValidConfig(c)
  {
    Enabled(s, x) && s' == Next(s, x, c) && FreshAppend(s, x)
  }

  lemma {:induction false} Extend(states: seq<Sys>, steps: seq<Step>, x: Step, s': Sys, c: FM.Config)
    requires FM.ValidConfig(c) && FreshRun(states, steps, c)
    requires FreshMove(states[|steps|], x, s', c)
    ensures FreshRun(states + [s'], steps + [x], c)
  {
    var ss, xs := states + [s'], steps + [x];
    forall k: nat | k < |xs| ensures StepAt(ss, xs, c, k) && FreshAt(ss, xs, k) {
      if k < |steps| {
        assert StepAt(states, steps, c, k) && FreshAt(states, steps, k);
      }
    }
  }

  lemma {:induction false} ExtendThree(run: seq<Sys>, steps: seq<Step>, xs: seq<Step>, s1: Sys, s2: Sys, s3: Sys, c: FM.Config)
    returns (states: seq<Sys>)
    requires FM.ValidConfig(c) && FreshRun(run, steps, c) && |xs| == 3
    requires FreshMove(run[|steps|], xs[0], s1, c) && FreshMove(s1, xs[1], s2, c) && FreshMove(s2, xs[2], s3, c)
    ensures FreshRun(states, steps + xs, c) && states == run + [s1, s2, s3]
  {
    Extend(run, steps, xs[0], s1, c);
    Extend(run + [s1], steps + [xs[0]], xs[1], s2, c);
    Extend(run + [s1] + [s2], steps + [xs[0]] + [xs[1]], xs[2], s3, c);
    states := run + [s1] + [s2] + [s3];
    assert states == run + [s1, s2, s3];
    assert steps + [xs[0]] + [xs[1]] + [xs[2]] == steps + xs;
  }

  function StoreSteps(now: int): seq<Step> { [Flush(0, FM.Called, now), Flush(0, FM.Committed(0), now), Encode(0, 0)] }

  /** `store` flushes an empty buffer and encodes the document. */
  lemma {:induction false} EmptyStore(run: seq<Sys>, steps: seq<Step>, now: int, c: FM.Config) returns (states: seq<Sys>)
    requires FM.ValidConfig(c) && FreshRun(run, steps, c)
    requires var s := run[|steps|]; |s.nodes| == 1 && s.nodes[0].inst == FM.Fresh && s.nodes[0].stores == []
    ensures FreshRun(states, steps + StoreSteps(now), c) && run <= states
    ensures var s := run[|steps|];
            states[|steps| + 3] == s.(nodes := [Node(Flushed, s.nodes[0].doc, [Encoded(s.nodes[0].doc, s.appended)])])
  {
    CallFlushes(c);
    var s := run[|steps|];
    var node := s.nodes[0];
    var s1, s2 := s.(nodes := [node.(inst := Called)]), s.(nodes := [node.(inst := Flushed)]);
    var s3 := s.(nodes := [Node(Flushed, node.doc, [Encoded(node.doc, s.appended)])]);
    assert node.stores + [Encoded(node.doc, s.appended)] == [Encoded(node.doc, s.appended)];
    states := ExtendThree(run, steps, StoreSteps(now), s1, s2, s3, c);
  }

  const Blank: Tables := Tables("w", 0, None, None, [])

  /** An empty document, open in one instance. */
  const Opened: Sys := Sys(Blank, [Node(FM.Fresh, {}, [])], [], [], multiset{}, multiset{}, {})

  function CommitSteps(o: Op, now: int): seq<Step> {
    [Flush(0, FM.Appended(Pending({o}, None)), now), Flush(0, FM.TimerFired, now), Flush(0, FM.Committed(1), now)]
  }

  lemma {:induction false} AppendFlushes(u: Pending, c: FM.Config) returns (i1: FM.Inst, i2: FM.Inst, i3: FM.Inst)
    requires FM.ValidConfig(c) && c.maxUpdatesPerBatch > 1
    ensures i1 == FM.Next(Flushed, FM.Appended(u), c) && FM.Written(Flushed, FM.Appended(u)) == []
    ensures FM.Enabled(i1, FM.TimerFired) && i2 == FM.Next(i1, FM.TimerFired, c) && FM.Written(i1, FM.TimerFired) == []
    ensures FM.Enabled(i2, FM.Committed(1)) && i3 == FM.Next(i2, FM.Committed(1), c) && FM.Written(i2, FM.Committed(1)) == [u]
  {
    i1 := FM.Next(Flushed, FM.Appended(u), c);
    assert i1.pending == [u] && i1.tasks == [FM.Task(false, FM.Done)];
    i2 := FM.Next(i1, FM.TimerFired, c);
    assert i2.tasks == [FM.Task(false, FM.Done), FM.Task(true, FM.InFlight([u]))];
    i3 := FM.Next(i2, FM.Committed(1), c);
  }

  /** A first update is appended, its timer fires and its flush commits, with a state encoded before. */
  lemma {:induction false} AppendCommits(run: seq<Sys>, steps: seq<Step>, o: Op, now: int, c: FM.Config) returns (states: seq<Sys>)
    requires FM.ValidConfig(c) && c.maxUpdatesPerBatch > 1 && FreshRun(run, steps, c)
    requires run[|steps|] == Opened.(nodes := [Node(Flushed, {}, [Encoded({}, multiset{})])])
    ensures FreshRun(states, steps + CommitSteps(o, now), c) && run <= states
    ensures var s, u := states[|steps| + 3], Pending({o}, None);
            && s.log == [u] && s.tables == CommitBatch(Blank, [u], now)
            && |s.nodes| == 1 && s.nodes[0].stores == [Encoded({}, multiset{})]
  {
    var s1, s2, s3 := CommitStates(run[|steps|], o, now, c);
    states := ExtendThree(run, steps, CommitSteps(o, now), s1, s2, s3, c);
  }

  lemma {:induction false} CommitStates(s: Sys, o: Op, now: int, c: FM.Config) returns (s1: Sys, s2: Sys, s3: Sys)
    requires FM.ValidConfig(c) && c.maxUpdatesPerBatch > 1
    requires s == Opened.(nodes := [Node(Flushed, {}, [Encoded({}, multiset{})])])
    ensures var xs := CommitSteps(o, now);
            FreshMove(s, xs[0], s1, c) && FreshMove(s1, xs[1], s2, c) && FreshMove(s2, xs[2], s3, c)
    ensures var u := Pending({o}, None);
            && s3.log == [u] && s3.tables == CommitBatch(Blank, [u], now)
            && |s3.nodes| == 1 && s3.nodes[0].stores == [Encoded({}, multiset{})]
  {
    var u, xs := Pending({o}, None), CommitSteps(o, now);
    var i1, i2, i3 := AppendFlushes(u, c);
    var stores := [Encoded({}, multiset{})];
    assert s.nodes[0].doc + u.ops == {o};
    s1 := s.(nodes := [Node(i1, {o}, stores)], appended := multiset{u});
    assert o in u.ops && s1 == Next(s, xs[0], c);
    s2 := s1.(nodes := [Node(i2, {o}, stores)]);
    assert s2 == Next(s1, xs[1], c);
    s3 := CommitsOne(s2, xs[2], u, i3, now, c);
  }

  lemma {:induction false} CommitsOne(s: Sys, x: Step, u: Pending, inst: FM.Inst, now: int, c: FM.Config) returns (s': Sys)
    requires FM.ValidConfig(c) && Enabled(s, x) && x.Flush? && x.i == 0 && x.now == now && |s.nodes| == 1
    requires FM.Written(s.nodes[0].inst, x.e) == [u] && inst == FM.Next(s.nodes[0].inst, x.e, c)
    requires s.tables == Blank && s.log == []
    ensures s' == Next(s, x, c) && s'.log == [u] && s'.tables == CommitBatch(Blank, [u], now)
    ensures |s'.nodes| == 1 && s'.nodes[0].stores == s.nodes[0].stores
  {
    s' := Next(s, x, c);
  }

  /** The store takes its lock and commits. */
  lemma {:induction false} StoreCommits(run: seq<Sys>, steps: seq<Step>, ops: set<Op>, seen: multiset<Pending>, c: FM.Config)
    returns (states: seq<Sys>)
    requires FM.ValidConfig(c) && FreshRun(run, steps, c) && Bounded(run[|steps|].tables)
    requires |run[|steps|].nodes| == 1 && run[|steps|].nodes[0].stores == [Encoded(ops, seen)]
    ensures FreshRun(states, steps + [StoreCommit(0, 0)], c) && run <= states
    ensures states[|steps| + 1].log == run[|steps|].log && Load(states[|steps| + 1].tables) == ops
  {
    var s := run[|steps|];
    Extend(run, steps, StoreCommit(0, 0), Next(s, StoreCommit(0, 0), c), c);
    StoreLoads(s.tables, ops);
    states := run + [Next(s, StoreCommit(0, 0), c)];
  }

  /** A flush of the empty buffer, the encoding, an append and its flush, and only then the store's lock. */
  function StaleSteps(o: Op, now: int): seq<Step> { StoreSteps(now) + CommitSteps(o, now) + [StoreCommit(0, 0)] }

  /**
   The proviso is needed even for one instance: an update appended and flushed between the encoding
   of a store, which follows that store's own flush, and its lock is committed and no longer loaded.
   */
  lemma {:induction false} StaleStoreHidesUpdate(o: Op, c: FM.Config, now: int) returns (states: seq<Sys>)
    requires FM.ValidConfig(c) && c.maxUpdatesPerBatch > 1
    ensures FreshRun(states, StaleSteps(o, now), c) && |states[0].nodes| == 1
    ensures o in Merge(states[7].log) && o !in Load(states[7].tables)
  {
    var u := Pending({o}, None);
    var encoded := EmptyStore([Opened], [], now, c);
    assert [] + StoreSteps(now) == StoreSteps(now);
    var committed := AppendCommits(encoded, StoreSteps(now), o, now, c);
    CommitLoads(Blank, [u], now);
    states := StoreCommits(committed, StoreSteps(now) + CommitSteps(o, now), {}, multiset{}, c);
    assert u in states[7].log && o in u.ops;
  }

  function LateSteps(content: set<Op>, now: int): seq<Step> {
    [Initialize(content)] + StoreSteps(now) + [StoreCommit(0, 0)]
  }

  /** So is the other one: initial content inserted after the document was opened is gone with the next store. */
  lemma {:induction false} LateInitialisationIsLost(content: set<Op>, c: FM.Config, now: int) returns (states: seq<Sys>)
    requires FM.ValidConfig(c)
    ensures FreshRun(states, LateSteps(content, now), c) && |states[0].nodes| == 1
    ensures states[1].seeded == content && Load(states[1].tables) == content && Load(states[5].tables) == {}
  {
    var s1 := Next(Opened, Initialize(content), c);
    Extend([Opened], [], Initialize(content), s1, c);
    InitialLoads(Blank, content);
    assert [] + [Initialize(content)] == [Initialize(content)];
    var encoded := EmptyStore([Opened] + [s1], [Initialize(content)], now, c);
    states := StoreCommits(encoded, [Initialize(content)] + StoreSteps(now), {}, multiset{}, c);
    assert states[1] == s1;
  }
}
