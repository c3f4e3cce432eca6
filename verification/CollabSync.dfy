/**
 Cross-instance synchronisation of one document: the `onChange` hook of the collaboration
 server composed with `RedisCollabPubSub`.

 Every instance that subscribes receives every published envelope, its own included, in any
 order. An instance has one hash memory for all its documents, so the steps that handle other
 documents remember, evict and consume hashes in it too. A document emits a change event exactly when an applied update changed it, carrying
 the applied bytes; hashing is a parameter that the results require to be injective.
 */
module CollabSync {
  import opened Common
  import opened DocumentTables
  import RM = RemoteHashMemory

  datatype Update = Update(id: nat, ops: set<Op>)

  type Hashing = Update -> RM.Hash

  ghost predicate Collisionless(hash: Hashing) {
    (forall u, v :: hash(u) == hash(v) ==> u == v) && forall u :: hash(u) != ""
  }

  datatype Envelope = Envelope(instanceId: nat, update: Update, updateHash: RM.Hash)

  /** `remote` is history: the change came from the channel, not from a client of this instance. */
  datatype Event = Event(update: Update, remote: bool)

  datatype Node = Node(open: bool, doc: set<Op>, memory: seq<RM.Entry>, events: multiset<Event>, inbox: multiset<Envelope>)

  datatype Edit = Edit(origin: nat, update: Update)

  /**
   `outgoing` lists what `onChange` appended to the persistence and published, with the instance that
   did; `elsewhere` collects the updates of other documents.
   */
  datatype Sys = Sys(nodes: seq<Node>, now: int, edits: seq<Edit>, outgoing: seq<Edit>, elsewhere: set<Update>)

  /** Of another instance, for an open document, and intact. */
  predicate Accepts(n: Node, self: nat, e: Envelope, hash: Hashing) {
    e.instanceId != self && n.open && hash(e.update) == e.updateHash
  }

  /** `isRemoteUpdate` says so. */
  predicate Recognised(n: Node, u: Update, now: int, hash: Hashing) { RM.Has(RM.Live(n.memory, now), hash(u)) }

  datatype Step =
    | ClientEdit(i: nat, u: Update)
    | Deliver(i: nat, m: Envelope)
    | Change(i: nat, e: Event)
    | DeliverElsewhere(i: nat, w: Update)
    | ChangeElsewhere(i: nat, w: Update)
    | Tick(now: int)

  predicate Unused(s: Sys, u: Update) { forall k :: 0 <= k < |s.edits| ==> s.edits[k].update != u }

  predicate Enabled(s: Sys, x: Step) {
    match x
    case ClientEdit(i, u) =>
      i < |s.nodes| && s.nodes[i].open && Unused(s, u) && u !in s.elsewhere
    case Deliver(i, m) => i < |s.nodes| && m in s.nodes[i].inbox
    case Change(i, e) => i < |s.nodes| && e in s.nodes[i].events
    case DeliverElsewhere(i, w) => i < |s.nodes| && Unused(s, w)
    case ChangeElsewhere(i, w) => i < |s.nodes| && Unused(s, w)
    case Tick(now) => s.now <= now
  }

  // What a step does to instance `j`: `handleMessage` accepts a delivery, or `onChange` handles a change.

  /** The update whose hash the instance remembers. */
  function Stores(n: Node, j: nat, x: Step, hash: Hashing): Option<Update> {
    match x
    case Deliver(i, m) => if i == j && Accepts(n, j, m, hash) then Some(m.update) else None
    case DeliverElsewhere(i, w) => if i == j then Some(w) else None
    case _ => None
  }

  /** The update about which the instance asks `isRemoteUpdate`, which consumes its hash. */
  function Asks(j: nat, x: Step): Option<Update> {
    match x
    case Change(i, e) => if i == j then Some(e.update) else None
    case ChangeElsewhere(i, w) => if i == j then Some(w) else None
    case _ => None
  }

  function MemoryAfter(n: Node, j: nat, x: Step, now: int, hash: Hashing): seq<RM.Entry> {
    var (stored, asked) := (Stores(n, j, x, hash), Asks(j, x));
    if stored.Some? then RM.Remember(n.memory, hash(stored.value), now)
    else if asked.Some? then RM.Without(RM.Live(n.memory, now), hash(asked.value))
    else n.memory
  }

  function DocAfter(n: Node, j: nat, x: Step, hash: Hashing): set<Op> {
    match x
    case ClientEdit(i, u) => if i == j then n.doc + u.ops else n.doc
    case Deliver(i, m) => if i == j && Accepts(n, j, m, hash) then n.doc + m.update.ops else n.doc
    case _ => n.doc
  }

  function EventsAfter(n: Node, j: nat, x: Step, hash: Hashing): multiset<Event> {
    match x
    case ClientEdit(i, u) => if i == j then n.events + multiset{Event(u, false)} else n.events
    case Deliver(i, m) =>
      if i == j && Accepts(n, j, m, hash) && !(m.update.ops <= n.doc) then n.events + multiset{Event(m.update, true)}
      else n.events
    case Change(i, e) => if i == j then n.events - multiset{e} else n.events
    case _ => n.events
  }

  /** A published change goes to everyone. */
  function InboxAfter(n: Node, j: nat, x: Step, publishes: bool, hash: Hashing): multiset<Envelope> {
    match x
    case Deliver(i, m) => if i == j then n.inbox - multiset{m} else n.inbox
    case Change(i, e) => if publishes then n.inbox + multiset{Envelope(i, e.update, hash(e.update))} else n.inbox
    case _ => n.inbox
  }

  function NodeAfter(n: Node, j: nat, x: Step, now: int, publishes: bool, hash: Hashing): Node {
    Node(n.open, DocAfter(n, j, x, hash), MemoryAfter(n, j, x, now, hash), EventsAfter(n, j, x, hash),
         InboxAfter(n, j, x, publishes, hash))
  }

  /** `onChange` appends and publishes a change that it does not recognise as remote. */
  predicate Publishes(s: Sys, x: Step, hash: Hashing)
    requires Enabled(s, x)
  {
    x.Change? && !Recognised(s.nodes[x.i], x.e.update, s.now, hash)
  }

  function Next(s: Sys, x: Step, hash: Hashing): (s': Sys)
    requires Enabled(s, x)
    ensures |s'.nodes| == |s.nodes|
  {
    var publishes := Publishes(s, x, hash);
    Sys(seq(|s.nodes|, j requires 0 <= j < |s.nodes| => NodeAfter(s.nodes[j], j, x, s.now, publishes, hash)),
        if x.Tick? then x.now else s.now,
        if x.ClientEdit? then s.edits + [Edit(x.i, x.u)] else s.edits,
        if publishes then s.outgoing + [Edit(x.i, x.e.update)] else s.outgoing,
        if x.DeliverElsewhere? || x.ChangeElsewhere? then s.elsewhere + {x.w} else s.elsewhere)
  }

  predicate Initial(s: Sys) {
    && s.edits == [] && s.outgoing == [] && s.elsewhere == {}
    && forall i :: 0 <= i < |s.nodes| ==>
         s.nodes[i].memory == [] && s.nodes[i].events == multiset{} && s.nodes[i].inbox == multiset{}
  }

  predicate IsRun(states: seq<Sys>, steps: seq<Step>, hash: Hashing) {
    && |states| == |steps| + 1
    && Initial(states[0])
    && forall k: nat | k < |steps| :: StepAt(states, steps, hash, k)
  }

  predicate StepAt(states: seq<Sys>, steps: seq<Step>, hash: Hashing, k: nat)
    requires |states| == |steps| + 1 && k < |steps|
  {
    Enabled(states[k], steps[k]) && states[k + 1] == Next(states[k], steps[k], hash)
  }

  // ---- What every run keeps -----------------------------------------------------------

  /** The update was published by the instance its client is connected to. */
  predicate Sent(s: Sys, u: Update) {
    exists k :: 0 <= k < |s.edits| && s.edits[k].update == u && s.edits[k] in s.outgoing
  }

  predicate Known(s: Sys, u: Update) { Sent(s, u) || u in s.elsewhere }

  predicate UniqueEdits(s: Sys) {
    && (forall j, k :: 0 <= j < k < |s.edits| ==> s.edits[j].update != s.edits[k].update)
    && (forall k :: 0 <= k < |s.edits| ==> s.edits[k].origin < |s.nodes| && s.edits[k].update !in s.elsewhere)
    && (forall e :: e in s.outgoing ==> e.origin < |s.nodes| && Sent(s, e.update))
  }

  /** A memory holds only hashes of updates that were published, or belong to other documents. */
  ghost predicate MemoryOk(s: Sys, memory: seq<RM.Entry>, hash: Hashing) {
    RM.WellFormed(memory) && forall e :: e in memory ==> exists u :: hash(u) == e.hash && Known(s, u)
  }

  predicate InboxOk(s: Sys, m: Envelope, hash: Hashing) { m.updateHash == hash(m.update) && Sent(s, m.update) }

  /** A client's update is in its instance's document, and waits there for `onChange` or was sent, once. */
  predicate EditOk(s: Sys, e: Edit) {
    && e.origin < |s.nodes| && e.update.ops <= s.nodes[e.origin].doc
    && multiset(s.outgoing)[e] + s.nodes[e.origin].events[Event(e.update, false)] == 1
  }

  /** A waiting change is this instance's client's, or a published update of another, already applied, once. */
  predicate EventOk(s: Sys, i: nat, e: Event)
    requires i < |s.nodes|
  {
    if e.remote then
      && Edit(i, e.update) !in s.edits && Sent(s, e.update)
      && s.nodes[i].events[e] == 1 && e.update.ops <= s.nodes[i].doc
    else Edit(i, e.update) in s.edits
  }

  /** The update is in the open document of instance `i`, or on its way there. */
  ghost predicate Reaches(s: Sys, e: Edit, i: nat)
    requires i < |s.nodes| && e.origin < |s.nodes|
  {
    || e.update.ops <= s.nodes[i].doc
    || Event(e.update, false) in s.nodes[e.origin].events
    || exists m :: m in s.nodes[i].inbox && m.update == e.update && m.instanceId != i
  }

  ghost predicate MemoriesOk(s: Sys, hash: Hashing) {
    forall i: nat | i < |s.nodes| :: MemoryOk(s, s.nodes[i].memory, hash)
  }

  predicate InboxesOk(s: Sys, hash: Hashing) {
    forall i: nat, m | i < |s.nodes| && m in s.nodes[i].inbox :: InboxOk(s, m, hash)
  }

  predicate EditsOk(s: Sys) {
    forall e | e in s.edits :: EditOk(s, e)
  }

  predicate EventsOk(s: Sys) {
    forall i: nat, e | i < |s.nodes| && e in s.nodes[i].events :: EventOk(s, i, e)
  }

  ghost predicate Spreading(s: Sys) {
    forall i: nat, e | i < |s.nodes| && s.nodes[i].open && e in s.edits && e.origin < |s.nodes| :: Reaches(s, e, i)
  }

  ghost predicate Inv(s: Sys, hash: Hashing) {
    UniqueEdits(s) && MemoriesOk(s, hash) && InboxesOk(s, hash) && EditsOk(s) && EventsOk(s) && Spreading(s)
  }

  lemma {:induction false} SentStays(s: Sys, x: Step, hash: Hashing, u: Update)
    requires Enabled(s, x)
    ensures Sent(s, u) ==> Sent(Next(s, x, hash), u)
    ensures Known(s, u) ==> Known(Next(s, x, hash), u)
  {
    var s' := Next(s, x, hash);
    if k :| 0 <= k < |s.edits| && s.edits[k].update == u && s.edits[k] in s.outgoing {
      assert s'.edits[k] == s.edits[k] && s'.edits[k] in s'.outgoing;
    }
  }

  /** What is published becomes a sent update. */
  lemma {:induction false} PublishedIsSent(s: Sys, x: Step, hash: Hashing)
    requires Enabled(s, x) && EventsOk(s) && Publishes(s, x, hash)
    ensures Sent(Next(s, x, hash), x.e.update)
  {
    var s' := Next(s, x, hash);
    assert EventOk(s, x.i, x.e);
    if x.e.remote {
      SentStays(s, x, hash, x.e.update);
    } else {
      var k :| 0 <= k < |s.edits| && s.edits[k] == Edit(x.i, x.e.update);
      assert s'.outgoing[|s.outgoing|] == Edit(x.i, x.e.update);
      assert s'.edits[k] in s'.outgoing;
    }
  }

  lemma {:induction false} UniqueStep(s: Sys, x: Step, hash: Hashing)
    requires Enabled(s, x) && UniqueEdits(s) && EventsOk(s)
    ensures UniqueEdits(Next(s, x, hash))
  {
    var s' := Next(s, x, hash);
    forall e | e in s'.outgoing ensures e.origin < |s'.nodes| && Sent(s', e.update) {
      if e in s.outgoing {
        SentStays(s, x, hash, e.update);
      } else {
        PublishedIsSent(s, x, hash);
      }
    }
  }

  // -- Memories

  lemma {:induction false} MemoryChange(n: Node, j: nat, x: Step, now: int, hash: Hashing)
    requires RM.WellFormed(n.memory) && Collisionless(hash)
    ensures RM.WellFormed(MemoryAfter(n, j, x, now, hash))
    ensures forall e | e in MemoryAfter(n, j, x, now, hash) ::
              e in n.memory || (Stores(n, j, x, hash).Some? && e.hash == hash(Stores(n, j, x, hash).value))
  {
    var stored, asked := Stores(n, j, x, hash), Asks(j, x);
    if stored.Some? {
      RM.RememberKeeps(n.memory, hash(stored.value), now);
      RM.RememberOnly(n.memory, hash(stored.value), now);
    } else if asked.Some? {
      RM.WithoutKeeps(n.memory, hash(asked.value), now);
      RM.WithoutKeeps(RM.Live(n.memory, now), hash(asked.value), now);
      RM.LiveFacts(n.memory, now);
      RM.WithoutFacts(RM.Live(n.memory, now), hash(asked.value));
    }
  }

  lemma {:induction false} StoredIsKnown(s: Sys, x: Step, hash: Hashing, j: nat)
    requires Enabled(s, x) && InboxesOk(s, hash) && j < |s.nodes| && Stores(s.nodes[j], j, x, hash).Some?
    ensures Known(Next(s, x, hash), Stores(s.nodes[j], j, x, hash).value)
  {
    if x.Deliver? {
      assert InboxOk(s, x.m, hash);
      SentStays(s, x, hash, x.m.update);
    }
  }

  lemma {:induction false} MemoryStep(s: Sys, x: Step, hash: Hashing, j: nat)
    requires Collisionless(hash) && Enabled(s, x) && MemoriesOk(s, hash) && InboxesOk(s, hash) && j < |s.nodes|
    ensures MemoryOk(Next(s, x, hash), Next(s, x, hash).nodes[j].memory, hash)
  {
    var s', n := Next(s, x, hash), s.nodes[j];
    assert MemoryOk(s, n.memory, hash);
    MemoryChange(n, j, x, s.now, hash);
    forall e | e in MemoryAfter(n, j, x, s.now, hash) ensures exists u :: hash(u) == e.hash && Known(s', u) {
      if e in n.memory {
        var u :| hash(u) == e.hash && Known(s, u);
        SentStays(s, x, hash, u);
      } else {
        StoredIsKnown(s, x, hash, j);
      }
    }
  }

  // -- Inboxes

  lemma {:induction false} NodeInbox(n: Node, j: nat, x: Step, publishes: bool, hash: Hashing, m: Envelope)
    ensures m in InboxAfter(n, j, x, publishes, hash) ==>
              m in n.inbox || (x.Change? && publishes && m == Envelope(x.i, x.e.update, hash(x.e.update)))
    ensures m in n.inbox ==>
              m in InboxAfter(n, j, x, publishes, hash) || (x.Deliver? && x.i == j && x.m == m)
    ensures x.Change? && publishes ==>
              Envelope(x.i, x.e.update, hash(x.e.update)) in InboxAfter(n, j, x, publishes, hash)
  {
  }

  lemma {:induction false} InboxStep(s: Sys, x: Step, hash: Hashing, j: nat, m: Envelope)
    requires Enabled(s, x) && InboxesOk(s, hash) && EventsOk(s)
    requires j < |s.nodes| && m in Next(s, x, hash).nodes[j].inbox
    ensures InboxOk(Next(s, x, hash), m, hash)
  {
    NodeInbox(s.nodes[j], j, x, Publishes(s, x, hash), hash, m);
    if m in s.nodes[j].inbox {
      assert InboxOk(s, m, hash);
      SentStays(s, x, hash, m.update);
    } else {
      PublishedIsSent(s, x, hash);
    }
  }

  // -- Documents and waiting changes

  lemma {:induction false} DocGrows(n: Node, j: nat, x: Step, hash: Hashing)
    ensures n.doc <= DocAfter(n, j, x, hash)
  {
  }

  lemma {:induction false} EventStep(s: Sys, x: Step, hash: Hashing, j: nat, e: Event)
    requires Enabled(s, x) && UniqueEdits(s) && InboxesOk(s, hash) && EditsOk(s) && EventsOk(s)
    requires j < |s.nodes| && e in Next(s, x, hash).nodes[j].events
    ensures EventOk(Next(s, x, hash), j, e)
  {
    var s', n := Next(s, x, hash), s.nodes[j];
    DocGrows(n, j, x, hash);
    SentStays(s, x, hash, e.update);
    if e in n.events {
      assert EventOk(s, j, e);
      KeptEventOk(s, x, hash, j, e);
    } else {
      NewEventOk(s, x, hash, j, e);
    }
  }

  lemma {:induction false} KeptEventOk(s: Sys, x: Step, hash: Hashing, j: nat, e: Event)
    requires Enabled(s, x) && EventsOk(s) && j < |s.nodes| && e in s.nodes[j].events
    requires e in Next(s, x, hash).nodes[j].events
    ensures EventOk(Next(s, x, hash), j, e)
  {
    var s', n := Next(s, x, hash), s.nodes[j];
    assert EventOk(s, j, e);
    SentStays(s, x, hash, e.update);
    DocGrows(n, j, x, hash);
    if e.remote {
      if x.ClientEdit? {
        var k :| 0 <= k < |s.edits| && s.edits[k].update == e.update;
        assert Edit(j, e.update) !in s'.edits;
      }
    } else {
      var k :| 0 <= k < |s.edits| && s.edits[k] == Edit(j, e.update);
      assert s'.edits[k] == Edit(j, e.update);
    }
  }

  lemma {:induction false} NewEventOk(s: Sys, x: Step, hash: Hashing, j: nat, e: Event)
    requires Enabled(s, x) && UniqueEdits(s) && InboxesOk(s, hash) && EditsOk(s)
    requires j < |s.nodes| && e !in s.nodes[j].events && e in Next(s, x, hash).nodes[j].events
    ensures EventOk(Next(s, x, hash), j, e)
  {
    var s', n := Next(s, x, hash), s.nodes[j];
    DocGrows(n, j, x, hash);
    assert x.ClientEdit? || x.Deliver?;
    if x.ClientEdit? {
      assert s'.edits[|s.edits|] == Edit(j, e.update);
    } else {
      assert InboxOk(s, x.m, hash);
      SentStays(s, x, hash, e.update);
      assert forall f | f in s.edits :: EditOk(s, f);
    }
  }

  /** A client's own update is never mistaken for a remote one. */
  lemma {:induction false} LocalUnrecognised(s: Sys, i: nat, u: Update, hash: Hashing)
    requires Collisionless(hash) && Inv(s, hash) && i < |s.nodes| && Event(u, false) in s.nodes[i].events
    ensures !Recognised(s.nodes[i], u, s.now, hash)
  {
    assert EventOk(s, i, Event(u, false));
    assert EditOk(s, Edit(i, u)) && MemoryOk(s, s.nodes[i].memory, hash);
    UnsentWhileWaiting(s, i, u);
    UnknownUnrecognised(s, s.nodes[i], u, hash);
  }

  lemma {:induction false} UnknownUnrecognised(s: Sys, n: Node, u: Update, hash: Hashing)
    requires Collisionless(hash) && MemoryOk(s, n.memory, hash) && !Known(s, u)
    ensures !Recognised(n, u, s.now, hash)
  {
    var live := RM.Live(n.memory, s.now);
    RM.LiveFacts(n.memory, s.now);
    forall k | 0 <= k < |live| ensures live[k].hash != hash(u) {
      assert live[k] in n.memory;
      var v :| hash(v) == live[k].hash && Known(s, v);
    }
  }

  lemma {:induction false} UnsentWhileWaiting(s: Sys, i: nat, u: Update)
    requires UniqueEdits(s) && i < |s.nodes| && Event(u, false) in s.nodes[i].events
    requires Edit(i, u) in s.edits && EditOk(s, Edit(i, u))
    ensures !Known(s, u)
  {
    var k :| 0 <= k < |s.edits| && s.edits[k] == Edit(i, u);
  }

  lemma {:induction false} CountAppend(a: seq<Edit>, f: Edit, e: Edit)
    ensures multiset(a + [f])[e] == multiset(a)[e] + (if e == f then 1 else 0)
  {
    assert multiset(a + [f]) == multiset(a) + multiset{f};
  }

  lemma {:induction false} EditStep(s: Sys, x: Step, hash: Hashing, e: Edit)
    requires Collisionless(hash) && Enabled(s, x) && Inv(s, hash) && e in Next(s, x, hash).edits
    ensures EditOk(Next(s, x, hash), e)
  {
    if e in s.edits {
      KeptEditOk(s, x, hash, e);
    } else {
      NewEditOk(s, x, hash);
    }
  }

  lemma {:induction false} NewEditOk(s: Sys, x: Step, hash: Hashing)
    requires Enabled(s, x) && x.ClientEdit? && UniqueEdits(s) && EventsOk(s)
    ensures EditOk(Next(s, x, hash), Edit(x.i, x.u))
  {
    var n := s.nodes[x.i];
    DocGrows(n, x.i, x, hash);
    assert forall e | e in n.events && !e.remote :: EventOk(s, x.i, e);
    assert Event(x.u, false) !in n.events;
    assert Edit(x.i, x.u) !in s.outgoing;
  }

  lemma {:induction false} KeptEditOk(s: Sys, x: Step, hash: Hashing, e: Edit)
    requires Collisionless(hash) && Enabled(s, x) && Inv(s, hash) && e in s.edits
    ensures EditOk(Next(s, x, hash), e)
  {
    assert EditOk(s, e);
    if x.Change? {
      assert EventOk(s, x.i, x.e);
      if !x.e.remote { LocalUnrecognised(s, x.i, x.e.update, hash); }
      ChangeKeepsEdit(s, x, hash, e);
    } else {
      OtherKeepsEdit(s, x, hash, e);
    }
  }

  lemma {:induction false} ChangeKeepsEdit(s: Sys, x: Step, hash: Hashing, e: Edit)
    requires Enabled(s, x) && x.Change? && e in s.edits && EditOk(s, e) && EventOk(s, x.i, x.e)
    requires !x.e.remote ==> Publishes(s, x, hash)
    ensures EditOk(Next(s, x, hash), e)
  {
    var waiting, n := Event(e.update, false), s.nodes[e.origin];
    DocGrows(n, e.origin, x, hash);
    CountAppend(s.outgoing, Edit(x.i, x.e.update), e);
    if x.e.remote {
      assert e != Edit(x.i, x.e.update);
    }
    assert EventsAfter(n, e.origin, x, hash)[waiting]
        == n.events[waiting] - (if e == Edit(x.i, x.e.update) && !x.e.remote then 1 else 0);
  }

  lemma {:induction false} OtherKeepsEdit(s: Sys, x: Step, hash: Hashing, e: Edit)
    requires Enabled(s, x) && !x.Change? && e in s.edits && EditOk(s, e)
    ensures EditOk(Next(s, x, hash), e)
  {
    DocGrows(s.nodes[e.origin], e.origin, x, hash);
    if x.ClientEdit? {
      assert e.update != x.u;
    }
  }

  // -- Spreading

  lemma {:induction false} ReachesStep(s: Sys, x: Step, hash: Hashing, e: Edit, i: nat)
    requires Collisionless(hash) && Enabled(s, x) && Inv(s, hash) && e in s.edits
    requires i < |s.nodes| && e.origin < |s.nodes| && s.nodes[i].open && Reaches(s, e, i)
    ensures Reaches(Next(s, x, hash), e, i)
  {
    if e.update.ops <= s.nodes[i].doc {
      DocGrows(s.nodes[i], i, x, hash);
    } else if Event(e.update, false) in s.nodes[e.origin].events {
      assert EditOk(s, e);
      LocalUnrecognised(s, e.origin, e.update, hash);
      WaitingReaches(s, x, hash, e, i);
    } else {
      var m :| m in s.nodes[i].inbox && m.update == e.update && m.instanceId != i;
      assert InboxOk(s, m, hash);
      InboxReaches(s, x, hash, e, i, m);
    }
  }

  /** A change that waits at its origin goes on waiting, or is published to the others. */
  lemma {:induction false} WaitingReaches(s: Sys, x: Step, hash: Hashing, e: Edit, i: nat)
    requires Enabled(s, x) && i < |s.nodes| && EditOk(s, e) && !(e.update.ops <= s.nodes[i].doc)
    requires Event(e.update, false) in s.nodes[e.origin].events
    requires !Recognised(s.nodes[e.origin], e.update, s.now, hash)
    ensures Reaches(Next(s, x, hash), e, i)
  {
    var s', n := Next(s, x, hash), s.nodes[e.origin];
    if x == Change(e.origin, Event(e.update, false)) {
      var m := Envelope(e.origin, e.update, hash(e.update));
      NodeInbox(s.nodes[i], i, x, true, hash, m);
      assert m in s'.nodes[i].inbox && m.instanceId != i;
    } else {
      EventWaits(n, e.origin, x, hash, Event(e.update, false));
    }
  }

  lemma {:induction false} EventWaits(n: Node, j: nat, x: Step, hash: Hashing, e: Event)
    requires e in n.events && x != Change(j, e)
    ensures e in EventsAfter(n, j, x, hash)
  {
  }

  /** An envelope stays in the inbox, or is accepted into the open document. */
  lemma {:induction false} InboxReaches(s: Sys, x: Step, hash: Hashing, e: Edit, i: nat, m: Envelope)
    requires Enabled(s, x) && i < |s.nodes| && e.origin < |s.nodes| && s.nodes[i].open
    requires m in s.nodes[i].inbox && m.update == e.update && m.instanceId != i && InboxOk(s, m, hash)
    ensures Reaches(Next(s, x, hash), e, i)
  {
    var s' := Next(s, x, hash);
    NodeInbox(s.nodes[i], i, x, Publishes(s, x, hash), hash, m);
    if m in s'.nodes[i].inbox {
      assert m.instanceId != i;
    } else {
      assert Accepts(s.nodes[i], i, m, hash);
    }
  }

  lemma {:induction false} NewEditReaches(s: Sys, x: Step, hash: Hashing, i: nat)
    requires Enabled(s, x) && x.ClientEdit? && i < |s.nodes|
    ensures Reaches(Next(s, x, hash), Edit(x.i, x.u), i)
  {
    assert Event(x.u, false) in Next(s, x, hash).nodes[x.i].events;
  }

  lemma {:induction false} SpreadingStep(s: Sys, x: Step, hash: Hashing, e: Edit, i: nat)
    requires Collisionless(hash) && Enabled(s, x) && Inv(s, hash) && e in Next(s, x, hash).edits
    requires i < |s.nodes| && e.origin < |s.nodes| && Next(s, x, hash).nodes[i].open
    ensures Reaches(Next(s, x, hash), e, i)
  {
    DocGrows(s.nodes[i], i, x, hash);
    if e in s.edits {
      ReachesStep(s, x, hash, e, i);
    } else {
      NewEditReaches(s, x, hash, i);
    }
  }

  lemma {:induction false} InvStep(s: Sys, x: Step, hash: Hashing)
    requires Collisionless(hash) && Enabled(s, x) && Inv(s, hash)
    ensures Inv(Next(s, x, hash), hash)
  {
    var s' := Next(s, x, hash);
    UniqueStep(s, x, hash);
    forall i: nat | i < |s'.nodes| ensures MemoryOk(s', s'.nodes[i].memory, hash) {
      MemoryStep(s, x, hash, i);
    }
    forall i: nat, m | i < |s'.nodes| && m in s'.nodes[i].inbox ensures InboxOk(s', m, hash) {
      InboxStep(s, x, hash, i, m);
    }
    forall e | e in s'.edits ensures EditOk(s', e) {
      EditStep(s, x, hash, e);
    }
    forall i: nat, e | i < |s'.nodes| && e in s'.nodes[i].events ensures EventOk(s', i, e) {
      EventStep(s, x, hash, i, e);
    }
    forall i: nat, e | i < |s'.nodes| && s'.nodes[i].open && e in s'.edits && e.origin < |s'.nodes| ensures Reaches(s', e, i) {
      SpreadingStep(s, x, hash, e, i);
    }
  }

  lemma {:induction false} InitialInv(s: Sys, hash: Hashing)
    requires Initial(s)
    ensures Inv(s, hash)
  {
  }

  lemma {:induction false} InvAlways(states: seq<Sys>, steps: seq<Step>, hash: Hashing, n: nat)
    requires Collisionless(hash) && IsRun(states, steps, hash) && n < |states|
    ensures Inv(states[n], hash) && |states[n].nodes| == |states[0].nodes|
  {
    if n > 0 {
      InvAlways(states, steps, hash, n - 1);
      assert StepAt(states, steps, hash, n - 1);
      InvStep(states[n - 1], steps[n - 1], hash);
    } else {
      InitialInv(states[0], hash);
    }
  }

  // ---- When a remote change is recognised ------------------------------------------------

  /**
   Until when a remote change of `u` at instance `i` is recognised, after the first `n` steps: the time to
   live after the latest accepted delivery of `u` there, or nothing when the hash was evicted since.
   */
  function Deadline(states: seq<Sys>, steps: seq<Step>, hash: Hashing, n: nat, i: nat, u: Update): Option<int>
    requires |states| == |steps| + 1 && n <= |steps|
  {
    if n == 0 then None
    else NextDeadline(states[n - 1], steps[n - 1], hash, i, u, Deadline(states, steps, hash, n - 1, i, u))
  }

  function NextDeadline(s: Sys, x: Step, hash: Hashing, i: nat, u: Update, before: Option<int>): Option<int> {
    if i >= |s.nodes| then before
    else
      var stored := Stores(s.nodes[i], i, x, hash);
      if stored.None? then before
      else if stored.value == u then Some(s.now + RM.TTL_MS)
      else if RM.Evicts(s.nodes[i].memory, hash(stored.value), s.now, hash(u)) then None
      else before
  }

  /** Step `k` delivers `u` to instance `i`, which accepts it. */
  predicate DeliversAt(states: seq<Sys>, steps: seq<Step>, hash: Hashing, i: nat, u: Update, k: nat)
    requires |states| == |steps| + 1 && k < |steps|
  {
    i < |states[k].nodes| && Stores(states[k].nodes[i], i, steps[k], hash) == Some(u)
  }

  /** Step `k` remembers another hash at instance `i`, and that evicts the hash of `u`. */
  predicate EvictsAt(states: seq<Sys>, steps: seq<Step>, hash: Hashing, i: nat, u: Update, k: nat)
    requires |states| == |steps| + 1 && k < |steps|
  {
    i < |states[k].nodes| &&
    var stored := Stores(states[k].nodes[i], i, steps[k], hash);
    stored.Some? && stored.value != u && RM.Evicts(states[k].nodes[i].memory, hash(stored.value), states[k].now, hash(u))
  }

  /** Step `d` is the latest delivery of `u` to instance `i` before step `n`, and nothing evicted the hash since. */
  predicate LatestDelivery(states: seq<Sys>, steps: seq<Step>, hash: Hashing, i: nat, u: Update, d: nat, n: nat)
    requires |states| == |steps| + 1 && d < n <= |steps|
  {
    DeliversAt(states, steps, hash, i, u, d) &&
    forall k: nat | d < k < n :: !DeliversAt(states, steps, hash, i, u, k) && !EvictsAt(states, steps, hash, i, u, k)
  }

  /** What the deadline means: a latest delivery without later eviction, and its time to live. */
  lemma {:induction false} DeadlineMeans(states: seq<Sys>, steps: seq<Step>, hash: Hashing, n: nat, i: nat, u: Update, t: int)
    requires |states| == |steps| + 1 && n <= |steps|
    ensures Deadline(states, steps, hash, n, i, u) == Some(t)
       <==> exists d: nat | d < n :: LatestDelivery(states, steps, hash, i, u, d, n) && t == states[d].now + 60_000
  {
    if n > 0 {
      var k := n - 1;
      DeadlineMeans(states, steps, hash, k, i, u, t);
      if DeliversAt(states, steps, hash, i, u, k) {
        assert LatestDelivery(states, steps, hash, i, u, k, n);
      } else if !EvictsAt(states, steps, hash, i, u, k) {
        forall d: nat | d < k
          ensures LatestDelivery(states, steps, hash, i, u, d, n) <==> LatestDelivery(states, steps, hash, i, u, d, k)
        {
        }
      }
    }
  }

  /** While the change waits, the memory holds its hash until the deadline, and only then. */
  ghost predicate Tracks(s: Sys, hash: Hashing, i: nat, u: Update, deadline: Option<int>) {
    i < |s.nodes| && Event(u, true) in s.nodes[i].events ==>
      && (forall e :: e in s.nodes[i].memory && e.hash == hash(u) ==> deadline == Some(e.expiresAt))
      && (deadline.Some? && s.now < deadline.value ==> RM.Entry(hash(u), deadline.value) in s.nodes[i].memory)
  }

  lemma {:induction false} StoreTracks(memory: seq<RM.Entry>, stored: RM.Hash, now: int, h: RM.Hash, deadline: Option<int>)
    requires RM.WellFormed(memory) && stored != "" && h != stored
    requires forall e :: e in memory && e.hash == h ==> deadline == Some(e.expiresAt)
    requires deadline.Some? && now < deadline.value ==> RM.Entry(h, deadline.value) in memory
    ensures var after := RM.Remember(memory, stored, now);
            var later := if RM.Evicts(memory, stored, now, h) then None else deadline;
            && (forall e :: e in after && e.hash == h ==> later == Some(e.expiresAt))
            && (later.Some? && now < later.value ==> RM.Entry(h, later.value) in after)
  {
    RM.RememberOnly(memory, stored, now);
    if RM.Evicts(memory, stored, now, h) {
      RM.EvictedIsGone(memory, stored, now, h);
    } else if deadline.Some? && now < deadline.value {
      RM.RememberOther(memory, stored, now, RM.Entry(h, deadline.value));
    }
  }

  lemma {:induction false} AskTracks(memory: seq<RM.Entry>, asked: RM.Hash, now: int, h: RM.Hash, deadline: Option<int>)
    requires h != asked
    requires forall e :: e in memory && e.hash == h ==> deadline == Some(e.expiresAt)
    requires deadline.Some? && now < deadline.value ==> RM.Entry(h, deadline.value) in memory
    ensures var after := RM.Without(RM.Live(memory, now), asked);
            && (forall e :: e in after && e.hash == h ==> deadline == Some(e.expiresAt))
            && (deadline.Some? && now < deadline.value ==> RM.Entry(h, deadline.value) in after)
  {
    RM.LiveFacts(memory, now);
    RM.WithoutFacts(RM.Live(memory, now), asked);
  }

  /** A delivery of the update itself starts the time to live anew. */
  lemma {:induction false} OwnTracks(memory: seq<RM.Entry>, h: RM.Hash, now: int)
    requires RM.WellFormed(memory) && h != ""
    ensures var after := RM.Remember(memory, h, now);
            && (forall e :: e in after && e.hash == h ==> e.expiresAt == now + RM.TTL_MS)
            && RM.Entry(h, now + RM.TTL_MS) in after
  {
    RM.RememberKeeps(memory, h, now);
    var after := RM.Remember(memory, h, now);
    var k :| 0 <= k < |after| && after[k] == RM.Entry(h, now + RM.TTL_MS);
    forall e | e in after && e.hash == h ensures e.expiresAt == now + RM.TTL_MS {
      var j :| 0 <= j < |after| && after[j] == e;
    }
  }

  /** No step but its own handling asks about the update of a waiting remote change. */
  lemma {:induction false} OthersAsked(s: Sys, x: Step, hash: Hashing, i: nat, u: Update)
    requires Enabled(s, x) && EventsOk(s) && i < |s.nodes|
    requires Event(u, true) in s.nodes[i].events && Event(u, true) in Next(s, x, hash).nodes[i].events
    ensures Asks(i, x) == Some(u) ==> x.ChangeElsewhere?
  {
    assert EventOk(s, i, Event(u, true));
    assert x.Change? && x.i == i ==> EventOk(s, i, x.e);
    assert s.nodes[i].events[Event(u, true)] == 1;
  }

  lemma {:induction false} MemoryTracks(n: Node, i: nat, x: Step, now: int, hash: Hashing, u: Update, deadline: Option<int>)
    requires Collisionless(hash) && RM.WellFormed(n.memory)
    requires Stores(n, i, x, hash) != Some(u) && Asks(i, x) != Some(u)
    requires forall e :: e in n.memory && e.hash == hash(u) ==> deadline == Some(e.expiresAt)
    requires deadline.Some? && now < deadline.value ==> RM.Entry(hash(u), deadline.value) in n.memory
    ensures var after := MemoryAfter(n, i, x, now, hash);
            var stored := Stores(n, i, x, hash);
            var later := if stored.Some? && RM.Evicts(n.memory, hash(stored.value), now, hash(u)) then None else deadline;
            && (forall e :: e in after && e.hash == hash(u) ==> later == Some(e.expiresAt))
            && (later.Some? && now < later.value ==> RM.Entry(hash(u), later.value) in after)
  {
    var stored, asked := Stores(n, i, x, hash), Asks(i, x);
    if stored.Some? {
      StoreTracks(n.memory, hash(stored.value), now, hash(u), deadline);
    } else if asked.Some? {
      AskTracks(n.memory, hash(asked.value), now, hash(u), deadline);
    }
  }

  lemma {:induction false} TrackStep(s: Sys, x: Step, hash: Hashing, i: nat, u: Update, deadline: Option<int>)
    requires Collisionless(hash) && Enabled(s, x) && UniqueEdits(s) && EventsOk(s) && i < |s.nodes|
    requires MemoryOk(s, s.nodes[i].memory, hash) && Tracks(s, hash, i, u, deadline)
    ensures Tracks(Next(s, x, hash), hash, i, u, NextDeadline(s, x, hash, i, u, deadline))
  {
    if Event(u, true) in Next(s, x, hash).nodes[i].events {
      if Stores(s.nodes[i], i, x, hash) == Some(u) {
        DeliveryTracks(s, x, hash, i, u, deadline);
      } else {
        StillWaits(s, x, hash, i, u);
        WaitTracks(s, x, hash, i, u, deadline);
      }
    }
  }

  lemma {:induction false} DeliveryTracks(s: Sys, x: Step, hash: Hashing, i: nat, u: Update, deadline: Option<int>)
    requires Collisionless(hash) && Enabled(s, x) && i < |s.nodes| && RM.WellFormed(s.nodes[i].memory)
    requires Stores(s.nodes[i], i, x, hash) == Some(u)
    ensures Tracks(Next(s, x, hash), hash, i, u, NextDeadline(s, x, hash, i, u, deadline))
  {
    OwnTracks(s.nodes[i].memory, hash(u), s.now);
  }

  lemma {:induction false} WaitTracks(s: Sys, x: Step, hash: Hashing, i: nat, u: Update, deadline: Option<int>)
    requires Collisionless(hash) && Enabled(s, x) && i < |s.nodes| && RM.WellFormed(s.nodes[i].memory)
    requires Stores(s.nodes[i], i, x, hash) != Some(u) && Asks(i, x) != Some(u) && s.now <= Next(s, x, hash).now
    requires Event(u, true) in s.nodes[i].events && Tracks(s, hash, i, u, deadline)
    ensures Tracks(Next(s, x, hash), hash, i, u, NextDeadline(s, x, hash, i, u, deadline))
  {
    MemoryTracks(s.nodes[i], i, x, s.now, hash, u, deadline);
  }

  /** A remote change that waits after a step, which did not store its hash, waited before and was not asked about. */
  lemma {:induction false} StillWaits(s: Sys, x: Step, hash: Hashing, i: nat, u: Update)
    requires Enabled(s, x) && UniqueEdits(s) && EventsOk(s) && i < |s.nodes| && Stores(s.nodes[i], i, x, hash) != Some(u)
    requires Event(u, true) in Next(s, x, hash).nodes[i].events
    ensures Event(u, true) in s.nodes[i].events && Asks(i, x) != Some(u)
    ensures s.now <= Next(s, x, hash).now
  {
    var e := Event(u, true);
    assert e in EventsAfter(s.nodes[i], i, x, hash);
    assert e in s.nodes[i].events;
    OthersAsked(s, x, hash, i, u);
    assert EventOk(s, i, e);
    var k :| 0 <= k < |s.edits| && s.edits[k].update == u;
    assert !Unused(s, u);
  }

  lemma {:induction false} RunTracks(states: seq<Sys>, steps: seq<Step>, hash: Hashing, k: nat, i: nat, u: Update, deadline: Option<int>)
    requires Collisionless(hash) && IsRun(states, steps, hash) && k < |steps| && Tracks(states[k], hash, i, u, deadline)
    ensures Tracks(states[k + 1], hash, i, u, NextDeadline(states[k], steps[k], hash, i, u, deadline))
  {
    InvAlways(states, steps, hash, k);
    assert StepAt(states, steps, hash, k);
    if i < |states[k].nodes| {
      assert MemoryOk(states[k], states[k].nodes[i].memory, hash);
      TrackStep(states[k], steps[k], hash, i, u, deadline);
    }
  }

  lemma {:induction false} TracksAlways(states: seq<Sys>, steps: seq<Step>, hash: Hashing, n: nat, i: nat, u: Update)
    requires Collisionless(hash) && IsRun(states, steps, hash) && n < |states|
    ensures Tracks(states[n], hash, i, u, Deadline(states, steps, hash, n, i, u))
  {
    if n > 0 {
      TracksAlways(states, steps, hash, n - 1, i, u);
      RunTracks(states, steps, hash, n - 1, i, u, Deadline(states, steps, hash, n - 1, i, u));
    }
  }

  lemma {:induction false} TrackedRecognised(s: Sys, hash: Hashing, i: nat, u: Update, deadline: Option<int>)
    requires i < |s.nodes| && Event(u, true) in s.nodes[i].events && Tracks(s, hash, i, u, deadline)
    ensures Recognised(s.nodes[i], u, s.now, hash) <==> deadline.Some? && s.now < deadline.value
  {
    var memory := s.nodes[i].memory;
    var live := RM.Live(memory, s.now);
    RM.LiveFacts(memory, s.now);
    if RM.Has(live, hash(u)) {
      var k :| 0 <= k < |live| && live[k].hash == hash(u);
      assert live[k] in memory;
    }
    if deadline.Some? && s.now < deadline.value {
      assert RM.Entry(hash(u), deadline.value) in live;
    }
  }

  /** A change that came from the channel is handled within the time to live of the latest delivery, its hash not evicted since. */
  predicate Timely(states: seq<Sys>, steps: seq<Step>, hash: Hashing, k: nat)
    requires |states| == |steps| + 1 && k < |steps|
  {
    var x := steps[k];
    x.Change? && x.e.remote ==>
      var deadline := Deadline(states, steps, hash, k, x.i, x.e.update);
      deadline.Some? && states[k].now < deadline.value
  }

  /** `isRemoteUpdate` answers true for a remote change exactly when it is handled in time. */
  lemma {:induction false} RecognisedExactlyInTime(states: seq<Sys>, steps: seq<Step>, hash: Hashing, k: nat)
    requires Collisionless(hash) && IsRun(states, steps, hash) && k < |steps|
    requires steps[k].Change? && steps[k].e.remote
    ensures StepAt(states, steps, hash, k)
    ensures !Publishes(states[k], steps[k], hash) <==> Timely(states, steps, hash, k)
  {
    var x := steps[k];
    assert StepAt(states, steps, hash, k);
    TracksAlways(states, steps, hash, k, x.i, x.e.update);
    assert x.e == Event(x.e.update, true);
    TrackedRecognised(states[k], hash, x.i, x.e.update, Deadline(states, steps, hash, k, x.i, x.e.update));
  }

  // ---- Results ------------------------------------------------------------------------

  /** Everything appended and published came from a client of the instance that did so. */
  predicate EchoFree(s: Sys) { forall e :: e in s.outgoing ==> e in s.edits }

  predicate Echoes(s: Sys, x: Step, hash: Hashing)
    requires Enabled(s, x)
  {
    Publishes(s, x, hash) && x.e.remote
  }

  lemma {:induction false} EchoStep(s: Sys, x: Step, hash: Hashing)
    requires Enabled(s, x) && UniqueEdits(s) && EventsOk(s)
    ensures EchoFree(Next(s, x, hash)) <==> EchoFree(s) && !Echoes(s, x, hash)
  {
    var s' := Next(s, x, hash);
    if Publishes(s, x, hash) {
      assert EventOk(s, x.i, x.e);
      assert s'.outgoing[|s.outgoing|] == Edit(x.i, x.e.update);
      assert forall f :: f in s'.outgoing <==> f in s.outgoing || f == Edit(x.i, x.e.update);
    } else if x.ClientEdit? {
      forall f | f in s.outgoing ensures f in s.edits <==> f in s'.edits {
        assert Sent(s, f.update);
      }
    }
  }

  predicate AllTimely(states: seq<Sys>, steps: seq<Step>, hash: Hashing, n: nat)
    requires |states| == |steps| + 1 && n <= |steps|
  {
    forall m: nat | m < n :: Timely(states, steps, hash, m)
  }

  lemma {:induction false} RunEcho(states: seq<Sys>, steps: seq<Step>, hash: Hashing, k: nat)
    requires Collisionless(hash) && IsRun(states, steps, hash) && k < |steps|
    ensures EchoFree(states[k + 1]) <==> EchoFree(states[k]) && Timely(states, steps, hash, k)
  {
    InvAlways(states, steps, hash, k);
    assert StepAt(states, steps, hash, k);
    EchoStep(states[k], steps[k], hash);
    if steps[k].Change? && steps[k].e.remote {
      RecognisedExactlyInTime(states, steps, hash, k);
    }
  }

  /**
   A run is free of echoes if and only if every change that came from the channel was
   handled before its hash expired or was evicted.
   */
  lemma {:induction false} EchoFreeExactlyWhenTimely(states: seq<Sys>, steps: seq<Step>, hash: Hashing, n: nat)
    requires Collisionless(hash) && IsRun(states, steps, hash) && n < |states|
    ensures EchoFree(states[n]) <==> AllTimely(states, steps, hash, n)
  {
    if n > 0 {
      EchoFreeExactlyWhenTimely(states, steps, hash, n - 1);
      RunEcho(states, steps, hash, n - 1);
      assert AllTimely(states, steps, hash, n)
        <==> AllTimely(states, steps, hash, n - 1) && Timely(states, steps, hash, n - 1);
    }
  }

  predicate Quiescent(s: Sys) {
    forall i: nat | i < |s.nodes| :: s.nodes[i].events == multiset{} && s.nodes[i].inbox == multiset{}
  }

  lemma {:induction false} OccursOnce(edits: seq<Edit>, k: nat)
    requires k < |edits| && forall i, j :: 0 <= i < j < |edits| ==> edits[i].update != edits[j].update
    ensures multiset(edits)[edits[k]] == 1
  {
    var a, b := edits[..k], edits[k + 1..];
    assert edits == a + [edits[k]] + b;
    assert edits[k] !in multiset(a) && edits[k] !in multiset(b);
  }

  lemma {:induction false} SentAsOftenAsEdited(s: Sys, e: Edit)
    requires UniqueEdits(s) && EditsOk(s) && EchoFree(s) && Quiescent(s)
    ensures multiset(s.outgoing)[e] == multiset(s.edits)[e]
  {
    if e in s.edits {
      var k :| 0 <= k < |s.edits| && s.edits[k] == e;
      OccursOnce(s.edits, k);
      assert EditOk(s, e);
    } else {
      assert e !in multiset(s.edits) && e !in multiset(s.outgoing);
    }
  }

  /** In a timely run that has come to rest, exactly the client edits were sent, each once. */
  lemma {:induction false} SentExactlyOnce(states: seq<Sys>, steps: seq<Step>, hash: Hashing, n: nat)
    requires Collisionless(hash) && IsRun(states, steps, hash) && n < |states|
    requires AllTimely(states, steps, hash, n)
    requires Quiescent(states[n])
    ensures multiset(states[n].outgoing) == multiset(states[n].edits)
  {
    var s := states[n];
    InvAlways(states, steps, hash, n);
    EchoFreeExactlyWhenTimely(states, steps, hash, n);
    forall e: Edit ensures multiset(s.outgoing)[e] == multiset(s.edits)[e] {
      SentAsOftenAsEdited(s, e);
    }
  }

  function AllOps(edits: seq<Edit>): set<Op> { set e, o | e in edits && o in e.update.ops :: o }

  lemma {:induction false} SentWithin(s: Sys, u: Update)
    requires Sent(s, u)
    ensures u.ops <= AllOps(s.edits)
  {
    var k :| 0 <= k < |s.edits| && s.edits[k].update == u;
    assert s.edits[k] in s.edits;
  }

  lemma {:induction false} EditsGrow(edits: seq<Edit>, e: Edit)
    ensures AllOps(edits) <= AllOps(edits + [e]) && e.update.ops <= AllOps(edits + [e])
  {
    var more := edits + [e];
    assert more[|edits|] == e;
    forall o | o in AllOps(edits) ensures o in AllOps(more) {
      var f :| f in edits && o in f.update.ops;
      assert f in more;
    }
  }

  /** A document holds its initial content, perhaps client edits, and nothing else. */
  predicate Within(doc: set<Op>, first: set<Op>, edits: seq<Edit>) { first <= doc <= first + AllOps(edits) }

  lemma {:induction false} WithinStep(s: Sys, x: Step, hash: Hashing, i: nat, first: set<Op>)
    requires Enabled(s, x) && InboxesOk(s, hash) && i < |s.nodes| && Within(s.nodes[i].doc, first, s.edits)
    ensures Within(Next(s, x, hash).nodes[i].doc, first, Next(s, x, hash).edits)
    ensures Next(s, x, hash).nodes[i].open == s.nodes[i].open
  {
    DocGrows(s.nodes[i], i, x, hash);
    GainsWithin(s, x, hash, i);
  }

  /** A document gains client edits only. */
  lemma {:induction false} GainsWithin(s: Sys, x: Step, hash: Hashing, i: nat)
    requires Enabled(s, x) && InboxesOk(s, hash) && i < |s.nodes|
    ensures AllOps(s.edits) <= AllOps(Next(s, x, hash).edits)
    ensures DocAfter(s.nodes[i], i, x, hash) <= s.nodes[i].doc + AllOps(Next(s, x, hash).edits)
  {
    if x.ClientEdit? {
      EditsGrow(s.edits, Edit(x.i, x.u));
    } else if x.Deliver? && x.i == i {
      assert InboxOk(s, x.m, hash);
      SentWithin(s, x.m.update);
    }
  }

  lemma {:induction false} WithinAlways(states: seq<Sys>, steps: seq<Step>, hash: Hashing, n: nat, i: nat)
    requires Collisionless(hash) && IsRun(states, steps, hash) && n < |states| && i < |states[0].nodes|
    ensures |states[n].nodes| == |states[0].nodes|
    ensures Within(states[n].nodes[i].doc, states[0].nodes[i].doc, states[n].edits)
    ensures states[n].nodes[i].open == states[0].nodes[i].open
  {
    InvAlways(states, steps, hash, n);
    if n > 0 {
      WithinAlways(states, steps, hash, n - 1, i);
      InvAlways(states, steps, hash, n - 1);
      assert StepAt(states, steps, hash, n - 1);
      WithinStep(states[n - 1], steps[n - 1], hash, i, states[0].nodes[i].doc);
    }
  }

  lemma {:induction false} RestingHoldsAll(s: Sys, hash: Hashing, i: nat)
    requires Inv(s, hash) && Quiescent(s) && i < |s.nodes| && s.nodes[i].open
    ensures AllOps(s.edits) <= s.nodes[i].doc
  {
    forall o | o in AllOps(s.edits) ensures o in s.nodes[i].doc {
      var e :| e in s.edits && o in e.update.ops;
      assert EditOk(s, e);
      assert Reaches(s, e, i);
    }
  }

  /**
   Convergence, echoes or not: once everything is delivered and handled, every instance that
   kept the document open holds its initial content and all client edits.
   */
  lemma {:induction false} Converges(states: seq<Sys>, steps: seq<Step>, hash: Hashing, n: nat, i: nat)
    requires Collisionless(hash) && IsRun(states, steps, hash) && n < |states|
    requires Quiescent(states[n]) && i < |states[n].nodes| && states[n].nodes[i].open
    ensures i < |states[0].nodes| && states[n].nodes[i].doc == states[0].nodes[i].doc + AllOps(states[n].edits)
  {
    InvAlways(states, steps, hash, n);
    WithinAlways(states, steps, hash, n, i);
    RestingHoldsAll(states[n], hash, i);
  }

  // ---- The message handler of one instance --------------------------------------------

  /** What arrives on the channel: text that does not parse, or an envelope for a document. */
  datatype Message = Unparsable | Parsed(documentId: string, envelope: Envelope)

  class PubSub {
    const instanceId: nat
    const memory: RM.Memory
    var documents: map<string, set<Op>>    // the open documents

    constructor (instanceId: nat)
      ensures this.instanceId == instanceId && documents == map[] && fresh(memory)
      ensures memory.Valid() && memory.entries == []
    {
      this.instanceId := instanceId;
      documents := map[];
      memory := new RM.Memory();
    }

    /** The node of `CollabSync` that document `d` sees, with queues left out. */
    ghost function NodeOf(d: string): Node
      reads this, memory
    {
      Node(d in documents, GetOr(documents, d, {}), memory.entries, multiset{}, multiset{})
    }

    /** `handleMessage`; `applyFails` when `applyUpdate` throws, which forgets the hash again. */
    method HandleMessage(message: Message, now: int, hash: Hashing, applyFails: bool)
      requires memory.Valid() && Collisionless(hash)
      modifies this, memory
      ensures memory.Valid()
      ensures var accepted := message.Parsed? && message.envelope.instanceId != instanceId && message.documentId in old(documents)
                              && hash(message.envelope.update) == message.envelope.updateHash;
              && (!accepted ==> documents == old(documents) && memory.entries == old(memory.entries))
              && (accepted && !applyFails ==>
                    && documents == old(documents)[message.documentId := old(documents)[message.documentId] + message.envelope.update.ops]
                    && RM.Entry(hash(message.envelope.update), now + 60_000) in memory.entries)
              && (accepted && applyFails ==>
                    documents == old(documents) && forall e :: e in memory.entries ==> e.hash != hash(message.envelope.update))
      ensures message.Parsed? && !applyFails ==>
                var (n, x) := (old(NodeOf(message.documentId)), Deliver(instanceId, message.envelope));
                NodeOf(message.documentId) == NodeAfter(n, instanceId, x, now, false, hash).(events := multiset{}, inbox := multiset{})
      ensures message.Parsed? && !applyFails && Accepts(old(NodeOf(message.documentId)), instanceId, message.envelope, hash) ==>
                forall d :: d != message.documentId ==>
                  NodeOf(d) == NodeAfter(old(NodeOf(d)), instanceId, DeliverElsewhere(instanceId, message.envelope.update), now, false, hash)
      ensures message.Parsed? && applyFails ==>
                && documents == old(documents)
                && memory.entries ==
                   if Accepts(old(NodeOf(message.documentId)), instanceId, message.envelope, hash)
                   then RM.Without(RM.Remember(old(memory.entries), message.envelope.updateHash, now), message.envelope.updateHash)
                   else old(memory.entries)
      ensures message.Parsed? ==> forall d :: d != message.documentId ==>
                (d in documents <==> d in old(documents)) && (d in documents ==> documents[d] == old(documents)[d])
    {
      if message.Unparsable? || message.envelope.instanceId == instanceId {
        return;
      }
      var d, e := message.documentId, message.envelope;
      if d !in documents {
        return;
      }
      if hash(e.update) != e.updateHash {
        return;
      }
      RM.RememberKeeps(memory.entries, e.updateHash, now);
      memory.RememberHash(e.updateHash, now);
      if applyFails {
        RM.WithoutFacts(memory.entries, e.updateHash);
        memory.Delete(e.updateHash);
      } else {
        documents := documents[d := documents[d] + e.update.ops];
      }
    }
  }
}
