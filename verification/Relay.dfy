/** The clipboard protocol on an arbitrary finite graph: a node that produced
    or applied a snapshot later forwards it to every neighbour except the one
    it came from. Recording a snapshot and forwarding it are separate steps,
    because the engine's lock covers only the first. Channels are multisets,
    so frames may overtake each other. */
module Relay {
  import opened Core
  import opened ClipboardEngine

  /** (sender, receiver) */
  type Link = (NodeId, NodeId)

  datatype Net = Net(nodes: set<NodeId>, links: set<Link>)

  ghost predicate ValidNet(net: Net) {
    forall a, b :: (a, b) in net.links ==> a in net.nodes && b in net.nodes && (b, a) in net.links
  }

  /** What a node did to its own clock; the log of all of these is the global
      order of a run. */
  datatype Event =
    | Produced(node: NodeId, snap: Snapshot)
    | Applied(node: NodeId, snap: Snapshot, from: NodeId)

  /** A snapshot recorded at `node` and not forwarded yet. */
  datatype Job = Job(node: NodeId, from: Option<NodeId>, snap: Snapshot)

  datatype State = State(
    engines: map<NodeId, EngineState>,
    channels: map<Link, multiset<Snapshot>>,
    jobs: multiset<Job>,
    log: seq<Event>)

  datatype Step =
    | Produce(node: NodeId, items: seq<ClipItem>, now: nat)
    | Deliver(link: Link, snap: Snapshot)
    | FanOut(job: Job)

  function Init(net: Net, limits: NodeId -> nat): State {
    State(
      map n | n in net.nodes :: Fresh(n, limits(n)),
      map l | l in net.links :: multiset{},
      multiset{},
      [])
  }

  predicate Enabled(s: State, step: Step) {
    match step
    case Produce(n, _, _) => n in s.engines
    case Deliver(l, snap) => l in s.channels && l.1 in s.engines && snap in s.channels[l]
    case FanOut(job) => job in s.jobs
  }

  function JobOf(e: Event): Job {
    Job(e.node, if e.Applied? then Some(e.from) else None, e.snap)
  }

  function Record(s: State, e: Event): State
    requires e.node in s.engines
  {
    State(
      s.engines[e.node := Accept(s.engines[e.node], e.snap)],
      s.channels,
      s.jobs + multiset{JobOf(e)},
      s.log + [e])
  }

  function Consume(s: State, l: Link, snap: Snapshot): State
    requires l in s.channels
  {
    s.(channels := s.channels[l := s.channels[l] - multiset{snap}])
  }

  predicate IsTarget(job: Job, l: Link) {
    l.0 == job.node && Some(l.1) != job.from
  }

  function PassOn(s: State, job: Job): State {
    s.(jobs := s.jobs - multiset{job},
       channels := map l | l in s.channels ::
         if IsTarget(job, l) then s.channels[l] + multiset{job.snap} else s.channels[l])
  }

  function Next(s: State, step: Step): State
    requires Enabled(s, step)
  {
    match step
    case Produce(n, items, now) =>
      Record(s, Produced(n, NextSnapshot(s.engines[n], items, now)))
    case Deliver(l, snap) =>
      var recorded :=
        match Decide(s.engines[l.1], snap)
        case Apply(accepted) => Record(s, Applied(l.1, accepted, l.0))
        case Ignore => s;
      Consume(recorded, l, snap)
    case FanOut(job) => PassOn(s, job)
  }

  /** The state after `steps`, or nothing if some step was not enabled. */
  function Exec(net: Net, limits: NodeId -> nat, steps: seq<Step>): Option<State> {
    if steps == [] then Some(Init(net, limits))
    else
      match Exec(net, limits, steps[..|steps| - 1])
      case None => None
      case Some(s) =>
        var step := steps[|steps| - 1];
        if Enabled(s, step) then Some(Next(s, step)) else None
  }

  predicate Quiescent(s: State) {
    s.jobs == multiset{} && forall l :: l in s.channels ==> s.channels[l] == multiset{}
  }

  // ----- what every reachable state satisfies -----

  ghost predicate Seen(log: seq<Event>, n: NodeId, snap: Snapshot) {
    exists i :: 0 <= i < |log| && log[i].node == n && log[i].snap == snap
  }

  ghost predicate WasProduced(log: seq<Event>, snap: Snapshot) {
    exists i :: 0 <= i < |log| && log[i] == Produced(snap.origin, snap)
  }

  /** The snapshots recorded at one node, in order. */
  function NodeLog(log: seq<Event>, n: NodeId): seq<Snapshot> {
    if log == [] then []
    else
      var front := NodeLog(log[..|log| - 1], n);
      var e := log[|log| - 1];
      if e.node == n then front + [e.snap] else front
  }

  ghost predicate Shape(net: Net, s: State) {
    && s.engines.Keys == net.nodes
    && s.channels.Keys == net.links
    && (forall n :: n in s.engines ==> s.engines[n].selfId == n)
    && (forall job :: job in s.jobs ==> job.node in net.nodes)
    && (forall i :: 0 <= i < |s.log| ==> s.log[i].node in net.nodes)
  }

  ghost predicate HistoryAt(s: State, n: NodeId)
    requires n in s.engines
  {
    RefinesLog(s.engines[n], NodeLog(s.log, n))
  }

  /** Every engine is the bounded view of what its node recorded. */
  ghost predicate Histories(s: State) {
    forall n {:trigger HistoryAt(s, n)} :: n in s.engines ==> HistoryAt(s, n)
  }

  /** No node recorded a version above its clock. */
  ghost predicate Bounded(s: State) {
    forall i :: 0 <= i < |s.log| && s.log[i].node in s.engines ==>
      0 < s.log[i].snap.version <= s.engines[s.log[i].node].version
  }

  /** Whatever is queued was recorded by its sender, and so has a producer. */
  ghost predicate Sourced(s: State) {
    && (forall l, snap :: l in s.channels && snap in s.channels[l] ==> Seen(s.log, l.0, snap))
    && (forall job :: job in s.jobs ==> Seen(s.log, job.node, job.snap))
  }

  /** Versions grow strictly along each node. */
  ghost predicate Ordered(log: seq<Event>) {
    forall i, j :: 0 <= i < j < |log| && log[i].node == log[j].node ==> log[i].snap.version < log[j].snap.version
  }

  /** A producer is its snapshot's origin. */
  ghost predicate OwnOrigin(log: seq<Event>) {
    forall i :: 0 <= i < |log| && log[i].Produced? ==> log[i].node == log[i].snap.origin
  }

  /** The i-th recorded snapshot was produced, unchanged, by its origin; if it
      was applied, the node it came from had recorded it before. */
  ghost predicate RootedAt(log: seq<Event>, i: nat)
    requires i < |log|
  {
    && WasProduced(log, log[i].snap)
    && (log[i].Applied? ==> Seen(log[..i], log[i].from, log[i].snap))
  }

  ghost predicate Rooted(log: seq<Event>) {
    forall i :: 0 <= i < |log| ==> RootedAt(log, i)
  }

  /** A node is behind its neighbour only while that neighbour's current
      snapshot is still on its way. */
  ghost predicate Covered(s: State, l: Link)
    requires l in s.channels && l.0 in s.engines && l.1 in s.engines
  {
    var v := s.engines[l.0].version;
    || v <= s.engines[l.1].version
    || (exists job :: job in s.jobs && IsTarget(job, l) && job.snap.version == v)
    || (exists snap :: snap in s.channels[l] && snap.version == v)
  }

  ghost predicate Coverage(s: State) {
    forall l {:trigger Covered(s, l)} :: l in s.channels && l.0 in s.engines && l.1 in s.engines ==> Covered(s, l)
  }

  ghost predicate Inv(net: Net, s: State) {
    && ValidNet(net)
    && Shape(net, s)
    && Histories(s)
    && Bounded(s)
    && Sourced(s)
    && Ordered(s.log)
    && OwnOrigin(s.log)
    && Rooted(s.log)
    && Coverage(s)
  }

  // ----- the log -----

  lemma SeenGrows(log: seq<Event>, e: Event, n: NodeId, snap: Snapshot)
    ensures Seen(log, n, snap) ==> Seen(log + [e], n, snap)
    ensures WasProduced(log, snap) ==> WasProduced(log + [e], snap)
    ensures Seen(log + [e], e.node, e.snap)
  {
    var after := log + [e];
    assert after[|log|] == e;
    if Seen(log, n, snap) {
      var i :| 0 <= i < |log| && log[i].node == n && log[i].snap == snap;
      assert after[i] == log[i];
    }
    if WasProduced(log, snap) {
      var i :| 0 <= i < |log| && log[i] == Produced(snap.origin, snap);
      assert after[i] == log[i];
    }
  }

  lemma NodeLogSnoc(log: seq<Event>, e: Event, n: NodeId)
    ensures NodeLog(log + [e], n) == if e.node == n then NodeLog(log, n) + [e.snap] else NodeLog(log, n)
  {
    assert (log + [e])[..|log|] == log;
  }

  /** A node's last recorded snapshot is an entry of the global log. */
  lemma {:induction false} LastOfNodeLog(log: seq<Event>, n: NodeId)
    ensures NodeLog(log, n) != [] ==> Seen(log, n, NodeLog(log, n)[|NodeLog(log, n)| - 1])
    ensures NodeLog(log, n) == [] ==> forall i :: 0 <= i < |log| ==> log[i].node != n
  {
    if log != [] {
      var front, e := log[..|log| - 1], log[|log| - 1];
      LastOfNodeLog(front, n);
      assert log == front + [e];
      if NodeLog(log, n) != [] {
        SeenGrows(front, e, n, NodeLog(log, n)[|NodeLog(log, n)| - 1]);
      }
    }
  }

  lemma SeenIsProduced(log: seq<Event>, n: NodeId, snap: Snapshot)
    requires Rooted(log) && Seen(log, n, snap)
    ensures WasProduced(log, snap)
  {
    var i :| 0 <= i < |log| && log[i].node == n && log[i].snap == snap;
    assert RootedAt(log, i);
  }

  /** A snapshot never has a version above its origin's clock, nor above the
      clock of any node that recorded it. */
  lemma SeenBelowClock(s: State, n: NodeId, snap: Snapshot)
    requires Bounded(s) && Rooted(s.log) && Seen(s.log, n, snap)
    ensures n in s.engines ==> snap.version <= s.engines[n].version
    ensures snap.origin in s.engines ==> snap.version <= s.engines[snap.origin].version
    ensures 0 < snap.version || n !in s.engines
  {
    SeenIsProduced(s.log, n, snap);
    var i :| 0 <= i < |s.log| && s.log[i].node == n && s.log[i].snap == snap;
    var j :| 0 <= j < |s.log| && s.log[j] == Produced(snap.origin, snap);
  }

  // ----- each kind of move keeps the invariant -----

  /** What makes an event legitimate in `s`. */
  ghost predicate Legitimate(s: State, e: Event) {
    && e.node in s.engines
    && s.engines[e.node].version < e.snap.version
    && (e.Produced? ==> e.snap.origin == e.node)
    && (e.Applied? ==> Seen(s.log, e.from, e.snap))
    && (e.Applied? && e.from in s.engines ==> e.snap.version <= s.engines[e.from].version)
  }

  lemma RecordKeepsHistories(s: State, e: Event)
    requires Histories(s) && e.node in s.engines && s.engines[e.node].version < e.snap.version
    ensures Histories(Record(s, e))
  {
    var t := Record(s, e);
    forall n | n in t.engines
      ensures HistoryAt(t, n)
    {
      assert HistoryAt(s, n);
      NodeLogSnoc(s.log, e, n);
      if n == e.node {
        AcceptRefinesLog(s.engines[n], NodeLog(s.log, n), e.snap);
      }
    }
  }

  lemma RecordKeepsBounded(s: State, e: Event)
    requires Bounded(s) && Ordered(s.log) && e.node in s.engines && s.engines[e.node].version < e.snap.version
    ensures Bounded(Record(s, e)) && Ordered(s.log + [e])
  {
  }

  lemma RecordKeepsSourced(s: State, e: Event)
    requires Sourced(s) && Legitimate(s, e)
    ensures Sourced(Record(s, e))
  {
    var t := Record(s, e);
    forall l, snap | l in t.channels && snap in t.channels[l]
      ensures Seen(t.log, l.0, snap)
    {
      SeenGrows(s.log, e, l.0, snap);
    }
    forall job | job in t.jobs
      ensures Seen(t.log, job.node, job.snap)
    {
      SeenGrows(s.log, e, job.node, job.snap);
    }
  }

  lemma RecordKeepsRooted(s: State, e: Event)
    requires Rooted(s.log) && Legitimate(s, e)
    ensures Rooted(s.log + [e])
  {
    var log, after := s.log, s.log + [e];
    if e.Applied? {
      SeenIsProduced(log, e.from, e.snap);
      SeenGrows(log, e, e.from, e.snap);
    } else {
      assert after[|log|] == Produced(e.snap.origin, e.snap);
    }
    forall i | 0 <= i < |after|
      ensures RootedAt(after, i)
    {
      assert after[..i] == if i < |log| then log[..i] else log;
      if i < |log| {
        assert RootedAt(log, i);
        SeenGrows(log, e, log[i].node, log[i].snap);
      }
    }
  }

  lemma RecordKeepsCoverage(s: State, e: Event)
    requires Coverage(s) && Legitimate(s, e)
    ensures Coverage(Record(s, e))
  {
    var t := Record(s, e);
    var added := JobOf(e);
    assert added in t.jobs;
    forall l | l in t.channels && l.0 in t.engines && l.1 in t.engines
      ensures Covered(t, l)
    {
      assert Covered(s, l);
      if l.0 == e.node {
        assert IsTarget(added, l) || (e.Applied? && l.1 == e.from);
      } else if job :| job in s.jobs && IsTarget(job, l) && job.snap.version == s.engines[l.0].version {
        assert job in t.jobs;
      }
    }
  }

  lemma RecordKeepsInv(net: Net, s: State, e: Event)
    requires Inv(net, s) && Legitimate(s, e)
    ensures Inv(net, Record(s, e))
  {
    RecordKeepsHistories(s, e);
    RecordKeepsSourced(s, e);
    RecordKeepsBounded(s, e);
    RecordKeepsRooted(s, e);
    RecordKeepsCoverage(s, e);
  }

  lemma ConsumeKeepsCoverage(s: State, l: Link, snap: Snapshot)
    requires Coverage(s)
    requires l in s.channels && l.1 in s.engines && snap.version <= s.engines[l.1].version
    ensures Coverage(Consume(s, l, snap))
  {
    var t := Consume(s, l, snap);
    forall k | k in t.channels && k.0 in t.engines && k.1 in t.engines
      ensures Covered(t, k)
    {
      assert Covered(s, k);
      var v := s.engines[k.0].version;
      if s.engines[k.1].version < v {
        if x :| x in s.channels[k] && x.version == v {
          assert x in t.channels[k];
        }
      }
    }
  }

  lemma ConsumeKeepsSourced(s: State, l: Link, snap: Snapshot)
    requires Sourced(s) && l in s.channels
    ensures Sourced(Consume(s, l, snap))
  {
    var t := Consume(s, l, snap);
    forall k, x | k in t.channels && x in t.channels[k]
      ensures Seen(t.log, k.0, x)
    {
      assert x in s.channels[k];
    }
  }

  lemma SameLogKeepsHistories(s: State, t: State)
    requires Histories(s) && t.engines == s.engines && t.log == s.log
    ensures Histories(t)
  {
    forall n | n in t.engines
      ensures HistoryAt(t, n)
    {
      assert HistoryAt(s, n);
    }
  }

  lemma ConsumeKeepsInv(net: Net, s: State, l: Link, snap: Snapshot)
    requires Inv(net, s)
    requires l in s.channels && snap.version <= s.engines[l.1].version
    ensures Inv(net, Consume(s, l, snap))
  {
    SameLogKeepsHistories(s, Consume(s, l, snap));
    ConsumeKeepsSourced(s, l, snap);
    ConsumeKeepsCoverage(s, l, snap);
  }

  lemma PassOnKeepsSourced(s: State, job: Job)
    requires Sourced(s) && job in s.jobs
    ensures Sourced(PassOn(s, job))
  {
    var t := PassOn(s, job);
    forall l, snap | l in t.channels && snap in t.channels[l]
      ensures Seen(t.log, l.0, snap)
    {
      assert snap in s.channels[l] || (IsTarget(job, l) && snap == job.snap);
    }
  }

  lemma PassOnKeepsCovered(s: State, job: Job, l: Link)
    requires job in s.jobs && l in s.channels && l.0 in s.engines && l.1 in s.engines && Covered(s, l)
    ensures Covered(PassOn(s, job), l)
  {
    var t, v := PassOn(s, job), s.engines[l.0].version;
    if k :| k in s.jobs && IsTarget(k, l) && k.snap.version == v {
      if k == job {
        assert job.snap in t.channels[l];
      } else {
        assert k in t.jobs;
      }
    } else if x :| x in s.channels[l] && x.version == v {
      assert x in t.channels[l];
    }
  }

  lemma PassOnKeepsCoverage(s: State, job: Job)
    requires Coverage(s) && job in s.jobs
    ensures Coverage(PassOn(s, job))
  {
    var t := PassOn(s, job);
    forall l | l in t.channels && l.0 in t.engines && l.1 in t.engines
      ensures Covered(t, l)
    {
      PassOnKeepsCovered(s, job, l);
    }
  }

  lemma PassOnKeepsInv(net: Net, s: State, job: Job)
    requires Inv(net, s) && job in s.jobs
    ensures Inv(net, PassOn(s, job))
  {
    SameLogKeepsHistories(s, PassOn(s, job));
    PassOnKeepsSourced(s, job);
    PassOnKeepsCoverage(s, job);
  }

  lemma StepKeepsInv(net: Net, s: State, step: Step)
    requires Inv(net, s) && Enabled(s, step)
    ensures Inv(net, Next(s, step))
  {
    match step
    case Produce(n, items, now) =>
      RecordKeepsInv(net, s, Produced(n, NextSnapshot(s.engines[n], items, now)));
    case Deliver(l, snap) =>
      SeenBelowClock(s, l.0, snap);
      if Decide(s.engines[l.1], snap).Apply? {
        var e := Applied(l.1, snap, l.0);
        RecordKeepsInv(net, s, e);
        ConsumeKeepsInv(net, Record(s, e), l, snap);
      } else {
        ConsumeKeepsInv(net, s, l, snap);
      }
    case FanOut(job) =>
      PassOnKeepsInv(net, s, job);
  }

  lemma {:induction false} ExecKeepsInv(net: Net, limits: NodeId -> nat, steps: seq<Step>)
    requires ValidNet(net)
    ensures Exec(net, limits, steps).Some? ==> Inv(net, Exec(net, limits, steps).value)
  {
    if steps != [] && Exec(net, limits, steps).Some? {
      var front := steps[..|steps| - 1];
      ExecKeepsInv(net, limits, front);
      StepKeepsInv(net, Exec(net, limits, front).value, steps[|steps| - 1]);
    }
  }
}
