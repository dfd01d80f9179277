/** The deployed topology: one hub and its spokes. Each session is a pair of
    first-in first-out queues; the hub relays what it accepts to every other
    spoke, a spoke never forwards. Spokes are connected from the start and no
    frame is lost. */
module Star {
  import opened Core
  import opened ClipboardEngine
  import Relay
  import opened RelayTheorems

  type Event = Relay.Event
  type Job = Relay.Job

  datatype Config = Config(hub: NodeId, spokes: set<NodeId>)

  ghost predicate ValidConfig(cfg: Config) {
    cfg.hub !in cfg.spokes
  }

  datatype State = State(
    hub: EngineState,
    spokes: map<NodeId, EngineState>,
    up: map<NodeId, seq<Snapshot>>,
    down: map<NodeId, seq<Snapshot>>,
    jobs: multiset<Job>,
    log: seq<Event>)

  datatype Step =
    | SpokeCopy(spoke: NodeId, items: seq<ClipItem>, now: nat)
    | HubCopy(items: seq<ClipItem>, now: nat)
    | HubRead(spoke: NodeId)
    | HubFanOut(job: Job)
    | SpokeRead(spoke: NodeId)

  /** One frame appended to every writer queue but the excluded one. */
  function Broadcast<T>(writers: map<NodeId, seq<T>>, frame: T, exclude: Option<NodeId>): map<NodeId, seq<T>> {
    map p | p in writers :: if Some(p) == exclude then writers[p] else writers[p] + [frame]
  }

  function Init(cfg: Config, limits: NodeId -> nat): State {
    State(
      Fresh(cfg.hub, limits(cfg.hub)),
      map p | p in cfg.spokes :: Fresh(p, limits(p)),
      map p | p in cfg.spokes :: [],
      map p | p in cfg.spokes :: [],
      multiset{},
      [])
  }

  predicate Enabled(s: State, step: Step) {
    match step
    case SpokeCopy(p, _, _) => p in s.spokes && p in s.up
    case HubCopy(_, _) => true
    case HubRead(p) => p in s.up && s.up[p] != []
    case HubFanOut(job) => job in s.jobs
    case SpokeRead(p) => p in s.spokes && p in s.down && s.down[p] != []
  }

  function Next(s: State, step: Step): State
    requires Enabled(s, step)
  {
    match step
    case SpokeCopy(p, items, now) =>
      var snap := NextSnapshot(s.spokes[p], items, now);
      s.(spokes := s.spokes[p := Accept(s.spokes[p], snap)],
         up := s.up[p := s.up[p] + [snap]],
         log := s.log + [Relay.Produced(p, snap)])
    case HubCopy(items, now) =>
      var snap := NextSnapshot(s.hub, items, now);
      var id := s.hub.selfId;
      s.(hub := Accept(s.hub, snap),
         jobs := s.jobs + multiset{Relay.Job(id, None, snap)},
         log := s.log + [Relay.Produced(id, snap)])
    case HubRead(p) =>
      var snap, rest := s.up[p][0], s.up[p := s.up[p][1..]];
      var id := s.hub.selfId;
      (match Decide(s.hub, snap)
       case Ignore => s.(up := rest)
       case Apply(accepted) =>
         s.(hub := Accept(s.hub, accepted),
            up := rest,
            jobs := s.jobs + multiset{Relay.Job(id, Some(p), accepted)},
            log := s.log + [Relay.Applied(id, accepted, p)]))
    case HubFanOut(job) =>
      s.(jobs := s.jobs - multiset{job}, down := Broadcast(s.down, job.snap, job.from))
    case SpokeRead(p) =>
      var snap, rest := s.down[p][0], s.down[p := s.down[p][1..]];
      match Decide(s.spokes[p], snap)
      case Ignore => s.(down := rest)
      case Apply(accepted) =>
        s.(spokes := s.spokes[p := Accept(s.spokes[p], accepted)],
           down := rest,
           log := s.log + [Relay.Applied(p, accepted, s.hub.selfId)])
  }

  function Exec(cfg: Config, limits: NodeId -> nat, steps: seq<Step>): Option<State> {
    if steps == [] then Some(Init(cfg, limits))
    else
      match Exec(cfg, limits, steps[..|steps| - 1])
      case None => None
      case Some(s) =>
        var step := steps[|steps| - 1];
        if Enabled(s, step) then Some(Next(s, step)) else None
  }

  predicate Quiescent(s: State) {
    && s.jobs == multiset{}
    && (forall p :: p in s.up ==> s.up[p] == [])
    && (forall p :: p in s.down ==> s.down[p] == [])
  }

  // ----- what every reachable state satisfies -----

  ghost predicate Members(cfg: Config, s: State) {
    && s.hub.selfId == cfg.hub
    && s.spokes.Keys == s.up.Keys == s.down.Keys == cfg.spokes
    && forall p :: p in s.spokes ==> s.spokes[p].selfId == p
  }

  ghost predicate JobsAtHub(cfg: Config, s: State) {
    forall job :: job in s.jobs ==> job.node == cfg.hub && (job.from.Some? ==> job.from.value in cfg.spokes)
  }

  ghost predicate Shape(cfg: Config, s: State) {
    ValidConfig(cfg) && Members(cfg, s) && JobsAtHub(cfg, s)
  }

  ghost predicate UpIsOwn(s: State) {
    forall p, i :: p in s.up && 0 <= i < |s.up[p]| ==> s.up[p][i].origin == p
  }

  ghost predicate JobsAreFirstHand(s: State) {
    forall job :: job in s.jobs ==> job.snap.origin == if job.from.Some? then job.from.value else job.node
  }

  ghost predicate DownIsForeign(s: State) {
    forall p, i :: p in s.down && 0 <= i < |s.down[p]| ==> s.down[p][i].origin != p
  }

  /** A spoke only ever sends its own copies, and is never sent them back. */
  ghost predicate NoEcho(s: State) {
    UpIsOwn(s) && JobsAreFirstHand(s) && DownIsForeign(s)
  }

  lemma StepKeepsMembers(cfg: Config, s: State, step: Step)
    requires Members(cfg, s) && Enabled(s, step)
    ensures Members(cfg, Next(s, step))
  {
    match step
    case SpokeCopy(_, _, _) =>
    case HubCopy(_, _) =>
    case HubRead(p) => assert Decide(s.hub, s.up[p][0]).Apply? ==> Decide(s.hub, s.up[p][0]).snap == s.up[p][0];
    case HubFanOut(_) =>
    case SpokeRead(p) => assert p in s.spokes;
  }

  lemma StepKeepsShape(cfg: Config, s: State, step: Step)
    requires Shape(cfg, s) && Enabled(s, step)
    ensures Shape(cfg, Next(s, step))
  {
    StepKeepsMembers(cfg, s, step);
    assert JobsAtHub(cfg, Next(s, step));
  }

  lemma StepKeepsUpIsOwn(cfg: Config, s: State, step: Step)
    requires Shape(cfg, s) && UpIsOwn(s) && Enabled(s, step)
    ensures UpIsOwn(Next(s, step))
  {
  }

  lemma StepKeepsJobsAreFirstHand(cfg: Config, s: State, step: Step)
    requires Shape(cfg, s) && UpIsOwn(s) && JobsAreFirstHand(s) && Enabled(s, step)
    ensures JobsAreFirstHand(Next(s, step))
  {
  }

  lemma StepKeepsDownIsForeign(cfg: Config, s: State, step: Step)
    requires Shape(cfg, s) && JobsAreFirstHand(s) && DownIsForeign(s) && Enabled(s, step)
    ensures DownIsForeign(Next(s, step))
  {
    if step.HubFanOut? {
      var job, t := step.job, Next(s, step);
      forall p, i | p in t.down && 0 <= i < |t.down[p]|
        ensures t.down[p][i].origin != p
      {
        assert i < |s.down[p]| ==> t.down[p][i] == s.down[p][i];
      }
    }
  }

  lemma {:induction false} ExecKeepsShape(cfg: Config, limits: NodeId -> nat, steps: seq<Step>)
    requires ValidConfig(cfg)
    ensures var r := Exec(cfg, limits, steps); r.Some? ==> Shape(cfg, r.value) && NoEcho(r.value)
  {
    if steps != [] && Exec(cfg, limits, steps).Some? {
      var front, step := steps[..|steps| - 1], steps[|steps| - 1];
      ExecKeepsShape(cfg, limits, front);
      var s := Exec(cfg, limits, front).value;
      StepKeepsShape(cfg, s, step);
      StepKeepsUpIsOwn(cfg, s, step);
      StepKeepsJobsAreFirstHand(cfg, s, step);
      StepKeepsDownIsForeign(cfg, s, step);
    }
  }

  /** In the star nobody is ever sent a snapshot of its own. */
  lemma NeverSentBack(cfg: Config, limits: NodeId -> nat, steps: seq<Step>, s: State, p: NodeId)
    requires ValidConfig(cfg) && Exec(cfg, limits, steps) == Some(s) && p in cfg.spokes
    ensures p in s.up && p in s.down
    ensures forall snap :: snap in s.down[p] ==> snap.origin != p
    ensures forall snap :: snap in s.up[p] ==> snap.origin == p != s.hub.selfId
  {
    ExecKeepsShape(cfg, limits, steps);
  }

  // ----- the star refines the relay graph -----

  function NetOf(cfg: Config): Relay.Net {
    Relay.Net(
      cfg.spokes + {cfg.hub},
      (set p | p in cfg.spokes :: (p, cfg.hub)) + (set p | p in cfg.spokes :: (cfg.hub, p)))
  }

  predicate IsLink(cfg: Config, l: Relay.Link) {
    (l.0 in cfg.spokes && l.1 == cfg.hub) || (l.0 == cfg.hub && l.1 in cfg.spokes)
  }

  /** What is queued on one link. */
  function Queue(cfg: Config, s: State, l: Relay.Link): seq<Snapshot> {
    if l.1 == cfg.hub && l.0 in s.up then s.up[l.0]
    else if l.0 == cfg.hub && l.1 in s.down then s.down[l.1]
    else []
  }

  /** Forgetting the order of the queues. */
  function Abs(cfg: Config, s: State): Relay.State {
    Relay.State(
      s.spokes[cfg.hub := s.hub],
      map l | l in NetOf(cfg).links :: multiset(Queue(cfg, s, l)),
      s.jobs,
      s.log)
  }

  lemma LinksOfStar(cfg: Config, s: State)
    ensures forall l :: l in NetOf(cfg).links <==> IsLink(cfg, l)
    ensures forall l :: l in Abs(cfg, s).channels <==> IsLink(cfg, l)
  {
  }

  lemma StarIsConnected(cfg: Config)
    requires ValidConfig(cfg)
    ensures Relay.ValidNet(NetOf(cfg)) && Connected(NetOf(cfg))
  {
    var net := NetOf(cfg);
    forall a, b | a in net.nodes && b in net.nodes
      ensures Linked(net, a, b)
    {
      var p := (if a == cfg.hub then [] else [a]) + [cfg.hub] + (if b == cfg.hub then [] else [b]);
      assert IsPath(net, p);
    }
  }

  lemma TakeHead(q: seq<Snapshot>)
    requires q != []
    ensures multiset(q[1..]) == multiset(q) - multiset{q[0]} && q[0] in multiset(q)
  {
    assert q == [q[0]] + q[1..];
  }

  /** One or two relay steps lead from `g` to `t`. */
  ghost predicate LeadsTo(g: Relay.State, steps: seq<Relay.Step>, t: Relay.State) {
    && 1 <= |steps| <= 2
    && Relay.Enabled(g, steps[0])
    && var g1 := Relay.Next(g, steps[0]);
       if |steps| == 1 then g1 == t else Relay.Enabled(g1, steps[1]) && Relay.Next(g1, steps[1]) == t
  }

  lemma RelaySnocTwice(
      net: Relay.Net, limits: NodeId -> nat, run: seq<Relay.Step>, g: Relay.State,
      one: Relay.Step, g1: Relay.State, two: Relay.Step, h: Relay.State)
    requires Relay.Exec(net, limits, run) == Some(g) && Relay.Enabled(g, one) && Relay.Next(g, one) == g1
    requires Relay.Enabled(g1, two) && Relay.Next(g1, two) == h
    ensures Relay.Exec(net, limits, run + [one, two]) == Some(h)
  {
    ExecSnoc(net, limits, run, g, one);
    ExecSnoc(net, limits, run + [one], g1, two);
    assert run + [one] + [two] == run + [one, two];
  }

  lemma MovesExtendRun(
      net: Relay.Net, limits: NodeId -> nat, run: seq<Relay.Step>, g: Relay.State,
      more: seq<Relay.Step>, t: Relay.State)
    requires Relay.Exec(net, limits, run) == Some(g) && LeadsTo(g, more, t)
    ensures Relay.Exec(net, limits, run + more) == Some(t)
  {
    if |more| == 1 {
      assert more == [more[0]];
      ExecSnoc(net, limits, run, g, more[0]);
    } else {
      assert more == [more[0], more[1]];
      RelaySnocTwice(net, limits, run, g, more[0], Relay.Next(g, more[0]), more[1], t);
    }
  }

  lemma SameMap<K, V>(a: map<K, V>, b: map<K, V>)
    requires a.Keys == b.Keys && forall k :: k in a ==> a[k] == b[k]
    ensures a == b
  {
  }

  lemma SameState(g: Relay.State, t: Relay.State)
    requires g.engines == t.engines && g.jobs == t.jobs && g.log == t.log
    requires g.channels.Keys == t.channels.Keys
    requires forall l :: l in g.channels ==> g.channels[l] == t.channels[l]
    ensures g == t
  {
  }

  lemma CopyQueue(cfg: Config, s: State, step: Step, l: Relay.Link)
    requires Shape(cfg, s) && step.SpokeCopy? && Enabled(s, step) && IsLink(cfg, l)
    ensures var snap := NextSnapshot(s.spokes[step.spoke], step.items, step.now);
      Queue(cfg, Next(s, step), l) ==
        if Relay.IsTarget(Relay.Job(step.spoke, None, snap), l) then Queue(cfg, s, l) + [snap] else Queue(cfg, s, l)
  {
  }

  lemma SameLinks(cfg: Config, s: State, t: State)
    ensures Abs(cfg, s).channels.Keys == Abs(cfg, t).channels.Keys == NetOf(cfg).links
  {
  }

  /** A spoke's copy, recorded and handed to the hub at once. */
  lemma CopyChannels(cfg: Config, s: State, step: Step)
    requires Shape(cfg, s) && step.SpokeCopy? && Enabled(s, step)
    ensures var snap := NextSnapshot(s.spokes[step.spoke], step.items, step.now);
      Relay.PassOn(Abs(cfg, s), Relay.Job(step.spoke, None, snap)).channels == Abs(cfg, Next(s, step)).channels
  {
    var snap := NextSnapshot(s.spokes[step.spoke], step.items, step.now);
    var before, after := Abs(cfg, s).channels, Abs(cfg, Next(s, step)).channels;
    var passed := Relay.PassOn(Abs(cfg, s), Relay.Job(step.spoke, None, snap)).channels;
    SameLinks(cfg, s, Next(s, step));
    forall l | l in before
      ensures passed[l] == after[l]
    {
      LinksOfStar(cfg, s);
      CopyQueue(cfg, s, step, l);
    }
    SameMap(passed, after);
  }

  lemma CopyEngines(cfg: Config, s: State, p: NodeId, e: EngineState)
    requires Shape(cfg, s) && p in s.spokes
    ensures s.spokes[p := e][cfg.hub := s.hub] == s.spokes[cfg.hub := s.hub][p := e]
  {
  }

  lemma TwoSteps(g: Relay.State, one: Relay.Step, between: Relay.State, two: Relay.Step, h: Relay.State)
    requires Relay.Enabled(g, one) && Relay.Next(g, one) == between
    requires Relay.Enabled(between, two) && Relay.Next(between, two) == h
    ensures LeadsTo(g, [one, two], h)
  {
  }

  /** Recording an event and handing it over at once leaves no job behind. */
  lemma RecordThenPassOn(g: Relay.State, e: Relay.Event, h: Relay.State)
    requires e.node in g.engines
    requires h.engines == g.engines[e.node := Accept(g.engines[e.node], e.snap)]
    requires h.channels == Relay.PassOn(g, Relay.JobOf(e)).channels && h.jobs == g.jobs && h.log == g.log + [e]
    ensures Relay.JobOf(e) in Relay.Record(g, e).jobs && Relay.PassOn(Relay.Record(g, e), Relay.JobOf(e)) == h
  {
    assert g.jobs + multiset{Relay.JobOf(e)} - multiset{Relay.JobOf(e)} == g.jobs;
  }

  lemma ProduceThenPassOn(g: Relay.State, produce: Relay.Step, e: Relay.Event, h: Relay.State)
    requires produce.Produce? && Relay.Enabled(g, produce)
    requires e == Relay.Produced(produce.node, NextSnapshot(g.engines[produce.node], produce.items, produce.now))
    requires h.engines == g.engines[e.node := Accept(g.engines[e.node], e.snap)]
    requires h.channels == Relay.PassOn(g, Relay.JobOf(e)).channels && h.jobs == g.jobs && h.log == g.log + [e]
    ensures LeadsTo(g, [produce, Relay.FanOut(Relay.JobOf(e))], h)
  {
    RecordThenPassOn(g, e, h);
    TwoSteps(g, produce, Relay.Record(g, e), Relay.FanOut(Relay.JobOf(e)), h);
  }

  lemma SimulateSpokeCopy(cfg: Config, s: State, step: Step) returns (moves: seq<Relay.Step>)
    requires Shape(cfg, s) && step.SpokeCopy? && Enabled(s, step)
    ensures LeadsTo(Abs(cfg, s), moves, Abs(cfg, Next(s, step)))
  {
    var p := step.spoke;
    var snap := NextSnapshot(s.spokes[p], step.items, step.now);
    var produce := Relay.Produce(p, step.items, step.now);
    CopyChannels(cfg, s, step);
    CopyEngines(cfg, s, p, Accept(s.spokes[p], snap));
    ProduceThenPassOn(Abs(cfg, s), produce, Relay.Produced(p, snap), Abs(cfg, Next(s, step)));
    moves := [produce, Relay.FanOut(Relay.Job(p, None, snap))];
  }

  lemma SimulateHubCopy(cfg: Config, s: State, step: Step) returns (moves: seq<Relay.Step>)
    requires Shape(cfg, s) && step.HubCopy?
    ensures LeadsTo(Abs(cfg, s), moves, Abs(cfg, Next(s, step)))
  {
    var g, after := Abs(cfg, s), Abs(cfg, Next(s, step));
    moves := [Relay.Produce(cfg.hub, step.items, step.now)];
    SameState(Relay.Next(g, moves[0]), after);
  }

  /** A link's channel is its queue with the order forgotten. */
  lemma ChannelIs(cfg: Config, s: State, l: Relay.Link)
    requires IsLink(cfg, l)
    ensures l in Abs(cfg, s).channels && Abs(cfg, s).channels[l] == multiset(Queue(cfg, s, l))
  {
    LinksOfStar(cfg, s);
  }

  lemma ReadChannelAt(cfg: Config, s: State, t: State, l: Relay.Link, taken: bool)
    requires IsLink(cfg, l) && (taken ==> Queue(cfg, s, l) != [])
    requires Queue(cfg, t, l) == if taken then Queue(cfg, s, l)[1..] else Queue(cfg, s, l)
    ensures l in Abs(cfg, s).channels && l in Abs(cfg, t).channels
    ensures var before, after := Abs(cfg, s).channels[l], Abs(cfg, t).channels[l];
      if taken then Queue(cfg, s, l)[0] in before && after == before - multiset{Queue(cfg, s, l)[0]}
      else after == before
  {
    ChannelIs(cfg, s, l);
    ChannelIs(cfg, t, l);
    if taken {
      TakeHead(Queue(cfg, s, l));
    }
  }

  /** One copy of `snap` was taken from the channel of `l`. */
  ghost predicate Took(
      before: map<Relay.Link, multiset<Snapshot>>, l: Relay.Link, snap: Snapshot,
      after: map<Relay.Link, multiset<Snapshot>>)
  {
    && after.Keys == before.Keys
    && l in before && snap in before[l] && after[l] == before[l] - multiset{snap}
    && forall k :: k in before && k != l ==> after[k] == before[k]
  }

  /** Only the head of the queue on link `read` was taken. */
  ghost predicate TookHead(cfg: Config, s: State, t: State, read: Relay.Link) {
    && IsLink(cfg, read) && Queue(cfg, s, read) != []
    && Queue(cfg, t, read) == Queue(cfg, s, read)[1..]
    && forall l :: IsLink(cfg, l) && l != read ==> Queue(cfg, t, l) == Queue(cfg, s, l)
  }

  lemma OtherChannels(cfg: Config, s: State, t: State, read: Relay.Link)
    requires TookHead(cfg, s, t, read)
    ensures forall l :: l in Abs(cfg, s).channels && l != read ==>
      l in Abs(cfg, t).channels && Abs(cfg, t).channels[l] == Abs(cfg, s).channels[l]
  {
    forall l | l in Abs(cfg, s).channels && l != read
      ensures l in Abs(cfg, t).channels && Abs(cfg, t).channels[l] == Abs(cfg, s).channels[l]
    {
      LinksOfStar(cfg, s);
      ReadChannelAt(cfg, s, t, l, false);
    }
  }

  /** Taking the head of one queue is consuming it from one channel. */
  lemma ReadChannels(cfg: Config, s: State, t: State, read: Relay.Link)
    requires TookHead(cfg, s, t, read)
    ensures Took(Abs(cfg, s).channels, read, Queue(cfg, s, read)[0], Abs(cfg, t).channels)
  {
    SameLinks(cfg, s, t);
    ReadChannelAt(cfg, s, t, read, true);
    OtherChannels(cfg, s, t, read);
  }

  /** What delivering a frame does, component by component. */
  ghost predicate Delivered(g: Relay.State, l: Relay.Link, snap: Snapshot, h: Relay.State)
    requires l in g.channels && l.1 in g.engines
  {
    var e := Relay.Applied(l.1, snap, l.0);
    && Took(g.channels, l, snap, h.channels)
    && if Decide(g.engines[l.1], snap).Ignore? then h.engines == g.engines && h.jobs == g.jobs && h.log == g.log
       else
         && h.engines == g.engines[l.1 := Accept(g.engines[l.1], snap)]
         && h.jobs == g.jobs + multiset{Relay.JobOf(e)}
         && h.log == g.log + [e]
  }

  lemma DeliverIs(g: Relay.State, l: Relay.Link, snap: Snapshot, h: Relay.State)
    requires Relay.Enabled(g, Relay.Deliver(l, snap)) && Delivered(g, l, snap, h)
    ensures Relay.Next(g, Relay.Deliver(l, snap)) == h
  {
    assert h.channels == g.channels[l := g.channels[l] - multiset{snap}];
  }

  /** Reading one queue at the hub, component by component. */
  ghost predicate HubReadTo(s: State, p: NodeId, t: State)
    requires p in s.up && s.up[p] != []
  {
    var snap := s.up[p][0];
    && t.up == s.up[p := s.up[p][1..]] && t.down == s.down && t.spokes == s.spokes
    && if Decide(s.hub, snap).Ignore? then t.hub == s.hub && t.jobs == s.jobs && t.log == s.log
       else
         && t.hub == Accept(s.hub, snap)
         && t.jobs == s.jobs + multiset{Relay.Job(s.hub.selfId, Some(p), snap)}
         && t.log == s.log + [Relay.Applied(s.hub.selfId, snap, p)]
  }

  lemma HubReadEngines(cfg: Config, s: State, t: State, snap: Snapshot)
    requires t.spokes == s.spokes && t.hub == if Decide(s.hub, snap).Ignore? then s.hub else Accept(s.hub, snap)
    ensures var g := Abs(cfg, s);
      && cfg.hub in g.engines && g.engines[cfg.hub] == s.hub
      && Abs(cfg, t).engines ==
           if Decide(s.hub, snap).Ignore? then g.engines else g.engines[cfg.hub := Accept(s.hub, snap)]
  {
  }

  lemma HubReadDelivers(cfg: Config, s: State, p: NodeId, t: State)
    requires Shape(cfg, s) && Enabled(s, HubRead(p)) && HubReadTo(s, p, t)
    ensures var g, l, snap := Abs(cfg, s), (p, cfg.hub), s.up[p][0];
      Relay.Enabled(g, Relay.Deliver(l, snap)) && Delivered(g, l, snap, Abs(cfg, t))
  {
    ReadChannels(cfg, s, t, (p, cfg.hub));
    HubReadEngines(cfg, s, t, s.up[p][0]);
  }

  lemma SimulateHubRead(cfg: Config, s: State, p: NodeId) returns (moves: seq<Relay.Step>)
    requires Shape(cfg, s) && Enabled(s, HubRead(p))
    ensures LeadsTo(Abs(cfg, s), moves, Abs(cfg, Next(s, HubRead(p))))
  {
    var t := Next(s, HubRead(p));
    HubReadDelivers(cfg, s, p, t);
    DeliverIs(Abs(cfg, s), (p, cfg.hub), s.up[p][0], Abs(cfg, t));
    moves := [Relay.Deliver((p, cfg.hub), s.up[p][0])];
  }

  lemma FanOutQueue(cfg: Config, s: State, job: Job, l: Relay.Link)
    requires Shape(cfg, s) && Enabled(s, HubFanOut(job)) && IsLink(cfg, l)
    ensures Queue(cfg, Next(s, HubFanOut(job)), l) ==
      if Relay.IsTarget(job, l) then Queue(cfg, s, l) + [job.snap] else Queue(cfg, s, l)
  {
  }

  lemma FanOutChannels(cfg: Config, s: State, job: Job)
    requires Shape(cfg, s) && Enabled(s, HubFanOut(job))
    ensures Relay.PassOn(Abs(cfg, s), job).channels == Abs(cfg, Next(s, HubFanOut(job))).channels
  {
    var before, after := Abs(cfg, s).channels, Abs(cfg, Next(s, HubFanOut(job))).channels;
    SameLinks(cfg, s, Next(s, HubFanOut(job)));
    forall l | l in before
      ensures Relay.PassOn(Abs(cfg, s), job).channels[l] == after[l]
    {
      LinksOfStar(cfg, s);
      FanOutQueue(cfg, s, job, l);
    }
    SameMap(Relay.PassOn(Abs(cfg, s), job).channels, after);
  }

  lemma SimulateFanOut(cfg: Config, s: State, job: Job) returns (moves: seq<Relay.Step>)
    requires Shape(cfg, s) && Enabled(s, HubFanOut(job))
    ensures LeadsTo(Abs(cfg, s), moves, Abs(cfg, Next(s, HubFanOut(job))))
  {
    FanOutChannels(cfg, s, job);
    SameState(Relay.PassOn(Abs(cfg, s), job), Abs(cfg, Next(s, HubFanOut(job))));
    moves := [Relay.FanOut(job)];
  }

  lemma SpokeReadEngines(cfg: Config, s: State, t: State, p: NodeId, snap: Snapshot)
    requires p in s.spokes && p != cfg.hub && t.hub == s.hub
    requires t.spokes ==
      if Decide(s.spokes[p], snap).Ignore? then s.spokes else s.spokes[p := Accept(s.spokes[p], snap)]
    ensures var g := Abs(cfg, s);
      && p in g.engines && g.engines[p] == s.spokes[p]
      && Abs(cfg, t).engines ==
           if Decide(s.spokes[p], snap).Ignore? then g.engines else g.engines[p := Accept(s.spokes[p], snap)]
  {
  }

  /** A spoke's applied snapshot has nowhere to go: its only neighbour is the
      hub it came from. */
  lemma NoTargets(cfg: Config, g: Relay.State, job: Job)
    requires ValidConfig(cfg) && g.channels.Keys == NetOf(cfg).links
    requires job.node in cfg.spokes && job.from == Some(cfg.hub)
    ensures Relay.PassOn(g, job) == g.(jobs := g.jobs - multiset{job})
  {
    assert forall l :: l in NetOf(cfg).links ==> IsLink(cfg, l) && !Relay.IsTarget(job, l);
    assert Relay.PassOn(g, job).channels == g.channels;
  }

  lemma HandOverOf(cfg: Config, jobs: multiset<Job>, between: Relay.State, job: Job, h: Relay.State)
    requires ValidConfig(cfg) && between.channels.Keys == NetOf(cfg).links
    requires job.node in cfg.spokes && job.from == Some(cfg.hub)
    requires between == h.(jobs := jobs + multiset{job}) && h.jobs == jobs
    ensures Relay.Enabled(between, Relay.FanOut(job)) && Relay.Next(between, Relay.FanOut(job)) == h
  {
    NoTargets(cfg, between, job);
    assert between.jobs - multiset{job} == jobs;
  }

  lemma SpokeAppliedTwoSteps(cfg: Config, g: Relay.State, p: NodeId, snap: Snapshot, h: Relay.State)
    requires ValidConfig(cfg) && p in cfg.spokes && h.channels.Keys == NetOf(cfg).links
    requires Relay.Enabled(g, Relay.Deliver((cfg.hub, p), snap)) && Decide(g.engines[p], snap).Apply?
    requires h.jobs == g.jobs
    requires Delivered(g, (cfg.hub, p), snap, h.(jobs := g.jobs + multiset{Relay.Job(p, Some(cfg.hub), snap)}))
    ensures LeadsTo(g, [Relay.Deliver((cfg.hub, p), snap), Relay.FanOut(Relay.Job(p, Some(cfg.hub), snap))], h)
  {
    var job := Relay.Job(p, Some(cfg.hub), snap);
    var between := h.(jobs := g.jobs + multiset{job});
    DeliverIs(g, (cfg.hub, p), snap, between);
    HandOverOf(cfg, g.jobs, between, job, h);
    TwoSteps(g, Relay.Deliver((cfg.hub, p), snap), between, Relay.FanOut(job), h);
  }

  /** The relay steps of a spoke that takes a frame and forwards it to nobody. */
  lemma SpokeReadMoves(cfg: Config, g: Relay.State, p: NodeId, snap: Snapshot, h: Relay.State)
      returns (moves: seq<Relay.Step>)
    requires ValidConfig(cfg) && p in cfg.spokes && h.channels.Keys == NetOf(cfg).links
    requires Relay.Enabled(g, Relay.Deliver((cfg.hub, p), snap)) && h.jobs == g.jobs
    requires Delivered(g, (cfg.hub, p), snap,
      if Decide(g.engines[p], snap).Ignore? then h
      else h.(jobs := g.jobs + multiset{Relay.Job(p, Some(cfg.hub), snap)}))
    ensures LeadsTo(g, moves, h)
  {
    if Decide(g.engines[p], snap).Ignore? {
      DeliverIs(g, (cfg.hub, p), snap, h);
      moves := [Relay.Deliver((cfg.hub, p), snap)];
    } else {
      SpokeAppliedTwoSteps(cfg, g, p, snap, h);
      moves := [Relay.Deliver((cfg.hub, p), snap), Relay.FanOut(Relay.Job(p, Some(cfg.hub), snap))];
    }
  }

  /** Reading one queue at a spoke, component by component. */
  ghost predicate SpokeReadTo(s: State, p: NodeId, t: State)
    requires p in s.spokes && p in s.down && s.down[p] != []
  {
    var snap := s.down[p][0];
    && t.down == s.down[p := s.down[p][1..]] && t.up == s.up && t.hub == s.hub && t.jobs == s.jobs
    && if Decide(s.spokes[p], snap).Ignore? then t.spokes == s.spokes && t.log == s.log
       else
         && t.spokes == s.spokes[p := Accept(s.spokes[p], snap)]
         && t.log == s.log + [Relay.Applied(p, snap, s.hub.selfId)]
  }

  lemma SpokeReadDelivers(cfg: Config, s: State, p: NodeId, t: State)
    requires Shape(cfg, s) && Enabled(s, SpokeRead(p)) && SpokeReadTo(s, p, t)
    ensures var g, l, snap := Abs(cfg, s), (cfg.hub, p), s.down[p][0];
      && Relay.Enabled(g, Relay.Deliver(l, snap)) && g.engines[p] == s.spokes[p]
      && Delivered(g, l, snap,
           if Decide(s.spokes[p], snap).Ignore? then Abs(cfg, t)
           else Abs(cfg, t).(jobs := s.jobs + multiset{Relay.Job(p, Some(cfg.hub), snap)}))
  {
    ReadChannels(cfg, s, t, (cfg.hub, p));
    SpokeReadEngines(cfg, s, t, p, s.down[p][0]);
  }

  lemma SimulateSpokeReadTo(cfg: Config, s: State, p: NodeId, t: State) returns (moves: seq<Relay.Step>)
    requires Shape(cfg, s) && Enabled(s, SpokeRead(p)) && SpokeReadTo(s, p, t)
    ensures LeadsTo(Abs(cfg, s), moves, Abs(cfg, t))
  {
    SpokeReadDelivers(cfg, s, p, t);
    moves := SpokeReadMoves(cfg, Abs(cfg, s), p, s.down[p][0], Abs(cfg, t));
  }

  lemma SimulateSpokeRead(cfg: Config, s: State, p: NodeId) returns (moves: seq<Relay.Step>)
    requires Shape(cfg, s) && Enabled(s, SpokeRead(p))
    ensures LeadsTo(Abs(cfg, s), moves, Abs(cfg, Next(s, SpokeRead(p))))
  {
    moves := SimulateSpokeReadTo(cfg, s, p, Next(s, SpokeRead(p)));
  }

  lemma Simulate(cfg: Config, s: State, step: Step) returns (moves: seq<Relay.Step>)
    requires Shape(cfg, s) && Enabled(s, step)
    ensures LeadsTo(Abs(cfg, s), moves, Abs(cfg, Next(s, step)))
  {
    match step
    case SpokeCopy(_, _, _) => moves := SimulateSpokeCopy(cfg, s, step);
    case HubCopy(_, _) => moves := SimulateHubCopy(cfg, s, step);
    case HubRead(p) => moves := SimulateHubRead(cfg, s, p);
    case HubFanOut(job) => moves := SimulateFanOut(cfg, s, job);
    case SpokeRead(p) => moves := SimulateSpokeRead(cfg, s, p);
  }

  lemma InitIsInit(cfg: Config, limits: NodeId -> nat)
    ensures Relay.Init(NetOf(cfg), limits) == Abs(cfg, Init(cfg, limits))
  {
    SameState(Relay.Init(NetOf(cfg), limits), Abs(cfg, Init(cfg, limits)));
  }

  /** Every run of the star is a run of the relay graph with the same log. */
  lemma {:induction false} StarRefinesRelay(cfg: Config, limits: NodeId -> nat, steps: seq<Step>, s: State)
      returns (relayed: seq<Relay.Step>)
    requires ValidConfig(cfg) && Exec(cfg, limits, steps) == Some(s)
    ensures Relay.Exec(NetOf(cfg), limits, relayed) == Some(Abs(cfg, s))
    decreases |steps|
  {
    if steps == [] {
      relayed := [];
      InitIsInit(cfg, limits);
    } else {
      var front, step := steps[..|steps| - 1], steps[|steps| - 1];
      var prev := Exec(cfg, limits, front).value;
      ExecKeepsShape(cfg, limits, front);
      relayed := StarRefinesRelay(cfg, limits, front, prev);
      var moves := Simulate(cfg, prev, step);
      MovesExtendRun(NetOf(cfg), limits, relayed, Abs(cfg, prev), moves, Abs(cfg, s));
      relayed := relayed + moves;
    }
  }
}
