/** What the deployed star guarantees: the relay theorems carried over, and
    exact counts of the traffic that copies cause. */
module StarTheorems {
  import opened Core
  import opened ClipboardEngine
  import Relay
  import opened RelayTheorems
  import opened Sums
  import opened Star

  lemma QuietQueues(cfg: Config, s: State)
    requires Shape(cfg, s) && Quiescent(s)
    ensures Relay.Quiescent(Abs(cfg, s))
  {
  }

  lemma EnginesOfStar(cfg: Config, s: State)
    requires Shape(cfg, s)
    ensures var g := Abs(cfg, s).engines;
      && g.Keys == NetOf(cfg).nodes
      && g[cfg.hub] == s.hub && forall p :: p in cfg.spokes ==> p in s.spokes && g[p] == s.spokes[p]
  {
  }

  lemma SameNewestInStar(cfg: Config, s: State)
    requires Shape(cfg, s)
    ensures NetOf(cfg).nodes <= Abs(cfg, s).engines.Keys
    ensures SameNewest(NetOf(cfg), Abs(cfg, s)) <==>
      forall p :: p in cfg.spokes ==> p in s.spokes && Newest(s.spokes[p]) == Newest(s.hub)
  {
    EnginesOfStar(cfg, s);
    var g := Abs(cfg, s).engines;
    if SameNewest(NetOf(cfg), Abs(cfg, s)) {
      forall p | p in cfg.spokes
        ensures p in s.spokes && Newest(s.spokes[p]) == Newest(s.hub)
      {
        assert Newest(g[p]) == Newest(g[cfg.hub]);
      }
    }
  }

  /** Convergence of the deployed topology: once every queue is empty and
      nothing waits to be relayed, all clocks equal the largest version ever
      produced, and all newest entries agree exactly when that version was
      produced only once. */
  lemma StarConverges(cfg: Config, limits: NodeId -> nat, steps: seq<Step>, s: State)
    requires ValidConfig(cfg) && Exec(cfg, limits, steps) == Some(s) && Quiescent(s)
    ensures s.spokes.Keys == cfg.spokes
    ensures s.hub.version == MaxProduced(s.log)
    ensures forall p :: p in cfg.spokes ==> s.spokes[p].version == MaxProduced(s.log)
    ensures (forall p :: p in cfg.spokes ==> Newest(s.spokes[p]) == Newest(s.hub)) <==> SoleMaximum(s.log)
  {
    var relayed := StarRefinesRelay(cfg, limits, steps, s);
    var net, g := NetOf(cfg), Abs(cfg, s);
    StarIsConnected(cfg);
    ExecKeepsShape(cfg, limits, steps);
    QuietQueues(cfg, s);
    ClocksConverge(net, limits, relayed, g);
    ContentConverges(net, limits, relayed, g);
    EnginesOfStar(cfg, s);
    SameNewestInStar(cfg, s);
  }

  /** A copy made anywhere after another recorded event, by any chain of local
      steps and relayed frames, carries a strictly larger version. */
  lemma StarClockCondition(cfg: Config, limits: NodeId -> nat, steps: seq<Step>, s: State, i: nat, j: nat)
    requires ValidConfig(cfg) && Exec(cfg, limits, steps) == Some(s)
    requires i < |s.log| && j < |s.log| && s.log[j].Produced? && HappensBefore(s.log, i, j)
    ensures s.log[i].snap.version < s.log[j].snap.version
  {
    var relayed := StarRefinesRelay(cfg, limits, steps, s);
    StarIsConnected(cfg);
    LamportClockCondition(NetOf(cfg), limits, relayed, Abs(cfg, s), i, j);
  }

  /** Whatever a spoke or the hub is about to read, the origin test changes
      nothing: the version test alone would decide the same. */
  lemma StarOriginTestIsRedundant(cfg: Config, limits: NodeId -> nat, steps: seq<Step>, s: State, p: NodeId)
    requires ValidConfig(cfg) && Exec(cfg, limits, steps) == Some(s)
    ensures Enabled(s, HubRead(p)) ==>
      Decide(s.hub, s.up[p][0]) == if s.hub.version < s.up[p][0].version then Apply(s.up[p][0]) else Ignore
    ensures Enabled(s, SpokeRead(p)) ==>
      Decide(s.spokes[p], s.down[p][0]) ==
        if s.spokes[p].version < s.down[p][0].version then Apply(s.down[p][0]) else Ignore
  {
    ExecKeepsShape(cfg, limits, steps);
  }

  /** Every history in the star is exactly the last entries of what its node
      recorded, as many as its configured limit allows, but at least one. */
  lemma StarKeepsLast(cfg: Config, limits: NodeId -> nat, steps: seq<Step>, s: State)
    requires ValidConfig(cfg) && Exec(cfg, limits, steps) == Some(s)
    ensures s.spokes.Keys == cfg.spokes
    ensures KeepsLast(s.hub.history, Relay.NodeLog(s.log, cfg.hub), if limits(cfg.hub) < 1 then 1 else limits(cfg.hub))
    ensures forall p :: p in cfg.spokes ==>
      KeepsLast(s.spokes[p].history, Relay.NodeLog(s.log, p), if limits(p) < 1 then 1 else limits(p))
  {
    var relayed := StarRefinesRelay(cfg, limits, steps, s);
    StarIsConnected(cfg);
    ExecKeepsShape(cfg, limits, steps);
    EnginesOfStar(cfg, s);
    HistoryIsWindow(NetOf(cfg), limits, relayed, Abs(cfg, s), cfg.hub);
    forall p | p in cfg.spokes
      ensures KeepsLast(s.spokes[p].history, Relay.NodeLog(s.log, p), if limits(p) < 1 then 1 else limits(p))
    {
      HistoryIsWindow(NetOf(cfg), limits, relayed, Abs(cfg, s), p);
    }
  }

  // ----- concurrent copies diverge -----

  /** The hub and its only spoke copy at the same time. */
  function ConcurrentCopies(a: seq<ClipItem>, b: seq<ClipItem>): seq<Step> {
    [ SpokeCopy(1, a, 0), HubCopy(b, 0), HubRead(1),
      HubFanOut(Relay.Job(0, None, Snapshot(1, 0, 0, b))), SpokeRead(1) ]
  }

  ghost predicate Leads(s: State, step: Step, t: State) {
    Enabled(s, step) && Next(s, step) == t
  }

  /** Each step leads from one of the states to the one after it. */
  ghost predicate Along(steps: seq<Step>, states: seq<State>) {
    |states| == |steps| + 1 && forall i :: 0 <= i < |steps| ==> Leads(states[i], steps[i], states[i + 1])
  }

  lemma FiveSteps(steps: seq<Step>, states: seq<State>)
    requires |steps| == 5 && |states| == 6
    requires Leads(states[0], steps[0], states[1]) && Leads(states[1], steps[1], states[2])
    requires Leads(states[2], steps[2], states[3]) && Leads(states[3], steps[3], states[4])
    requires Leads(states[4], steps[4], states[5])
    ensures Along(steps, states)
  {
  }

  lemma {:induction false} ExecAlong(cfg: Config, limits: NodeId -> nat, steps: seq<Step>, states: seq<State>)
    requires Along(steps, states) && states[0] == Init(cfg, limits)
    ensures Exec(cfg, limits, steps) == Some(states[|steps|])
    decreases |steps|
  {
    if steps != [] {
      ExecAlong(cfg, limits, steps[..|steps| - 1], states[..|steps|]);
    }
  }

  lemma FirstTwoCopies(limits: NodeId -> nat, a: seq<ClipItem>, b: seq<ClipItem>)
      returns (s0: State, s1: State, s2: State)
    ensures s0 == Init(Config(0, {1}), limits)
    ensures Leads(s0, SpokeCopy(1, a, 0), s1) && Leads(s1, HubCopy(b, 0), s2)
    ensures s2.hub.version == 1 && s2.hub.selfId == 0 && Newest(s2.hub) == Some(Snapshot(1, 0, 0, b))
    ensures s2.spokes.Keys == {1} && s2.spokes[1].version == 1
    ensures Newest(s2.spokes[1]) == Some(Snapshot(1, 1, 0, a))
    ensures s2.up == map[1 := [Snapshot(1, 1, 0, a)]] && s2.down == map[1 := []]
    ensures s2.jobs == multiset{Relay.Job(0, None, Snapshot(1, 0, 0, b))}
  {
    s0 := Init(Config(0, {1}), limits);
    s1 := Next(s0, SpokeCopy(1, a, 0));
    s2 := Next(s1, HubCopy(b, 0));
    assert s1.up[1] == [Snapshot(1, 1, 0, a)];
    assert s2.up.Keys == s2.down.Keys == {1};
    assert s2.up == map[1 := [Snapshot(1, 1, 0, a)]];
    assert s2.down == map[1 := []];
  }

  lemma HubIgnores(s: State, x: Snapshot) returns (t: State)
    requires s.up == map[1 := [x]] && x.version <= s.hub.version
    ensures Leads(s, HubRead(1), t) && t == s.(up := map[1 := []])
  {
    t := s.(up := s.up[1 := s.up[1][1..]]);
  }

  lemma HubSends(s: State, job: Job) returns (t: State)
    requires s.down == map[1 := []] && s.jobs == multiset{job} && job.from == None
    ensures Leads(s, HubFanOut(job), t) && t == s.(jobs := multiset{}, down := map[1 := [job.snap]])
  {
    t := Next(s, HubFanOut(job));
    assert t.down[1] == [job.snap];
  }

  lemma SpokeIgnores(s: State, y: Snapshot) returns (t: State)
    requires 1 in s.spokes && s.down == map[1 := [y]] && y.version <= s.spokes[1].version
    ensures Leads(s, SpokeRead(1), t) && t == s.(down := map[1 := []])
  {
    t := s.(down := s.down[1 := s.down[1][1..]]);
  }

  /** Two different snapshots do share a version, both nodes end quiescent with
      the same clock, and each keeps its own copy until somebody copies again. */
  lemma ConcurrentCopiesDiverge(limits: NodeId -> nat, a: seq<ClipItem>, b: seq<ClipItem>) returns (s: State)
    ensures Exec(Config(0, {1}), limits, ConcurrentCopies(a, b)) == Some(s)
    ensures Quiescent(s) && 1 in s.spokes && s.hub.version == s.spokes[1].version == 1
    ensures Newest(s.hub) == Some(Snapshot(1, 0, 0, b)) && Newest(s.spokes[1]) == Some(Snapshot(1, 1, 0, a))
  {
    var s0, s1, s2 := FirstTwoCopies(limits, a, b);
    var s3 := HubIgnores(s2, Snapshot(1, 1, 0, a));
    var s4 := HubSends(s3, Relay.Job(0, None, Snapshot(1, 0, 0, b)));
    s := SpokeIgnores(s4, Snapshot(1, 0, 0, b));
    FiveSteps(ConcurrentCopies(a, b), [s0, s1, s2, s3, s4, s]);
    ExecAlong(Config(0, {1}), limits, ConcurrentCopies(a, b), [s0, s1, s2, s3, s4, s]);
  }

  // ----- but the next copy reconciles them -----

  predicate IsCopy(step: Step) {
    step.SpokeCopy? || step.HubCopy?
  }

  predicate CopyFreeRun(steps: seq<Step>) {
    forall i :: 0 <= i < |steps| ==> !IsCopy(steps[i])
  }

  lemma ReactionLogs(s: State, step: Step)
    requires Enabled(s, step) && !IsCopy(step)
    ensures var t := Next(s, step); s.log <= t.log && OnlyApplied(t.log, |s.log|)
  {
  }

  lemma LogsOn(a: seq<Event>, b: seq<Event>, c: seq<Event>)
    requires a <= b <= c && OnlyApplied(b, |a|) && OnlyApplied(c, |b|)
    ensures a <= c && OnlyApplied(c, |a|)
  {
    assert forall i :: |a| <= i < |b| ==> c[i] == b[i];
  }

  /** Without copies the star's log only grows by applied snapshots. */
  lemma {:induction false} CopyFreeRunLogs(
      cfg: Config, limits: NodeId -> nat, before: seq<Step>, after: seq<Step>, s: State, t: State)
    requires CopyFreeRun(after) && Exec(cfg, limits, before) == Some(s) && Exec(cfg, limits, before + after) == Some(t)
    ensures s.log <= t.log && OnlyApplied(t.log, |s.log|)
    decreases |after|
  {
    if after == [] {
      assert before + after == before;
    } else {
      var front := after[..|after| - 1];
      assert (before + after)[..|before + after| - 1] == before + front;
      var u := Exec(cfg, limits, before + front).value;
      CopyFreeRunLogs(cfg, limits, before, front, s, u);
      ReactionLogs(u, after[|after| - 1]);
      LogsOn(s.log, u.log, t.log);
    }
  }

  function CopyOf(s: State, step: Step): Snapshot
    requires IsCopy(step) && Enabled(s, step)
  {
    match step
    case SpokeCopy(p, items, now) => NextSnapshot(s.spokes[p], items, now)
    case HubCopy(items, now) => NextSnapshot(s.hub, items, now)
  }

  lemma SoleMaximumInStar(cfg: Config, limits: NodeId -> nat, steps: seq<Step>, s: State, i: nat)
    requires ValidConfig(cfg) && Exec(cfg, limits, steps) == Some(s) && Quiescent(s)
    requires i < |s.log| && IsMaximum(s.log, i) && SoleMaximum(s.log)
    ensures s.spokes.Keys == cfg.spokes && Newest(s.hub) == Some(s.log[i].snap)
    ensures forall p :: p in cfg.spokes ==> Newest(s.spokes[p]) == Some(s.log[i].snap)
  {
    var relayed := StarRefinesRelay(cfg, limits, steps, s);
    var net, g := NetOf(cfg), Abs(cfg, s);
    StarIsConnected(cfg);
    ExecKeepsShape(cfg, limits, steps);
    Relay.ExecKeepsInv(net, limits, relayed);
    QuietQueues(cfg, s);
    EnginesOfStar(cfg, s);
    SoleMaximumIsNewest(net, g, i, cfg.hub);
    forall p | p in cfg.spokes
      ensures Newest(s.spokes[p]) == Some(s.log[i].snap)
    {
      SoleMaximumIsNewest(net, g, i, p);
    }
  }

  /** After a quiescent state, one more copy at the hub or at any spoke, once it
      has spread, is everybody's newest entry, whatever they held before. */
  lemma NextCopyReconcilesStar(
      cfg: Config, limits: NodeId -> nat, before: seq<Step>, copy: Step, after: seq<Step>, s: State, t: State)
    requires ValidConfig(cfg) && CopyFreeRun(after)
    requires Exec(cfg, limits, before) == Some(s) && Quiescent(s) && IsCopy(copy) && Enabled(s, copy)
    requires Exec(cfg, limits, before + [copy] + after) == Some(t) && Quiescent(t)
    ensures t.spokes.Keys == cfg.spokes && Newest(t.hub) == Some(CopyOf(s, copy))
    ensures forall p :: p in cfg.spokes ==> Newest(t.spokes[p]) == Some(CopyOf(s, copy))
  {
    StarConverges(cfg, limits, before, s);
    assert (before + [copy])[..|before|] == before;
    CopyFreeRunLogs(cfg, limits, before + [copy], after, Next(s, copy), t);
    var node := if copy.SpokeCopy? then copy.spoke else s.hub.selfId;
    FreshCopyIn(s.log, Relay.Produced(node, CopyOf(s, copy)), t.log);
    SoleMaximumInStar(cfg, limits, before + [copy] + after, t, |s.log|);
  }

  // ----- traffic -----

  predicate IsDelivery(step: Step) {
    step.HubRead? || step.SpokeRead?
  }

  function Copies(steps: seq<Step>): nat {
    if steps == [] then 0 else Copies(steps[..|steps| - 1]) + if IsCopy(steps[|steps| - 1]) then 1 else 0
  }

  function Deliveries(steps: seq<Step>): nat {
    if steps == [] then 0 else Deliveries(steps[..|steps| - 1]) + if IsDelivery(steps[|steps| - 1]) then 1 else 0
  }

  ghost function Lengths(queues: map<NodeId, seq<Snapshot>>): map<NodeId, nat> {
    map p | p in queues :: |queues[p]|
  }

  ghost function Queued(queues: map<NodeId, seq<Snapshot>>): nat {
    Total(Lengths(queues))
  }

  /** How many spokes a waiting snapshot will be sent to. */
  function Fan(n: nat, job: Job): nat {
    if job.from.None? || n == 0 then n else n - 1
  }

  ghost function Fans(n: nat, jobs: multiset<Job>): nat
    decreases |jobs|
  {
    if jobs == multiset{} then 0
    else
      var job :| job in jobs;
      Fan(n, job) + Fans(n, jobs - multiset{job})
  }

  lemma TakeTwo(jobs: multiset<Job>, a: Job, b: Job)
    requires a in jobs && b in jobs && a != b
    ensures b in jobs - multiset{a} && a in jobs - multiset{b}
    ensures jobs - multiset{a} - multiset{b} == jobs - multiset{b} - multiset{a}
    ensures |jobs - multiset{a}| < |jobs| && |jobs - multiset{b}| < |jobs|
  {
  }

  lemma {:induction false} FansPick(n: nat, jobs: multiset<Job>, job: Job)
    requires job in jobs
    ensures Fans(n, jobs) == Fan(n, job) + Fans(n, jobs - multiset{job})
    decreases |jobs|
  {
    var first :| first in jobs && Fans(n, jobs) == Fan(n, first) + Fans(n, jobs - multiset{first});
    if first != job {
      TakeTwo(jobs, first, job);
      FansPick(n, jobs - multiset{first}, job);
      FansPick(n, jobs - multiset{job}, first);
    }
  }

  lemma FansAdd(n: nat, jobs: multiset<Job>, job: Job)
    ensures Fans(n, jobs + multiset{job}) == Fan(n, job) + Fans(n, jobs)
  {
    FansPick(n, jobs + multiset{job}, job);
    assert jobs + multiset{job} - multiset{job} == jobs;
  }

  /** What the counting argument reads off a state: frames queued upwards,
      frames the waiting jobs will send, waiting jobs, frames queued downwards. */
  datatype Books = Books(up: nat, fans: nat, jobs: nat, down: nat)

  ghost function BooksOf(n: nat, s: State): Books {
    Books(Queued(s.up), Fans(n, s.jobs), |s.jobs|, Queued(s.down))
  }

  function OwedBy(n: nat, b: Books): nat {
    Times(n, b.up) + b.fans + b.down
  }

  /** Frame deliveries still owed: an upward frame stands for itself and one
      frame to each other spoke. */
  ghost function Owed(cfg: Config, s: State): nat {
    OwedBy(|cfg.spokes|, BooksOf(|cfg.spokes|, s))
  }

  function ActivityBy(n: nat, b: Books): nat {
    OwedBy(n, b) + b.up + b.jobs
  }

  /** The same plus the fan-outs themselves: a bound on all remaining steps. */
  ghost function Activity(cfg: Config, s: State): nat {
    ActivityBy(|cfg.spokes|, BooksOf(|cfg.spokes|, s))
  }

  lemma Enqueue(queues: map<NodeId, seq<Snapshot>>, p: NodeId, snap: Snapshot)
    requires p in queues
    ensures Queued(queues[p := queues[p] + [snap]]) == Queued(queues) + 1
  {
    TotalUpdate(Lengths(queues), p, |queues[p]| + 1);
    assert Lengths(queues[p := queues[p] + [snap]]) == Lengths(queues)[p := |queues[p]| + 1];
  }

  lemma Dequeue(queues: map<NodeId, seq<Snapshot>>, p: NodeId)
    requires p in queues && queues[p] != []
    ensures Queued(queues[p := queues[p][1..]]) + 1 == Queued(queues)
  {
    TotalUpdate(Lengths(queues), p, |queues[p]| - 1);
    assert Lengths(queues[p := queues[p][1..]]) == Lengths(queues)[p := |queues[p]| - 1];
  }

  lemma Receivers(keys: set<NodeId>, job: Job) returns (sent: set<NodeId>)
    requires job.from.Some? ==> job.from.value in keys
    ensures forall p :: p in sent <==> p in keys && Some(p) != job.from
    ensures |sent| == Fan(|keys|, job)
  {
    sent := if job.from.Some? then keys - {job.from.value} else keys;
  }

  /** A broadcast puts exactly as many frames in flight as it was counted for. */
  lemma BroadcastCounts(queues: map<NodeId, seq<Snapshot>>, job: Job)
    requires job.from.Some? ==> job.from.value in queues
    ensures Queued(Broadcast(queues, job.snap, job.from)) == Queued(queues) + Fan(|queues.Keys|, job)
  {
    var sent := Receivers(queues.Keys, job);
    TotalRaise(Lengths(queues), Lengths(Broadcast(queues, job.snap, job.from)), sent);
  }

  /** The hub drops the next frame of this spoke. */
  predicate HubDrops(s: State, step: Step) {
    step.HubRead? && Enabled(s, step) && Decide(s.hub, s.up[step.spoke][0]).Ignore?
  }

  /** What one step adds to the counts of copies, deliveries and drops. */
  datatype Tick = Tick(copied: bool, delivered: bool, dropped: bool)

  function TickOf(s: State, step: Step): Tick {
    Tick(IsCopy(step), IsDelivery(step), HubDrops(s, step))
  }

  function Add(count: nat, yes: bool): nat {
    if yes then count + 1 else count
  }

  /** How the two measures move with one step: a copy raises them by a fixed
      amount; any other step pays off exactly the deliveries it makes, and for a
      frame the hub drops also those to the other spokes, and strictly lowers
      the activity. */
  ghost predicate Pays(cfg: Config, s: State, tick: Tick, t: State) {
    && (tick.dropped ==> tick.delivered && 1 <= |cfg.spokes|)
    && Owed(cfg, t) + (if tick.dropped then |cfg.spokes| else Add(0, tick.delivered))
       == Owed(cfg, s) + (if tick.copied then |cfg.spokes| else 0)
    && if tick.copied then Activity(cfg, t) == Activity(cfg, s) + |cfg.spokes| + 1
       else Activity(cfg, t) < Activity(cfg, s)
  }

  /** The same on the books. */
  predicate Balances(n: nat, b: Books, tick: Tick, after: Books) {
    && (tick.dropped ==> tick.delivered && 1 <= n)
    && OwedBy(n, after) + (if tick.dropped then n else Add(0, tick.delivered))
       == OwedBy(n, b) + (if tick.copied then n else 0)
    && if tick.copied then ActivityBy(n, after) == ActivityBy(n, b) + n + 1 else ActivityBy(n, after) < ActivityBy(n, b)
  }

  lemma SpokeCopyPays(cfg: Config, s: State, step: Step)
    requires Shape(cfg, s) && Enabled(s, step) && step.SpokeCopy?
    ensures Pays(cfg, s, Tick(true, false, false), Next(s, step))
  {
    Enqueue(s.up, step.spoke, NextSnapshot(s.spokes[step.spoke], step.items, step.now));
  }

  lemma NewJob(n: nat, s: State, job: Job, t: State)
    requires t.up == s.up && t.down == s.down && t.jobs == s.jobs + multiset{job}
    ensures var b := BooksOf(n, s); BooksOf(n, t) == b.(fans := b.fans + Fan(n, job), jobs := b.jobs + 1)
  {
    FansAdd(n, s.jobs, job);
    assert |s.jobs + multiset{job}| == |s.jobs| + 1;
  }

  lemma HubCopyPays(cfg: Config, s: State, step: Step)
    requires Shape(cfg, s) && step.HubCopy?
    ensures Pays(cfg, s, Tick(true, false, false), Next(s, step))
  {
    NewJob(|cfg.spokes|, s, Relay.Job(s.hub.selfId, None, NextSnapshot(s.hub, step.items, step.now)), Next(s, step));
  }

  lemma ReadBalances(n: nat, b: Books, dropped: bool, after: Books)
    requires 1 <= n && after.up + 1 == b.up && after.down == b.down
    requires if dropped then after.fans == b.fans && after.jobs == b.jobs
             else after.fans == b.fans + n - 1 && after.jobs == b.jobs + 1
    ensures Balances(n, b, Tick(false, true, dropped), after)
  {
  }

  lemma FrameRead(n: nat, s: State, p: NodeId, job: Option<Job>, t: State)
    requires 1 <= n && p in s.up && s.up[p] != [] && t.up == s.up[p := s.up[p][1..]] && t.down == s.down
    requires match job
             case None => t.jobs == s.jobs
             case Some(j) => t.jobs == s.jobs + multiset{j} && j.from.Some?
    ensures Balances(n, BooksOf(n, s), Tick(false, true, job.None?), BooksOf(n, t))
  {
    Dequeue(s.up, p);
    if job.Some? {
      NewJob(n, s, job.value, t.(up := s.up));
    }
    ReadBalances(n, BooksOf(n, s), job.None?, BooksOf(n, t));
  }

  lemma ReadUpPays(cfg: Config, s: State, p: NodeId, job: Option<Job>, t: State)
    requires p in cfg.spokes && p in s.up && s.up[p] != [] && t.up == s.up[p := s.up[p][1..]] && t.down == s.down
    requires match job
             case None => t.jobs == s.jobs
             case Some(j) => t.jobs == s.jobs + multiset{j} && j.from.Some?
    ensures Pays(cfg, s, Tick(false, true, job.None?), t)
  {
    FrameRead(|cfg.spokes|, s, p, job, t);
  }

  lemma HubReadPays(cfg: Config, s: State, p: NodeId)
    requires Shape(cfg, s) && Enabled(s, HubRead(p))
    ensures Pays(cfg, s, TickOf(s, HubRead(p)), Next(s, HubRead(p)))
  {
    var snap := s.up[p][0];
    var job := if Decide(s.hub, snap).Ignore? then None else Some(Relay.Job(s.hub.selfId, Some(p), snap));
    ReadUpPays(cfg, s, p, job, Next(s, HubRead(p)));
  }

  lemma SpokeReadPays(cfg: Config, s: State, p: NodeId)
    requires Shape(cfg, s) && Enabled(s, SpokeRead(p))
    ensures Pays(cfg, s, Tick(false, true, false), Next(s, SpokeRead(p)))
  {
    Dequeue(s.down, p);
  }

  lemma JobDone(n: nat, s: State, job: Job, t: State)
    requires job in s.jobs && (job.from.Some? ==> job.from.value in s.down) && n == |s.down.Keys|
    requires t.up == s.up && t.jobs == s.jobs - multiset{job} && t.down == Broadcast(s.down, job.snap, job.from)
    ensures var b, after, f := BooksOf(n, s), BooksOf(n, t), Fan(n, job);
      after.up == b.up && after.fans + f == b.fans && after.jobs + 1 == b.jobs && after.down == b.down + f
  {
    FansPick(n, s.jobs, job);
    BroadcastCounts(s.down, job);
  }

  lemma FanOutPays(cfg: Config, s: State, job: Job)
    requires Shape(cfg, s) && Enabled(s, HubFanOut(job))
    ensures Pays(cfg, s, Tick(false, false, false), Next(s, HubFanOut(job)))
  {
    JobDone(|cfg.spokes|, s, job, Next(s, HubFanOut(job)));
  }

  lemma StepPays(cfg: Config, s: State, step: Step)
    requires Shape(cfg, s) && Enabled(s, step)
    ensures Pays(cfg, s, TickOf(s, step), Next(s, step))
  {
    match step
    case SpokeCopy(_, _, _) => SpokeCopyPays(cfg, s, step);
    case HubCopy(_, _) => HubCopyPays(cfg, s, step);
    case HubRead(p) => HubReadPays(cfg, s, p);
    case HubFanOut(job) => FanOutPays(cfg, s, job);
    case SpokeRead(p) => SpokeReadPays(cfg, s, p);
  }

  lemma {:induction false} NothingQueued(m: map<NodeId, nat>)
    requires forall p :: p in m ==> m[p] == 0
    ensures Total(m) == 0
    decreases |m|
  {
    if p :| p in m {
      TotalPick(m, p);
      NothingQueued(m - {p});
    } else {
      assert m == map[];
    }
  }

  lemma EmptyStar(cfg: Config, limits: NodeId -> nat)
    ensures Activity(cfg, Init(cfg, limits)) == 0
  {
    var none: map<NodeId, seq<Snapshot>> := map p | p in cfg.spokes :: [];
    NothingQueued(Lengths(none));
  }

  /** Steps other than copies. */
  function Reactions(steps: seq<Step>): nat {
    if steps == [] then 0 else Reactions(steps[..|steps| - 1]) + if IsCopy(steps[|steps| - 1]) then 0 else 1
  }

  /** How many of a run's frames the hub dropped as stale. */
  function Drops(cfg: Config, limits: NodeId -> nat, steps: seq<Step>): nat {
    if steps == [] then 0
    else
      var front, step := steps[..|steps| - 1], steps[|steps| - 1];
      var prev := Exec(cfg, limits, front);
      Drops(cfg, limits, front) + if prev.Some? && HubDrops(prev.value, step) then 1 else 0
  }

  lemma CountsGrow(cfg: Config, limits: NodeId -> nat, steps: seq<Step>, prev: State)
    requires steps != [] && Exec(cfg, limits, steps[..|steps| - 1]) == Some(prev)
    ensures var front, tick := steps[..|steps| - 1], TickOf(prev, steps[|steps| - 1]);
      && Copies(steps) == Add(Copies(front), tick.copied)
      && Deliveries(steps) == Add(Deliveries(front), tick.delivered)
      && Reactions(steps) == Add(Reactions(front), !tick.copied)
      && Drops(cfg, limits, steps) == Add(Drops(cfg, limits, front), tick.dropped)
  {
  }

  lemma LastStepPays(cfg: Config, limits: NodeId -> nat, steps: seq<Step>, s: State) returns (prev: State, tick: Tick)
    requires ValidConfig(cfg) && Exec(cfg, limits, steps) == Some(s) && steps != []
    ensures Exec(cfg, limits, steps[..|steps| - 1]) == Some(prev)
    ensures tick == TickOf(prev, steps[|steps| - 1]) && Pays(cfg, prev, tick, s)
  {
    prev := Exec(cfg, limits, steps[..|steps| - 1]).value;
    ExecKeepsShape(cfg, limits, steps[..|steps| - 1]);
    tick := TickOf(prev, steps[|steps| - 1]);
    StepPays(cfg, prev, steps[|steps| - 1]);
  }

  lemma BalanceStep(n: nat, copies: nat, deliveries: nat, drops: nat, owed: nat, tick: Tick, owed': nat)
    requires deliveries + Times(n, drops) + owed == Times(n, copies) + drops
    requires owed' + (if tick.dropped then n else Add(0, tick.delivered)) == owed + if tick.copied then n else 0
    requires tick.dropped ==> tick.delivered
    ensures Add(deliveries, tick.delivered) + Times(n, Add(drops, tick.dropped)) + owed'
            == Times(n, Add(copies, tick.copied)) + Add(drops, tick.dropped)
  {
  }

  lemma ReactionStep(n: nat, copies: nat, reactions: nat, activity: nat, copied: bool, activity': nat)
    requires reactions + activity <= Times(n + 1, copies)
    requires if copied then activity' == activity + n + 1 else activity' < activity
    ensures Add(reactions, !copied) + activity' <= Times(n + 1, Add(copies, copied))
  {
  }

  /** What was owed has been delivered, dropped with a frame at the hub, or is
      still owed. */
  lemma {:induction false} NothingIsLost(cfg: Config, limits: NodeId -> nat, steps: seq<Step>, s: State)
    requires ValidConfig(cfg) && Exec(cfg, limits, steps) == Some(s)
    ensures Deliveries(steps) + Times(|cfg.spokes|, Drops(cfg, limits, steps)) + Owed(cfg, s)
            == Times(|cfg.spokes|, Copies(steps)) + Drops(cfg, limits, steps)
    ensures Drops(cfg, limits, steps) <= Times(|cfg.spokes|, Drops(cfg, limits, steps))
    decreases |steps|
  {
    if steps == [] {
      EmptyStar(cfg, limits);
    } else {
      var front := steps[..|steps| - 1];
      var prev, tick := LastStepPays(cfg, limits, steps, s);
      CountsGrow(cfg, limits, steps, prev);
      NothingIsLost(cfg, limits, front, prev);
      BalanceStep(|cfg.spokes|, Copies(front), Deliveries(front), Drops(cfg, limits, front), Owed(cfg, prev), tick,
        Owed(cfg, s));
    }
  }

  lemma {:induction false} ReactionsArePaid(cfg: Config, limits: NodeId -> nat, steps: seq<Step>, s: State)
    requires ValidConfig(cfg) && Exec(cfg, limits, steps) == Some(s)
    ensures Reactions(steps) + Activity(cfg, s) <= Times(|cfg.spokes| + 1, Copies(steps))
    decreases |steps|
  {
    if steps == [] {
      EmptyStar(cfg, limits);
    } else {
      var front := steps[..|steps| - 1];
      var prev, tick := LastStepPays(cfg, limits, steps, s);
      CountsGrow(cfg, limits, steps, prev);
      ReactionsArePaid(cfg, limits, front, prev);
      ReactionStep(|cfg.spokes|, Copies(front), Reactions(front), Activity(cfg, prev), tick.copied, Activity(cfg, s));
    }
  }

  /** A quiescent state owes nothing. */
  lemma QuietOwesNothing(cfg: Config, s: State)
    requires Quiescent(s)
    ensures Owed(cfg, s) == 0
  {
    NothingQueued(Lengths(s.up));
    NothingQueued(Lengths(s.down));
  }

  /** Conservation of traffic: with n spokes, each copy stands for n deliveries,
      and each frame the hub drops, itself delivered, takes all n off; the rest
      is still owed. */
  lemma TrafficIsConserved(cfg: Config, limits: NodeId -> nat, steps: seq<Step>, s: State)
    requires ValidConfig(cfg) && Exec(cfg, limits, steps) == Some(s)
    ensures Deliveries(steps) - Drops(cfg, limits, steps) + |cfg.spokes| * Drops(cfg, limits, steps) + Owed(cfg, s)
            == |cfg.spokes| * Copies(steps)
  {
    NothingIsLost(cfg, limits, steps, s);
    TimesIsProduct(|cfg.spokes|, Copies(steps));
    TimesIsProduct(|cfg.spokes|, Drops(cfg, limits, steps));
  }

  /** No echo storm: with n spokes, k copies cause at most k*n frame deliveries
      and k*(n+1) further protocol steps, in every interleaving. */
  lemma NoEchoStorm(cfg: Config, limits: NodeId -> nat, steps: seq<Step>, s: State)
    requires ValidConfig(cfg) && Exec(cfg, limits, steps) == Some(s)
    ensures Deliveries(steps) <= |cfg.spokes| * Copies(steps)
    ensures Reactions(steps) <= (|cfg.spokes| + 1) * Copies(steps)
  {
    NothingIsLost(cfg, limits, steps, s);
    ReactionsArePaid(cfg, limits, steps, s);
    TimesIsProduct(|cfg.spokes|, Copies(steps));
    TimesIsProduct(|cfg.spokes| + 1, Copies(steps));
  }
}
