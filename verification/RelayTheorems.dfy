/** What the relay protocol guarantees on every finite graph. */
module RelayTheorems {
  import opened Core
  import opened ClipboardEngine
  import opened Relay
  import opened Sums

  // ----- convergence -----

  /** The largest version anybody ever produced. */
  function MaxProduced(log: seq<Event>): nat {
    if log == [] then 0
    else
      var front, e := MaxProduced(log[..|log| - 1]), log[|log| - 1];
      if e.Produced? && front < e.snap.version then e.snap.version else front
  }

  lemma {:induction false} MaxProducedIsMax(log: seq<Event>)
    ensures forall i :: 0 <= i < |log| && log[i].Produced? ==> log[i].snap.version <= MaxProduced(log)
    ensures 0 < MaxProduced(log) ==>
              exists i :: 0 <= i < |log| && log[i].Produced? && log[i].snap.version == MaxProduced(log)
  {
    if log != [] {
      var front := log[..|log| - 1];
      MaxProducedIsMax(front);
      if MaxProduced(log) == MaxProduced(front) && 0 < MaxProduced(front) {
        var i :| 0 <= i < |front| && front[i].Produced? && front[i].snap.version == MaxProduced(front);
        assert log[i] == front[i];
      } else {
        assert log[|log| - 1] == log[|log| - 1];
      }
    }
  }

  ghost predicate IsPath(net: Net, p: seq<NodeId>) {
    && p != []
    && (forall i :: 0 <= i < |p| ==> p[i] in net.nodes)
    && (forall i :: 0 <= i < |p| - 1 ==> (p[i], p[i + 1]) in net.links)
  }

  ghost predicate Linked(net: Net, a: NodeId, b: NodeId) {
    exists p :: IsPath(net, p) && p[0] == a && p[|p| - 1] == b
  }

  ghost predicate Connected(net: Net) {
    forall a, b :: a in net.nodes && b in net.nodes ==> Linked(net, a, b)
  }

  /** Once nothing is queued, neighbours have the same clock. */
  lemma NeighboursAgree(net: Net, s: State, a: NodeId, b: NodeId)
    requires Inv(net, s) && Quiescent(s)
    requires (a, b) in net.links
    ensures s.engines[a].version == s.engines[b].version
  {
    assert Covered(s, (a, b)) && Covered(s, (b, a));
  }

  lemma {:induction false} PathAgrees(net: Net, s: State, p: seq<NodeId>)
    requires Inv(net, s) && Quiescent(s)
    requires IsPath(net, p)
    ensures s.engines[p[0]].version == s.engines[p[|p| - 1]].version
  {
    if 1 < |p| {
      NeighboursAgree(net, s, p[0], p[1]);
      PathAgrees(net, s, p[1..]);
    }
  }

  /** What the newest history entry of a node is: something it recorded, whose
      version is its clock. */
  lemma NewestWasRecorded(net: Net, s: State, n: NodeId)
    requires Inv(net, s) && n in net.nodes
    ensures Newest(s.engines[n]).None? <==> s.engines[n].version == 0
    ensures match Newest(s.engines[n])
            case None => forall i :: 0 <= i < |s.log| ==> s.log[i].node != n
            case Some(snap) => snap.version == s.engines[n].version && Seen(s.log, n, snap) && WasProduced(s.log, snap)
  {
    assert HistoryAt(s, n);
    NewestIsLast(s.engines[n], NodeLog(s.log, n));
    LastOfNodeLog(s.log, n);
    if Newest(s.engines[n]).Some? {
      SeenIsProduced(s.log, n, Newest(s.engines[n]).value);
    }
  }

  lemma ClockBelowMax(net: Net, s: State, n: NodeId)
    requires Inv(net, s) && n in net.nodes
    ensures s.engines[n].version <= MaxProduced(s.log)
  {
    NewestWasRecorded(net, s, n);
    MaxProducedIsMax(s.log);
    if Newest(s.engines[n]).Some? {
      var snap := Newest(s.engines[n]).value;
      var i :| 0 <= i < |s.log| && s.log[i] == Produced(snap.origin, snap);
    }
  }

  lemma QuiescentClocks(net: Net, s: State, n: NodeId)
    requires Inv(net, s) && Quiescent(s) && Connected(net) && n in net.nodes
    ensures s.engines[n].version == MaxProduced(s.log)
  {
    ClockBelowMax(net, s, n);
    MaxProducedIsMax(s.log);
    if 0 < MaxProduced(s.log) {
      var i :| 0 <= i < |s.log| && s.log[i].Produced? && s.log[i].snap.version == MaxProduced(s.log);
      assert Linked(net, n, s.log[i].node);
      var p :| IsPath(net, p) && p[0] == n && p[|p| - 1] == s.log[i].node;
      PathAgrees(net, s, p);
    }
  }

  /** Clock convergence: whenever a run on a connected graph has nothing left
      to deliver or to forward, every clock equals the largest version ever
      produced. */
  lemma ClocksConverge(net: Net, limits: NodeId -> nat, steps: seq<Step>, s: State)
    requires ValidNet(net) && Connected(net)
    requires Exec(net, limits, steps) == Some(s) && Quiescent(s)
    ensures s.engines.Keys == net.nodes
    ensures forall n :: n in net.nodes ==> s.engines[n].version == MaxProduced(s.log)
  {
    ExecKeepsInv(net, limits, steps);
    forall n | n in net.nodes
      ensures s.engines[n].version == MaxProduced(s.log)
    {
      QuiescentClocks(net, s, n);
    }
  }

  predicate IsMaximum(log: seq<Event>, i: nat)
    requires i < |log|
  {
    log[i].Produced? && log[i].snap.version == MaxProduced(log)
  }

  /** The same without connectedness: neighbours agree once nothing is queued. */
  lemma NeighbourClocksConverge(net: Net, limits: NodeId -> nat, steps: seq<Step>, s: State, a: NodeId, b: NodeId)
    requires ValidNet(net) && (a, b) in net.links
    requires Exec(net, limits, steps) == Some(s) && Quiescent(s)
    ensures a in s.engines && b in s.engines && s.engines[a].version == s.engines[b].version
  {
    ExecKeepsInv(net, limits, steps);
    NeighboursAgree(net, s, a, b);
  }

  /** At most one copy carries the largest produced version. */
  ghost predicate SoleMaximum(log: seq<Event>) {
    forall i, j :: (0 <= i < |log| && IsMaximum(log, i)) && (0 <= j < |log| && IsMaximum(log, j)) ==> i == j
  }

  ghost predicate SameNewest(net: Net, s: State)
    requires net.nodes <= s.engines.Keys
  {
    forall a, b :: a in net.nodes && b in net.nodes ==> Newest(s.engines[a]) == Newest(s.engines[b])
  }

  /** A producer of the largest version keeps its own copy as newest. */
  lemma MaximumStaysNewest(net: Net, s: State, i: nat)
    requires Inv(net, s) && i < |s.log|
    requires IsMaximum(s.log, i)
    ensures s.log[i].node in net.nodes && Newest(s.engines[s.log[i].node]) == Some(s.log[i].snap)
  {
    var n := s.log[i].node;
    ClockBelowMax(net, s, n);
    NewestWasRecorded(net, s, n);
    var snap := Newest(s.engines[n]).value;
    var j :| 0 <= j < |s.log| && s.log[j].node == n && s.log[j].snap == snap;
    assert i == j;
  }

  lemma SoleMaximumEverywhere(net: Net, s: State, a: NodeId, b: NodeId)
    requires Inv(net, s) && Quiescent(s) && Connected(net) && SoleMaximum(s.log)
    requires a in net.nodes && b in net.nodes
    ensures Newest(s.engines[a]) == Newest(s.engines[b])
  {
    QuiescentClocks(net, s, a);
    QuiescentClocks(net, s, b);
    NewestWasRecorded(net, s, a);
    NewestWasRecorded(net, s, b);
    if Newest(s.engines[a]).Some? {
      var x, y := Newest(s.engines[a]).value, Newest(s.engines[b]).value;
      var i :| 0 <= i < |s.log| && s.log[i] == Produced(x.origin, x);
      var j :| 0 <= j < |s.log| && s.log[j] == Produced(y.origin, y);
      assert IsMaximum(s.log, i) && IsMaximum(s.log, j);
    }
  }

  /** Content convergence, exactly: all newest entries agree at quiescence if
      and only if the largest version was produced once. Two copies made
      concurrently with that version are only superseded by a further copy. */
  lemma ContentConverges(net: Net, limits: NodeId -> nat, steps: seq<Step>, s: State)
    requires ValidNet(net) && Connected(net)
    requires Exec(net, limits, steps) == Some(s) && Quiescent(s)
    ensures net.nodes <= s.engines.Keys
    ensures SameNewest(net, s) <==> SoleMaximum(s.log)
  {
    ExecKeepsInv(net, limits, steps);
    if SoleMaximum(s.log) {
      forall a, b | a in net.nodes && b in net.nodes
        ensures Newest(s.engines[a]) == Newest(s.engines[b])
      {
        SoleMaximumEverywhere(net, s, a, b);
      }
    } else {
      var i, j :| (0 <= i < |s.log| && IsMaximum(s.log, i)) && (0 <= j < |s.log| && IsMaximum(s.log, j)) && i != j;
      MaximumStaysNewest(net, s, i);
      MaximumStaysNewest(net, s, j);
      assert s.log[i].node != s.log[j].node;
    }
  }

  // ----- termination -----

  ghost function Deficits(s: State): map<NodeId, nat> {
    map n | n in s.engines ::
      if s.engines[n].version <= MaxProduced(s.log) then MaxProduced(s.log) - s.engines[n].version else 0
  }

  ghost function Loads(s: State): map<Link, nat> {
    map l | l in s.channels :: |s.channels[l]|
  }

  /** How far the clocks can still move, and how much is still to forward. */
  ghost function Ahead(s: State): nat {
    Total(Deficits(s)) + |s.jobs|
  }

  ghost function InFlight(s: State): nat {
    Total(Loads(s))
  }

  function Weight(links: nat, ahead: nat, inFlight: nat): nat {
    Times(links + 1, ahead) + inFlight
  }

  /** Both weighed into one number, so that a step ahead pays for a fan-out. */
  ghost function Work(s: State): nat {
    Weight(|s.channels|, Ahead(s), InFlight(s))
  }

  lemma WeightDrops(links: nat, ahead: nat, inFlight: nat, ahead': nat, inFlight': nat)
    requires (ahead' <= ahead && inFlight' < inFlight) || (ahead' < ahead && inFlight' <= inFlight + links)
    ensures Weight(links, ahead', inFlight') < Weight(links, ahead, inFlight)
  {
    TimesGrows(links + 1, ahead', ahead);
  }

  lemma SameCount<K, V>(a: map<K, V>, b: map<K, V>)
    requires a.Keys == b.Keys
    ensures |a| == |b|
  {
    assert |a| == |a.Keys| && |b| == |b.Keys|;
  }

  lemma WorkDrops(s: State, t: State)
    requires t.channels.Keys == s.channels.Keys
    requires (Ahead(t) <= Ahead(s) && InFlight(t) < InFlight(s))
      || (Ahead(t) < Ahead(s) && InFlight(t) <= InFlight(s) + |s.channels|)
    ensures Work(t) < Work(s)
  {
    SameCount(t.channels, s.channels);
    WeightDrops(|s.channels|, Ahead(s), InFlight(s), Ahead(t), InFlight(t));
  }

  lemma LoadsAfterConsume(s: State, l: Link, snap: Snapshot)
    requires l in s.channels && snap in s.channels[l]
    ensures Loads(Consume(s, l, snap)) == Loads(s)[l := |s.channels[l]| - 1]
  {
    assert |s.channels[l] - multiset{snap}| == |s.channels[l]| - 1;
  }

  lemma ConsumeLowersLoads(s: State, l: Link, snap: Snapshot)
    requires l in s.channels && snap in s.channels[l]
    ensures Total(Loads(Consume(s, l, snap))) < Total(Loads(s))
  {
    TotalUpdate(Loads(s), l, |s.channels[l]| - 1);
    LoadsAfterConsume(s, l, snap);
  }

  lemma ApplyLowersDeficits(s: State, e: Event)
    requires e.Applied? && e.node in s.engines
    requires s.engines[e.node].version < e.snap.version <= MaxProduced(s.log)
    ensures Total(Deficits(Record(s, e))) < Total(Deficits(s))
  {
    var t := Record(s, e);
    assert t.log[..|s.log|] == s.log;
    TotalUpdate(Deficits(s), e.node, Deficits(t)[e.node]);
    assert Deficits(t) == Deficits(s)[e.node := Deficits(t)[e.node]];
  }

  lemma IgnoreLowersWork(s: State, l: Link, snap: Snapshot)
    requires l in s.channels && snap in s.channels[l]
    ensures Work(Consume(s, l, snap)) < Work(s)
  {
    var t := Consume(s, l, snap);
    ConsumeLowersLoads(s, l, snap);
    assert Deficits(t) == Deficits(s);
    assert t.channels.Keys == s.channels.Keys;
    WorkDrops(s, t);
  }

  lemma ApplyLowersWork(s: State, l: Link, snap: Snapshot)
    requires l in s.channels && snap in s.channels[l] && l.1 in s.engines
    requires s.engines[l.1].version < snap.version <= MaxProduced(s.log)
    ensures Work(Consume(Record(s, Applied(l.1, snap, l.0)), l, snap)) < Work(s)
  {
    var r := Record(s, Applied(l.1, snap, l.0));
    var t := Consume(r, l, snap);
    ConsumeLowersLoads(s, l, snap);
    ApplyLowersDeficits(s, Applied(l.1, snap, l.0));
    assert Deficits(t) == Deficits(r);
    assert Loads(t) == Loads(Consume(s, l, snap));
    assert |r.jobs| == |s.jobs| + 1;
    assert t.channels.Keys == s.channels.Keys;
    WorkDrops(s, t);
  }

  lemma DeliverLowersWork(net: Net, s: State, l: Link, snap: Snapshot)
    requires Inv(net, s) && Enabled(s, Deliver(l, snap))
    ensures Work(Next(s, Deliver(l, snap))) < Work(s)
  {
    if Decide(s.engines[l.1], snap).Apply? {
      SeenBelowClock(s, l.0, snap);
      ClockBelowMax(net, s, l.0);
      ApplyLowersWork(s, l, snap);
    } else {
      IgnoreLowersWork(s, l, snap);
    }
  }

  lemma {:induction false} SubsetSize<T>(a: set<T>, b: set<T>)
    requires a <= b
    ensures |a| <= |b|
    decreases a
  {
    if x :| x in a {
      SubsetSize(a - {x}, b - {x});
    }
  }

  lemma PassOnRaisesLoads(s: State, job: Job)
    ensures Total(Loads(PassOn(s, job))) <= Total(Loads(s)) + |s.channels|
  {
    var raised := set l | l in s.channels && IsTarget(job, l);
    TotalRaise(Loads(s), Loads(PassOn(s, job)), raised);
    SubsetSize(raised, s.channels.Keys);
    assert |s.channels.Keys| == |s.channels|;
  }

  lemma PassOnLowersWork(s: State, job: Job)
    requires job in s.jobs
    ensures Work(PassOn(s, job)) < Work(s)
  {
    var t := PassOn(s, job);
    PassOnRaisesLoads(s, job);
    assert Deficits(t) == Deficits(s);
    assert |t.jobs| == |s.jobs| - 1;
    WorkDrops(s, t);
  }

  predicate CopyFree(steps: seq<Step>) {
    forall i :: 0 <= i < |steps| ==> !steps[i].Produce?
  }

  /** Termination: between two copies the protocol can take only so many
      steps, whatever the order; the bound is read off the state. */
  lemma {:induction false} DeliveryTerminates(
      net: Net, limits: NodeId -> nat, before: seq<Step>, after: seq<Step>)
    requires ValidNet(net) && CopyFree(after)
    requires Exec(net, limits, before + after).Some?
    ensures Exec(net, limits, before).Some?
    ensures Work(Exec(net, limits, before + after).value) + |after| <= Work(Exec(net, limits, before).value)
  {
    if after == [] {
      assert before + after == before;
    } else {
      var front, last := after[..|after| - 1], after[|after| - 1];
      assert (before + after)[..|before + after| - 1] == before + front;
      DeliveryTerminates(net, limits, before, front);
      ExecKeepsInv(net, limits, before + front);
      var s := Exec(net, limits, before + front).value;
      match last
      case Deliver(l, snap) => DeliverLowersWork(net, s, l, snap);
      case FanOut(job) => PassOnLowersWork(s, job);
    }
  }

  /** The protocol never gets stuck: where nothing but new copies can happen,
      nothing is queued. With the bound above, every run without new copies ends
      in a quiescent state. */
  lemma StuckIsQuiescent(net: Net, limits: NodeId -> nat, steps: seq<Step>, s: State)
    requires ValidNet(net) && Exec(net, limits, steps) == Some(s)
    ensures (forall step: Step :: Enabled(s, step) ==> step.Produce?) <==> Quiescent(s)
  {
    ExecKeepsInv(net, limits, steps);
    if forall step: Step :: Enabled(s, step) ==> step.Produce? {
      if job :| job in s.jobs {
        assert Enabled(s, FanOut(job));
      }
      forall l | l in s.channels
        ensures s.channels[l] == multiset{}
      {
        if snap :| snap in s.channels[l] {
          assert Enabled(s, Deliver(l, snap));
        }
      }
    }
  }

  /** Without copies the largest produced version stays what it is. */
  lemma {:induction false} SameMaximum(net: Net, limits: NodeId -> nat, before: seq<Step>, after: seq<Step>)
    requires CopyFree(after) && Exec(net, limits, before + after).Some?
    ensures Exec(net, limits, before).Some?
    ensures MaxProduced(Exec(net, limits, before + after).value.log) == MaxProduced(Exec(net, limits, before).value.log)
  {
    if after == [] {
      assert before + after == before;
    } else {
      var front := after[..|after| - 1];
      assert (before + after)[..|before + after| - 1] == before + front;
      SameMaximum(net, limits, before, front);
      var log := Exec(net, limits, before + front).value.log;
      assert forall e: Event :: (log + [e])[..|log|] == log;
    }
  }

  /** From any reachable state, however deliveries and hand-overs are scheduled:
      there are at most as many as the work left, and when no more are possible
      every clock stands at the largest version produced so far. */
  lemma MaximalContinuationConverges(
      net: Net, limits: NodeId -> nat, before: seq<Step>, after: seq<Step>, s: State, t: State)
    requires ValidNet(net) && Connected(net) && CopyFree(after)
    requires Exec(net, limits, before) == Some(s) && Exec(net, limits, before + after) == Some(t)
    ensures |after| <= Work(s)
    ensures t.engines.Keys == net.nodes
    ensures (forall step: Step :: Enabled(t, step) ==> step.Produce?) ==>
      forall n :: n in net.nodes ==> t.engines[n].version == MaxProduced(s.log)
  {
    DeliveryTerminates(net, limits, before, after);
    SameMaximum(net, limits, before, after);
    StuckIsQuiescent(net, limits, before + after, t);
    ExecKeepsInv(net, limits, before + after);
    if forall step: Step :: Enabled(t, step) ==> step.Produce? {
      ClocksConverge(net, limits, before + after, t);
    }
  }

  lemma ExecSnoc(net: Net, limits: NodeId -> nat, steps: seq<Step>, s: State, step: Step)
    requires Exec(net, limits, steps) == Some(s) && Enabled(s, step)
    ensures Exec(net, limits, steps + [step]) == Some(Next(s, step))
  {
    assert (steps + [step])[..|steps|] == steps;
  }

  /** Where something is queued, some delivery or hand-over is possible. */
  lemma PendingStep(net: Net, s: State) returns (step: Step)
    requires Inv(net, s) && !Quiescent(s)
    ensures Enabled(s, step) && !step.Produce? && Work(Next(s, step)) < Work(s)
  {
    if job :| job in s.jobs {
      step := FanOut(job);
      PassOnLowersWork(s, job);
    } else {
      assert s.jobs == multiset{};
      var l :| l in s.channels && s.channels[l] != multiset{};
      var snap :| snap in s.channels[l];
      step := Deliver(l, snap);
      DeliverLowersWork(net, s, l, snap);
    }
  }

  lemma StepThen(step: Step, before: seq<Step>, rest: seq<Step>)
    ensures before + [step] + rest == before + ([step] + rest)
    ensures CopyFree(rest) && !step.Produce? ==> CopyFree([step] + rest)
  {
  }

  /** And a continuation that leaves nothing queued always exists. */
  lemma {:induction false} SomeContinuationSettles(net: Net, limits: NodeId -> nat, before: seq<Step>, s: State)
      returns (after: seq<Step>, t: State)
    requires ValidNet(net) && Exec(net, limits, before) == Some(s)
    ensures CopyFree(after) && Exec(net, limits, before + after) == Some(t) && Quiescent(t)
    decreases Work(s)
  {
    if Quiescent(s) {
      after, t := [], s;
      assert before + [] == before;
    } else {
      ExecKeepsInv(net, limits, before);
      var step := PendingStep(net, s);
      ExecSnoc(net, limits, before, s, step);
      var rest;
      rest, t := SomeContinuationSettles(net, limits, before + [step], Next(s, step));
      StepThen(step, before, rest);
      after := [step] + rest;
    }
  }

  // ----- one more copy ends every divergence -----

  ghost predicate OnlyApplied(log: seq<Event>, from: nat) {
    forall i :: from <= i < |log| ==> log[i].Applied?
  }

  /** Without copies the log only grows by applied snapshots. */
  lemma {:induction false} CopyFreeLog(
      net: Net, limits: NodeId -> nat, before: seq<Step>, after: seq<Step>, s: State, t: State)
    requires CopyFree(after) && Exec(net, limits, before) == Some(s) && Exec(net, limits, before + after) == Some(t)
    ensures s.log <= t.log && OnlyApplied(t.log, |s.log|)
    decreases |after|
  {
    if after == [] {
      assert before + after == before;
    } else {
      var front := after[..|after| - 1];
      assert (before + after)[..|before + after| - 1] == before + front;
      CopyFreeLog(net, limits, before, front, s, Exec(net, limits, before + front).value);
    }
  }

  lemma {:induction false} AppliedKeepMaximum(log: seq<Event>, from: nat)
    requires from <= |log| && OnlyApplied(log, from)
    ensures MaxProduced(log) == MaxProduced(log[..from])
  {
    if from < |log| {
      var front := log[..|log| - 1];
      AppliedKeepMaximum(front, from);
      assert front[..from] == log[..from];
    } else {
      assert log[..from] == log;
    }
  }

  /** A copy above everything before it, followed by no other copy, is the sole
      maximum. */
  lemma FreshCopyIsSoleMaximum(log: seq<Event>, i: nat)
    requires i < |log| && log[i].Produced? && OnlyApplied(log, i + 1)
    requires MaxProduced(log[..i]) < log[i].snap.version
    ensures IsMaximum(log, i) && SoleMaximum(log)
  {
    AppliedKeepMaximum(log, i + 1);
    assert log[..i + 1][..i] == log[..i];
    MaxProducedIsMax(log[..i]);
    forall k | 0 <= k < i && log[k].Produced?
      ensures log[k].snap.version < log[i].snap.version
    {
      assert log[..i][k] == log[k];
    }
  }

  lemma FreshCopyIn(earlier: seq<Event>, e: Event, log: seq<Event>)
    requires e.Produced? && MaxProduced(earlier) < e.snap.version
    requires earlier + [e] <= log && OnlyApplied(log, |earlier| + 1)
    ensures log[|earlier|] == e && IsMaximum(log, |earlier|) && SoleMaximum(log)
  {
    assert log[..|earlier|] == earlier && log[|earlier|] == e;
    FreshCopyIsSoleMaximum(log, |earlier|);
  }

  /** Where a sole maximum has spread, it is everybody's newest entry. */
  lemma SoleMaximumIsNewest(net: Net, s: State, i: nat, n: NodeId)
    requires Inv(net, s) && Quiescent(s) && Connected(net) && n in net.nodes
    requires i < |s.log| && IsMaximum(s.log, i) && SoleMaximum(s.log)
    ensures Newest(s.engines[n]) == Some(s.log[i].snap)
  {
    MaximumStaysNewest(net, s, i);
    SoleMaximumEverywhere(net, s, n, s.log[i].node);
  }

  /** What a divergence ends with: after a quiescent state of a connected graph,
      one more copy anywhere, once it has spread, is the newest entry of every
      node, whatever they held before. */
  lemma NextCopyReconciles(
      net: Net, limits: NodeId -> nat, before: seq<Step>, copy: Step, after: seq<Step>, s: State, t: State)
    requires ValidNet(net) && Connected(net) && CopyFree(after)
    requires Exec(net, limits, before) == Some(s) && Quiescent(s) && copy.Produce? && Enabled(s, copy)
    requires Exec(net, limits, before + [copy] + after) == Some(t) && Quiescent(t)
    ensures t.engines.Keys == net.nodes
    ensures forall n :: n in net.nodes ==>
      Newest(t.engines[n]) == Some(NextSnapshot(s.engines[copy.node], copy.items, copy.now))
  {
    var i, snap := |s.log|, NextSnapshot(s.engines[copy.node], copy.items, copy.now);
    ExecKeepsInv(net, limits, before);
    ExecKeepsInv(net, limits, before + [copy] + after);
    QuiescentClocks(net, s, copy.node);
    ExecSnoc(net, limits, before, s, copy);
    CopyFreeLog(net, limits, before + [copy], after, Next(s, copy), t);
    FreshCopyIn(s.log, Produced(copy.node, snap), t.log);
    forall n | n in net.nodes
      ensures Newest(t.engines[n]) == Some(snap)
    {
      SoleMaximumIsNewest(net, t, i, n);
    }
  }

  /** No node records the same snapshot twice. */
  lemma RecordedOnce(net: Net, limits: NodeId -> nat, steps: seq<Step>, s: State, i: nat, j: nat)
    requires ValidNet(net) && Exec(net, limits, steps) == Some(s)
    requires i < j < |s.log| && s.log[i].node == s.log[j].node
    ensures s.log[i].snap != s.log[j].snap
  {
    ExecKeepsInv(net, limits, steps);
  }

  // ----- causality -----

  /** Event `i` is an immediate cause of event `j`: it came earlier at the same
      node, or it is where the sender of the applied snapshot recorded it. */
  predicate Causes(log: seq<Event>, i: nat, j: nat)
    requires i < |log| && j < |log|
  {
    && i < j
    && (log[i].node == log[j].node || (log[j].Applied? && log[j].from == log[i].node && log[j].snap == log[i].snap))
  }

  ghost predicate CausalChain(log: seq<Event>, c: seq<nat>) {
    && c != []
    && (forall k :: 0 <= k < |c| ==> c[k] < |log|)
    && (forall k :: 0 <= k < |c| - 1 ==> Causes(log, c[k], c[k + 1]))
  }

  ghost predicate HappensBefore(log: seq<Event>, i: nat, j: nat) {
    exists c :: CausalChain(log, c) && 2 <= |c| && c[0] == i && c[|c| - 1] == j
  }

  lemma {:induction false} ChainNeverFalls(log: seq<Event>, c: seq<nat>)
    requires Ordered(log) && CausalChain(log, c)
    ensures log[c[0]].snap.version <= log[c[|c| - 1]].snap.version
  {
    if 1 < |c| {
      assert Causes(log, c[0], c[1]);
      ChainNeverFalls(log, c[1..]);
    }
  }

  lemma ChainEndsAbove(log: seq<Event>, c: seq<nat>)
    requires Ordered(log) && CausalChain(log, c) && 2 <= |c|
    requires log[c[|c| - 1]].Produced?
    ensures log[c[0]].snap.version < log[c[|c| - 1]].snap.version
  {
    var front := c[..|c| - 1];
    assert Causes(log, c[|c| - 2], c[|c| - 1]);
    assert CausalChain(log, front);
    ChainNeverFalls(log, front);
  }

  /** The Lamport clock condition: a copy made after another event, by any
      chain of local steps and deliveries, has a strictly larger version. */
  lemma LamportClockCondition(net: Net, limits: NodeId -> nat, steps: seq<Step>, s: State, i: nat, j: nat)
    requires ValidNet(net) && Exec(net, limits, steps) == Some(s)
    requires i < |s.log| && j < |s.log| && s.log[j].Produced?
    requires HappensBefore(s.log, i, j)
    ensures s.log[i].snap.version < s.log[j].snap.version
  {
    ExecKeepsInv(net, limits, steps);
    var c :| CausalChain(s.log, c) && 2 <= |c| && c[0] == i && c[|c| - 1] == j;
    ChainEndsAbove(s.log, c);
  }

  /** Every apply is tied by such a chain to the one copy it carries. */
  lemma {:induction false} AppliesTraceBack(s: State, j: nat) returns (c: seq<nat>)
    requires Rooted(s.log) && OwnOrigin(s.log) && j < |s.log|
    ensures CausalChain(s.log, c) && c[|c| - 1] == j
    ensures s.log[c[0]] == Produced(s.log[j].snap.origin, s.log[j].snap)
    ensures forall k :: 0 <= k < |c| ==> s.log[c[k]].snap == s.log[j].snap
  {
    var log := s.log;
    if log[j].Produced? {
      c := [j];
    } else {
      assert RootedAt(log, j);
      var i :| 0 <= i < |log[..j]| && log[..j][i].node == log[j].from && log[..j][i].snap == log[j].snap;
      assert log[i] == log[..j][i];
      c := AppliesTraceBack(s, i);
      c := c + [j];
    }
  }

  /** Every run's applies have their copy among their causes. */
  lemma AppliedIsCaused(net: Net, limits: NodeId -> nat, steps: seq<Step>, s: State, j: nat) returns (i: nat)
    requires ValidNet(net) && Exec(net, limits, steps) == Some(s)
    requires j < |s.log| && s.log[j].Applied?
    ensures i < |s.log| && s.log[i] == Produced(s.log[j].snap.origin, s.log[j].snap)
    ensures HappensBefore(s.log, i, j)
  {
    ExecKeepsInv(net, limits, steps);
    var c := AppliesTraceBack(s, j);
    i := c[0];
    assert |c| != 1;
  }

  /** In a channel, waiting to be forwarded, or kept in a history. */
  ghost predicate Circulates(s: State, snap: Snapshot) {
    || (exists l :: l in s.channels && snap in s.channels[l])
    || (exists job :: job in s.jobs && job.snap == snap)
    || (exists n :: n in s.engines && snap in s.engines[n].history)
  }

  lemma {:induction false} InNodeLog(log: seq<Event>, n: NodeId, snap: Snapshot)
    requires snap in NodeLog(log, n)
    ensures Seen(log, n, snap)
  {
    var front, e := log[..|log| - 1], log[|log| - 1];
    assert log == front + [e];
    if snap in NodeLog(front, n) {
      InNodeLog(front, n, snap);
      SeenGrows(front, e, n, snap);
    } else {
      SeenGrows(front, e, n, snap);
    }
  }

  lemma CirculatesIsProduced(net: Net, s: State, snap: Snapshot)
    requires Inv(net, s) && Circulates(s, snap)
    ensures WasProduced(s.log, snap)
  {
    if l :| l in s.channels && snap in s.channels[l] {
      SeenIsProduced(s.log, l.0, snap);
    } else if job :| job in s.jobs && job.snap == snap {
      SeenIsProduced(s.log, job.node, snap);
    } else {
      var n :| n in s.engines && snap in s.engines[n].history;
      assert HistoryAt(s, n);
      InNodeLog(s.log, n, snap);
      SeenIsProduced(s.log, n, snap);
    }
  }

  /** Nothing outruns its origin: whatever is queued or kept has a version at
      most the clock of the node that made it. */
  lemma NothingOutrunsItsOrigin(net: Net, limits: NodeId -> nat, steps: seq<Step>, s: State, snap: Snapshot)
    requires ValidNet(net) && Exec(net, limits, steps) == Some(s) && Circulates(s, snap)
    ensures snap.origin in s.engines && 0 < snap.version <= s.engines[snap.origin].version
  {
    ExecKeepsInv(net, limits, steps);
    CirculatesIsProduced(net, s, snap);
    var i :| 0 <= i < |s.log| && s.log[i] == Produced(snap.origin, snap);
    assert s.log[i].node in net.nodes;
  }

  /** (origin, version) names one snapshot: everything that circulates is a copy
      somebody made, unaltered, and two of them with the same origin and version
      are equal. */
  lemma VersionsNameSnapshots(
      net: Net, limits: NodeId -> nat, steps: seq<Step>, s: State, x: Snapshot, y: Snapshot)
    requires ValidNet(net) && Exec(net, limits, steps) == Some(s)
    requires Circulates(s, x) && Circulates(s, y)
    requires x.origin == y.origin && x.version == y.version
    ensures x == y && WasProduced(s.log, x)
  {
    ExecKeepsInv(net, limits, steps);
    CirculatesIsProduced(net, s, x);
    CirculatesIsProduced(net, s, y);
    var i :| 0 <= i < |s.log| && s.log[i] == Produced(x.origin, x);
    var j :| 0 <= j < |s.log| && s.log[j] == Produced(y.origin, y);
    assert i == j;
  }

  /** The self-origin test never decides anything on its own: whatever can be
      delivered would be dropped as stale anyway. */
  lemma OriginTestIsRedundant(
      net: Net, limits: NodeId -> nat, steps: seq<Step>, s: State, l: Link, snap: Snapshot)
    requires ValidNet(net) && Exec(net, limits, steps) == Some(s)
    requires Enabled(s, Deliver(l, snap))
    ensures Decide(s.engines[l.1], snap) == if s.engines[l.1].version < snap.version then Apply(snap) else Ignore
  {
    ExecKeepsInv(net, limits, steps);
    SeenBelowClock(s, l.0, snap);
  }

  /** No step changes how much an engine keeps. */
  lemma StepKeepsLimits(s: State, step: Step)
    requires Enabled(s, step)
    ensures Next(s, step).engines.Keys == s.engines.Keys
    ensures forall n :: n in s.engines ==> Next(s, step).engines[n].limit == s.engines[n].limit
  {
  }

  lemma {:induction false} LimitsAreGiven(net: Net, limits: NodeId -> nat, steps: seq<Step>, s: State)
    requires Exec(net, limits, steps) == Some(s)
    ensures s.engines.Keys == net.nodes
    ensures forall n :: n in s.engines ==> s.engines[n].limit == if limits(n) < 1 then 1 else limits(n)
  {
    if steps != [] {
      var front := steps[..|steps| - 1];
      LimitsAreGiven(net, limits, front, Exec(net, limits, front).value);
      StepKeepsLimits(Exec(net, limits, front).value, steps[|steps| - 1]);
    }
  }

  /** Every history is exactly the last entries of what its node recorded, as
      many as the limit it was given allows (but at least one), in strictly
      increasing versions that end at the clock. */
  lemma HistoryIsWindow(net: Net, limits: NodeId -> nat, steps: seq<Step>, s: State, n: NodeId)
    requires ValidNet(net) && Exec(net, limits, steps) == Some(s) && n in net.nodes
    ensures n in s.engines && RefinesLog(s.engines[n], NodeLog(s.log, n))
    ensures var limit := if limits(n) < 1 then 1 else limits(n);
      KeepsLast(s.engines[n].history, NodeLog(s.log, n), limit)
  {
    ExecKeepsInv(net, limits, steps);
    LimitsAreGiven(net, limits, steps, s);
    assert HistoryAt(s, n);
    WindowKeepsLast(NodeLog(s.log, n), s.engines[n].limit);
  }
}
