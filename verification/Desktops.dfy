/** What the operating systems' clipboards are given over whole schedules
    (crates/cli/src/runtime/common.rs). */
module Desktops {
  import opened Core
  import opened ClipboardEngine
  import opened Deployed
  import opened RelayTheorems
  import opened Sessions
  import Relay
  import Star
  import StarTheorems

  /** The snapshots node `n` applied while writes worked, in log order. */
  function Shown(log: seq<Star.Event>, worked: seq<bool>, n: NodeId): seq<Snapshot>
    requires |worked| == |log|
  {
    if log == [] then []
    else
      var last := |log| - 1;
      var front := Shown(log[..last], worked[..last], n);
      if log[last].Applied? && log[last].node == n && worked[last] then front + [log[last].snap] else front
  }

  lemma ShownSnoc(log: seq<Star.Event>, worked: seq<bool>, n: NodeId, e: Star.Event, works: bool)
    requires |worked| == |log|
    ensures Shown(log + [e], worked + [works], n) ==
      if e.Applied? && e.node == n && works then Shown(log, worked, n) + [e.snap] else Shown(log, worked, n)
  {
    assert (log + [e])[..|log|] == log && (worked + [works])[..|log|] == worked;
  }

  /** The desktops hold what the log says. */
  ghost predicate Shows(cfg: Star.Config, v: Moment, log: seq<Star.Event>, worked: seq<bool>) {
    && |worked| == |log|
    && v.hubDesktop == Shown(log, worked, cfg.hub)
    && v.desktops.Keys == cfg.spokes
    && forall p :: p in cfg.spokes ==> v.desktops[p] == Shown(log, worked, p)
  }

  lemma EntryShows(
      cfg: Star.Config, v: Moment, log: seq<Star.Event>, worked: seq<bool>, e: Star.Event, works: bool, w: Moment)
    requires Star.ValidConfig(cfg) && Shows(cfg, v, log, worked)
    requires w.hubDesktop == if e.Applied? && e.node == cfg.hub && works then v.hubDesktop + [e.snap] else v.hubDesktop
    requires w.desktops ==
      if e.Applied? && e.node in v.desktops && works then v.desktops[e.node := v.desktops[e.node] + [e.snap]]
      else v.desktops
    ensures Shows(cfg, w, log + [e], worked + [works])
  {
    ShownSnoc(log, worked, cfg.hub, e, works);
    forall p | p in cfg.spokes
      ensures w.desktops[p] == Shown(log + [e], worked + [works], p)
    {
      ShownSnoc(log, worked, p, e, works);
    }
  }

  lemma HubReadShows(
      cfg: Star.Config, v: Moment, log: seq<Star.Event>, worked: seq<bool>, p: NodeId, snap: Snapshot, works: bool)
    requires Star.ValidConfig(cfg) && Shows(cfg, v, log, worked) && v.hub.selfId == cfg.hub
    requires p in v.up && v.up[p] != [] && Decide(v.hub, snap).Apply?
    ensures Shows(cfg, HubReads(v, p, snap, works), log + [Relay.Applied(v.hub.selfId, snap, p)], worked + [works])
  {
    EntryShows(cfg, v, log, worked, Relay.Applied(v.hub.selfId, snap, p), works, HubReads(v, p, snap, works));
  }

  lemma SpokeReadShows(
      cfg: Star.Config, v: Moment, log: seq<Star.Event>, worked: seq<bool>, p: NodeId, snap: Snapshot, works: bool)
    requires Star.ValidConfig(cfg) && Shows(cfg, v, log, worked) && p in v.desktops
    requires p in v.spokes && p in v.down && v.down[p] != [] && Decide(v.spokes[p], snap).Apply?
    ensures Shows(cfg, SpokeReads(v, p, snap, works), log + [Relay.Applied(p, snap, v.hub.selfId)], worked + [works])
  {
    EntryShows(cfg, v, log, worked, Relay.Applied(p, snap, v.hub.selfId), works, SpokeReads(v, p, snap, works));
  }

  /** A task without an applied snapshot leaves the desktops alone. */
  lemma QuietTaskShows(
      cfg: Star.Config, v: Moment, log: seq<Star.Event>, worked: seq<bool>, task: Task, w: Moment)
    requires Star.ValidConfig(cfg) && Shows(cfg, v, log, worked)
    requires CanPerform(v, task) && w == Perform(v, task) && !task.HubReceives? && !task.SpokeReceives?
    ensures Shows(cfg, w, LogOf(v, log, task), worked + Worked(v, log, task))
  {
    assert worked + [] == worked;
    if task.SpokeCopies? || task.HubCopies? {
      EntryShows(cfg, v, log, worked, LogOf(v, log, task)[|log|], false, w);
    }
  }

  lemma HubDrops(v: Moment, p: NodeId, works: bool, w: Moment)
    requires Present(v, p) && v.up[p] != [] && w == HubReceived(v, p, works)
    requires v.up[p][0].Clipboard? ==> Decide(v.hub, v.up[p][0].snap).Ignore?
    ensures w.hubDesktop == v.hubDesktop && w.desktops == v.desktops
  {
  }

  lemma SpokeDrops(v: Moment, p: NodeId, works: bool, w: Moment)
    requires Present(v, p) && v.down[p] != [] && w == SpokeReceived(v, p, works)
    requires v.down[p][0].Clipboard? ==> Decide(v.spokes[p], v.down[p][0].snap).Ignore?
    ensures w.hubDesktop == v.hubDesktop && w.desktops == v.desktops
  {
  }

  lemma DroppedShows(
      cfg: Star.Config, v: Moment, log: seq<Star.Event>, worked: seq<bool>, task: Task, w: Moment)
    requires Shows(cfg, v, log, worked) && CanPerform(v, task) && w == Perform(v, task)
    requires task.HubReceives? || task.SpokeReceives?
    requires LogOf(v, log, task) == log
    ensures Shows(cfg, w, log, worked + Worked(v, log, task))
  {
    assert worked + [] == worked;
    if task.HubReceives? {
      HubDrops(v, task.peer, task.works, w);
    } else {
      SpokeDrops(v, task.spoke, task.works, w);
    }
  }

  lemma TaskShows(cfg: Star.Config, v: Moment, log: seq<Star.Event>, worked: seq<bool>, task: Task)
    requires Star.ValidConfig(cfg) && Shows(cfg, v, log, worked) && CanPerform(v, task)
    requires v.hub.selfId == cfg.hub && v.spokes.Keys == cfg.spokes
    ensures Shows(cfg, Perform(v, task), LogOf(v, log, task), worked + Worked(v, log, task))
  {
    if !task.HubReceives? && !task.SpokeReceives? {
      QuietTaskShows(cfg, v, log, worked, task, Perform(v, task));
    } else if LogOf(v, log, task) == log {
      DroppedShows(cfg, v, log, worked, task, Perform(v, task));
    } else if task.HubReceives? {
      HubReadShows(cfg, v, log, worked, task.peer, v.up[task.peer][0].snap, task.works);
    } else {
      SpokeReadShows(cfg, v, log, worked, task.spoke, v.down[task.spoke][0].snap, task.works);
    }
  }

  /** After any schedule each desktop has been given exactly the snapshots its
      node applied while writes worked, in the order of the log. */
  lemma {:induction false} DesktopsShow(cfg: Star.Config, limits: NodeId -> nat, start: Moment, tasks: seq<Task>)
    requires Star.ValidConfig(cfg) && Starts(cfg, limits, start)
    ensures var c := Schedule(start, tasks); Shows(cfg, c.now, c.log, c.worked)
  {
    if tasks != [] {
      var front, task := tasks[..|tasks| - 1], tasks[|tasks| - 1];
      var c := Schedule(start, front);
      DesktopsShow(cfg, limits, start, front);
      ScheduleIsStarRun(cfg, limits, start, front);
      Star.ExecKeepsShape(cfg, limits, c.run);
      if CanPerform(c.now, task) {
        TaskShows(cfg, c.now, c.log, c.worked, task);
      }
    }
  }

  /** The same on the objects, and they are given nothing else. */
  lemma ObjectsShow(
      cfg: Star.Config, limits: NodeId -> nat, start: Moment, tasks: seq<Task>, hub: Hub, spokes: map<NodeId, Spoke>)
    requires Star.ValidConfig(cfg) && Starts(cfg, limits, start) && spokes.Keys == cfg.spokes
    requires var v := Schedule(start, tasks).now; HubAt(hub, v) && SpokesAt(spokes, v)
    ensures var c := Schedule(start, tasks);
      && |c.worked| == |c.log| && hub.desktop.written == Shown(c.log, c.worked, cfg.hub)
      && forall p: NodeId :: p in spokes ==> spokes[p].desktop.written == Shown(c.log, c.worked, p)
  {
    DesktopsShow(cfg, limits, start, tasks);
    var c := Schedule(start, tasks);
    forall p: NodeId | p in spokes
      ensures spokes[p].desktop.written == Shown(c.log, c.worked, p)
    {
      assert SpokeAt(spokes[p], p, c.now);
    }
  }

  // ----- nothing older replaces something newer -----

  lemma {:induction false} ShownWasApplied(log: seq<Star.Event>, worked: seq<bool>, n: NodeId, k: nat)
    requires |worked| == |log| && k < |Shown(log, worked, n)|
    ensures exists i :: 0 <= i < |log| && log[i].Applied? && log[i].node == n && log[i].snap == Shown(log, worked, n)[k]
  {
    var last := |log| - 1;
    var front := Shown(log[..last], worked[..last], n);
    if k < |front| {
      ShownWasApplied(log[..last], worked[..last], n, k);
      var i :| 0 <= i < last && log[..last][i].Applied? && log[..last][i].node == n && log[..last][i].snap == front[k];
      assert log[i] == log[..last][i];
    } else {
      assert log[last].snap == Shown(log, worked, n)[k];
    }
  }

  lemma {:induction false} ShownIncreases(log: seq<Star.Event>, worked: seq<bool>, n: NodeId)
    requires |worked| == |log| && Relay.Ordered(log)
    ensures forall i, j :: 0 <= i < j < |Shown(log, worked, n)| ==>
      Shown(log, worked, n)[i].version < Shown(log, worked, n)[j].version
  {
    if log != [] {
      var last, shown := |log| - 1, Shown(log, worked, n);
      var front := Shown(log[..last], worked[..last], n);
      ShownIncreases(log[..last], worked[..last], n);
      if shown != front {
        forall k | 0 <= k < |front|
          ensures front[k].version < log[last].snap.version
        {
          ShownWasApplied(log[..last], worked[..last], n, k);
        }
      }
    }
  }

  /** No desktop is ever given a snapshot older than one it was given before. */
  lemma DesktopsNeverGoBack(
      cfg: Star.Config, limits: NodeId -> nat, start: Moment, tasks: seq<Task>, hub: Hub, spokes: map<NodeId, Spoke>)
    requires Star.ValidConfig(cfg) && Starts(cfg, limits, start) && spokes.Keys == cfg.spokes
    requires var v := Schedule(start, tasks).now; HubAt(hub, v) && SpokesAt(spokes, v)
    ensures forall i, j :: 0 <= i < j < |hub.desktop.written| ==>
      hub.desktop.written[i].version < hub.desktop.written[j].version
    ensures forall p: NodeId, i, j :: p in spokes && 0 <= i < j < |spokes[p].desktop.written| ==>
      spokes[p].desktop.written[i].version < spokes[p].desktop.written[j].version
  {
    var c := Schedule(start, tasks);
    ObjectsShow(cfg, limits, start, tasks, hub, spokes);
    ScheduleIsStarRun(cfg, limits, start, tasks);
    var relayed := Star.StarRefinesRelay(cfg, limits, c.run, StateOf(c.now, c.log));
    Star.StarIsConnected(cfg);
    Relay.ExecKeepsInv(Star.NetOf(cfg), limits, relayed);
    ShownIncreases(c.log, c.worked, cfg.hub);
    forall p: NodeId, i, j | p in spokes && 0 <= i < j < |spokes[p].desktop.written|
      ensures spokes[p].desktop.written[i].version < spokes[p].desktop.written[j].version
    {
      ShownIncreases(c.log, c.worked, p);
    }
  }

  // ----- a copy reaches every desktop -----

  predicate EndsWith(shown: seq<Snapshot>, snap: Snapshot) {
    shown != [] && shown[|shown| - 1] == snap
  }

  /** Node `n` recorded `snap` last, by applying it while writes worked. */
  lemma {:induction false} LastIsShown(log: seq<Star.Event>, worked: seq<bool>, n: NodeId, snap: Snapshot)
    requires |worked| == |log| && EndsWith(Relay.NodeLog(log, n), snap)
    requires forall k :: 0 <= k < |log| && log[k].node == n && log[k].snap == snap ==> log[k].Applied? && worked[k]
    ensures EndsWith(Shown(log, worked, n), snap)
  {
    var last := |log| - 1;
    if log[last].node != n {
      LastIsShown(log[..last], worked[..last], n, snap);
    }
  }

  /** Entry `i` is the only copy with the largest version, and whoever applied it
      could write it to the desktop. */
  ghost predicate Written(log: seq<Star.Event>, worked: seq<bool>, i: nat) {
    && |worked| == |log| && i < |log| && IsMaximum(log, i) && SoleMaximum(log)
    && forall k :: 0 <= k < |log| && log[k].Applied? && log[k].snap == log[i].snap ==> worked[k]
  }

  /** Whoever is not the producer of the sole maximum applied it. */
  lemma OthersApplied(log: seq<Star.Event>, worked: seq<bool>, i: nat, n: NodeId, k: nat)
    requires Written(log, worked, i) && n != log[i].node
    requires k < |log| && log[k].node == n && log[k].snap == log[i].snap
    ensures log[k].Applied? && worked[k]
  {
    assert IsMaximum(log, k) ==> k == i;
  }

  /** A node that did not make the sole maximum itself but has it as its newest
      entry shows it. */
  lemma NewestIsShown(log: seq<Star.Event>, worked: seq<bool>, i: nat, n: NodeId, e: EngineState, limit: nat)
    requires Written(log, worked, i) && n != log[i].node
    requires Newest(e) == Some(log[i].snap) && KeepsLast(e.history, Relay.NodeLog(log, n), limit)
    ensures EndsWith(Shown(log, worked, n), log[i].snap)
  {
    forall k | 0 <= k < |log| && log[k].node == n && log[k].snap == log[i].snap
      ensures log[k].Applied? && worked[k]
    {
      OthersApplied(log, worked, i, n, k);
    }
    LastIsShown(log, worked, n, log[i].snap);
  }

  lemma CopyIsShown(cfg: Star.Config, limits: NodeId -> nat, start: Moment, tasks: seq<Task>, i: nat, n: NodeId)
    requires Star.ValidConfig(cfg) && Starts(cfg, limits, start) && Settled(Schedule(start, tasks).now)
    requires Written(Schedule(start, tasks).log, Schedule(start, tasks).worked, i)
    requires n in cfg.spokes + {cfg.hub} && n != Schedule(start, tasks).log[i].node
    ensures var c := Schedule(start, tasks); EndsWith(Shown(c.log, c.worked, n), c.log[i].snap)
  {
    var c := Schedule(start, tasks);
    var s := StateOf(c.now, c.log);
    ScheduleIsStarRun(cfg, limits, start, tasks);
    SettledIsQuiescent(c.now, c.log);
    StarTheorems.SoleMaximumInStar(cfg, limits, c.run, s, i);
    StarTheorems.StarKeepsLast(cfg, limits, c.run, s);
    var limit := if limits(n) < 1 then 1 else limits(n);
    NewestIsShown(c.log, c.worked, i, n, if n == cfg.hub then s.hub else s.spokes[n], limit);
  }

  /** The newest copy arrives: once no snapshot is on its way and the largest
      version was produced once, the last snapshot written to the desktop of
      every other node is that copy, provided its writes worked. */
  lemma CopyReachesDesktops(
      cfg: Star.Config, limits: NodeId -> nat, start: Moment, tasks: seq<Task>, hub: Hub, spokes: map<NodeId, Spoke>,
      i: nat)
    requires Star.ValidConfig(cfg) && Starts(cfg, limits, start) && spokes.Keys == cfg.spokes
    requires var v := Schedule(start, tasks).now; HubAt(hub, v) && SpokesAt(spokes, v) && Settled(v)
    requires Written(Schedule(start, tasks).log, Schedule(start, tasks).worked, i)
    ensures var copy := Schedule(start, tasks).log[i];
      && (cfg.hub != copy.node ==> EndsWith(hub.desktop.written, copy.snap))
      && forall p: NodeId :: p in spokes && p != copy.node ==> EndsWith(spokes[p].desktop.written, copy.snap)
  {
    var c := Schedule(start, tasks);
    ObjectsShow(cfg, limits, start, tasks, hub, spokes);
    forall n | n in cfg.spokes + {cfg.hub} && n != c.log[i].node
      ensures EndsWith(Shown(c.log, c.worked, n), c.log[i].snap)
    {
      CopyIsShown(cfg, limits, start, tasks, i, n);
    }
  }
}
