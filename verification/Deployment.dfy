/** Hub and spoke objects joined by their connections, and the proof that
    whatever they do, in any order, is a run of the star: the theorems about the
    star are theorems about these objects. */
module Deployed {
  import opened Core
  import opened ClipboardEngine
  import opened RelayTheorems
  import opened Sessions
  import Fetch
  import Lazy
  import Relay
  import Star
  import StarTheorems

  // ----- what the star sees of the objects -----

  /** The snapshots among queued frames, in order. */
  function Snaps(frames: seq<WireFrame>): seq<Snapshot> {
    if frames == [] then []
    else if frames[0].Clipboard? then [frames[0].snap] + Snaps(frames[1..])
    else Snaps(frames[1..])
  }

  lemma {:induction false} SnapsConcat(a: seq<WireFrame>, b: seq<WireFrame>)
    ensures Snaps(a + b) == Snaps(a) + Snaps(b)
  {
    if a == [] {
      assert a + b == b;
    } else {
      assert (a + b)[1..] == a[1..] + b;
      SnapsConcat(a[1..], b);
    }
  }

  lemma {:induction false} NoSnaps(frames: seq<WireFrame>)
    requires forall f :: f in frames ==> !f.Clipboard?
    ensures Snaps(frames) == []
  {
    if frames != [] {
      NoSnaps(frames[1..]);
    }
  }

  lemma {:induction false} SnapsAre(frames: seq<WireFrame>)
    ensures forall snap :: Clipboard(snap) in frames <==> snap in Snaps(frames)
  {
    if frames != [] {
      SnapsAre(frames[1..]);
    }
  }

  /** The input side of a spoke: what it has emitted, if it may. */
  datatype Emitting = Emitting(enabled: bool, events: seq<InputEvent>)

  function Emit(e: Emitting, frame: WireFrame): Emitting {
    if frame.Input? && e.enabled then e.(events := e.events + [frame.event]) else e
  }

  /** The fields of all objects at one moment, with what has been written to each
      desktop. A connection direction is the sender's queue behind the frames
      already on the wire. */
  datatype Moment = Moment(
    hub: EngineState,
    hubDesktop: seq<Snapshot>,
    writers: map<NodeId, seq<WireFrame>>,
    accepted: map<NodeId, Snapshot>,
    local: seq<WireFrame>,
    spokes: map<NodeId, EngineState>,
    desktops: map<NodeId, seq<Snapshot>>,
    inputs: map<NodeId, Emitting>,
    outboxes: map<NodeId, seq<WireFrame>>,
    up: map<NodeId, seq<WireFrame>>,
    down: map<NodeId, seq<WireFrame>>,
    stored: map<Digest, Bytes>)

  /** A connected spoke. */
  predicate Present(v: Moment, p: NodeId) {
    && p in v.spokes && p in v.desktops && p in v.inputs && p in v.outboxes
    && p in v.writers && p in v.up && p in v.down
  }

  function Joined(wires: map<NodeId, seq<WireFrame>>, queues: map<NodeId, seq<WireFrame>>): map<NodeId, seq<Snapshot>> {
    map p | p in wires && p in queues :: Snaps(wires[p] + queues[p])
  }

  function AcceptedJobs(hub: NodeId, accepted: map<NodeId, Snapshot>): set<Star.Job> {
    set p | p in accepted :: Relay.Job(hub, Some(p), accepted[p])
  }

  function LocalJobs(hub: NodeId, local: seq<WireFrame>): multiset<Star.Job> {
    if local == [] then multiset{}
    else if local[0].Clipboard? then multiset{Relay.Job(hub, None, local[0].snap)} + LocalJobs(hub, local[1..])
    else LocalJobs(hub, local[1..])
  }

  function Jobs(v: Moment): multiset<Star.Job> {
    multiset(AcceptedJobs(v.hub.selfId, v.accepted)) + LocalJobs(v.hub.selfId, v.local)
  }

  /** The star's state: frames of other kinds and the split into wire and queue
      are forgotten, and every accepted or local snapshot is a waiting job. */
  function StateOf(v: Moment, log: seq<Star.Event>): Star.State {
    Star.State(v.hub, v.spokes, Joined(v.up, v.outboxes), Joined(v.down, v.writers), Jobs(v), log)
  }

  // ----- queues -----

  lemma SnapsQueued(wire: seq<WireFrame>, queue: seq<WireFrame>, frames: seq<WireFrame>)
    ensures Snaps(wire + (queue + frames)) == Snaps(wire + queue) + Snaps(frames)
  {
    assert wire + (queue + frames) == wire + queue + frames;
    SnapsConcat(wire + queue, frames);
  }

  lemma JoinedQueued(
      wires: map<NodeId, seq<WireFrame>>, queues: map<NodeId, seq<WireFrame>>, p: NodeId, frames: seq<WireFrame>)
    requires p in wires && p in queues
    ensures Joined(wires, queues[p := queues[p] + frames]) ==
      Joined(wires, queues)[p := Joined(wires, queues)[p] + Snaps(frames)]
  {
    SnapsQueued(wires[p], queues[p], frames);
    var before, after := Joined(wires, queues), Joined(wires, queues[p := queues[p] + frames]);
    assert forall q :: q in before && q != p ==> q in after && after[q] == before[q];
    Star.SameMap(after, before[p := before[p] + Snaps(frames)]);
  }

  /** Queueing frames other than snapshots. */
  lemma JoinedAnswered(
      wires: map<NodeId, seq<WireFrame>>, queues: map<NodeId, seq<WireFrame>>, p: NodeId, frames: seq<WireFrame>)
    requires p in wires && p in queues && forall f :: f in frames ==> !f.Clipboard?
    ensures Joined(wires, queues[p := queues[p] + frames]) == Joined(wires, queues)
  {
    JoinedQueued(wires, queues, p, frames);
    NoSnaps(frames);
    assert Joined(wires, queues)[p] + [] == Joined(wires, queues)[p];
  }

  /** Putting frames other than snapshots on the wire, before what is queued. */
  lemma JoinedSent(
      wires: map<NodeId, seq<WireFrame>>, queues: map<NodeId, seq<WireFrame>>, p: NodeId, frames: seq<WireFrame>)
    requires p in wires && p in queues && forall f :: f in frames ==> !f.Clipboard?
    ensures Joined(wires[p := wires[p] + frames], queues) == Joined(wires, queues)
  {
    SnapsConcat(wires[p], queues[p]);
    SnapsConcat(wires[p] + frames, queues[p]);
    SnapsConcat(wires[p], frames);
    NoSnaps(frames);
    assert Snaps(wires[p]) + [] == Snaps(wires[p]);
  }

  /** The writer task moves one frame from its queue to the wire. */
  lemma JoinedWritten(wires: map<NodeId, seq<WireFrame>>, queues: map<NodeId, seq<WireFrame>>, p: NodeId)
    requires p in wires && p in queues && queues[p] != []
    ensures Joined(wires[p := wires[p] + [queues[p][0]]], queues[p := queues[p][1..]]) == Joined(wires, queues)
  {
    assert wires[p] + [queues[p][0]] + queues[p][1..] == wires[p] + queues[p];
  }

  lemma HeadRead(wire: seq<WireFrame>, queue: seq<WireFrame>)
    requires wire != []
    ensures var before, after := Snaps(wire + queue), Snaps(wire[1..] + queue);
      if wire[0].Clipboard? then before == [wire[0].snap] + after && before[1..] == after else before == after
  {
    assert (wire + queue)[1..] == wire[1..] + queue;
  }

  /** Taking a frame off the wire takes its snapshot, if it is one. */
  lemma JoinedRead(wires: map<NodeId, seq<WireFrame>>, queues: map<NodeId, seq<WireFrame>>, p: NodeId)
    requires p in wires && p in queues && wires[p] != []
    ensures var before, after, f := Joined(wires, queues), Joined(wires[p := wires[p][1..]], queues), wires[p][0];
      if f.Clipboard? then before[p] != [] && before[p][0] == f.snap && after == before[p := before[p][1..]]
      else after == before
  {
    HeadRead(wires[p], queues[p]);
  }

  lemma FrameQueued(wire: seq<WireFrame>, queue: seq<WireFrame>, f: WireFrame)
    ensures Snaps(wire + (queue + [f])) == if f.Clipboard? then Snaps(wire + queue) + [f.snap] else Snaps(wire + queue)
  {
    assert wire + (queue + [f]) == wire + queue + [f];
    SnapsConcat(wire + queue, [f]);
    assert [f][1..] == [];
  }

  /** A broadcast as the star sees it: of a snapshot, or of nothing. */
  function SnapsSent(
      before: map<NodeId, seq<Snapshot>>, f: WireFrame, exclude: Option<NodeId>): map<NodeId, seq<Snapshot>>
  {
    if f.Clipboard? then Star.Broadcast(before, f.snap, exclude) else before
  }

  lemma BroadcastAt(
      wires: map<NodeId, seq<WireFrame>>, queues: map<NodeId, seq<WireFrame>>, f: WireFrame, exclude: Option<NodeId>,
      p: NodeId)
    requires p in wires && p in queues
    ensures Joined(wires, Star.Broadcast(queues, f, exclude))[p] == SnapsSent(Joined(wires, queues), f, exclude)[p]
  {
    FrameQueued(wires[p], queues[p], f);
  }

  lemma SameSpokes(
      wires: map<NodeId, seq<WireFrame>>, queues: map<NodeId, seq<WireFrame>>, f: WireFrame, exclude: Option<NodeId>)
    ensures Joined(wires, Star.Broadcast(queues, f, exclude)).Keys == SnapsSent(Joined(wires, queues), f, exclude).Keys
    ensures SnapsSent(Joined(wires, queues), f, exclude).Keys == wires.Keys * queues.Keys
  {
  }

  lemma JoinedBroadcast(
      wires: map<NodeId, seq<WireFrame>>, queues: map<NodeId, seq<WireFrame>>, f: WireFrame, exclude: Option<NodeId>)
    ensures Joined(wires, Star.Broadcast(queues, f, exclude)) == SnapsSent(Joined(wires, queues), f, exclude)
  {
    var after := Joined(wires, Star.Broadcast(queues, f, exclude));
    var expected := SnapsSent(Joined(wires, queues), f, exclude);
    SameSpokes(wires, queues, f, exclude);
    forall p | p in wires && p in queues
      ensures after[p] == expected[p]
    {
      BroadcastAt(wires, queues, f, exclude, p);
    }
    Star.SameMap(after, expected);
  }

  // ----- jobs -----

  lemma AcceptedMore(hub: NodeId, accepted: map<NodeId, Snapshot>, p: NodeId, snap: Snapshot)
    requires p !in accepted
    ensures multiset(AcceptedJobs(hub, accepted[p := snap])) ==
      multiset(AcceptedJobs(hub, accepted)) + multiset{Relay.Job(hub, Some(p), snap)}
  {
    assert AcceptedJobs(hub, accepted[p := snap]) == AcceptedJobs(hub, accepted) + {Relay.Job(hub, Some(p), snap)};
  }

  lemma AcceptedLess(hub: NodeId, accepted: map<NodeId, Snapshot>, p: NodeId)
    requires p in accepted
    ensures Relay.Job(hub, Some(p), accepted[p]) in AcceptedJobs(hub, accepted)
    ensures multiset(AcceptedJobs(hub, accepted - {p})) ==
      multiset(AcceptedJobs(hub, accepted)) - multiset{Relay.Job(hub, Some(p), accepted[p])}
  {
    assert (accepted - {p})[p := accepted[p]] == accepted;
    AcceptedMore(hub, accepted - {p}, p, accepted[p]);
  }

  lemma {:induction false} LocalMore(hub: NodeId, local: seq<WireFrame>, snap: Snapshot)
    ensures LocalJobs(hub, local + [Clipboard(snap)]) == LocalJobs(hub, local) + multiset{Relay.Job(hub, None, snap)}
  {
    if local == [] {
      assert [Clipboard(snap)][1..] == [];
    } else {
      assert (local + [Clipboard(snap)])[1..] == local[1..] + [Clipboard(snap)];
      LocalMore(hub, local[1..], snap);
    }
  }

  lemma JobTaken(these: multiset<Star.Job>, job: Star.Job, others: multiset<Star.Job>)
    requires job in these
    ensures (these - multiset{job}) + others == these + others - multiset{job}
    ensures others + (these - multiset{job}) == others + these - multiset{job}
    ensures job in these + others && job in others + these
  {
  }

  // ----- what each task does is a step of the star -----

  lemma FansOut(s: Star.State, job: Star.Job, t: Star.State)
    requires job in s.jobs
    requires t == s.(jobs := s.jobs - multiset{job}, down := Star.Broadcast(s.down, job.snap, job.from))
    ensures StarTheorems.Leads(s, Star.HubFanOut(job), t)
  {
  }

  lemma ReadsUp(s: Star.State, p: NodeId, t: Star.State)
    requires p in s.up && s.up[p] != [] && Star.HubReadTo(s, p, t)
    ensures StarTheorems.Leads(s, Star.HubRead(p), t)
  {
  }

  lemma ReadsDown(s: Star.State, p: NodeId, t: Star.State)
    requires p in s.spokes && p in s.down && s.down[p] != [] && Star.SpokeReadTo(s, p, t)
    ensures StarTheorems.Leads(s, Star.SpokeRead(p), t)
  {
  }

  lemma CopiesAtHub(s: Star.State, items: seq<ClipItem>, now: nat, t: Star.State)
    requires var snap := NextSnapshot(s.hub, items, now);
      && t.hub == Accept(s.hub, snap) && t.log == s.log + [Relay.Produced(s.hub.selfId, snap)]
      && t.jobs == s.jobs + multiset{Relay.Job(s.hub.selfId, None, snap)}
      && t.spokes == s.spokes && t.up == s.up && t.down == s.down
    ensures StarTheorems.Leads(s, Star.HubCopy(items, now), t)
  {
  }

  lemma SpokeCopied(v: Moment, log: seq<Star.Event>, p: NodeId, items: seq<ClipItem>, now: nat, w: Moment)
    requires Present(v, p)
    requires var snap := NextSnapshot(v.spokes[p], items, now);
      w == v.(spokes := v.spokes[p := Accept(v.spokes[p], snap)],
              outboxes := v.outboxes[p := v.outboxes[p] + [Clipboard(snap)]])
    ensures StarTheorems.Leads(StateOf(v, log), Star.SpokeCopy(p, items, now),
      StateOf(w, log + [Relay.Produced(p, NextSnapshot(v.spokes[p], items, now))]))
  {
    var snap := NextSnapshot(v.spokes[p], items, now);
    JoinedQueued(v.up, v.outboxes, p, [Clipboard(snap)]);
    assert Snaps([Clipboard(snap)]) == [snap];
  }

  lemma HubCopied(v: Moment, log: seq<Star.Event>, items: seq<ClipItem>, now: nat, w: Moment)
    requires var snap := NextSnapshot(v.hub, items, now);
      w == v.(hub := Accept(v.hub, snap), local := v.local + [Clipboard(snap)])
    ensures StarTheorems.Leads(StateOf(v, log), Star.HubCopy(items, now),
      StateOf(w, log + [Relay.Produced(v.hub.selfId, NextSnapshot(v.hub, items, now))]))
  {
    LocalMore(v.hub.selfId, v.local, NextSnapshot(v.hub, items, now));
    CopiesAtHub(StateOf(v, log), items, now,
      StateOf(w, log + [Relay.Produced(v.hub.selfId, NextSnapshot(v.hub, items, now))]));
  }

  /** What the hub's reader makes of a snapshot from spoke `p`. */
  function HubReads(v: Moment, p: NodeId, snap: Snapshot, works: bool): Moment
    requires p in v.up && v.up[p] != []
  {
    var applied := Decide(v.hub, snap).Apply?;
    v.(up := v.up[p := v.up[p][1..]],
       hub := if applied then Accept(v.hub, snap) else v.hub,
       hubDesktop := if applied && works then v.hubDesktop + [snap] else v.hubDesktop,
       accepted := if applied then v.accepted[p := snap] else v.accepted)
  }

  /** The log after node `n` read a snapshot from a neighbour. */
  function Applying(
      e: EngineState, log: seq<Star.Event>, n: NodeId, snap: Snapshot, from: NodeId): seq<Star.Event>
  {
    if Decide(e, snap).Ignore? then log else log + [Relay.Applied(n, snap, from)]
  }

  lemma ReadJobs(v: Moment, p: NodeId, snap: Snapshot, works: bool)
    requires p in v.up && v.up[p] != [] && p !in v.accepted && Decide(v.hub, snap).Apply?
    ensures Jobs(HubReads(v, p, snap, works)) == Jobs(v) + multiset{Relay.Job(v.hub.selfId, Some(p), snap)}
  {
    AcceptedMore(v.hub.selfId, v.accepted, p, snap);
  }

  lemma HubReadSteps(v: Moment, log: seq<Star.Event>, p: NodeId, snap: Snapshot, works: bool)
    requires Present(v, p) && v.up[p] != [] && v.up[p][0] == Clipboard(snap)
    requires p !in v.accepted
    ensures StarTheorems.Leads(StateOf(v, log), Star.HubRead(p),
      StateOf(HubReads(v, p, snap, works), Applying(v.hub, log, v.hub.selfId, snap, p)))
  {
    JoinedRead(v.up, v.outboxes, p);
    if Decide(v.hub, snap).Apply? {
      ReadJobs(v, p, snap, works);
    }
    ReadsUp(StateOf(v, log), p, StateOf(HubReads(v, p, snap, works), Applying(v.hub, log, v.hub.selfId, snap, p)));
  }

  lemma RelayedJobs(v: Moment, p: NodeId, w: Moment)
    requires p in v.accepted
    requires w.hub == v.hub && w.local == v.local && w.accepted == v.accepted - {p}
    ensures var job := Relay.Job(v.hub.selfId, Some(p), v.accepted[p]);
      job in Jobs(v) && Jobs(w) == Jobs(v) - multiset{job}
  {
    AcceptedLess(v.hub.selfId, v.accepted, p);
    JobTaken(multiset(AcceptedJobs(v.hub.selfId, v.accepted)), Relay.Job(v.hub.selfId, Some(p), v.accepted[p]),
      LocalJobs(v.hub.selfId, v.local));
  }

  lemma HubRelayed(v: Moment, log: seq<Star.Event>, p: NodeId, w: Moment)
    requires p in v.accepted
    requires w == v.(writers := Star.Broadcast(v.writers, Clipboard(v.accepted[p]), Some(p)),
                     accepted := v.accepted - {p})
    ensures StarTheorems.Leads(StateOf(v, log), Star.HubFanOut(Relay.Job(v.hub.selfId, Some(p), v.accepted[p])),
      StateOf(w, log))
  {
    RelayedJobs(v, p, w);
    JoinedBroadcast(v.down, v.writers, Clipboard(v.accepted[p]), Some(p));
    FansOut(StateOf(v, log), Relay.Job(v.hub.selfId, Some(p), v.accepted[p]), StateOf(w, log));
  }

  lemma LocalJobTaken(v: Moment, w: Moment)
    requires v.local != [] && v.local[0].Clipboard?
    requires w.hub == v.hub && w.local == v.local[1..] && w.accepted == v.accepted
    ensures var job := Relay.Job(v.hub.selfId, None, v.local[0].snap);
      job in Jobs(v) && Jobs(w) == Jobs(v) - multiset{job}
  {
    var job := Relay.Job(v.hub.selfId, None, v.local[0].snap);
    var rest := LocalJobs(v.hub.selfId, v.local[1..]);
    assert rest + multiset{job} - multiset{job} == rest;
    JobTaken(LocalJobs(v.hub.selfId, v.local), job, multiset(AcceptedJobs(v.hub.selfId, v.accepted)));
  }

  lemma LocalBroadcast(v: Moment, log: seq<Star.Event>, w: Moment)
    requires v.local != [] && v.local[0].Clipboard?
    requires w == v.(writers := Star.Broadcast(v.writers, v.local[0], None), local := v.local[1..])
    ensures StarTheorems.Leads(StateOf(v, log), Star.HubFanOut(Relay.Job(v.hub.selfId, None, v.local[0].snap)),
      StateOf(w, log))
  {
    LocalJobTaken(v, w);
    JoinedBroadcast(v.down, v.writers, v.local[0], None);
    FansOut(StateOf(v, log), Relay.Job(v.hub.selfId, None, v.local[0].snap), StateOf(w, log));
  }

  function SpokeReads(v: Moment, p: NodeId, snap: Snapshot, works: bool): Moment
    requires p in v.down && v.down[p] != [] && p in v.spokes && p in v.desktops
  {
    var applied := Decide(v.spokes[p], snap).Apply?;
    v.(down := v.down[p := v.down[p][1..]],
       spokes := if applied then v.spokes[p := Accept(v.spokes[p], snap)] else v.spokes,
       desktops := if applied && works then v.desktops[p := v.desktops[p] + [snap]] else v.desktops)
  }

  lemma SpokeReadSteps(v: Moment, log: seq<Star.Event>, p: NodeId, snap: Snapshot, works: bool)
    requires Present(v, p) && v.down[p] != [] && v.down[p][0] == Clipboard(snap)
    ensures StarTheorems.Leads(StateOf(v, log), Star.SpokeRead(p),
      StateOf(SpokeReads(v, p, snap, works), Applying(v.spokes[p], log, p, snap, v.hub.selfId)))
  {
    JoinedRead(v.down, v.writers, p);
    ReadsDown(StateOf(v, log), p,
      StateOf(SpokeReads(v, p, snap, works), Applying(v.spokes[p], log, p, snap, v.hub.selfId)));
  }

  /** A frame of another kind at the hub, perhaps answered to the asker. */
  lemma HubHeardOther(
      v: Moment, log: seq<Star.Event>, p: NodeId, reply: seq<WireFrame>, w: Moment)
    requires Present(v, p) && v.up[p] != [] && !v.up[p][0].Clipboard?
    requires forall f :: f in reply ==> !f.Clipboard?
    requires w == v.(up := v.up[p := v.up[p][1..]], writers := v.writers[p := v.writers[p] + reply])
    ensures StateOf(w, log) == StateOf(v, log)
  {
    JoinedRead(v.up, v.outboxes, p);
    JoinedAnswered(v.down, v.writers, p, reply);
  }

  /** A frame of another kind at a spoke, perhaps answered on the connection. */
  lemma SpokeHeardOther(
      v: Moment, log: seq<Star.Event>, p: NodeId, reply: seq<WireFrame>, w: Moment)
    requires Present(v, p) && v.down[p] != [] && !v.down[p][0].Clipboard?
    requires forall f :: f in reply ==> !f.Clipboard?
    requires w == v.(down := v.down[p := v.down[p][1..]], up := v.up[p := v.up[p] + reply], inputs := w.inputs)
    ensures StateOf(w, log) == StateOf(v, log)
  {
    JoinedRead(v.down, v.writers, p);
    JoinedSent(v.up, v.outboxes, p, reply);
  }

  lemma ReplyHasNoSnaps(found: Option<Bytes>, hash: Digest)
    ensures forall f :: f in Fetch.Reply(found, hash) ==> !f.Clipboard?
  {
    if found.Some? {
      Fetch.ReplyShape(hash, found.value);
    }
  }

  // ----- tasks and schedules -----

  /** One thing one of the tasks does. Frames of other kinds may enter a
      connection at either end at any time. */
  datatype Task =
    | SpokeCopies(spoke: NodeId, text: string, now: nat)
    | SpokeWrites(spoke: NodeId)
    | SpokeReceives(spoke: NodeId, works: bool)
    | HubCopies(text: string, now: nat)
    | HubBroadcasts
    | HubReceives(peer: NodeId, works: bool)
    | HubRelays(peer: NodeId)
    | HubWrites(peer: NodeId)
    | HubSendsInput(event: InputEvent)
    | OtherFrame(peer: NodeId, toHub: bool, frame: WireFrame)

  predicate CanPerform(v: Moment, task: Task) {
    match task
    case SpokeCopies(p, _, _) => Present(v, p)
    case SpokeWrites(p) => Present(v, p) && v.outboxes[p] != []
    case SpokeReceives(p, _) => Present(v, p) && v.down[p] != []
    case HubCopies(_, _) => true
    case HubBroadcasts => v.local != []
    case HubReceives(p, _) => Present(v, p) && v.up[p] != [] && p !in v.accepted
    case HubRelays(p) => p in v.accepted
    case HubWrites(p) => Present(v, p) && v.writers[p] != []
    case HubSendsInput(_) => true
    case OtherFrame(p, _, f) => Present(v, p) && !f.Clipboard?
  }

  function HubReceived(v: Moment, p: NodeId, works: bool): Moment
    requires Present(v, p) && v.up[p] != []
  {
    var f := v.up[p][0];
    if f.Clipboard? then HubReads(v, p, f.snap, works)
    else
      var reply := if f.FetchRequest? then Fetch.Reply(Lazy.Stored(v.stored, f.hash), f.hash) else [];
      v.(up := v.up[p := v.up[p][1..]], writers := v.writers[p := v.writers[p] + reply])
  }

  function SpokeReceived(v: Moment, p: NodeId, works: bool): Moment
    requires Present(v, p) && v.down[p] != []
  {
    var f := v.down[p][0];
    if f.Clipboard? then SpokeReads(v, p, f.snap, works)
    else
      var reply := if f.FetchRequest? then [FetchMiss(f.hash)] else [];
      v.(down := v.down[p := v.down[p][1..]], up := v.up[p := v.up[p] + reply],
         inputs := v.inputs[p := Emit(v.inputs[p], f)])
  }

  /** What a task makes of the objects' fields. */
  function Perform(v: Moment, task: Task): Moment
    requires CanPerform(v, task)
  {
    match task
    case SpokeCopies(p, text, now) =>
      var snap := NextSnapshot(v.spokes[p], [Text(text)], now);
      v.(spokes := v.spokes[p := Accept(v.spokes[p], snap)],
         outboxes := v.outboxes[p := v.outboxes[p] + [Clipboard(snap)]])
    case SpokeWrites(p) =>
      v.(up := v.up[p := v.up[p] + [v.outboxes[p][0]]], outboxes := v.outboxes[p := v.outboxes[p][1..]])
    case SpokeReceives(p, works) => SpokeReceived(v, p, works)
    case HubCopies(text, now) =>
      var snap := NextSnapshot(v.hub, [Text(text)], now);
      v.(hub := Accept(v.hub, snap), local := v.local + [Clipboard(snap)])
    case HubBroadcasts => v.(writers := Star.Broadcast(v.writers, v.local[0], None), local := v.local[1..])
    case HubReceives(p, works) => HubReceived(v, p, works)
    case HubRelays(p) =>
      v.(writers := Star.Broadcast(v.writers, Clipboard(v.accepted[p]), Some(p)), accepted := v.accepted - {p})
    case HubWrites(p) =>
      v.(down := v.down[p := v.down[p] + [v.writers[p][0]]], writers := v.writers[p := v.writers[p][1..]])
    case HubSendsInput(event) => v.(writers := Star.Broadcast(v.writers, Input(event), None))
    case OtherFrame(p, toHub, f) =>
      if toHub then v.(up := v.up[p := v.up[p] + [f]]) else v.(down := v.down[p := v.down[p] + [f]])
  }

  /** The star steps a task amounts to: at most one, and none for frames of
      other kinds and for the writer tasks. */
  function StepsOf(v: Moment, task: Task): seq<Star.Step>
    requires CanPerform(v, task)
  {
    match task
    case SpokeCopies(p, text, now) => [Star.SpokeCopy(p, [Text(text)], now)]
    case HubCopies(text, now) => [Star.HubCopy([Text(text)], now)]
    case HubBroadcasts =>
      if v.local[0].Clipboard? then [Star.HubFanOut(Relay.Job(v.hub.selfId, None, v.local[0].snap))] else []
    case HubReceives(p, _) => if v.up[p][0].Clipboard? then [Star.HubRead(p)] else []
    case HubRelays(p) => [Star.HubFanOut(Relay.Job(v.hub.selfId, Some(p), v.accepted[p]))]
    case SpokeReceives(p, _) => if v.down[p][0].Clipboard? then [Star.SpokeRead(p)] else []
    case _ => []
  }

  /** The log after a task. */
  function LogOf(v: Moment, log: seq<Star.Event>, task: Task): seq<Star.Event>
    requires CanPerform(v, task)
  {
    match task
    case SpokeCopies(p, text, now) => log + [Relay.Produced(p, NextSnapshot(v.spokes[p], [Text(text)], now))]
    case HubCopies(text, now) => log + [Relay.Produced(v.hub.selfId, NextSnapshot(v.hub, [Text(text)], now))]
    case HubReceives(p, _) =>
      if v.up[p][0].Clipboard? then Applying(v.hub, log, v.hub.selfId, v.up[p][0].snap, p) else log
    case SpokeReceives(p, _) =>
      if v.down[p][0].Clipboard? then Applying(v.spokes[p], log, p, v.down[p][0].snap, v.hub.selfId) else log
    case _ => log
  }

  /** At most one star step leads from `s` to `t`. */
  ghost predicate Amounts(s: Star.State, steps: seq<Star.Step>, t: Star.State) {
    if steps == [] then t == s else |steps| == 1 && StarTheorems.Leads(s, steps[0], t)
  }

  lemma HubReceivesAmounts(v: Moment, log: seq<Star.Event>, task: Task)
    requires task.HubReceives? && CanPerform(v, task)
    ensures Amounts(StateOf(v, log), StepsOf(v, task), StateOf(Perform(v, task), LogOf(v, log, task)))
  {
    var p := task.peer;
    var f := v.up[p][0];
    if f.Clipboard? {
      HubReadSteps(v, log, p, f.snap, task.works);
    } else if f.FetchRequest? {
      ReplyHasNoSnaps(Lazy.Stored(v.stored, f.hash), f.hash);
      HubHeardOther(v, log, p, Fetch.Reply(Lazy.Stored(v.stored, f.hash), f.hash), Perform(v, task));
    } else {
      HubHeardOther(v, log, p, [], Perform(v, task));
    }
  }

  lemma SpokeReceivesAmounts(v: Moment, log: seq<Star.Event>, task: Task)
    requires task.SpokeReceives? && CanPerform(v, task)
    ensures Amounts(StateOf(v, log), StepsOf(v, task), StateOf(Perform(v, task), LogOf(v, log, task)))
  {
    var p := task.spoke;
    var f := v.down[p][0];
    if f.Clipboard? {
      SpokeReadSteps(v, log, p, f.snap, task.works);
    } else {
      SpokeHeardOther(v, log, p, if f.FetchRequest? then [FetchMiss(f.hash)] else [], Perform(v, task));
    }
  }

  lemma OtherFrameAmounts(v: Moment, log: seq<Star.Event>, task: Task)
    requires task.OtherFrame? && CanPerform(v, task)
    ensures Amounts(StateOf(v, log), StepsOf(v, task), StateOf(Perform(v, task), LogOf(v, log, task)))
  {
    if task.toHub {
      JoinedSent(v.up, v.outboxes, task.peer, [task.frame]);
    } else {
      JoinedSent(v.down, v.writers, task.peer, [task.frame]);
    }
  }

  lemma WritesAmount(v: Moment, log: seq<Star.Event>, task: Task)
    requires (task.SpokeWrites? || task.HubWrites?) && CanPerform(v, task)
    ensures Amounts(StateOf(v, log), StepsOf(v, task), StateOf(Perform(v, task), LogOf(v, log, task)))
  {
    if task.SpokeWrites? {
      JoinedWritten(v.up, v.outboxes, task.spoke);
    } else {
      JoinedWritten(v.down, v.writers, task.peer);
    }
  }

  lemma InputAmounts(v: Moment, log: seq<Star.Event>, task: Task)
    requires task.HubSendsInput?
    ensures Amounts(StateOf(v, log), StepsOf(v, task), StateOf(Perform(v, task), LogOf(v, log, task)))
  {
    JoinedBroadcast(v.down, v.writers, Input(task.event), None);
  }

  lemma BroadcastAmounts(v: Moment, log: seq<Star.Event>, task: Task)
    requires task.HubBroadcasts? && CanPerform(v, task)
    ensures Amounts(StateOf(v, log), StepsOf(v, task), StateOf(Perform(v, task), LogOf(v, log, task)))
  {
    if v.local[0].Clipboard? {
      LocalBroadcast(v, log, Perform(v, task));
    } else {
      JoinedBroadcast(v.down, v.writers, v.local[0], None);
    }
  }

  /** Whatever a task does is the matching star step, or nothing the star can
      see. */
  lemma TaskAmounts(v: Moment, log: seq<Star.Event>, task: Task)
    requires CanPerform(v, task)
    ensures Amounts(StateOf(v, log), StepsOf(v, task), StateOf(Perform(v, task), LogOf(v, log, task)))
  {
    match task
    case SpokeCopies(p, text, now) => SpokeCopied(v, log, p, [Text(text)], now, Perform(v, task));
    case SpokeWrites(_) => WritesAmount(v, log, task);
    case SpokeReceives(_, _) => SpokeReceivesAmounts(v, log, task);
    case HubCopies(text, now) => HubCopied(v, log, [Text(text)], now, Perform(v, task));
    case HubBroadcasts => BroadcastAmounts(v, log, task);
    case HubReceives(_, _) => HubReceivesAmounts(v, log, task);
    case HubRelays(p) => HubRelayed(v, log, p, Perform(v, task));
    case HubWrites(_) => WritesAmount(v, log, task);
    case HubSendsInput(_) => InputAmounts(v, log, task);
    case OtherFrame(_, _, _) => OtherFrameAmounts(v, log, task);
  }

  lemma ExecMore(
      cfg: Star.Config, limits: NodeId -> nat, run: seq<Star.Step>, s: Star.State, steps: seq<Star.Step>, t: Star.State)
    requires Star.Exec(cfg, limits, run) == Some(s) && Amounts(s, steps, t)
    ensures Star.Exec(cfg, limits, run + steps) == Some(t)
  {
    if steps == [] {
      assert run + steps == run;
    } else {
      assert steps == [steps[0]] && (run + steps)[..|run|] == run;
    }
  }

  /** One flag for the entry a task adds to the log, if it adds one: whether a
      write to the desktop works in it. */
  function Worked(v: Moment, log: seq<Star.Event>, task: Task): seq<bool>
    requires CanPerform(v, task)
  {
    if LogOf(v, log, task) == log then []
    else [(task.HubReceives? || task.SpokeReceives?) && task.works]
  }

  /** A schedule: tasks in any order; one that cannot be performed is skipped.
      `worked` has one flag for each entry of the log. */
  datatype Course = Course(now: Moment, log: seq<Star.Event>, worked: seq<bool>, run: seq<Star.Step>)

  function Carry(c: Course, task: Task): Course {
    if !CanPerform(c.now, task) then c
    else
      Course(Perform(c.now, task), LogOf(c.now, c.log, task), c.worked + Worked(c.now, c.log, task),
        c.run + StepsOf(c.now, task))
  }

  function Schedule(start: Moment, tasks: seq<Task>): Course {
    if tasks == [] then Course(start, [], [], [])
    else Carry(Schedule(start, tasks[..|tasks| - 1]), tasks[|tasks| - 1])
  }

  ghost predicate Starts(cfg: Star.Config, limits: NodeId -> nat, v: Moment) {
    && v.hub == Fresh(cfg.hub, limits(cfg.hub)) && v.hubDesktop == [] && v.accepted == map[] && v.local == []
    && v.spokes == (map p | p in cfg.spokes :: Fresh(p, limits(p)))
    && v.desktops == (map p | p in cfg.spokes :: [])
    && v.inputs.Keys == cfg.spokes && (forall p :: p in cfg.spokes ==> v.inputs[p].events == [])
    && v.up.Keys == v.down.Keys == v.writers.Keys == v.outboxes.Keys == cfg.spokes
    && forall p :: p in cfg.spokes ==> v.up[p] == [] && v.down[p] == [] && v.writers[p] == [] && v.outboxes[p] == []
  }

  lemma StartsAtInit(cfg: Star.Config, limits: NodeId -> nat, v: Moment)
    requires Starts(cfg, limits, v)
    ensures StateOf(v, []) == Star.Init(cfg, limits)
  {
    var none: map<NodeId, seq<Snapshot>> := map p | p in cfg.spokes :: [];
    Star.SameMap(Joined(v.up, v.outboxes), none);
    Star.SameMap(Joined(v.down, v.writers), none);
  }

  /** Every schedule of tasks is a run of the star. */
  lemma {:induction false} ScheduleIsStarRun(cfg: Star.Config, limits: NodeId -> nat, start: Moment, tasks: seq<Task>)
    requires Starts(cfg, limits, start)
    ensures var c := Schedule(start, tasks); Star.Exec(cfg, limits, c.run) == Some(StateOf(c.now, c.log))
  {
    if tasks == [] {
      StartsAtInit(cfg, limits, start);
    } else {
      var front, task := tasks[..|tasks| - 1], tasks[|tasks| - 1];
      ScheduleIsStarRun(cfg, limits, start, front);
      var c := Schedule(start, front);
      if CanPerform(c.now, task) {
        TaskAmounts(c.now, c.log, task);
        ExecMore(cfg, limits, c.run, StateOf(c.now, c.log), StepsOf(c.now, task),
          StateOf(Perform(c.now, task), LogOf(c.now, c.log, task)));
      }
    }
  }

  // ----- no task is blocked -----

  /** Spoke `p` is known in the same places. */
  predicate SameAt(v: Moment, p: NodeId, w: Moment) {
    && (p in w.spokes <==> p in v.spokes) && (p in w.desktops <==> p in v.desktops)
    && (p in w.inputs <==> p in v.inputs) && (p in w.outboxes <==> p in v.outboxes)
    && (p in w.writers <==> p in v.writers) && (p in w.up <==> p in v.up) && (p in w.down <==> p in v.down)
  }

  lemma HubReadsSameAt(v: Moment, q: NodeId, snap: Snapshot, works: bool, p: NodeId, w: Moment)
    requires Present(v, q) && v.up[q] != [] && w == HubReads(v, q, snap, works)
    ensures SameAt(v, p, w)
  {
  }

  lemma HubReceivedSameAt(v: Moment, q: NodeId, works: bool, p: NodeId, w: Moment)
    requires Present(v, q) && v.up[q] != [] && w == HubReceived(v, q, works)
    ensures SameAt(v, p, w)
  {
    if v.up[q][0].Clipboard? {
      HubReadsSameAt(v, q, v.up[q][0].snap, works, p, w);
    }
  }

  lemma SpokeReadsSameAt(v: Moment, q: NodeId, snap: Snapshot, works: bool, p: NodeId, w: Moment)
    requires Present(v, q) && v.down[q] != [] && w == SpokeReads(v, q, snap, works)
    ensures SameAt(v, p, w)
  {
  }

  lemma SpokeReceivedSameAt(v: Moment, q: NodeId, works: bool, p: NodeId, w: Moment)
    requires Present(v, q) && v.down[q] != [] && w == SpokeReceived(v, q, works)
    ensures SameAt(v, p, w)
  {
    if v.down[q][0].Clipboard? {
      SpokeReadsSameAt(v, q, v.down[q][0].snap, works, p, w);
    }
  }

  /** The tasks that broadcast. */
  predicate IsBroadcast(task: Task) {
    task.HubBroadcasts? || task.HubRelays? || task.HubSendsInput?
  }

  lemma BroadcastSameAt(v: Moment, task: Task, p: NodeId, w: Moment)
    requires CanPerform(v, task) && w == Perform(v, task) && IsBroadcast(task)
    ensures SameAt(v, p, w)
  {
  }

  lemma CopySameAt(v: Moment, task: Task, p: NodeId, w: Moment)
    requires CanPerform(v, task) && w == Perform(v, task) && (task.SpokeCopies? || task.HubCopies?)
    ensures SameAt(v, p, w)
  {
  }

  lemma WriteSameAt(v: Moment, task: Task, p: NodeId, w: Moment)
    requires CanPerform(v, task) && w == Perform(v, task) && (task.SpokeWrites? || task.HubWrites?)
    ensures SameAt(v, p, w)
  {
  }

  lemma OtherFrameSameAt(v: Moment, task: Task, p: NodeId, w: Moment)
    requires CanPerform(v, task) && w == Perform(v, task) && task.OtherFrame?
    ensures SameAt(v, p, w)
  {
  }

  /** Spokes neither come nor go. */
  lemma PerformSameAt(v: Moment, task: Task, p: NodeId, w: Moment)
    requires CanPerform(v, task) && w == Perform(v, task)
    ensures SameAt(v, p, w)
  {
    if IsBroadcast(task) {
      BroadcastSameAt(v, task, p, w);
    } else if task.HubReceives? {
      HubReceivedSameAt(v, task.peer, task.works, p, w);
    } else if task.SpokeReceives? {
      SpokeReceivedSameAt(v, task.spoke, task.works, p, w);
    } else if task.OtherFrame? {
      OtherFrameSameAt(v, task, p, w);
    } else if task.SpokeCopies? || task.HubCopies? {
      CopySameAt(v, task, p, w);
    } else {
      WriteSameAt(v, task, p, w);
    }
  }

  lemma {:induction false} ScheduleSameAt(start: Moment, tasks: seq<Task>, p: NodeId)
    ensures SameAt(start, p, Schedule(start, tasks).now)
  {
    if tasks != [] {
      var front, task := tasks[..|tasks| - 1], tasks[|tasks| - 1];
      ScheduleSameAt(start, front, p);
      var v := Schedule(start, front).now;
      if CanPerform(v, task) {
        PerformSameAt(v, task, p, Perform(v, task));
      }
    }
  }

  /** A reader, a writer, or the broadcast loop. */
  predicate Drains(task: Task) {
    || task.SpokeWrites? || task.SpokeReceives? || task.HubWrites? || task.HubReceives?
    || task.HubRelays? || task.HubBroadcasts?
  }

  /** Nothing is queued, on a wire, or waiting to be broadcast. */
  ghost predicate Drained(v: Moment) {
    && v.accepted == map[] && v.local == []
    && (forall p :: p in v.up ==> v.up[p] == []) && (forall p :: p in v.outboxes ==> v.outboxes[p] == [])
    && (forall p :: p in v.down ==> v.down[p] == []) && (forall p :: p in v.writers ==> v.writers[p] == [])
  }

  /** A node known anywhere is a connected spoke. */
  ghost predicate AllPresent(v: Moment) {
    forall p :: p in v.up || p in v.down || p in v.writers || p in v.outboxes ==> Present(v, p)
  }

  lemma BlockedIsDrained(v: Moment)
    requires AllPresent(v) && forall task :: Drains(task) ==> !CanPerform(v, task)
    ensures Drained(v)
  {
    assert !CanPerform(v, HubBroadcasts);
    forall p
      ensures p !in v.accepted
    {
      assert !CanPerform(v, HubRelays(p));
    }
    forall p | Present(v, p)
      ensures v.up[p] == [] && v.outboxes[p] == [] && v.down[p] == [] && v.writers[p] == []
    {
      assert !CanPerform(v, HubReceives(p, true)) && !CanPerform(v, SpokeWrites(p));
      assert !CanPerform(v, SpokeReceives(p, true)) && !CanPerform(v, HubWrites(p));
    }
  }

  lemma DrainedIsBlocked(v: Moment, task: Task)
    requires Drained(v) && Drains(task)
    ensures !CanPerform(v, task)
  {
  }

  lemma ScheduleKnows(cfg: Star.Config, limits: NodeId -> nat, start: Moment, tasks: seq<Task>, v: Moment)
    requires Starts(cfg, limits, start) && v == Schedule(start, tasks).now
    ensures AllPresent(v) && forall p :: Present(v, p) <==> p in cfg.spokes
  {
    forall p
      ensures p in v.up || p in v.down || p in v.writers || p in v.outboxes ==> p in cfg.spokes
      ensures Present(v, p) <==> p in cfg.spokes
    {
      ScheduleSameAt(start, tasks, p);
    }
  }

  /** Nobody waits for anybody else: each reader and writer of a connected spoke
      goes on exactly when there is something for it to take, and a session's
      reader when besides it has passed on what it took last. */
  lemma TasksDoNotWait(v: Moment, p: NodeId, works: bool)
    requires Present(v, p)
    ensures CanPerform(v, HubReceives(p, works)) <==> v.up[p] != [] && p !in v.accepted
    ensures CanPerform(v, HubWrites(p)) <==> v.writers[p] != []
    ensures CanPerform(v, SpokeReceives(p, works)) <==> v.down[p] != []
    ensures CanPerform(v, SpokeWrites(p)) <==> v.outboxes[p] != []
    ensures CanPerform(v, HubRelays(p)) <==> p in v.accepted
    ensures CanPerform(v, HubBroadcasts) <==> v.local != []
  {
  }

  /** No deadlock: after any schedule the readers, writers and the broadcast loop
      are all blocked exactly when nothing is queued, on a wire or waiting, and
      anybody connected can copy at any time. */
  lemma BlockedIffDrained(cfg: Star.Config, limits: NodeId -> nat, start: Moment, tasks: seq<Task>)
    requires Starts(cfg, limits, start)
    ensures var v := Schedule(start, tasks).now;
      && ((forall task :: Drains(task) ==> !CanPerform(v, task)) <==> Drained(v))
      && (forall text, now :: CanPerform(v, HubCopies(text, now)))
      && forall p, text, now :: CanPerform(v, SpokeCopies(p, text, now)) <==> p in cfg.spokes
  {
    var v := Schedule(start, tasks).now;
    ScheduleKnows(cfg, limits, start, tasks, v);
    if Drained(v) {
      forall task | Drains(task)
        ensures !CanPerform(v, task)
      {
        DrainedIsBlocked(v, task);
      }
    } else if forall task :: Drains(task) ==> !CanPerform(v, task) {
      BlockedIsDrained(v);
    }
  }

  // ----- the objects -----

  /** The hub object holds its part of the moment. */
  ghost predicate HubAt(hub: Hub, v: Moment)
    reads hub, hub.engine, hub.lazy, hub.desktop
  {
    && v.hub == hub.engine.View() && v.writers == hub.writers && v.accepted == hub.accepted
    && v.local == hub.local && v.stored == hub.lazy.byHash && v.hubDesktop == hub.desktop.written
  }

  /** So does the object of spoke `p`. */
  ghost predicate SpokeAt(spoke: Spoke, p: NodeId, v: Moment)
    reads spoke, spoke.engine, spoke.desktop
  {
    && p in v.spokes && v.spokes[p] == spoke.engine.View()
    && p in v.outboxes && v.outboxes[p] == spoke.outbox
    && p in v.desktops && v.desktops[p] == spoke.desktop.written
    && p in v.inputs && v.inputs[p] == Emitting(spoke.inputEnabled, spoke.emitted)
  }

  predicate IsHubTask(task: Task) {
    !task.SpokeCopies? && !task.SpokeWrites? && !task.SpokeReceives? && !task.OtherFrame?
  }

  predicate IsSpokeTask(task: Task, p: NodeId) {
    (task.SpokeCopies? || task.SpokeWrites? || task.SpokeReceives?) && task.spoke == p
  }

  lemma HubReceivedIsLocal(v: Moment, p: NodeId, works: bool, w: Moment)
    requires Present(v, p) && v.up[p] != [] && w == HubReceived(v, p, works)
    ensures w.spokes == v.spokes && w.desktops == v.desktops && w.inputs == v.inputs
    ensures w.outboxes == v.outboxes && w.down == v.down
    ensures w.up == v.up[p := v.up[p][1..]]
  {
  }

  /** A hub's task leaves every spoke as it is. */
  lemma HubTasksAreLocal(v: Moment, task: Task, w: Moment)
    requires CanPerform(v, task) && w == Perform(v, task)
    requires IsHubTask(task) || task.OtherFrame?
    ensures w.spokes == v.spokes && w.desktops == v.desktops && w.inputs == v.inputs && w.outboxes == v.outboxes
  {
    if task.HubReceives? {
      HubReceivedIsLocal(v, task.peer, task.works, w);
    }
  }

  /** `w` differs from `v` at most in spoke `p` and on the wires. */
  ghost predicate OnlySpoke(v: Moment, p: NodeId, w: Moment) {
    && w.hub == v.hub && w.writers == v.writers && w.accepted == v.accepted && w.local == v.local
    && w.stored == v.stored && w.hubDesktop == v.hubDesktop
    && (forall q :: q in v.desktops && q != p ==> q in w.desktops && w.desktops[q] == v.desktops[q])
    && (forall q :: q in v.inputs && q != p ==> q in w.inputs && w.inputs[q] == v.inputs[q])
    && (forall q :: q in v.spokes && q != p ==> q in w.spokes && w.spokes[q] == v.spokes[q])
    && (forall q :: q in v.outboxes && q != p ==> q in w.outboxes && w.outboxes[q] == v.outboxes[q])
  }

  lemma SpokeReceivedIsLocal(v: Moment, p: NodeId, works: bool)
    requires Present(v, p) && v.down[p] != []
    ensures OnlySpoke(v, p, SpokeReceived(v, p, works))
  {
  }

  /** A spoke's task leaves the hub and all other spokes as they are. */
  lemma SpokeTasksAreLocal(v: Moment, task: Task, p: NodeId, w: Moment)
    requires CanPerform(v, task) && w == Perform(v, task) && IsSpokeTask(task, p)
    ensures OnlySpoke(v, p, w)
  {
    if task.SpokeReceives? {
      SpokeReceivedIsLocal(v, p, task.works);
    }
  }

  /** A session's reader at the hub object, up to its broadcast. */
  method HubReaderTurn(hub: Hub, task: Task, arriving: WireFrame, ghost v: Moment)
    requires HubAt(hub, v) && task.HubReceives? && CanPerform(v, task)
    requires arriving == v.up[task.peer][0]
    modifies hub, hub.engine, hub.desktop
    ensures HubAt(hub, Perform(v, task))
  {
    hub.Receive(task.peer, arriving, task.works);
    assert v.writers[task.peer] + [] == v.writers[task.peer];
  }

  /** One turn of the hub object: its fields become what `Perform` makes of them;
      `sent` goes on the wire. */
  method HubTurn(hub: Hub, task: Task, arriving: WireFrame, ghost v: Moment) returns (sent: seq<WireFrame>)
    requires HubAt(hub, v) && IsHubTask(task) && CanPerform(v, task)
    requires task.HubReceives? ==> arriving == v.up[task.peer][0]
    modifies hub, hub.engine, hub.desktop
    ensures HubAt(hub, Perform(v, task))
    ensures sent == if task.HubWrites? then [v.writers[task.peer][0]] else []
  {
    sent := [];
    match task
    case HubCopies(text, now) => hub.CopyText(text, now);
    case HubBroadcasts => hub.BroadcastLocal();
    case HubReceives(_, _) => HubReaderTurn(hub, task, arriving, v);
    case HubRelays(p) => hub.Relay(p);
    case HubWrites(p) =>
      var frame := hub.NextFrame(p);
      sent := [frame];
    case HubSendsInput(event) => hub.SendInput(event);
  }

  /** One turn of the object of spoke `p`. */
  method SpokeTurn(spoke: Spoke, p: NodeId, task: Task, arriving: WireFrame, ghost v: Moment)
      returns (sent: seq<WireFrame>)
    requires SpokeAt(spoke, p, v) && IsSpokeTask(task, p) && CanPerform(v, task)
    requires task.SpokeReceives? ==> arriving == v.down[p][0]
    modifies spoke, spoke.engine, spoke.desktop
    ensures SpokeAt(spoke, p, Perform(v, task))
    ensures Perform(v, task).up == v.up[p := v.up[p] + sent]
  {
    sent := [];
    assert v.up[p] + [] == v.up[p];
    match task
    case SpokeCopies(_, text, now) => spoke.CopyText(text, now);
    case SpokeWrites(_) =>
      var frame := spoke.NextFrame();
      sent := [frame];
    case SpokeReceives(_, works) => sent := spoke.OnFrame(arriving, works);
  }

  /** Whatever the hub object does, in whatever state the others are, is the
      matching star step, or nothing the star can see. */
  method HubTurnInStar(hub: Hub, task: Task, arriving: WireFrame, ghost v: Moment, ghost log: seq<Star.Event>)
      returns (sent: seq<WireFrame>, ghost w: Moment)
    requires HubAt(hub, v) && IsHubTask(task) && CanPerform(v, task)
    requires task.HubReceives? ==> arriving == v.up[task.peer][0]
    modifies hub, hub.engine, hub.desktop
    ensures HubAt(hub, w) && w == Perform(v, task)
    ensures Amounts(StateOf(v, log), StepsOf(v, task), StateOf(w, LogOf(v, log, task)))
  {
    sent := HubTurn(hub, task, arriving, v);
    w := Perform(v, task);
    TaskAmounts(v, log, task);
  }

  /** The same for the object of spoke `p`. */
  method SpokeTurnInStar(
      spoke: Spoke, p: NodeId, task: Task, arriving: WireFrame, ghost v: Moment, ghost log: seq<Star.Event>)
      returns (sent: seq<WireFrame>, ghost w: Moment)
    requires SpokeAt(spoke, p, v) && IsSpokeTask(task, p) && CanPerform(v, task)
    requires task.SpokeReceives? ==> arriving == v.down[p][0]
    modifies spoke, spoke.engine, spoke.desktop
    ensures SpokeAt(spoke, p, w) && w == Perform(v, task)
    ensures Amounts(StateOf(v, log), StepsOf(v, task), StateOf(w, LogOf(v, log, task)))
  {
    sent := SpokeTurn(spoke, p, task, arriving, v);
    w := Perform(v, task);
    TaskAmounts(v, log, task);
  }

  /** No two spokes share an object. */
  ghost predicate Apart(spokes: map<NodeId, Spoke>) {
    forall p: NodeId, q: NodeId :: p in spokes && q in spokes && p != q ==>
      spokes[p] != spokes[q] && spokes[p].engine != spokes[q].engine && spokes[p].desktop != spokes[q].desktop
  }

  /** Nor does one with the hub. */
  ghost predicate Separate(hub: Hub, spokes: map<NodeId, Spoke>) {
    Apart(spokes) && forall p: NodeId :: p in spokes ==>
      spokes[p].engine != hub.engine && spokes[p].desktop != hub.desktop
  }

  ghost function PartsOf(spokes: map<NodeId, Spoke>): set<object> {
    (set p: NodeId | p in spokes :: spokes[p]) + (set p: NodeId | p in spokes :: spokes[p].engine)
    + (set p: NodeId | p in spokes :: spokes[p].desktop)
  }

  ghost predicate SpokesAt(spokes: map<NodeId, Spoke>, v: Moment)
    reads PartsOf(spokes)
  {
    forall p: NodeId {:trigger spokes[p]} :: p in spokes ==> SpokeAt(spokes[p], p, v)
  }

  /** A turn of the hub object leaves the spoke objects where they are. */
  method HubTurnAmong(
      hub: Hub, spokes: map<NodeId, Spoke>, task: Task, arriving: WireFrame, ghost v: Moment, ghost w: Moment)
      returns (sent: seq<WireFrame>)
    requires Separate(hub, spokes) && SpokesAt(spokes, v)
    requires HubAt(hub, v) && IsHubTask(task) && CanPerform(v, task) && w == Perform(v, task)
    requires task.HubReceives? ==> arriving == v.up[task.peer][0]
    modifies hub, hub.engine, hub.desktop
    ensures HubAt(hub, w) && SpokesAt(spokes, w)
    ensures sent == if task.HubWrites? then [v.writers[task.peer][0]] else []
  {
    sent := HubTurn(hub, task, arriving, v);
    HubTasksAreLocal(v, task, w);
  }

  lemma OthersStayAt(spokes: map<NodeId, Spoke>, p: NodeId, v: Moment, w: Moment)
    requires OnlySpoke(v, p, w) && p in spokes && SpokeAt(spokes[p], p, w)
    requires forall q: NodeId {:trigger spokes[q]} :: q in spokes && q != p ==>
      SpokeAt(spokes[q], q, v)
    ensures SpokesAt(spokes, w)
  {
  }

  /** A turn of one spoke object leaves all the others where they are. */
  method SpokeTurnAmong(
      spokes: map<NodeId, Spoke>, p: NodeId, task: Task, arriving: WireFrame, ghost v: Moment, ghost w: Moment)
      returns (sent: seq<WireFrame>)
    requires Apart(spokes) && SpokesAt(spokes, v) && p in spokes
    requires IsSpokeTask(task, p) && CanPerform(v, task) && w == Perform(v, task)
    requires task.SpokeReceives? ==> arriving == v.down[p][0]
    modifies spokes[p], spokes[p].engine, spokes[p].desktop
    ensures SpokesAt(spokes, w) && OnlySpoke(v, p, w) && w.up == v.up[p := v.up[p] + sent]
  {
    sent := SpokeTurn(spokes[p], p, task, arriving, v);
    SpokeTasksAreLocal(v, task, p, w);
    OthersStayAt(spokes, p, v, w);
  }

  /** The frames on the wire in both directions of every connection. */
  datatype Wires = Wires(up: map<NodeId, seq<WireFrame>>, down: map<NodeId, seq<WireFrame>>)

  /** All objects and the wires hold what the moment says. */
  ghost predicate AllAt(hub: Hub, spokes: map<NodeId, Spoke>, wires: Wires, v: Moment)
    reads hub, hub.engine, hub.lazy, hub.desktop, PartsOf(spokes)
  {
    && HubAt(hub, v) && SpokesAt(spokes, v)
    && v.up == wires.up && v.down == wires.down && v.spokes.Keys <= spokes.Keys
  }

  predicate Wired(hub: Hub, spokes: map<NodeId, Spoke>, wires: Wires, p: NodeId)
    reads hub
  {
    p in spokes && p in hub.writers && p in wires.up && p in wires.down
  }

  /** What the tasks test before they go on, on the objects themselves. */
  predicate Able(hub: Hub, spokes: map<NodeId, Spoke>, wires: Wires, task: Task)
    reads hub, set p: NodeId | p in spokes :: spokes[p]
  {
    match task
    case SpokeCopies(p, _, _) => Wired(hub, spokes, wires, p)
    case SpokeWrites(p) => Wired(hub, spokes, wires, p) && spokes[p].outbox != []
    case SpokeReceives(p, _) => Wired(hub, spokes, wires, p) && wires.down[p] != []
    case HubCopies(_, _) => true
    case HubBroadcasts => hub.local != []
    case HubReceives(p, _) => Wired(hub, spokes, wires, p) && wires.up[p] != [] && p !in hub.accepted
    case HubRelays(p) => p in hub.accepted
    case HubWrites(p) => Wired(hub, spokes, wires, p) && hub.writers[p] != []
    case HubSendsInput(_) => true
    case OtherFrame(p, _, f) => Wired(hub, spokes, wires, p) && !f.Clipboard?
  }

  lemma AbleIsCanPerform(hub: Hub, spokes: map<NodeId, Spoke>, wires: Wires, task: Task, v: Moment)
    requires AllAt(hub, spokes, wires, v)
    ensures Able(hub, spokes, wires, task) <==> CanPerform(v, task)
  {
    assert forall p: NodeId :: p in spokes ==> SpokeAt(spokes[p], p, v);
    assert forall p: NodeId :: Wired(hub, spokes, wires, p) <==> Present(v, p);
  }

  /** What a task at the hub takes off the wires and puts on them. */
  function HubWires(wires: Wires, task: Task, sent: seq<WireFrame>): Wires {
    if task.HubReceives? && task.peer in wires.up && wires.up[task.peer] != [] then
      wires.(up := wires.up[task.peer := wires.up[task.peer][1..]])
    else if task.HubWrites? && task.peer in wires.down then
      wires.(down := wires.down[task.peer := wires.down[task.peer] + sent])
    else wires
  }

  lemma HubWiresAre(v: Moment, task: Task, w: Moment, wires: Wires, sent: seq<WireFrame>)
    requires IsHubTask(task) && CanPerform(v, task) && w == Perform(v, task)
    requires v.up == wires.up && v.down == wires.down
    requires sent == if task.HubWrites? then [v.writers[task.peer][0]] else []
    ensures w.up == HubWires(wires, task, sent).up && w.down == HubWires(wires, task, sent).down
  {
    if task.HubReceives? {
      HubReceivedIsLocal(v, task.peer, task.works, w);
    }
  }

  method HubTask(hub: Hub, spokes: map<NodeId, Spoke>, wires: Wires, task: Task, ghost v: Moment, ghost w: Moment)
      returns (after: Wires)
    requires Separate(hub, spokes) && AllAt(hub, spokes, wires, v)
    requires IsHubTask(task) && CanPerform(v, task) && w == Perform(v, task)
    modifies hub, hub.engine, hub.desktop
    ensures AllAt(hub, spokes, after, w)
  {
    var arriving := if task.HubReceives? then wires.up[task.peer][0] else Control(Ping(0));
    var sent := HubTurnAmong(hub, spokes, task, arriving, v, w);
    HubTasksAreLocal(v, task, w);
    HubWiresAre(v, task, w, wires, sent);
    after := HubWires(wires, task, sent);
  }

  /** The same for a task at spoke `p`. */
  function SpokeWires(wires: Wires, p: NodeId, task: Task, sent: seq<WireFrame>): Wires
    requires p in wires.up
  {
    Wires(
      wires.up[p := wires.up[p] + sent],
      if task.SpokeReceives? && p in wires.down && wires.down[p] != [] then wires.down[p := wires.down[p][1..]]
      else wires.down)
  }

  lemma SpokeReceivedWires(v: Moment, p: NodeId, works: bool, w: Moment)
    requires Present(v, p) && v.down[p] != [] && w == SpokeReceived(v, p, works)
    ensures w.down == v.down[p := v.down[p][1..]] && w.spokes.Keys == v.spokes.Keys
  {
  }

  lemma SpokeWiresAre(v: Moment, p: NodeId, task: Task, w: Moment, wires: Wires, sent: seq<WireFrame>)
    requires IsSpokeTask(task, p) && CanPerform(v, task) && w == Perform(v, task)
    requires v.up == wires.up && v.down == wires.down && w.up == v.up[p := v.up[p] + sent]
    ensures w.up == SpokeWires(wires, p, task, sent).up && w.down == SpokeWires(wires, p, task, sent).down
    ensures w.spokes.Keys == v.spokes.Keys
  {
    if task.SpokeReceives? {
      SpokeReceivedWires(v, p, task.works, w);
    }
  }

  /** A task at one spoke, as far as the spokes and the wires go. */
  method SpokeTask(
      spokes: map<NodeId, Spoke>, wires: Wires, p: NodeId, task: Task, ghost v: Moment, ghost w: Moment)
      returns (after: Wires)
    requires Apart(spokes) && SpokesAt(spokes, v) && p in spokes && v.up == wires.up && v.down == wires.down
    requires IsSpokeTask(task, p) && CanPerform(v, task) && w == Perform(v, task)
    modifies spokes[p], spokes[p].engine, spokes[p].desktop
    ensures SpokesAt(spokes, w) && OnlySpoke(v, p, w)
    ensures w.up == after.up && w.down == after.down && w.spokes.Keys == v.spokes.Keys
  {
    var arriving := if task.SpokeReceives? then wires.down[p][0] else Control(Ping(0));
    var sent := SpokeTurnAmong(spokes, p, task, arriving, v, w);
    SpokeWiresAre(v, p, task, w, wires, sent);
    after := SpokeWires(wires, p, task, sent);
  }

  lemma HubStaysAt(hub: Hub, p: NodeId, v: Moment, w: Moment)
    requires HubAt(hub, v) && OnlySpoke(v, p, w)
    ensures HubAt(hub, w)
  {
  }

  /** The hub object is not touched by it. */
  method SpokeTaskBesideHub(
      hub: Hub, spokes: map<NodeId, Spoke>, wires: Wires, p: NodeId, task: Task, ghost v: Moment, ghost w: Moment)
      returns (after: Wires)
    requires Separate(hub, spokes) && SpokesAt(spokes, v) && p in spokes && HubAt(hub, v)
    requires v.up == wires.up && v.down == wires.down
    requires IsSpokeTask(task, p) && CanPerform(v, task) && w == Perform(v, task)
    modifies spokes[p], spokes[p].engine, spokes[p].desktop
    ensures HubAt(hub, v) && SpokesAt(spokes, w) && OnlySpoke(v, p, w)
    ensures w.up == after.up && w.down == after.down && w.spokes.Keys == v.spokes.Keys
  {
    assert spokes[p].engine != hub.engine && spokes[p].desktop != hub.desktop;
    after := SpokeTask(spokes, wires, p, task, v, w);
  }

  method SpokeTaskAt(
      hub: Hub, spokes: map<NodeId, Spoke>, wires: Wires, p: NodeId, task: Task, ghost v: Moment, ghost w: Moment)
      returns (after: Wires)
    requires Separate(hub, spokes) && AllAt(hub, spokes, wires, v) && p in spokes
    requires IsSpokeTask(task, p) && CanPerform(v, task) && w == Perform(v, task)
    modifies spokes[p], spokes[p].engine, spokes[p].desktop
    ensures AllAt(hub, spokes, after, w)
  {
    after := SpokeTaskBesideHub(hub, spokes, wires, p, task, v, w);
    HubStaysAt(hub, p, v, w);
  }

  /** A frame of another kind enters a connection; no object is involved. */
  lemma OtherFrameAt(
      hub: Hub, spokes: map<NodeId, Spoke>, wires: Wires, task: Task, v: Moment, w: Moment, after: Wires)
    requires AllAt(hub, spokes, wires, v) && task.OtherFrame? && CanPerform(v, task) && w == Perform(v, task)
    requires after == var p := task.peer;
      if task.toHub then wires.(up := wires.up[p := wires.up[p] + [task.frame]])
      else wires.(down := wires.down[p := wires.down[p] + [task.frame]])
    ensures AllAt(hub, spokes, after, w)
  {
    assert forall p: NodeId :: p in spokes ==> SpokeAt(spokes[p], p, v);
  }

  /** One task on the objects: skipped if it cannot be performed. */
  method PerformTask(hub: Hub, spokes: map<NodeId, Spoke>, wires: Wires, task: Task, ghost v: Moment)
      returns (after: Wires, ghost w: Moment)
    requires Separate(hub, spokes) && AllAt(hub, spokes, wires, v)
    modifies hub, hub.engine, hub.desktop, PartsOf(spokes)
    ensures AllAt(hub, spokes, after, w)
    ensures w == if CanPerform(v, task) then Perform(v, task) else v
  {
    AbleIsCanPerform(hub, spokes, wires, task, v);
    after, w := wires, v;
    if Able(hub, spokes, wires, task) {
      w := Perform(v, task);
      if task.OtherFrame? {
        var p := task.peer;
        if task.toHub {
          after := wires.(up := wires.up[p := wires.up[p] + [task.frame]]);
        } else {
          after := wires.(down := wires.down[p := wires.down[p] + [task.frame]]);
        }
        OtherFrameAt(hub, spokes, wires, task, v, w, after);
      } else if task.SpokeCopies? || task.SpokeWrites? || task.SpokeReceives? {
        after := SpokeTaskAt(hub, spokes, wires, task.spoke, task, v, w);
      } else {
        after := HubTask(hub, spokes, wires, task, v, w);
      }
    }
  }

  /** Any schedule, performed by the objects: they end where the schedule says,
      and that is a run of the star. */
  method PerformAll(
      ghost cfg: Star.Config, ghost limits: NodeId -> nat, hub: Hub, spokes: map<NodeId, Spoke>,
      tasks: seq<Task>, start: Wires, ghost first: Moment)
      returns (wires: Wires, ghost c: Course)
    requires Separate(hub, spokes) && AllAt(hub, spokes, start, first) && Starts(cfg, limits, first)
    modifies hub, hub.engine, hub.desktop, PartsOf(spokes)
    ensures c == Schedule(first, tasks) && AllAt(hub, spokes, wires, c.now)
    ensures Star.Exec(cfg, limits, c.run) == Some(StateOf(c.now, c.log))
  {
    wires := start;
    c := Course(first, [], [], []);
    var i := 0;
    while i < |tasks|
      invariant i <= |tasks| && c == Schedule(first, tasks[..i]) && AllAt(hub, spokes, wires, c.now)
    {
      ghost var w;
      wires, w := PerformTask(hub, spokes, wires, tasks[i], c.now);
      assert tasks[..i + 1][..i] == tasks[..i];
      c := Carry(c, tasks[i]);
      i := i + 1;
    }
    assert tasks[..i] == tasks;
    ScheduleIsStarRun(cfg, limits, first, tasks);
  }

  // ----- from nothing -----

  /** A spoke object that has done nothing yet. */
  ghost predicate IsNew(spoke: Spoke, p: NodeId, limit: nat, enabled: bool)
    reads spoke, spoke.engine, spoke.desktop
  {
    && spoke.engine.View() == Fresh(p, limit) && spoke.desktop.written == []
    && spoke.inputEnabled == enabled && spoke.outbox == [] && spoke.emitted == []
  }

  method NewSpoke(p: NodeId, limit: nat, enabled: bool) returns (spoke: Spoke)
    ensures fresh(spoke) && fresh(spoke.engine) && fresh(spoke.desktop) && IsNew(spoke, p, limit, enabled)
  {
    var engine := new Engine(p, limit);
    var desktop := new Desktop();
    spoke := new Spoke(engine, desktop, enabled);
  }

  ghost predicate AllNew(spokes: map<NodeId, Spoke>, limits: NodeId -> nat, enabled: set<NodeId>)
    reads PartsOf(spokes)
  {
    forall p: NodeId {:trigger spokes[p]} :: p in spokes ==> IsNew(spokes[p], p, limits(p), p in enabled)
  }

  lemma ApartMore(spokes: map<NodeId, Spoke>, p: NodeId, spoke: Spoke)
    requires Apart(spokes) && p !in spokes
    requires forall q: NodeId {:trigger spokes[q]} :: q in spokes ==>
      spokes[q] != spoke && spokes[q].engine != spoke.engine && spokes[q].desktop != spoke.desktop
    ensures Apart(spokes[p := spoke])
  {
  }

  lemma AllNewMore(spokes: map<NodeId, Spoke>, limits: NodeId -> nat, enabled: set<NodeId>, p: NodeId, spoke: Spoke)
    requires AllNew(spokes, limits, enabled) && IsNew(spoke, p, limits(p), p in enabled)
    ensures AllNew(spokes[p := spoke], limits, enabled)
  {
  }

  method AddSpoke(spokes: map<NodeId, Spoke>, limits: NodeId -> nat, enabled: set<NodeId>, p: NodeId)
      returns (spoke: Spoke)
    requires Apart(spokes) && AllNew(spokes, limits, enabled) && p !in spokes
    ensures fresh(spoke) && fresh(spoke.engine) && fresh(spoke.desktop)
    ensures Apart(spokes[p := spoke]) && AllNew(spokes[p := spoke], limits, enabled)
  {
    spoke := NewSpoke(p, limits(p), p in enabled);
    ApartMore(spokes, p, spoke);
    AllNewMore(spokes, limits, enabled, p, spoke);
  }

  /** One object a spoke, none shared. */
  method NewSpokes(ids: set<NodeId>, limits: NodeId -> nat, enabled: set<NodeId>) returns (spokes: map<NodeId, Spoke>)
    ensures spokes.Keys == ids && Apart(spokes) && AllNew(spokes, limits, enabled)
    ensures forall p: NodeId {:trigger spokes[p]} :: p in spokes ==>
      fresh(spokes[p]) && fresh(spokes[p].engine) && fresh(spokes[p].desktop)
    decreases |ids|
  {
    if ids == {} {
      spokes := map[];
    } else {
      var p :| p in ids;
      var others := NewSpokes(ids - {p}, limits, enabled);
      var spoke := AddSpoke(others, limits, enabled, p);
      spokes := others[p := spoke];
    }
  }

  /** The moment nothing has happened yet. */
  function First(cfg: Star.Config, limits: NodeId -> nat, enabled: set<NodeId>): Moment {
    var none: map<NodeId, seq<WireFrame>> := map p | p in cfg.spokes :: [];
    Moment(
      Fresh(cfg.hub, limits(cfg.hub)), [], none, map[], [],
      map p | p in cfg.spokes :: Fresh(p, limits(p)), map p | p in cfg.spokes :: [],
      map p | p in cfg.spokes :: Emitting(p in enabled, []), none, none, none, map[])
  }

  lemma NewSpokesAt(cfg: Star.Config, limits: NodeId -> nat, enabled: set<NodeId>, spokes: map<NodeId, Spoke>)
    requires AllNew(spokes, limits, enabled) && spokes.Keys == cfg.spokes
    ensures SpokesAt(spokes, First(cfg, limits, enabled))
  {
    var v := First(cfg, limits, enabled);
    forall p: NodeId {:trigger spokes[p]} | p in spokes
      ensures SpokeAt(spokes[p], p, v)
    {
      assert IsNew(spokes[p], p, limits(p), p in enabled);
    }
  }

  method NewHub(cfg: Star.Config, limits: NodeId -> nat, enabled: set<NodeId>, digest: Bytes -> Digest, cap: nat)
      returns (hub: Hub)
    ensures fresh(hub) && fresh(hub.engine) && fresh(hub.desktop) && HubAt(hub, First(cfg, limits, enabled))
  {
    var engine := new Engine(cfg.hub, limits(cfg.hub));
    var lazy := new Lazy.LazyStore(digest, cap);
    var desktop := new Desktop();
    hub := new Hub(engine, lazy, desktop, cfg.spokes);
  }

  method NewObjects(cfg: Star.Config, limits: NodeId -> nat, enabled: set<NodeId>, digest: Bytes -> Digest, cap: nat)
      returns (hub: Hub, spokes: map<NodeId, Spoke>)
    ensures fresh(hub) && fresh(hub.engine) && fresh(hub.desktop) && HubAt(hub, First(cfg, limits, enabled))
    ensures fresh(PartsOf(spokes))
    ensures spokes.Keys == cfg.spokes && Separate(hub, spokes) && AllNew(spokes, limits, enabled)
  {
    hub := NewHub(cfg, limits, enabled, digest, cap);
    spokes := NewSpokes(cfg.spokes, limits, enabled);
  }

  lemma StartsFirst(
      cfg: Star.Config, limits: NodeId -> nat, enabled: set<NodeId>, hub: Hub, spokes: map<NodeId, Spoke>, wires: Wires,
      v: Moment)
    requires v == First(cfg, limits, enabled) && HubAt(hub, v)
    requires AllNew(spokes, limits, enabled) && spokes.Keys == cfg.spokes
    requires wires.up == wires.down == map p | p in cfg.spokes :: []
    ensures Starts(cfg, limits, v) && AllAt(hub, spokes, wires, v)
  {
    NewSpokesAt(cfg, limits, enabled, spokes);
  }

  /** From nothing to the end of any schedule: a hub object and its spokes are
      made and carry it out, and hold what the schedule says, which is what the
      star holds after the matching run. */
  method DeployAndPerform(
      cfg: Star.Config, limits: NodeId -> nat, enabled: set<NodeId>, digest: Bytes -> Digest, cap: nat,
      tasks: seq<Task>)
      returns (hub: Hub, spokes: map<NodeId, Spoke>, wires: Wires, ghost c: Course)
    ensures Starts(cfg, limits, First(cfg, limits, enabled)) && c == Schedule(First(cfg, limits, enabled), tasks)
    ensures spokes.Keys == cfg.spokes && AllAt(hub, spokes, wires, c.now)
    ensures Star.Exec(cfg, limits, c.run) == Some(StateOf(c.now, c.log))
  {
    ghost var first := First(cfg, limits, enabled);
    hub, spokes := NewObjects(cfg, limits, enabled, digest, cap);
    var empty: map<NodeId, seq<WireFrame>> := map p | p in cfg.spokes :: [];
    StartsFirst(cfg, limits, enabled, hub, spokes, Wires(empty, empty), first);
    wires, c := PerformAll(cfg, limits, hub, spokes, tasks, Wires(empty, empty), first);
  }

  // ----- what that means for the objects -----

  /** No snapshot is queued, on a wire, or waiting to be broadcast. */
  ghost predicate Settled(v: Moment) {
    && v.accepted == map[] && (forall f :: f in v.local ==> !f.Clipboard?)
    && (forall p, f :: p in v.up && p in v.outboxes && f in v.up[p] + v.outboxes[p] ==> !f.Clipboard?)
    && (forall p, f :: p in v.down && p in v.writers && f in v.down[p] + v.writers[p] ==> !f.Clipboard?)
  }

  lemma {:induction false} NoLocalJobs(hub: NodeId, local: seq<WireFrame>)
    requires forall f :: f in local ==> !f.Clipboard?
    ensures LocalJobs(hub, local) == multiset{}
  {
    if local != [] {
      NoLocalJobs(hub, local[1..]);
    }
  }

  lemma SettledIsQuiescent(v: Moment, log: seq<Star.Event>)
    requires Settled(v)
    ensures Star.Quiescent(StateOf(v, log))
  {
    NoLocalJobs(v.hub.selfId, v.local);
    forall p | p in v.up && p in v.outboxes
      ensures Snaps(v.up[p] + v.outboxes[p]) == []
    {
      NoSnaps(v.up[p] + v.outboxes[p]);
    }
    forall p | p in v.down && p in v.writers
      ensures Snaps(v.down[p] + v.writers[p]) == []
    {
      NoSnaps(v.down[p] + v.writers[p]);
    }
  }

  lemma ScheduleConverges(cfg: Star.Config, limits: NodeId -> nat, start: Moment, tasks: seq<Task>)
    requires Star.ValidConfig(cfg) && Starts(cfg, limits, start) && Settled(Schedule(start, tasks).now)
    ensures var v, log := Schedule(start, tasks).now, Schedule(start, tasks).log;
      && v.hub.version == MaxProduced(log) && v.spokes.Keys == cfg.spokes
      && (forall p :: p in v.spokes ==> v.spokes[p].version == MaxProduced(log))
      && ((forall p :: p in v.spokes ==> Newest(v.spokes[p]) == Newest(v.hub)) <==> SoleMaximum(log))
  {
    var c := Schedule(start, tasks);
    ScheduleIsStarRun(cfg, limits, start, tasks);
    SettledIsQuiescent(c.now, c.log);
    StarTheorems.StarConverges(cfg, limits, c.run, StateOf(c.now, c.log));
  }

  /** Convergence of the objects: after any schedule, once no snapshot is on its
      way, all clocks equal the largest version ever produced, and all newest
      entries agree exactly when it was produced once. */
  lemma ObjectsConverge(
      cfg: Star.Config, limits: NodeId -> nat, start: Moment, tasks: seq<Task>, hub: Hub, spokes: map<NodeId, Spoke>)
    requires Star.ValidConfig(cfg) && Starts(cfg, limits, start) && spokes.Keys == cfg.spokes
    requires var v := Schedule(start, tasks).now;
      Settled(v) && HubAt(hub, v) && forall p: NodeId :: p in spokes ==> SpokeAt(spokes[p], p, v)
    ensures var max := MaxProduced(Schedule(start, tasks).log);
      hub.engine.localVersion == max && forall p: NodeId :: p in spokes ==> spokes[p].engine.localVersion == max
    ensures (forall p: NodeId :: p in spokes ==> Newest(spokes[p].engine.View()) == Newest(hub.engine.View()))
      <==> SoleMaximum(Schedule(start, tasks).log)
  {
    ScheduleConverges(cfg, limits, start, tasks);
    var v := Schedule(start, tasks).now;
    assert forall p: NodeId :: p in spokes ==> v.spokes[p] == spokes[p].engine.View();
    assert hub.engine.View() == v.hub;
  }

  /** After any schedule each engine object keeps exactly the last snapshots its
      node recorded, as many as its limit allows, but at least one. */
  lemma ObjectsKeepLast(
      cfg: Star.Config, limits: NodeId -> nat, start: Moment, tasks: seq<Task>, hub: Hub, spokes: map<NodeId, Spoke>)
    requires Star.ValidConfig(cfg) && Starts(cfg, limits, start) && spokes.Keys == cfg.spokes
    requires var v := Schedule(start, tasks).now; HubAt(hub, v) && SpokesAt(spokes, v)
    ensures var log := Schedule(start, tasks).log;
      && KeepsLast(hub.engine.history, Relay.NodeLog(log, cfg.hub), if limits(cfg.hub) < 1 then 1 else limits(cfg.hub))
      && forall p: NodeId :: p in spokes ==>
           KeepsLast(spokes[p].engine.history, Relay.NodeLog(log, p), if limits(p) < 1 then 1 else limits(p))
  {
    var c := Schedule(start, tasks);
    ScheduleIsStarRun(cfg, limits, start, tasks);
    StarTheorems.StarKeepsLast(cfg, limits, c.run, StateOf(c.now, c.log));
    assert forall p: NodeId :: p in spokes ==> SpokeAt(spokes[p], p, c.now);
  }

  /** No spoke object is ever sent a snapshot of its own: none is on its wire or
      in the hub object's queue for it. */
  lemma ObjectsNeverEcho(
      cfg: Star.Config, limits: NodeId -> nat, start: Moment, tasks: seq<Task>, hub: Hub, p: NodeId, snap: Snapshot)
    requires Star.ValidConfig(cfg) && Starts(cfg, limits, start) && p in cfg.spokes
    requires var v := Schedule(start, tasks).now;
      HubAt(hub, v) && p in hub.writers && p in v.down && Clipboard(snap) in v.down[p] + hub.writers[p]
    ensures snap.origin != p
  {
    var c := Schedule(start, tasks);
    ScheduleIsStarRun(cfg, limits, start, tasks);
    SnapsAre(c.now.down[p] + hub.writers[p]);
    Star.NeverSentBack(cfg, limits, c.run, StateOf(c.now, c.log), p);
  }
}
