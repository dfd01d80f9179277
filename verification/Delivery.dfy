/** Over whole schedules of tasks: from a fetch request at the hub object to the
    bytes a spoke reads off its connection, and from captured input to what a
    spoke emits. */
module Delivery {
  import opened Core
  import opened Deployed
  import opened Fetch
  import opened Framing
  import Lazy
  import opened Sessions
  import Star

  // ----- the frames of one connection -----

  /** What a task puts on the wire to spoke `p`. */
  function Puts(v: Moment, task: Task, p: NodeId): seq<WireFrame> {
    if !CanPerform(v, task) then []
    else
      match task
      case HubWrites(q) => if q == p then [v.writers[p][0]] else []
      case OtherFrame(q, toHub, f) => if q == p && !toHub then [f] else []
      case _ => []
  }

  /** What a task takes off it. */
  function Takes(v: Moment, task: Task, p: NodeId): seq<WireFrame> {
    if CanPerform(v, task) && task.SpokeReceives? && task.spoke == p then [v.down[p][0]] else []
  }

  function Before(start: Moment, tasks: seq<Task>): Moment
    requires tasks != []
  {
    Schedule(start, tasks[..|tasks| - 1]).now
  }

  /** All frames ever written to spoke `p`, and all it has ever read. */
  function Written(start: Moment, tasks: seq<Task>, p: NodeId): seq<WireFrame> {
    if tasks == [] then []
    else Written(start, tasks[..|tasks| - 1], p) + Puts(Before(start, tasks), tasks[|tasks| - 1], p)
  }

  function Taken(start: Moment, tasks: seq<Task>, p: NodeId): seq<WireFrame> {
    if tasks == [] then []
    else Taken(start, tasks[..|tasks| - 1], p) + Takes(Before(start, tasks), tasks[|tasks| - 1], p)
  }

  lemma LeavesWires(v: Moment, task: Task, w: Moment)
    requires CanPerform(v, task) && w == Perform(v, task)
    requires IsBroadcast(task) || task.SpokeCopies? || task.HubCopies? || task.SpokeWrites?
    ensures w.down == v.down
  {
  }

  lemma HubWritesWire(v: Moment, task: Task, p: NodeId, w: Moment)
    requires CanPerform(v, task) && w == Perform(v, task) && task.HubWrites? && p in v.down && p in w.down
    ensures v.down[p] + Puts(v, task, p) == w.down[p]
  {
  }

  lemma OtherFrameWire(v: Moment, task: Task, p: NodeId, w: Moment)
    requires CanPerform(v, task) && w == Perform(v, task) && task.OtherFrame? && p in v.down && p in w.down
    ensures v.down[p] + Puts(v, task, p) == w.down[p]
  {
  }

  lemma WireStep(v: Moment, task: Task, p: NodeId, w: Moment)
    requires CanPerform(v, task) && w == Perform(v, task) && p in v.down && p in w.down
    ensures v.down[p] + Puts(v, task, p) == Takes(v, task, p) + w.down[p]
  {
    if task.HubReceives? {
      HubReceivedIsLocal(v, task.peer, task.works, w);
    } else if task.SpokeReceives? {
      SpokeReceivedWires(v, task.spoke, task.works, w);
    } else if task.HubWrites? {
      HubWritesWire(v, task, p, w);
    } else if task.OtherFrame? {
      OtherFrameWire(v, task, p, w);
    } else {
      LeavesWires(v, task, w);
    }
  }

  lemma Regrouped<T>(a: seq<T>, b: seq<T>, c: seq<T>)
    ensures a + b + c == a + (b + c)
  {
  }

  lemma Shift(written: seq<WireFrame>, taken: seq<WireFrame>, down: seq<WireFrame>,
      puts: seq<WireFrame>, takes: seq<WireFrame>, down': seq<WireFrame>)
    requires written == taken + down && down + puts == takes + down'
    ensures written + puts == taken + takes + down'
  {
    Regrouped(taken, down, puts);
    Regrouped(taken, takes, down');
  }

  /** The wire is a first-in first-out stream: what the spoke has read, followed
      by what is still on the wire, is what was written. */
  lemma {:induction false} WireIsStream(start: Moment, tasks: seq<Task>, p: NodeId)
    requires Present(start, p) && start.down[p] == []
    ensures var v := Schedule(start, tasks).now;
      Present(v, p) && Written(start, tasks, p) == Taken(start, tasks, p) + v.down[p]
  {
    if tasks != [] {
      var front, task, v := tasks[..|tasks| - 1], tasks[|tasks| - 1], Before(start, tasks);
      WireIsStream(start, front, p);
      if CanPerform(v, task) {
        var w := Perform(v, task);
        PerformSameAt(v, task, p, w);
        WireStep(v, task, p, w);
        Shift(Written(start, front, p), Taken(start, front, p), v.down[p],
          Puts(v, task, p), Takes(v, task, p), w.down[p]);
      }
    }
  }

  // ----- the answers to one hash -----

  /** The hub reads a fetch for `hash` from spoke `p`. */
  predicate Asks(v: Moment, task: Task, p: NodeId, hash: Digest) {
    CanPerform(v, task) && task.HubReceives? && task.peer == p && v.up[p][0] == FetchRequest(hash)
  }

  predicate Asked(start: Moment, tasks: seq<Task>, p: NodeId, hash: Digest) {
    tasks != [] &&
      (Asked(start, tasks[..|tasks| - 1], p, hash) || Asks(Before(start, tasks), tasks[|tasks| - 1], p, hash))
  }

  /** Nobody but the hub answers on the connection to `p`. */
  predicate IsStray(task: Task, p: NodeId, hash: Digest) {
    task.OtherFrame? && task.peer == p && !task.toHub && IsAnswer(task.frame, hash)
  }

  predicate NoStray(tasks: seq<Task>, p: NodeId, hash: Digest) {
    forall i :: 0 <= i < |tasks| ==> !IsStray(tasks[i], p, hash)
  }

  predicate OnlyCopies(frames: seq<WireFrame>) {
    forall f :: f in frames ==> f.Clipboard?
  }

  lemma LocalStaysCopies(v: Moment, task: Task, w: Moment)
    requires CanPerform(v, task) && w == Perform(v, task) && OnlyCopies(v.local)
    ensures OnlyCopies(w.local) && w.stored == v.stored
  {
    if task.HubReceives? {
      assert w == HubReceived(v, task.peer, task.works);
    } else if task.SpokeReceives? {
      assert w == SpokeReceived(v, task.spoke, task.works);
    }
  }

  lemma {:induction false} LocalIsCopies(start: Moment, tasks: seq<Task>)
    requires start.local == []
    ensures var v := Schedule(start, tasks).now; OnlyCopies(v.local) && v.stored == start.stored
  {
    if tasks != [] {
      LocalIsCopies(start, tasks[..|tasks| - 1]);
      var v, task := Before(start, tasks), tasks[|tasks| - 1];
      if CanPerform(v, task) {
        LocalStaysCopies(v, task, Perform(v, task));
      }
    }
  }

  /** A reply to one hash holds no answer to another. */
  lemma RepliesKeepApart(found: Option<Bytes>, asked: Digest, hash: Digest, f: WireFrame)
    requires IsAnswer(f, hash) && f in Reply(found, asked)
    ensures asked == hash
  {
    if found.Some? {
      ReplyShape(asked, found.value);
      var fs := ChunkFetchResponse(asked, found.value);
      var i :| 0 <= i < |fs| && fs[i] == f;
    }
  }

  lemma ReceiveQueues(v: Moment, q: NodeId, works: bool, p: NodeId, hash: Digest, f: WireFrame)
    requires Present(v, q) && Present(v, p) && v.up[q] != [] && IsAnswer(f, hash)
    ensures p in HubReceived(v, q, works).writers
    ensures f in HubReceived(v, q, works).writers[p] <==>
      f in v.writers[p] || (q == p && v.up[p][0] == FetchRequest(hash) && f in Reply(Lazy.Stored(v.stored, hash), hash))
  {
    var head := v.up[q][0];
    if q == p && head.FetchRequest? && f in Reply(Lazy.Stored(v.stored, head.hash), head.hash) {
      RepliesKeepApart(Lazy.Stored(v.stored, head.hash), head.hash, hash, f);
    }
  }

  /** A broadcast frame that is no answer leaves the answers as they are. */
  lemma BroadcastAddsNone(
      writers: map<NodeId, seq<WireFrame>>, sent: WireFrame, exclude: Option<NodeId>, p: NodeId, f: WireFrame)
    requires p in writers && f != sent
    ensures f in Star.Broadcast(writers, sent, exclude)[p] <==> f in writers[p]
  {
  }

  lemma BroadcastStep(v: Moment, task: Task, p: NodeId, hash: Digest, f: WireFrame, w: Moment)
    requires CanPerform(v, task) && w == Perform(v, task) && Present(v, p) && OnlyCopies(v.local)
    requires IsBroadcast(task) && IsAnswer(f, hash)
    ensures p in w.writers && (f in w.writers[p] <==> f in v.writers[p])
  {
    match task
    case HubBroadcasts =>
      assert v.local[0] in v.local;
      BroadcastAddsNone(v.writers, v.local[0], None, p, f);
    case HubRelays(q) => BroadcastAddsNone(v.writers, Clipboard(v.accepted[q]), Some(q), p, f);
    case HubSendsInput(event) => BroadcastAddsNone(v.writers, Input(event), None, p, f);
  }

  lemma WriteStep(v: Moment, q: NodeId, p: NodeId, f: WireFrame, w: Moment)
    requires CanPerform(v, HubWrites(q)) && w == Perform(v, HubWrites(q)) && Present(v, p)
    ensures p in w.writers && Puts(v, HubWrites(q), p) + w.writers[p] == v.writers[p]
  {
  }

  lemma OthersLeaveWriters(v: Moment, task: Task, w: Moment)
    requires CanPerform(v, task) && w == Perform(v, task) && (!IsHubTask(task) || task.HubCopies?)
    ensures w.writers == v.writers
  {
    if task.SpokeReceives? {
      assert w == SpokeReceived(v, task.spoke, task.works);
    }
  }

  /** One task's effect on the answers under way to `p`. */
  lemma AnswerStep(v: Moment, task: Task, p: NodeId, hash: Digest, f: WireFrame, w: Moment)
    requires CanPerform(v, task) && w == Perform(v, task) && Present(v, p) && p in w.writers
    requires OnlyCopies(v.local) && !IsStray(task, p, hash) && IsAnswer(f, hash)
    ensures f in Puts(v, task, p) + w.writers[p] <==>
      f in v.writers[p] || (Asks(v, task, p, hash) && f in Reply(Lazy.Stored(v.stored, hash), hash))
  {
    if task.HubReceives? {
      ReceiveQueues(v, task.peer, task.works, p, hash, f);
    } else if task.HubWrites? {
      WriteStep(v, task.peer, p, f, w);
    } else if IsBroadcast(task) {
      BroadcastStep(v, task, p, hash, f, w);
    } else {
      OthersLeaveWriters(v, task, w);
    }
  }

  /** Written to `p` or queued for it at the hub. */
  function Outgoing(start: Moment, tasks: seq<Task>, p: NodeId): seq<WireFrame>
    requires p in Schedule(start, tasks).now.writers
  {
    Written(start, tasks, p) + Schedule(start, tasks).now.writers[p]
  }

  lemma {:induction false} AnswersAre(start: Moment, tasks: seq<Task>, p: NodeId, hash: Digest, f: WireFrame)
    requires Present(start, p) && start.writers[p] == [] && start.down[p] == [] && start.local == []
    requires NoStray(tasks, p, hash) && IsAnswer(f, hash)
    ensures p in Schedule(start, tasks).now.writers
    ensures f in Outgoing(start, tasks, p) <==>
      Asked(start, tasks, p, hash) && f in Reply(Lazy.Stored(start.stored, hash), hash)
  {
    WireIsStream(start, tasks, p);
    if tasks != [] {
      var front, task, v := tasks[..|tasks| - 1], tasks[|tasks| - 1], Before(start, tasks);
      AnswersAre(start, front, p, hash, f);
      WireIsStream(start, front, p);
      LocalIsCopies(start, front);
      if CanPerform(v, task) {
        AnswerStep(v, task, p, hash, f, Perform(v, task));
      }
    }
  }

  /** Once the hub has read a request from `p`, what is written to `p` and queued
      for it says about the hash exactly what the store holds. */
  lemma RequestIsAnswered(start: Moment, tasks: seq<Task>, p: NodeId, hash: Digest)
    requires Present(start, p) && start.writers[p] == [] && start.down[p] == [] && start.local == []
    requires NoStray(tasks, p, hash) && Asked(start, tasks, p, hash)
    ensures p in Schedule(start, tasks).now.writers
    ensures Carries(Outgoing(start, tasks, p), hash, Lazy.Stored(start.stored, hash))
  {
    WireIsStream(start, tasks, p);
    forall f | IsAnswer(f, hash)
      ensures f in Outgoing(start, tasks, p) <==> f in Reply(Lazy.Stored(start.stored, hash), hash)
    {
      AnswersAre(start, tasks, p, hash, f);
    }
  }

  // ----- what the spoke reads off the bytes -----

  lemma PrefixIsSendable(encode: WireFrame -> Bytes, part: seq<WireFrame>, all: seq<WireFrame>)
    requires part <= all && Sendable(Encoded(encode, all))
    ensures Sendable(Encoded(encode, part))
  {
    forall i | 0 <= i < |part|
      ensures |encode(part[i])| <= MAX_FRAME
    {
      assert Encoded(encode, all)[i] == encode(part[i]);
    }
  }

  /** The same as for a whole queue, when only a first part of it was written. */
  lemma WrittenTells(
      encode: WireFrame -> Bytes, decode: Decoder, slack: nat, hash: Digest, found: Option<Bytes>,
      written: seq<WireFrame>, queue: seq<WireFrame>, cut: nat)
    requires written <= queue && CodecFits(encode, decode, slack, hash, queue) && Carries(queue, hash, found)
    requires cut <= |Frames(Encoded(encode, written))|
    ensures var (received, end) := ReceiveAll(decode, Frames(Encoded(encode, written))[..cut]);
      end == Eof && received <= written && Tells(received, hash, found)
  {
    QueueIsSendable(encode, decode, slack, hash, found, queue);
    PrefixIsSendable(encode, written, queue);
    CutStreamReceivesPrefix(encode, decode, written, cut);
    var k := Whole(Encoded(encode, written), cut);
    assert written[..k] == queue[..k];
    PrefixTells(hash, found, queue, k);
  }

  /** A fetch, end to end. After any schedule in which the hub object read a
      request for `hash` from spoke `p`: the bytes written to the connection,
      cut anywhere, decode to a prefix of the frames written, and what they tell
      about the hash is never anything but what the hub object's store holds.
      What the spoke's reader has been given is such a prefix too. */
  lemma FetchOverSchedule(
      encode: WireFrame -> Bytes, decode: Decoder, slack: nat, cfg: Star.Config, limits: NodeId -> nat,
      start: Moment, tasks: seq<Task>, hub: Hub, p: NodeId, hash: Digest, cut: nat)
    requires Starts(cfg, limits, start) && p in cfg.spokes && HubAt(hub, Schedule(start, tasks).now)
    requires NoStray(tasks, p, hash) && Asked(start, tasks, p, hash)
    requires p in hub.writers && CodecFits(encode, decode, slack, hash, Written(start, tasks, p) + hub.writers[p])
    requires cut <= |Frames(Encoded(encode, Written(start, tasks, p)))|
    ensures var (received, end) := ReceiveAll(decode, Frames(Encoded(encode, Written(start, tasks, p)))[..cut]);
      end == Eof && received <= Written(start, tasks, p) && Tells(received, hash, hub.lazy.Lookup(hash))
    ensures Taken(start, tasks, p) <= Written(start, tasks, p)
  {
    var written, found := Written(start, tasks, p), Lazy.Stored(start.stored, hash);
    WireIsStream(start, tasks, p);
    LocalIsCopies(start, tasks);
    RequestIsAnswered(start, tasks, p, hash);
    WrittenTells(encode, decode, slack, hash, found, written, Outgoing(start, tasks, p), cut);
  }

  /** And once the hub object's queue for `p` is empty, the bytes written tell
      exactly what its store holds: a miss, or the bytes up to the size limit. */
  lemma FetchCompletes(
      encode: WireFrame -> Bytes, decode: Decoder, slack: nat, cfg: Star.Config, limits: NodeId -> nat,
      start: Moment, tasks: seq<Task>, hub: Hub, p: NodeId, hash: Digest)
    requires Starts(cfg, limits, start) && p in cfg.spokes && HubAt(hub, Schedule(start, tasks).now)
    requires NoStray(tasks, p, hash) && Asked(start, tasks, p, hash)
    requires p in hub.writers && hub.writers[p] == []
    requires CodecFits(encode, decode, slack, hash, Written(start, tasks, p))
    ensures var (received, end), found :=
        ReceiveAll(decode, Frames(Encoded(encode, Written(start, tasks, p)))), hub.lazy.Lookup(hash);
      && end == Eof && received == Written(start, tasks, p)
      && (FetchMiss(hash) in received <==> found == None)
      && (Reassemble(received, hash) == found <==> (found.Some? ==> |found.value| <= MAX_FETCH))
  {
    var written, found := Written(start, tasks, p), Lazy.Stored(start.stored, hash);
    WireIsStream(start, tasks, p);
    LocalIsCopies(start, tasks);
    RequestIsAnswered(start, tasks, p, hash);
    assert Outgoing(start, tasks, p) == written;
    var stream := Frames(Encoded(encode, written));
    assert stream[..|stream|] == stream;
    AnswerArrives(encode, decode, slack, hash, found, written, |stream|);
    QueueTells(hash, found, written);
  }

  // ----- input events -----

  /** The input events among frames, in order. */
  function InputsOf(frames: seq<WireFrame>): seq<InputEvent> {
    if frames == [] then []
    else if frames[0].Input? then [frames[0].event] + InputsOf(frames[1..])
    else InputsOf(frames[1..])
  }

  lemma {:induction false} InputsConcat(a: seq<WireFrame>, b: seq<WireFrame>)
    ensures InputsOf(a + b) == InputsOf(a) + InputsOf(b)
  {
    if a == [] {
      assert a + b == b;
    } else {
      assert (a + b)[1..] == a[1..] + b;
      InputsConcat(a[1..], b);
    }
  }

  lemma {:induction false} NoInputs(frames: seq<WireFrame>)
    requires forall f :: f in frames ==> !f.Input?
    ensures InputsOf(frames) == []
  {
    if frames != [] {
      NoInputs(frames[1..]);
    }
  }

  /** What the tasks of a schedule capture at the hub, in order. */
  function Captured(tasks: seq<Task>): seq<InputEvent> {
    if tasks == [] then []
    else
      var front, task := Captured(tasks[..|tasks| - 1]), tasks[|tasks| - 1];
      if task.HubSendsInput? then front + [task.event] else front
  }

  predicate IsStrayInput(task: Task, p: NodeId) {
    task.OtherFrame? && task.peer == p && !task.toHub && task.frame.Input?
  }

  /** Nobody but the hub sends input to `p`. */
  predicate NoStrayInput(tasks: seq<Task>, p: NodeId) {
    forall i :: 0 <= i < |tasks| ==> !IsStrayInput(tasks[i], p)
  }

  lemma RepliesAreNoInput(found: Option<Bytes>, hash: Digest)
    ensures InputsOf(Reply(found, hash)) == []
  {
    if found.Some? {
      ReplyShape(hash, found.value);
    }
    NoInputs(Reply(found, hash));
  }

  lemma ReceiveQueuesNoInput(v: Moment, q: NodeId, works: bool, p: NodeId, w: Moment)
    requires Present(v, q) && Present(v, p) && v.up[q] != [] && w == HubReceived(v, q, works) && p in w.writers
    ensures InputsOf(w.writers[p]) == InputsOf(v.writers[p])
  {
    var f := v.up[q][0];
    if f.FetchRequest? && q == p {
      var reply := Reply(Lazy.Stored(v.stored, f.hash), f.hash);
      RepliesAreNoInput(Lazy.Stored(v.stored, f.hash), f.hash);
      InputsConcat(v.writers[p], reply);
    } else if !f.Clipboard? {
      assert v.writers[p] + [] == v.writers[p];
    }
  }

  lemma BroadcastInputs(
      writers: map<NodeId, seq<WireFrame>>, sent: WireFrame, exclude: Option<NodeId>, p: NodeId)
    requires p in writers && (sent.Input? ==> exclude == None)
    ensures InputsOf(Star.Broadcast(writers, sent, exclude)[p]) ==
      InputsOf(writers[p]) + if sent.Input? then [sent.event] else []
  {
    InputsConcat(writers[p], [sent]);
    assert [sent][1..] == [];
  }

  lemma BroadcastQueuesInput(v: Moment, task: Task, p: NodeId, w: Moment)
    requires CanPerform(v, task) && w == Perform(v, task) && p in v.writers && OnlyCopies(v.local) && IsBroadcast(task)
    ensures p in w.writers
    ensures InputsOf(w.writers[p]) == InputsOf(v.writers[p]) + if task.HubSendsInput? then [task.event] else []
  {
    match task
    case HubBroadcasts =>
      assert v.local[0] in v.local;
      BroadcastInputs(v.writers, v.local[0], None, p);
    case HubRelays(q) => BroadcastInputs(v.writers, Clipboard(v.accepted[q]), Some(q), p);
    case HubSendsInput(event) => BroadcastInputs(v.writers, Input(event), None, p);
  }

  lemma PutsOfOthers(v: Moment, task: Task, p: NodeId)
    requires CanPerform(v, task) && !task.HubWrites? && !IsStrayInput(task, p)
    ensures InputsOf(Puts(v, task, p)) == []
  {
    NoInputs(Puts(v, task, p));
  }

  /** One task's effect on the input under way to `p`. */
  lemma InputStep(v: Moment, task: Task, p: NodeId, w: Moment)
    requires CanPerform(v, task) && w == Perform(v, task) && Present(v, p) && p in w.writers
    requires OnlyCopies(v.local) && !IsStrayInput(task, p)
    ensures InputsOf(Puts(v, task, p) + w.writers[p]) ==
      InputsOf(v.writers[p]) + if task.HubSendsInput? then [task.event] else []
  {
    if task.HubWrites? {
      WriteStep(v, task.peer, p, Control(Ping(0)), w);
    } else {
      PutsOfOthers(v, task, p);
      InputsConcat(Puts(v, task, p), w.writers[p]);
      if task.HubReceives? {
        ReceiveQueuesNoInput(v, task.peer, task.works, p, w);
      } else if IsBroadcast(task) {
        BroadcastQueuesInput(v, task, p, w);
      } else {
        OthersLeaveWriters(v, task, w);
      }
    }
  }

  lemma InputsShift(
      written: seq<WireFrame>, puts: seq<WireFrame>, queue: seq<WireFrame>, queue': seq<WireFrame>)
    ensures InputsOf(written + puts + queue') == InputsOf(written) + InputsOf(puts + queue')
    ensures InputsOf(written + queue) == InputsOf(written) + InputsOf(queue)
  {
    Regrouped(written, puts, queue');
    InputsConcat(written, puts + queue');
    InputsConcat(written, queue);
  }

  /** Whatever was captured is written to `p` or queued for it, once and in
      order. */
  lemma {:induction false} InputsAreSent(start: Moment, tasks: seq<Task>, p: NodeId)
    requires Present(start, p) && start.writers[p] == [] && start.down[p] == [] && start.local == []
    requires NoStrayInput(tasks, p)
    ensures p in Schedule(start, tasks).now.writers
    ensures InputsOf(Outgoing(start, tasks, p)) == Captured(tasks)
  {
    WireIsStream(start, tasks, p);
    if tasks != [] {
      var front, task, v := tasks[..|tasks| - 1], tasks[|tasks| - 1], Before(start, tasks);
      InputsAreSent(start, front, p);
      WireIsStream(start, front, p);
      LocalIsCopies(start, front);
      if CanPerform(v, task) {
        var w := Perform(v, task);
        InputStep(v, task, p, w);
        InputsShift(Written(start, front, p), Puts(v, task, p), v.writers[p], w.writers[p]);
      } else {
        assert Written(start, front, p) + [] == Written(start, front, p);
      }
    }
  }

  lemma ReceivedEmits(v: Moment, q: NodeId, works: bool, p: NodeId, w: Moment)
    requires Present(v, q) && v.down[q] != [] && w == SpokeReceived(v, q, works) && p in v.inputs
    ensures p in w.inputs && w.inputs[p] == if q == p then Emit(v.inputs[p], v.down[p][0]) else v.inputs[p]
  {
  }

  lemma OthersLeaveInputs(v: Moment, task: Task, w: Moment)
    requires CanPerform(v, task) && w == Perform(v, task) && !task.SpokeReceives?
    ensures w.inputs == v.inputs
  {
    if IsHubTask(task) || task.OtherFrame? {
      HubTasksAreLocal(v, task, w);
    }
  }

  lemma EmittedStep(v: Moment, task: Task, p: NodeId, w: Moment)
    requires CanPerform(v, task) && w == Perform(v, task) && p in v.inputs
    ensures p in w.inputs && w.inputs[p].enabled == v.inputs[p].enabled
    ensures w.inputs[p].events ==
      if v.inputs[p].enabled then v.inputs[p].events + InputsOf(Takes(v, task, p)) else v.inputs[p].events
  {
    assert v.inputs[p].events + [] == v.inputs[p].events;
    if task.SpokeReceives? {
      ReceivedEmits(v, task.spoke, task.works, p, w);
    } else {
      OthersLeaveInputs(v, task, w);
    }
  }

  /** A spoke emits the input it has read, in order, or nothing if it may not. */
  lemma {:induction false} EmittedIs(start: Moment, tasks: seq<Task>, p: NodeId)
    requires p in start.inputs && start.inputs[p].events == []
    ensures var v := Schedule(start, tasks).now;
      && p in v.inputs && v.inputs[p].enabled == start.inputs[p].enabled
      && v.inputs[p].events == if v.inputs[p].enabled then InputsOf(Taken(start, tasks, p)) else []
  {
    if tasks != [] {
      var front, task, v := tasks[..|tasks| - 1], tasks[|tasks| - 1], Before(start, tasks);
      EmittedIs(start, front, p);
      var taken, takes := Taken(start, front, p), Takes(v, task, p);
      if CanPerform(v, task) {
        EmittedStep(v, task, p, Perform(v, task));
        InputsConcat(taken, takes);
      } else {
        assert taken + [] == taken;
      }
    }
  }

  lemma TakenThenUnderWay(written: seq<WireFrame>, taken: seq<WireFrame>, down: seq<WireFrame>, queue: seq<WireFrame>)
    requires written == taken + down
    ensures InputsOf(written + queue) == InputsOf(taken) + InputsOf(down + queue)
  {
    Regrouped(taken, down, queue);
    InputsConcat(taken, down + queue);
  }

  lemma InputIsConserved(start: Moment, tasks: seq<Task>, p: NodeId)
    requires Present(start, p) && start.writers[p] == [] && start.down[p] == [] && start.local == []
    requires start.inputs[p].events == [] && NoStrayInput(tasks, p)
    ensures var v := Schedule(start, tasks).now;
      && Present(v, p)
      && if v.inputs[p].enabled then v.inputs[p].events + InputsOf(v.down[p] + v.writers[p]) == Captured(tasks)
         else v.inputs[p].events == []
  {
    var v := Schedule(start, tasks).now;
    InputsAreSent(start, tasks, p);
    EmittedIs(start, tasks, p);
    WireIsStream(start, tasks, p);
    TakenThenUnderWay(Written(start, tasks, p), Taken(start, tasks, p), v.down[p], v.writers[p]);
  }

  /** Captured input arrives. After any schedule what an enabled spoke object has
      emitted, followed by the input on its wire and in the hub object's queue for
      it, is exactly what the hub captured: nothing is lost, repeated or
      reordered. A spoke that may not emit emits nothing. */
  lemma InputArrives(
      cfg: Star.Config, limits: NodeId -> nat, start: Moment, tasks: seq<Task>, hub: Hub, spoke: Spoke, p: NodeId)
    requires Starts(cfg, limits, start) && p in cfg.spokes && NoStrayInput(tasks, p)
    requires var v := Schedule(start, tasks).now;
      HubAt(hub, v) && SpokeAt(spoke, p, v) && p in hub.writers && p in v.down
    ensures spoke.inputEnabled ==>
      spoke.emitted + InputsOf(Schedule(start, tasks).now.down[p] + hub.writers[p]) == Captured(tasks)
    ensures !spoke.inputEnabled ==> spoke.emitted == []
  {
    InputIsConserved(start, tasks, p);
  }
}
