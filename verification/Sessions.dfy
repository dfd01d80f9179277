/** What the hub and the spokes do with each frame: the imperative shell around
    the engine, the store and the writer queues (crates/cli/src/runtime). */
module Sessions {
  import opened Core
  import opened ClipboardEngine
  import opened Lazy
  import Fetch
  import Star

  /** The operating system's clipboard: the snapshots written to it so far. */
  class Desktop {
    var written: seq<Snapshot>

    constructor ()
      ensures written == []
    {
      written := [];
    }
  }

  /** Decides on a received snapshot; the answer is what to relay. An accepted
      one is also written to the operating system's clipboard; whether that
      works makes no difference to the answer. */
  method HandleRemoteClipboard(engine: Engine, desktop: Desktop, snap: Snapshot, works: bool)
      returns (applied: Option<Snapshot>)
    modifies engine, desktop
    ensures old(engine.Valid()) ==> engine.Valid()
    ensures applied == if Decide(old(engine.View()), snap).Apply? then Some(snap) else None
    ensures engine.View() == if applied.Some? then Accept(old(engine.View()), snap) else old(engine.View())
    ensures desktop.written == old(desktop.written) + if applied.Some? && works then [snap] else []
  {
    var decision := engine.ObserveRemote(snap);
    match decision
    case Apply(accepted) =>
      if works {
        desktop.written := desktop.written + [accepted];
      }
      applied := Some(accepted);
    case Ignore => applied := None;
  }

  /** Turns a local copy into a frame. */
  method WatchToFrame(engine: Engine, text: string, now: nat) returns (frame: WireFrame)
    modifies engine
    ensures old(engine.Valid()) ==> engine.Valid()
    ensures frame == Clipboard(NextSnapshot(old(engine.View()), [Text(text)], now))
    ensures engine.View() == Accept(old(engine.View()), frame.snap)
  {
    var snap := engine.ProduceText(text, now);
    frame := Clipboard(snap);
  }

  /** An image copy: the bytes go to the store first, then the clock moves. */
  method ProduceImageSnapshot(engine: Engine, store: LazyStore, bytes: Bytes, format: ImageFormat, now: nat)
      returns (snap: Snapshot)
    requires store.Valid()
    modifies engine, store
    ensures store.Valid() && (old(engine.Valid()) ==> engine.Valid())
    ensures |snap.items| == 1 && snap.items[0].Image? && snap.items[0].format == format
    ensures snap.items[0].hash == store.digest(bytes)
    ensures snap.items[0].data ==
      if |bytes| <= 256 * 1024 then Inline(bytes) else OnDemand(store.digest(bytes), |bytes|)
    ensures snap == NextSnapshot(old(engine.View()), snap.items, now)
    ensures engine.View() == Accept(old(engine.View()), snap)
    ensures Injective(store.digest) ==> Resolve(store, snap.items[0].data) == Some(bytes)
  {
    var item := ProduceImage(store, bytes, format);
    snap := engine.Produce([item], now);
  }

  /** A broadcast, queue by queue. */
  lemma BroadcastIs(
      before: map<NodeId, seq<WireFrame>>, frame: WireFrame, exclude: Option<NodeId>,
      after: map<NodeId, seq<WireFrame>>)
    requires after.Keys == before.Keys
    requires forall p :: p in before ==> after[p] == if Some(p) == exclude then before[p] else before[p] + [frame]
    ensures after == Star.Broadcast(before, frame, exclude)
  {
  }

  /** The hub. Several tasks share it: one reader a session, one writer a
      session, and the loop that broadcasts local copies. Each method is what
      one of them does without giving way to another. */
  class Hub {
    const engine: Engine
    const lazy: LazyStore
    const desktop: Desktop
    /** One queue of outgoing frames per connected spoke. */
    var writers: map<NodeId, seq<WireFrame>>
    /** What a session's reader has accepted and not broadcast yet. */
    var accepted: map<NodeId, Snapshot>
    /** Local copies waiting for the broadcast loop. */
    var local: seq<WireFrame>

    constructor (engine: Engine, lazy: LazyStore, desktop: Desktop, spokes: set<NodeId>)
      ensures this.engine == engine && this.lazy == lazy && this.desktop == desktop
      ensures writers == (map p | p in spokes :: []) && accepted == map[] && local == []
    {
      this.engine, this.lazy, this.desktop := engine, lazy, desktop;
      writers := map p | p in spokes :: [];
      accepted, local := map[], [];
    }

    /** Every queue but the excluded peer's gets the frame once, at its end. */
    method BroadcastToAll(frame: WireFrame, exclude: Option<NodeId>)
      modifies this`writers
      ensures writers.Keys == old(writers).Keys
      ensures forall p :: p in old(writers) ==>
        writers[p] == if exclude == Some(p) then old(writers)[p] else old(writers)[p] + [frame]
      ensures writers == Star.Broadcast(old(writers), frame, exclude)
    {
      ghost var before := writers;
      var todo := writers.Keys;
      while todo != {}
        invariant writers.Keys == before.Keys && todo <= before.Keys
        invariant forall p :: p in before ==>
          writers[p] == if p in todo || Some(p) == exclude then before[p] else before[p] + [frame]
        decreases |todo|
      {
        var peer :| peer in todo;
        todo := todo - {peer};
        if Some(peer) == exclude {
          continue;
        }
        writers := writers[peer := writers[peer] + [frame]];
      }
      BroadcastIs(before, frame, exclude, writers);
    }

    method SendTo(peer: NodeId, frames: seq<WireFrame>)
      modifies this`writers
      ensures writers ==
        if peer in old(writers) then old(writers)[peer := old(writers)[peer] + frames] else old(writers)
    {
      if peer in writers {
        var i := 0;
        while i < |frames|
          invariant i <= |frames| && writers.Keys == old(writers).Keys
          invariant writers[peer] == old(writers)[peer] + frames[..i]
          invariant forall p :: p in writers && p != peer ==> writers[p] == old(writers)[p]
        {
          assert frames[..i + 1] == frames[..i] + [frames[i]];
          writers := writers[peer := writers[peer] + [frames[i]]];
          i := i + 1;
        }
        assert frames[..i] == frames;
      }
    }

    /** A session's reader up to the point where it would broadcast: a snapshot
        is accepted or dropped, a fetch is answered to the asker, all other
        frames (input from a spoke among them) change nothing. */
    method Receive(peer: NodeId, frame: WireFrame, works: bool)
      requires peer !in accepted
      modifies engine, desktop, this`writers, this`accepted
      ensures old(engine.Valid()) ==> engine.Valid()
      ensures frame.Clipboard? ==>
        && writers == old(writers)
        && if Decide(old(engine.View()), frame.snap).Apply?
           then engine.View() == Accept(old(engine.View()), frame.snap) && accepted == old(accepted)[peer := frame.snap]
           else engine.View() == old(engine.View()) && accepted == old(accepted)
      ensures desktop.written == old(desktop.written) +
        if frame.Clipboard? && Decide(old(engine.View()), frame.snap).Apply? && works then [frame.snap] else []
      ensures !frame.Clipboard? ==> engine.View() == old(engine.View()) && accepted == old(accepted)
      ensures frame.FetchRequest? && peer in old(writers) ==>
        writers == old(writers)[peer := old(writers)[peer] + Fetch.Reply(lazy.Lookup(frame.hash), frame.hash)]
      ensures !frame.Clipboard? && (frame.FetchRequest? ==> peer !in old(writers)) ==> writers == old(writers)
    {
      match frame
      case Clipboard(snap) =>
        var echoed := HandleRemoteClipboard(engine, desktop, snap, works);
        if echoed.Some? {
          accepted := accepted[peer := snap];
        }
      case FetchRequest(hash) =>
        var found := lazy.Get(hash);
        SendTo(peer, Fetch.Reply(found, hash));
      case Input(_) =>
      case FetchResponse(_, _, _, _) =>
      case FetchMiss(_) =>
      case Control(_) =>
    }

    /** The rest of the reader's turn: what it accepted goes to everybody else. */
    method Relay(peer: NodeId)
      requires peer in accepted
      modifies this`writers, this`accepted
      ensures writers == Star.Broadcast(old(writers), Clipboard(old(accepted)[peer]), Some(peer))
      ensures accepted == old(accepted) - {peer}
    {
      BroadcastToAll(Clipboard(accepted[peer]), Some(peer));
      accepted := accepted - {peer};
    }

    /** The watcher task: a local copy becomes a frame for the broadcast loop. */
    method CopyText(text: string, now: nat)
      modifies engine, this`local
      ensures old(engine.Valid()) ==> engine.Valid()
      ensures var snap := NextSnapshot(old(engine.View()), [Text(text)], now);
        engine.View() == Accept(old(engine.View()), snap) && local == old(local) + [Clipboard(snap)]
    {
      var frame := WatchToFrame(engine, text, now);
      local := local + [frame];
    }

    /** One turn of the broadcast loop. */
    method BroadcastLocal()
      requires local != []
      modifies this`writers, this`local
      ensures writers == Star.Broadcast(old(writers), old(local)[0], None)
      ensures local == old(local)[1..]
    {
      BroadcastToAll(local[0], None);
      local := local[1..];
    }

    /** Captured input goes to every spoke. */
    method SendInput(event: InputEvent)
      modifies this`writers
      ensures writers == Star.Broadcast(old(writers), Input(event), None)
    {
      BroadcastToAll(Input(event), None);
    }

    /** A session's writer task takes the next frame off its queue. */
    method NextFrame(peer: NodeId) returns (frame: WireFrame)
      requires peer in writers && writers[peer] != []
      modifies this`writers
      ensures frame == old(writers)[peer][0]
      ensures writers == old(writers)[peer := old(writers)[peer][1..]]
    {
      frame := writers[peer][0];
      writers := writers[peer := writers[peer][1..]];
    }
  }

  class Spoke {
    const engine: Engine
    const desktop: Desktop
    const inputEnabled: bool
    /** Frames queued for the writer task. */
    var outbox: seq<WireFrame>
    var emitted: seq<InputEvent>

    constructor (engine: Engine, desktop: Desktop, inputEnabled: bool)
      ensures this.engine == engine && this.desktop == desktop && this.inputEnabled == inputEnabled
      ensures outbox == [] && emitted == []
    {
      this.engine, this.desktop, this.inputEnabled := engine, desktop, inputEnabled;
      outbox, emitted := [], [];
    }

    /** One turn of the reader loop. A snapshot is applied or dropped and never
        sent on; a spoke has nothing to serve, and says so at once on the
        connection. */
    method OnFrame(frame: WireFrame, works: bool) returns (reply: seq<WireFrame>)
      modifies engine, desktop, this`emitted
      ensures old(engine.Valid()) ==> engine.Valid()
      ensures engine.View() ==
        if frame.Clipboard? && Decide(old(engine.View()), frame.snap).Apply?
        then Accept(old(engine.View()), frame.snap) else old(engine.View())
      ensures desktop.written == old(desktop.written) +
        if frame.Clipboard? && Decide(old(engine.View()), frame.snap).Apply? && works then [frame.snap] else []
      ensures reply == if frame.FetchRequest? then [FetchMiss(frame.hash)] else []
      ensures emitted == old(emitted) + if frame.Input? && inputEnabled then [frame.event] else []
    {
      reply := [];
      match frame
      case Clipboard(snap) =>
        var _ := HandleRemoteClipboard(engine, desktop, snap, works);
      case Input(ev) =>
        if inputEnabled {
          emitted := emitted + [ev];
        }
      case FetchRequest(hash) =>
        reply := [FetchMiss(hash)];
      case FetchResponse(_, _, _, _) =>
      case FetchMiss(_) =>
      case Control(_) =>
    }

    method CopyText(text: string, now: nat)
      modifies engine, this`outbox
      ensures old(engine.Valid()) ==> engine.Valid()
      ensures var snap := NextSnapshot(old(engine.View()), [Text(text)], now);
        engine.View() == Accept(old(engine.View()), snap) && outbox == old(outbox) + [Clipboard(snap)]
    {
      var frame := WatchToFrame(engine, text, now);
      outbox := outbox + [frame];
    }

    /** The writer task takes the next frame off the queue. */
    method NextFrame() returns (frame: WireFrame)
      requires outbox != []
      modifies this`outbox
      ensures frame == old(outbox)[0] && outbox == old(outbox)[1..]
    {
      frame := outbox[0];
      outbox := outbox[1..];
    }
  }
}
