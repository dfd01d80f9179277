/** The per-node clipboard engine: a Lamport counter and a bounded history
    (crates/clipboard/src/lib.rs). */
module ClipboardEngine {
  import opened Core

  datatype Decision = Apply(snap: Snapshot) | Ignore

  /** The engine's fields as a value; the network models are built from it. */
  datatype EngineState = EngineState(selfId: NodeId, version: nat, history: seq<Snapshot>, limit: nat)

  function Fresh(selfId: NodeId, historyLimit: nat): EngineState {
    EngineState(selfId, 0, [], if historyLimit < 1 then 1 else historyLimit)
  }

  function PushHistory(history: seq<Snapshot>, limit: nat, snap: Snapshot): seq<Snapshot> {
    (if |history| == limit && history != [] then history[1..] else history) + [snap]
  }

  /** Moving the clock to `snap` and remembering it: the common tail of
      producing a snapshot and of applying a remote one. */
  function Accept(e: EngineState, snap: Snapshot): EngineState {
    e.(version := snap.version, history := PushHistory(e.history, e.limit, snap))
  }

  function NextSnapshot(e: EngineState, items: seq<ClipItem>, now: nat): Snapshot {
    Snapshot(e.version + 1, e.selfId, now, items)
  }

  function Decide(e: EngineState, snap: Snapshot): Decision {
    if snap.origin == e.selfId || snap.version <= e.version then Ignore else Apply(snap)
  }

  function Newest(e: EngineState): Option<Snapshot> {
    if e.history == [] then None else Some(e.history[|e.history| - 1])
  }

  /** The last `limit` entries of an unbounded log. */
  function Window(log: seq<Snapshot>, limit: nat): seq<Snapshot> {
    if |log| <= limit then log else log[|log| - limit..]
  }

  function LastVersion(log: seq<Snapshot>): nat {
    if log == [] then 0 else log[|log| - 1].version
  }

  ghost predicate Increasing(log: seq<Snapshot>) {
    && (forall i, j :: 0 <= i < j < |log| ==> log[i].version < log[j].version)
    && (forall i :: 0 <= i < |log| ==> 0 < log[i].version)
  }

  /** `e` is what an engine with an unbounded history `log` looks like when
      only its last `limit` entries are kept. */
  ghost predicate RefinesLog(e: EngineState, log: seq<Snapshot>) {
    && 1 <= e.limit
    && Increasing(log)
    && e.version == LastVersion(log)
    && e.history == Window(log, e.limit)
  }

  /** `history` is the last `limit` entries of `log`, or all if it has fewer. */
  ghost predicate KeepsLast(history: seq<Snapshot>, log: seq<Snapshot>, limit: nat) {
    |history| == (if |log| < limit then |log| else limit) && history == log[|log| - |history|..]
  }

  lemma WindowKeepsLast(log: seq<Snapshot>, limit: nat)
    ensures KeepsLast(Window(log, limit), log, limit)
  {
  }

  lemma WindowSnoc(log: seq<Snapshot>, limit: nat, snap: Snapshot)
    requires 1 <= limit
    ensures Window(log + [snap], limit) == PushHistory(Window(log, limit), limit, snap)
  {
    var w := Window(log, limit);
    if limit <= |log| {
      assert (log + [snap])[|log| + 1 - limit..] == log[|log| - limit..][1..] + [snap];
    }
  }

  lemma IncreasingSnoc(log: seq<Snapshot>, snap: Snapshot)
    requires Increasing(log) && LastVersion(log) < snap.version
    ensures Increasing(log + [snap])
  {
  }

  lemma AcceptRefinesLog(e: EngineState, log: seq<Snapshot>, snap: Snapshot)
    requires RefinesLog(e, log)
    requires e.version < snap.version
    ensures RefinesLog(Accept(e, snap), log + [snap])
  {
    WindowSnoc(log, e.limit, snap);
    IncreasingSnoc(log, snap);
  }

  /** The newest entry is never lost to the bound, and carries the clock. */
  lemma NewestIsLast(e: EngineState, log: seq<Snapshot>)
    requires RefinesLog(e, log)
    ensures Newest(e) == if log == [] then None else Some(log[|log| - 1])
    ensures Newest(e).None? <==> e.version == 0
    ensures Newest(e).Some? ==> Newest(e).value.version == e.version
  {
  }

  /** At least one entry is always kept. */
  type Limit = n: nat | 1 <= n witness 1

  /** The engine object behind the mutex: each method body is one critical
      section. `log` is the unbounded history the bounded one stands for. */
  class Engine {
    const selfId: NodeId
    var localVersion: nat
    var history: seq<Snapshot>
    const historyLimit: Limit
    ghost var log: seq<Snapshot>

    function View(): EngineState
      reads this
    {
      EngineState(selfId, localVersion, history, historyLimit)
    }

    ghost predicate Valid()
      reads this
    {
      RefinesLog(View(), log)
    }

    constructor (selfId: NodeId, historyLimit: nat)
      ensures Valid() && log == []
      ensures this.selfId == selfId && localVersion == 0 && history == []
      ensures this.historyLimit == if historyLimit < 1 then 1 else historyLimit
      ensures View() == Fresh(selfId, historyLimit)
    {
      this.selfId := selfId;
      localVersion := 0;
      history := [];
      this.historyLimit := if historyLimit < 1 then 1 else historyLimit;
      log := [];
    }

    method Remember(snap: Snapshot)
      modifies this`history
      ensures history == PushHistory(old(history), historyLimit, snap)
      ensures history == (if |old(history)| == historyLimit then old(history)[1..] else old(history)) + [snap]
    {
      if |history| == historyLimit {
        history := history[1..];
      }
      history := history + [snap];
    }

    method Produce(items: seq<ClipItem>, now: nat) returns (snap: Snapshot)
      modifies this
      ensures old(Valid()) ==> Valid()
      ensures log == old(log) + [snap]
      ensures snap == NextSnapshot(old(View()), items, now)
      ensures snap == Snapshot(old(localVersion) + 1, selfId, now, items) && localVersion == snap.version
      ensures View() == Accept(old(View()), snap)
    {
      ghost var before := View();
      localVersion := localVersion + 1;
      snap := Snapshot(localVersion, selfId, now, items);
      Remember(snap);
      if RefinesLog(before, log) {
        AcceptRefinesLog(before, log, snap);
      }
      log := log + [snap];
    }

    method ProduceText(text: string, now: nat) returns (snap: Snapshot)
      modifies this
      ensures old(Valid()) ==> Valid()
      ensures log == old(log) + [snap]
      ensures snap == NextSnapshot(old(View()), [Text(text)], now)
      ensures snap == Snapshot(old(localVersion) + 1, selfId, now, [Text(text)]) && localVersion == snap.version
      ensures View() == Accept(old(View()), snap)
    {
      snap := Produce([Text(text)], now);
    }

    method ObserveRemote(snap: Snapshot) returns (decision: Decision)
      modifies this
      ensures old(Valid()) ==> Valid()
      ensures decision == Decide(old(View()), snap)
      ensures decision == Apply(snap) <==> snap.origin != selfId && old(localVersion) < snap.version
      ensures decision != Apply(snap) ==> decision == Ignore && localVersion == old(localVersion)
      ensures decision == Apply(snap) ==> localVersion == snap.version
      ensures decision.Apply? ==> View() == Accept(old(View()), snap) && log == old(log) + [snap]
      ensures decision.Ignore? ==> View() == old(View()) && log == old(log)
    {
      if snap.origin == selfId {
        return Ignore;
      }
      if snap.version <= localVersion {
        return Ignore;
      }
      ghost var before := View();
      localVersion := snap.version;
      Remember(snap);
      if RefinesLog(before, log) {
        AcceptRefinesLog(before, log, snap);
      }
      log := log + [snap];
      decision := Apply(snap);
    }

    /** Newest last. */
    method History() returns (h: seq<Snapshot>)
      requires Valid()
      ensures KeepsLast(h, log, historyLimit)
    {
      h := history;
    }
  }
}
