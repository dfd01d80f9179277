/** The producer-side cache of large payloads, keyed by their hash, evicting
    oldest first (crates/clipboard/src/lazy.rs). The hash function is left
    uninterpreted: the store carries it as a field. */
module Lazy {
  import opened Core

  const INLINE_THRESHOLD := 256 * 1024

  datatype Entry = Entry(hash: Digest, bytes: Bytes)

  ghost predicate Distinct(entries: seq<Entry>) {
    forall i, j :: 0 <= i < j < |entries| ==> entries[i].hash != entries[j].hash
  }

  function Size(entries: seq<Entry>): nat {
    if entries == [] then 0 else |entries[0].bytes| + Size(entries[1..])
  }

  /** What first-in first-out eviction leaves when `room` more bytes must fit. */
  function Kept(entries: seq<Entry>, room: nat, cap: nat): seq<Entry> {
    if entries == [] || Size(entries) + room <= cap then entries else Kept(entries[1..], room, cap)
  }

  lemma {:induction false} SizeDrop(entries: seq<Entry>, i: nat)
    requires i <= |entries|
    ensures Size(entries[i..]) <= Size(entries)
  {
    if 0 < i {
      assert entries[i..] == entries[1..][i - 1..];
      SizeDrop(entries[1..], i - 1);
    }
  }

  /** `Kept` is the longest suffix that still fits, or nothing if none does. */
  lemma {:induction false} KeptIsLongestFit(entries: seq<Entry>, room: nat, cap: nat)
    ensures var kept := Kept(entries, room, cap);
      && |kept| <= |entries| && kept == entries[|entries| - |kept|..]
      && (kept == [] || Size(kept) + room <= cap)
      && forall i :: 0 <= i < |entries| - |kept| ==> cap < Size(entries[i..]) + room
  {
    if entries != [] && cap < Size(entries) + room {
      KeptIsLongestFit(entries[1..], room, cap);
      var kept := Kept(entries, room, cap);
      assert kept == entries[|entries| - |kept|..];
      forall i | 0 <= i < |entries| - |kept|
        ensures cap < Size(entries[i..]) + room
      {
        if 0 < i {
          assert entries[i..] == entries[1..][i - 1..];
        }
      }
    }
  }

  lemma OlderIsNotYounger(entries: seq<Entry>, i: nat, cut: nat)
    requires i < cut <= |entries| && Distinct(entries)
    ensures entries[i] !in entries[cut..]
  {
    forall k | cut <= k < |entries|
      ensures entries[k] != entries[i]
    {
      assert entries[i].hash != entries[k].hash;
    }
  }

  /** Which entries an insertion spares: exactly those that fit under the cap
      together with everything younger and the newcomer. */
  lemma SurvivesIffFits(entries: seq<Entry>, room: nat, cap: nat, i: nat)
    requires i < |entries| && Distinct(entries)
    ensures entries[i] in Kept(entries, room, cap) <==> Size(entries[i..]) + room <= cap
  {
    KeptIsLongestFit(entries, room, cap);
    var kept := Kept(entries, room, cap);
    var cut := |entries| - |kept|;
    if cut <= i {
      SizeDrop(kept, i - cut);
      assert entries[i..] == kept[i - cut..];
      assert entries[i] == kept[i - cut];
    } else {
      OlderIsNotYounger(entries, i, cut);
    }
  }

  lemma {:induction false} SizeSnoc(entries: seq<Entry>, e: Entry)
    ensures Size(entries + [e]) == Size(entries) + |e.bytes|
  {
    if entries != [] {
      assert (entries + [e])[1..] == entries[1..] + [e];
      SizeSnoc(entries[1..], e);
    }
  }

  function Without(entries: seq<Entry>, hash: Digest): seq<Entry> {
    if entries == [] then []
    else if entries[0].hash == hash then Without(entries[1..], hash)
    else [entries[0]] + Without(entries[1..], hash)
  }

  /** The hashes of the entries, in insertion order. */
  function Order(entries: seq<Entry>): seq<Digest> {
    seq(|entries|, i requires 0 <= i < |entries| => entries[i].hash)
  }

  ghost predicate Holds(entries: seq<Entry>, hash: Digest) {
    exists i :: 0 <= i < |entries| && entries[i].hash == hash
  }

  lemma {:induction false} WithoutAbsent(entries: seq<Entry>, hash: Digest)
    requires !Holds(entries, hash)
    ensures Without(entries, hash) == entries
  {
    if entries != [] {
      var tail := entries[1..];
      assert entries[0].hash != hash;
      forall i | 0 <= i < |tail|
        ensures tail[i].hash != hash
      {
        assert tail[i] == entries[i + 1];
      }
      WithoutAbsent(tail, hash);
    }
  }

  lemma DistinctTail(entries: seq<Entry>)
    requires Distinct(entries) && entries != []
    ensures Distinct(entries[1..]) && !Holds(entries[1..], entries[0].hash)
  {
    var tail := entries[1..];
    assert forall k :: 0 <= k < |tail| ==> tail[k] == entries[k + 1];
  }

  lemma SkipBehindFirst(entries: seq<Entry>, i: nat)
    requires 0 < i < |entries|
    ensures [entries[0]] + (entries[1..][..i - 1] + entries[1..][i..]) == entries[..i] + entries[i + 1..]
  {
  }

  /** Forgetting a hash takes out its one entry and leaves the rest in order. */
  lemma {:induction false} WithoutTakesOne(entries: seq<Entry>, i: nat)
    requires Distinct(entries) && i < |entries|
    ensures Without(entries, entries[i].hash) == entries[..i] + entries[i + 1..]
    ensures Size(Without(entries, entries[i].hash)) == Size(entries) - |entries[i].bytes|
  {
    var tail := entries[1..];
    DistinctTail(entries);
    if i == 0 {
      WithoutAbsent(tail, entries[0].hash);
      assert entries[..0] + entries[1..] == tail;
    } else {
      assert tail[i - 1] == entries[i];
      WithoutTakesOne(tail, i - 1);
      SkipBehindFirst(entries, i);
      assert entries[0].hash != entries[i].hash;
    }
  }

  lemma HoldsTail(entries: seq<Entry>)
    requires entries != []
    ensures forall h :: Holds(entries, h) <==> h == entries[0].hash || Holds(entries[1..], h)
  {
    forall h | Holds(entries[1..], h)
      ensures Holds(entries, h)
    {
      var i :| 0 <= i < |entries[1..]| && entries[1..][i].hash == h;
      assert entries[i + 1].hash == h;
    }
    forall h | Holds(entries, h) && h != entries[0].hash
      ensures Holds(entries[1..], h)
    {
      var i :| 0 <= i < |entries| && entries[i].hash == h;
      assert entries[1..][i - 1].hash == h;
    }
  }

  lemma HoldsSnoc(entries: seq<Entry>, e: Entry)
    ensures forall h :: Holds(entries + [e], h) <==> Holds(entries, h) || h == e.hash
  {
    var all := entries + [e];
    assert all[|entries|] == e;
    forall h | Holds(entries, h)
      ensures Holds(all, h)
    {
      var i :| 0 <= i < |entries| && entries[i].hash == h;
      assert all[i].hash == h;
    }
  }

  lemma {:induction false} HoldsWithout(entries: seq<Entry>, hash: Digest)
    ensures forall h :: Holds(Without(entries, hash), h) <==> Holds(entries, h) && h != hash
    ensures forall e :: e in Without(entries, hash) <==> e in entries && e.hash != hash
  {
    if entries != [] {
      var rest := Without(entries[1..], hash);
      HoldsTail(entries);
      HoldsWithout(entries[1..], hash);
      if entries[0].hash != hash {
        HoldsTail([entries[0]] + rest);
        assert ([entries[0]] + rest)[1..] == rest;
      }
    }
  }

  function Retain(order: seq<Digest>, hash: Digest): seq<Digest> {
    if order == [] then []
    else if order[0] == hash then Retain(order[1..], hash)
    else [order[0]] + Retain(order[1..], hash)
  }

  lemma {:induction false} RetainIsWithout(entries: seq<Entry>, hash: Digest)
    ensures Retain(Order(entries), hash) == Order(Without(entries, hash))
  {
    if entries != [] {
      var rest := Without(entries[1..], hash);
      assert Order(entries)[1..] == Order(entries[1..]);
      RetainIsWithout(entries[1..], hash);
      assert Order([entries[0]] + rest) == [entries[0].hash] + Order(rest);
    }
  }

  lemma SkipOneIsDistinct(entries: seq<Entry>, i: nat)
    requires Distinct(entries) && i < |entries|
    ensures Distinct(entries[..i] + entries[i + 1..])
  {
    var rest := entries[..i] + entries[i + 1..];
    forall j, k | 0 <= j < k < |rest|
      ensures rest[j].hash != rest[k].hash
    {
      assert rest[j] == entries[if j < i then j else j + 1] && rest[k] == entries[if k < i then k else k + 1];
    }
  }

  lemma TakingOne(entries: seq<Entry>, hash: Digest) returns (i: nat)
    requires Distinct(entries) && Holds(entries, hash)
    ensures i < |entries| && entries[i].hash == hash
    ensures Distinct(Without(entries, hash)) && |Without(entries, hash)| == |entries| - 1
    ensures Size(Without(entries, hash)) == Size(entries) - |entries[i].bytes|
    ensures forall e :: e in Without(entries, hash) ==> e in entries
  {
    i :| 0 <= i < |entries| && entries[i].hash == hash;
    WithoutTakesOne(entries, i);
    HoldsWithout(entries, hash);
    SkipOneIsDistinct(entries, i);
  }

  function SaturatingSub(a: nat, b: nat): nat {
    if b <= a then a - b else 0
  }

  ghost predicate Injective(digest: Bytes -> Digest) {
    forall a, b :: digest(a) == digest(b) ==> a == b
  }

  // ----- runs of insertions and removals -----

  /** The list after inserting `e`: unchanged if its hash is taken. */
  ghost function AfterPut(entries: seq<Entry>, e: Entry, cap: nat): seq<Entry> {
    if Holds(entries, e.hash) then entries else Kept(entries, |e.bytes|, cap) + [e]
  }

  datatype Op = Put(entry: Entry) | Drop(hash: Digest)

  /** The list after a run of operations on an empty store. */
  ghost function StoreRun(ops: seq<Op>, cap: nat): seq<Entry> {
    if ops == [] then []
    else
      var front := StoreRun(ops[..|ops| - 1], cap);
      match ops[|ops| - 1]
      case Put(e) => AfterPut(front, e, cap)
      case Drop(hash) => Without(front, hash)
  }

  /** The same run without a cap: only removals take anything out. */
  ghost function Ledger(ops: seq<Op>, cap: nat): seq<Entry> {
    if ops == [] then []
    else
      var front := Ledger(ops[..|ops| - 1], cap);
      match ops[|ops| - 1]
      case Put(e) => if Holds(StoreRun(ops[..|ops| - 1], cap), e.hash) then front else front + [e]
      case Drop(hash) => Without(front, hash)
  }

  /** What a bounded store shows of an unbounded list: the newest entry and the
      longest run of older ones that fits beside it. */
  function NewestThatFit(entries: seq<Entry>, cap: nat): seq<Entry> {
    if entries == [] then []
    else
      var n := |entries| - 1;
      Kept(entries[..n], |entries[n].bytes|, cap) + [entries[n]]
  }

  /** Making room for two newcomers one after the other is making room once. */
  lemma {:induction false} KeptTwice(entries: seq<Entry>, b: Entry, room: nat, cap: nat)
    ensures Kept(Kept(entries, |b.bytes|, cap) + [b], room, cap) == Kept(entries + [b], room, cap)
  {
    if entries != [] && cap < Size(entries) + |b.bytes| {
      SizeSnoc(entries, b);
      assert (entries + [b])[1..] == entries[1..] + [b];
      KeptTwice(entries[1..], b, room, cap);
    }
  }

  /** After any insertions, whatever was evicted when, the store is what the
      unbounded list of new entries shows within the cap. */
  lemma {:induction false} InsertionsKeepNewestThatFit(ops: seq<Op>, cap: nat)
    requires forall i :: 0 <= i < |ops| ==> ops[i].Put?
    ensures StoreRun(ops, cap) == NewestThatFit(Ledger(ops, cap), cap)
  {
    if ops != [] {
      var front, e := ops[..|ops| - 1], ops[|ops| - 1].entry;
      InsertionsKeepNewestThatFit(front, cap);
      var all := Ledger(front, cap);
      if !Holds(StoreRun(front, cap), e.hash) {
        assert (all + [e])[..|all|] == all;
        if all != [] {
          var n := |all| - 1;
          KeptTwice(all[..n], all[n], |e.bytes|, cap);
          assert all[..n] + [all[n]] == all;
        }
      }
    }
  }

  ghost predicate IsSuffix(part: seq<Entry>, all: seq<Entry>) {
    |part| <= |all| && part == all[|all| - |part|..]
  }

  lemma {:induction false} WithoutSuffix(part: seq<Entry>, all: seq<Entry>, hash: Digest)
    requires IsSuffix(part, all)
    ensures IsSuffix(Without(part, hash), Without(all, hash))
  {
    if |part| < |all| {
      assert part == all[1..][|all[1..]| - |part|..];
      WithoutSuffix(part, all[1..], hash);
    } else {
      assert part == all;
    }
  }

  lemma SuffixSnoc(kept: seq<Entry>, part: seq<Entry>, all: seq<Entry>, e: Entry)
    requires IsSuffix(kept, part) && IsSuffix(part, all)
    ensures IsSuffix(kept + [e], all + [e])
  {
    assert kept == all[|all| - |kept|..];
  }

  /** With removals in between the store is still a suffix of what was inserted
      and not removed: nothing is evicted before an older entry. */
  lemma {:induction false} StoreIsSuffix(ops: seq<Op>, cap: nat)
    ensures IsSuffix(StoreRun(ops, cap), Ledger(ops, cap))
  {
    if ops != [] {
      var front, op := ops[..|ops| - 1], ops[|ops| - 1];
      var part, all := StoreRun(front, cap), Ledger(front, cap);
      StoreIsSuffix(front, cap);
      match op
      case Put(e) =>
        if !Holds(part, e.hash) {
          KeptIsLongestFit(part, |e.bytes|, cap);
          SuffixSnoc(Kept(part, |e.bytes|, cap), part, all, e);
        }
      case Drop(hash) => WithoutSuffix(part, all, hash);
    }
  }

  /** The entry with this hash and everything younger. */
  function Since(entries: seq<Entry>, hash: Digest): seq<Entry> {
    if entries == [] || entries[0].hash == hash then entries else Since(entries[1..], hash)
  }

  lemma {:induction false} SinceIs(entries: seq<Entry>, i: nat)
    requires Distinct(entries) && i < |entries|
    ensures Since(entries, entries[i].hash) == entries[i..]
  {
    if 0 < i {
      DistinctTail(entries);
      assert entries[0].hash != entries[i].hash;
      SinceIs(entries[1..], i - 1);
      assert entries[1..][i - 1..] == entries[i..];
    } else {
      assert entries[0..] == entries;
    }
  }

  lemma KeptIsDistinct(entries: seq<Entry>, room: nat, cap: nat)
    requires Distinct(entries)
    ensures Distinct(Kept(entries, room, cap))
    ensures forall e :: e in Kept(entries, room, cap) ==> e in entries
  {
    KeptIsLongestFit(entries, room, cap);
  }

  lemma PutIsDistinct(entries: seq<Entry>, e: Entry, cap: nat)
    requires Distinct(entries)
    ensures Distinct(AfterPut(entries, e, cap))
  {
    if !Holds(entries, e.hash) {
      var kept := Kept(entries, |e.bytes|, cap);
      KeptIsDistinct(entries, |e.bytes|, cap);
      forall i | 0 <= i < |kept|
        ensures kept[i].hash != e.hash
      {
        assert kept[i] in kept;
      }
    }
  }

  lemma DropIsDistinct(entries: seq<Entry>, hash: Digest)
    requires Distinct(entries)
    ensures Distinct(Without(entries, hash))
  {
    if Holds(entries, hash) {
      var i := TakingOne(entries, hash);
    } else {
      WithoutAbsent(entries, hash);
    }
  }

  lemma {:induction false} StoreRunIsDistinct(ops: seq<Op>, cap: nat)
    ensures Distinct(StoreRun(ops, cap))
  {
    if ops != [] {
      var front := ops[..|ops| - 1];
      StoreRunIsDistinct(front, cap);
      match ops[|ops| - 1]
      case Put(e) => PutIsDistinct(StoreRun(front, cap), e, cap);
      case Drop(hash) => DropIsDistinct(StoreRun(front, cap), hash);
    }
  }

  /** An operation on a store with these entries spares `e`: it does not remove
      it, and if it inserts something new, `e` fits together with everything
      younger and the newcomer. */
  ghost predicate Spares(entries: seq<Entry>, op: Op, e: Entry, cap: nat) {
    match op
    case Put(x) => Holds(entries, x.hash) || Size(Since(entries, e.hash)) + |x.bytes| <= cap
    case Drop(hash) => hash != e.hash
  }

  /** Operation `j` enters `e`, and none after it takes `e` out. */
  ghost predicate StaysSince(ops: seq<Op>, cap: nat, e: Entry, j: nat) {
    && j < |ops| && ops[j] == Put(e) && !Holds(StoreRun(ops[..j], cap), e.hash)
    && forall k :: j < k < |ops| ==> Spares(StoreRun(ops[..k], cap), ops[k], e, cap)
  }

  /** One operation keeps exactly the entries it spares, and the one it enters. */
  lemma OpKeeps(entries: seq<Entry>, op: Op, e: Entry, cap: nat)
    requires Distinct(entries)
    ensures var after := if op.Put? then AfterPut(entries, op.entry, cap) else Without(entries, op.hash);
      e in after <==>
        (e in entries && Spares(entries, op, e, cap)) || (op == Put(e) && !Holds(entries, e.hash))
  {
    match op
    case Put(x) =>
      if i :| 0 <= i < |entries| && entries[i] == e {
        SinceIs(entries, i);
        SurvivesIffFits(entries, |x.bytes|, cap, i);
      } else {
        KeptIsDistinct(entries, |x.bytes|, cap);
      }
    case Drop(hash) => HoldsWithout(entries, hash);
  }

  lemma StaysLonger(ops: seq<Op>, cap: nat, e: Entry, j: nat)
    requires ops != [] && j < |ops| - 1
    ensures var front := ops[..|ops| - 1];
      StaysSince(ops, cap, e, j) <==>
        StaysSince(front, cap, e, j) && Spares(StoreRun(front, cap), ops[|ops| - 1], e, cap)
  {
    var front := ops[..|ops| - 1];
    assert forall k :: 0 <= k < |front| ==> front[..k] == ops[..k];
  }

  /** What the store holds after any insertions and removals, exactly: the
      entries that some insertion entered and every later operation spared. */
  lemma {:induction false} HeldIffSpared(ops: seq<Op>, cap: nat, e: Entry)
    ensures e in StoreRun(ops, cap) <==> exists j: nat :: StaysSince(ops, cap, e, j)
  {
    if ops != [] {
      var n := |ops| - 1;
      var front := ops[..n];
      HeldIffSpared(front, cap, e);
      StoreRunIsDistinct(front, cap);
      OpKeeps(StoreRun(front, cap), ops[n], e, cap);
      if j: nat :| StaysSince(front, cap, e, j) && Spares(StoreRun(front, cap), ops[n], e, cap) {
        StaysLonger(ops, cap, e, j);
      }
      if j: nat :| StaysSince(ops, cap, e, j) && j < n {
        StaysLonger(ops, cap, e, j);
      }
      if ops[n] == Put(e) && !Holds(StoreRun(front, cap), e.hash) {
        assert StaysSince(ops, cap, e, n);
      }
    }
  }

  function Stored(byHash: map<Digest, Bytes>, hash: Digest): Option<Bytes> {
    if hash in byHash then Some(byHash[hash]) else None
  }

  /** A map agrees with a list of entries: the same keys, each with the bytes
      of its entry, filed under their hash. */
  ghost predicate Indexed(digest: Bytes -> Digest, byHash: map<Digest, Bytes>, entries: seq<Entry>) {
    && (forall h :: h in byHash <==> Holds(entries, h))
    && (forall e :: e in entries ==> e.hash in byHash && byHash[e.hash] == e.bytes && e.hash == digest(e.bytes))
  }

  lemma OrderTail(entries: seq<Entry>)
    requires entries != []
    ensures Order(entries)[1..] == Order(entries[1..])
  {
  }

  lemma IndexedTail(digest: Bytes -> Digest, byHash: map<Digest, Bytes>, entries: seq<Entry>)
    requires Indexed(digest, byHash, entries) && Distinct(entries) && entries != []
    ensures entries[0].hash in byHash && byHash[entries[0].hash] == entries[0].bytes
    ensures Indexed(digest, byHash - {entries[0].hash}, entries[1..])
  {
    assert entries[0] in entries;
    HoldsTail(entries);
    DistinctTail(entries);
    forall e | e in entries[1..]
      ensures e.hash != entries[0].hash && e in entries
    {
      var i :| 0 <= i < |entries[1..]| && entries[1..][i] == e;
      assert Holds(entries[1..], e.hash);
    }
  }

  lemma IndexedSnoc(digest: Bytes -> Digest, byHash: map<Digest, Bytes>, entries: seq<Entry>, e: Entry)
    requires Indexed(digest, byHash, entries) && !Holds(entries, e.hash) && e.hash == digest(e.bytes)
    ensures Indexed(digest, byHash[e.hash := e.bytes], entries + [e])
  {
    HoldsSnoc(entries, e);
    forall x | x in entries
      ensures x.hash != e.hash
    {
      var i :| 0 <= i < |entries| && entries[i] == x;
    }
  }

  lemma DistinctSnoc(entries: seq<Entry>, e: Entry)
    requires Distinct(entries) && !Holds(entries, e.hash)
    ensures Distinct(entries + [e])
  {
  }

  lemma OrderSnoc(entries: seq<Entry>, e: Entry)
    ensures Order(entries + [e]) == Order(entries) + [e.hash]
  {
  }

  lemma IndexedWithout(digest: Bytes -> Digest, byHash: map<Digest, Bytes>, entries: seq<Entry>, hash: Digest)
    requires Indexed(digest, byHash, entries)
    ensures Indexed(digest, byHash - {hash}, Without(entries, hash))
  {
    HoldsWithout(entries, hash);
  }

  /** `entries` is the ghost first-in first-out list the three fields encode. */
  class LazyStore {
    const digest: Bytes -> Digest
    const cap: nat
    var byHash: map<Digest, Bytes>
    var order: seq<Digest>
    var totalBytes: nat
    ghost var entries: seq<Entry>

    /** The fields agree with the list: `order` lists the map's keys once each,
        oldest first, and `totalBytes` is the exact sum. */
    ghost predicate Encodes()
      reads this
    {
      && Distinct(entries)
      && order == Order(entries)
      && totalBytes == Size(entries)
      && Indexed(digest, byHash, entries)
    }

    ghost predicate Valid()
      reads this
    {
      Encodes() && (totalBytes <= cap || |entries| == 1)
    }

    constructor (digest: Bytes -> Digest, cap: nat)
      ensures Valid() && entries == [] && this.digest == digest && this.cap == cap
    {
      this.digest := digest;
      this.cap := cap;
      byHash, order, totalBytes := map[], [], 0;
      entries := [];
    }

    method EvictOldest()
      requires Encodes() && entries != []
      modifies this`byHash, this`order, this`totalBytes, this`entries
      ensures Encodes() && entries == old(entries)[1..]
      ensures byHash == old(byHash) - {old(entries)[0].hash}
    {
      IndexedTail(digest, byHash, entries);
      DistinctTail(entries);
      OrderTail(entries);
      var oldest := order[0];
      order := order[1..];
      if oldest in byHash {
        totalBytes := SaturatingSub(totalBytes, |byHash[oldest]|);
        byHash := byHash - {oldest};
      }
      entries := entries[1..];
    }

    method Append(hash: Digest, bytes: Bytes)
      requires Encodes() && hash !in byHash && hash == digest(bytes)
      modifies this`byHash, this`order, this`totalBytes, this`entries
      ensures Encodes() && entries == old(entries) + [Entry(hash, bytes)]
      ensures byHash == old(byHash)[hash := bytes]
    {
      ghost var e := Entry(hash, bytes);
      SizeSnoc(entries, e);
      OrderSnoc(entries, e);
      DistinctSnoc(entries, e);
      IndexedSnoc(digest, byHash, entries, e);
      totalBytes := totalBytes + |bytes|;
      order := order + [hash];
      byHash := byHash[hash := bytes];
      entries := entries + [e];
    }

    /** A known hash changes nothing; a new one keeps the longest suffix that
        fits beside it and goes last, even when it alone exceeds the cap. */
    method Insert(bytes: Bytes) returns (hash: Digest)
      requires Valid()
      modifies this`byHash, this`order, this`totalBytes, this`entries
      ensures Valid() && hash == digest(bytes)
      ensures entries == AfterPut(old(entries), Entry(hash, bytes), cap)
      ensures hash in old(byHash) <==> Holds(old(entries), hash)
      ensures hash in old(byHash) ==> entries == old(entries) && byHash == old(byHash)
      ensures hash !in old(byHash) ==> entries == Kept(old(entries), |bytes|, cap) + [Entry(hash, bytes)]
      ensures hash !in old(byHash) ==> hash in byHash && byHash[hash] == bytes
    {
      hash := digest(bytes);
      if hash in byHash {
        return;
      }
      while cap < totalBytes + |bytes|
        invariant Encodes() && hash !in byHash
        invariant Kept(entries, |bytes|, cap) == Kept(old(entries), |bytes|, cap)
        decreases |order|
      {
        if order == [] {
          break;
        }
        EvictOldest();
      }
      SizeSnoc(entries, Entry(hash, bytes));
      Append(hash, bytes);
    }

    function Lookup(hash: Digest): Option<Bytes>
      reads this
    {
      Stored(byHash, hash)
    }

    method Get(hash: Digest) returns (found: Option<Bytes>)
      ensures found == Lookup(hash)
      ensures Valid() ==> forall b :: found == Some(b) <==> Entry(hash, b) in entries
    {
      found := if hash in byHash then Some(byHash[hash]) else None;
      if Valid() && hash in byHash {
        ghost var i :| 0 <= i < |entries| && entries[i].hash == hash;
        assert entries[i] in entries;
      }
    }

    method Remove(hash: Digest)
      requires Valid()
      modifies this`byHash, this`order, this`totalBytes, this`entries
      ensures Valid()
      ensures entries == Without(old(entries), hash)
      ensures byHash == old(byHash) - {hash}
    {
      if hash in byHash {
        ghost var i := TakingOne(entries, hash);
        assert entries[i] in entries;
        RetainIsWithout(entries, hash);
        IndexedWithout(digest, byHash, entries, hash);
        totalBytes := SaturatingSub(totalBytes, |byHash[hash]|);
        byHash := byHash - {hash};
        order := Retain(order, hash);
        entries := Without(entries, hash);
        return;
      }
      WithoutAbsent(entries, hash);
    }
  }

  /** What a payload stands for, given a store. */
  function Resolve(store: LazyStore, payload: LazyPayload): Option<Bytes>
    reads store
  {
    match payload
    case Inline(b) => Some(b)
    case OnDemand(hash, _) => store.Lookup(hash)
  }

  method ServeFetch(store: LazyStore, payload: LazyPayload) returns (bytes: Option<Bytes>)
    ensures bytes == Resolve(store, payload)
    ensures payload.Inline? ==> bytes == Some(payload.bytes)
    ensures payload.OnDemand? && store.Valid() ==>
      forall b :: bytes == Some(b) <==> Entry(payload.hash, b) in store.entries
  {
    match payload
    case Inline(b) => bytes := Some(b);
    case OnDemand(hash, _) => bytes := store.Get(hash);
  }

  /** The image item for `bytes`. Resolving it right afterwards gives the bytes
      back in every case but one: a large image whose hash is already taken by
      other bytes. */
  method ProduceImage(store: LazyStore, bytes: Bytes, format: ImageFormat) returns (item: ClipItem)
    requires store.Valid()
    modifies store`byHash, store`order, store`totalBytes, store`entries
    ensures store.Valid()
    ensures item.Image? && item.format == format && item.hash == store.digest(bytes)
    ensures item.data == if |bytes| <= 256 * 1024 then Inline(bytes) else OnDemand(item.hash, |bytes|)
    ensures |bytes| <= INLINE_THRESHOLD || item.hash in old(store.byHash) ==> store.entries == old(store.entries)
    ensures INLINE_THRESHOLD < |bytes| && item.hash !in old(store.byHash) ==>
              store.entries == Kept(old(store.entries), |bytes|, store.cap) + [Entry(item.hash, bytes)]
    ensures Resolve(store, item.data) == Some(bytes) <==>
              (|bytes| <= INLINE_THRESHOLD || item.hash !in old(store.byHash) || old(store.byHash)[item.hash] == bytes)
    ensures Injective(store.digest) ==> Resolve(store, item.data) == Some(bytes)
  {
    var hash := store.digest(bytes);
    if |bytes| <= INLINE_THRESHOLD {
      return Image(format, hash, Inline(bytes));
    }
    if hash in store.byHash {
      ghost var i :| 0 <= i < |store.entries| && store.entries[i].hash == hash;
    }
    var _ := store.Insert(bytes);
    item := Image(format, hash, OnDemand(hash, |bytes|));
  }
}
