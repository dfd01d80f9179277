/** Serving a large payload on demand: looking it up, cutting it into chunk
    frames, and what a receiver gets by putting the chunks together again
    (crates/cli/src/runtime/server.rs, crates/core/src/wire.rs). */
module Fetch {
  import opened Core
  import opened Framing
  import opened Lazy
  import opened Sums

  const CHUNK := 256 * 1024

  /** The `as u32` cast. */
  function AsU32(n: nat): u32 {
    n % 0x1_0000_0000
  }

  function DivCeil(a: nat, b: nat): nat
    requires 0 < b
  {
    (a + b - 1) / b
  }

  /** `slice::chunks`: full pieces and one shorter remainder. */
  function Chunks(bytes: Bytes, size: nat): seq<Bytes>
    requires 0 < size
    decreases |bytes|
  {
    if bytes == [] then []
    else if |bytes| <= size then [bytes]
    else [bytes[..size]] + Chunks(bytes[size..], size)
  }

  function Concat(pieces: seq<Bytes>): Bytes {
    if pieces == [] then [] else pieces[0] + Concat(pieces[1..])
  }

  function ChunkFetchResponse(hash: Digest, bytes: Bytes): seq<WireFrame> {
    if bytes == [] then [FetchResponse(hash, 0, 1, [])]
    else
      var total := AsU32(DivCeil(|bytes|, CHUNK));
      var chunks := Chunks(bytes, CHUNK);
      seq(|chunks|, i requires 0 <= i < |chunks| => FetchResponse(hash, AsU32(i), total, chunks[i]))
  }

  /** Ceiling division counts one chunk at a time. */
  lemma DivCeilStep(n: nat, size: nat)
    requires 0 < size
    ensures DivCeil(n, size) == if n == 0 then 0 else if n <= size then 1 else 1 + DivCeil(n - size, size)
  {
    if n == 0 {
      Quotient(size - 1, size, 0, size - 1);
    } else if n <= size {
      Quotient(n + size - 1, size, 1, n - 1);
    } else {
      var a := n - 1;
      var k := a / size;
      assert a == size * k + a % size && size * (k + 1) == size * k + size;
      Quotient(n + size - 1, size, k + 1, a % size);
    }
  }

  /** Chunks cut a byte string into ceil(len / size) pieces, all full but the
      last, none empty, that join up to it again. */
  lemma {:induction false} ChunksPartition(bytes: Bytes, size: nat)
    requires 0 < size
    ensures var cs := Chunks(bytes, size);
      && Concat(cs) == bytes
      && |cs| == DivCeil(|bytes|, size)
      && (forall i :: 0 <= i < |cs| - 1 ==> |cs[i]| == size)
      && (forall i :: 0 <= i < |cs| ==> 0 < |cs[i]| <= size)
    decreases |bytes|
  {
    DivCeilStep(|bytes|, size);
    if bytes != [] {
      if |bytes| <= size {
        assert Concat([bytes]) == bytes + Concat([bytes][1..]);
      } else {
        var rest := bytes[size..];
        ChunksPartition(rest, size);
        var cs := Chunks(bytes, size);
        assert cs[1..] == Chunks(rest, size);
        assert bytes == bytes[..size] + rest;
      }
    }
  }

  /** Chunk `i` is the bytes from `i` times the size on. */
  lemma {:induction false} ChunkAt(bytes: Bytes, size: nat, i: nat)
    requires 0 < size && i < |Chunks(bytes, size)|
    ensures var from := size * i;
      from < |bytes| && Chunks(bytes, size)[i] == bytes[from..if |bytes| < from + size then |bytes| else from + size]
    decreases i
  {
    if 0 < i {
      var rest, from := bytes[size..], size * (i - 1);
      ChunkAt(rest, size, i - 1);
      assert size * i == size + from;
      assert Chunks(bytes, size)[i] == Chunks(rest, size)[i - 1];
    }
  }

  function Bodies(frames: seq<WireFrame>): seq<Bytes>
    requires forall f :: f in frames ==> f.FetchResponse?
  {
    seq(|frames|, i requires 0 <= i < |frames| => assert frames[i] in frames; frames[i].bytes)
  }

  /** The shape of a reply: at least one frame, indices counting up from zero,
      every frame announcing the same total, the pieces joining up to the
      bytes; none is empty unless there is nothing to send. */
  lemma ReplyShape(hash: Digest, bytes: Bytes)
    ensures var fs := ChunkFetchResponse(hash, bytes);
      && |fs| == (if bytes == [] then 1 else DivCeil(|bytes|, CHUNK))
      && 1 <= |fs|
      && (forall i :: 0 <= i < |fs| ==> fs[i] == FetchResponse(hash, AsU32(i), AsU32(|fs|), fs[i].bytes))
      && (forall i :: 0 <= i < |fs| - 1 ==> |fs[i].bytes| == CHUNK)
      && (forall i :: 0 <= i < |fs| ==> |fs[i].bytes| <= CHUNK)
      && (bytes != [] ==> forall i :: 0 <= i < |fs| ==> 0 < |fs[i].bytes|)
      && Concat(Bodies(fs)) == bytes
  {
    var fs := ChunkFetchResponse(hash, bytes);
    if bytes == [] {
      var none: Bytes := [];
      assert Bodies(fs) == [none] && Concat([none]) == none;
    } else {
      ChunksPartition(bytes, CHUNK);
      assert Bodies(fs) == Chunks(bytes, CHUNK);
      assert Chunks(bytes, CHUNK) != [];
    }
  }

  const MAX_FETCH := 0xFFFF_FFFF * CHUNK

  lemma ChunkCount(n: nat)
    ensures DivCeil(n, CHUNK) <= 0xFFFF_FFFF <==> n <= MAX_FETCH
  {
  }

  lemma SmallIsExact(n: nat)
    requires n <= 0xFFFF_FFFF
    ensures AsU32(n) == n
  {
  }

  /** The two `as u32` casts lose nothing exactly up to (2^32 - 1) chunks. */
  lemma CastsAreLossless(hash: Digest, bytes: Bytes)
    ensures var fs := ChunkFetchResponse(hash, bytes);
      (forall i :: 0 <= i < |fs| ==> fs[i].FetchResponse? && fs[i].chunkIdx as nat == i && fs[i].total as nat == |fs|)
        <==> |bytes| <= MAX_FETCH
  {
    var fs := ChunkFetchResponse(hash, bytes);
    ReplyShape(hash, bytes);
    ChunkCount(|bytes|);
    if |bytes| <= MAX_FETCH {
      SmallIsExact(|fs|);
      forall i | 0 <= i < |fs|
        ensures fs[i].chunkIdx as nat == i && fs[i].total as nat == |fs|
      {
        SmallIsExact(i);
      }
    } else {
      assert fs[0].total as nat != |fs|;
    }
  }

  // ----- the receiver -----

  predicate IsResponse(f: WireFrame, hash: Digest) {
    f.FetchResponse? && f.hash == hash
  }

  predicate IsPiece(f: WireFrame, hash: Digest, idx: nat) {
    IsResponse(f, hash) && f.chunkIdx as nat == idx
  }

  /** The number of pieces to wait for, as the first response announces it. */
  function AnnouncedTotal(arrived: seq<WireFrame>, hash: Digest): Option<nat> {
    if arrived == [] then None
    else if IsResponse(arrived[0], hash) then Some(arrived[0].total)
    else AnnouncedTotal(arrived[1..], hash)
  }

  /** The bytes of the first arrived frame that carries piece `idx`. */
  function Piece(arrived: seq<WireFrame>, hash: Digest, idx: nat): Option<Bytes> {
    if arrived == [] then None
    else if IsPiece(arrived[0], hash, idx) then Some(arrived[0].bytes)
    else Piece(arrived[1..], hash, idx)
  }

  /** Concatenating the pieces `from..total`, if all have arrived. */
  function Assemble(arrived: seq<WireFrame>, hash: Digest, from: nat, total: nat): Option<Bytes>
    decreases total - from
  {
    if total <= from then Some([])
    else
      match (Piece(arrived, hash, from), Assemble(arrived, hash, from + 1, total))
      case (Some(b), Some(rest)) => Some(b + rest)
      case _ => None
  }

  /** What a receiver makes of the frames that arrived, told nothing else. */
  function Reassemble(arrived: seq<WireFrame>, hash: Digest): Option<Bytes> {
    match AnnouncedTotal(arrived, hash)
    case None => None
    case Some(total) => Assemble(arrived, hash, 0, total)
  }

  lemma {:induction false} AnnouncedIs(arrived: seq<WireFrame>, hash: Digest, total: nat)
    requires forall f :: f in arrived && IsResponse(f, hash) ==> f.total as nat == total
    ensures AnnouncedTotal(arrived, hash) ==
      if exists f :: f in arrived && IsResponse(f, hash) then Some(total) else None
  {
    if arrived != [] {
      assert arrived[0] in arrived;
      assert forall f :: f in arrived <==> f == arrived[0] || f in arrived[1..];
      AnnouncedIs(arrived[1..], hash, total);
    }
  }

  lemma {:induction false} PieceFound(arrived: seq<WireFrame>, hash: Digest, idx: nat)
    ensures match Piece(arrived, hash, idx)
            case Some(b) => exists f :: f in arrived && IsPiece(f, hash, idx) && f.bytes == b
            case None => forall f :: f in arrived ==> !IsPiece(f, hash, idx)
  {
    if arrived != [] {
      assert arrived[0] in arrived;
      PieceFound(arrived[1..], hash, idx);
    }
  }

  lemma {:induction false} AssembleFrom(arrived: seq<WireFrame>, hash: Digest, pieces: seq<Bytes>, from: nat)
    requires from <= |pieces|
    requires forall i :: 0 <= i < |pieces| ==> Piece(arrived, hash, i) == Some(pieces[i])
    ensures Assemble(arrived, hash, from, |pieces|) == Some(Concat(pieces[from..]))
    decreases |pieces| - from
  {
    if from < |pieces| {
      AssembleFrom(arrived, hash, pieces, from + 1);
      assert pieces[from..][1..] == pieces[from + 1..];
    }
  }

  lemma {:induction false} AssembleLacks(arrived: seq<WireFrame>, hash: Digest, from: nat, total: nat, lacking: nat)
    requires from <= lacking < total && Piece(arrived, hash, lacking) == None
    ensures Assemble(arrived, hash, from, total) == None
    decreases lacking - from
  {
    if from < lacking {
      AssembleLacks(arrived, hash, from + 1, total, lacking);
    }
  }

  lemma {:induction false} AssembledSize(arrived: seq<WireFrame>, hash: Digest, from: nat, total: nat)
    requires forall f :: f in arrived && IsResponse(f, hash) ==> |f.bytes| <= CHUNK
    requires from <= total
    ensures var r := Assemble(arrived, hash, from, total); r.Some? ==> |r.value| <= (total - from) * CHUNK
    decreases total - from
  {
    if from < total {
      AssembledSize(arrived, hash, from + 1, total);
      PieceFound(arrived, hash, from);
    }
  }

  /** Every response for `hash` that arrived is one of the chunks of `bytes`. */
  ghost predicate Genuine(arrived: seq<WireFrame>, hash: Digest, bytes: Bytes) {
    forall f :: f in arrived && IsResponse(f, hash) ==> f in ChunkFetchResponse(hash, bytes)
  }

  /** Every chunk has arrived, in whatever order and how often. */
  ghost predicate Complete(arrived: seq<WireFrame>, hash: Digest, bytes: Bytes) {
    forall f :: f in ChunkFetchResponse(hash, bytes) ==> f in arrived
  }

  /** Up to the size limit a chunk is known by its index. */
  lemma ChunkByIndex(hash: Digest, bytes: Bytes, f: WireFrame)
    requires |bytes| <= MAX_FETCH && f in ChunkFetchResponse(hash, bytes)
    ensures var fs := ChunkFetchResponse(hash, bytes);
      IsResponse(f, hash) && f.total as nat == |fs| && f.chunkIdx as nat < |fs| && f == fs[f.chunkIdx as nat]
  {
    var fs := ChunkFetchResponse(hash, bytes);
    ReplyShape(hash, bytes);
    CastsAreLossless(hash, bytes);
    var k :| 0 <= k < |fs| && fs[k] == f;
    assert fs[k].chunkIdx as nat == k;
  }

  /** A genuine piece is there exactly when its chunk arrived. */
  lemma PieceIsChunk(hash: Digest, bytes: Bytes, arrived: seq<WireFrame>, i: nat)
    requires |bytes| <= MAX_FETCH && Genuine(arrived, hash, bytes) && i < |ChunkFetchResponse(hash, bytes)|
    ensures var chunk := ChunkFetchResponse(hash, bytes)[i];
      chunk.FetchResponse? && Piece(arrived, hash, i) == if chunk in arrived then Some(chunk.bytes) else None
  {
    var chunk := ChunkFetchResponse(hash, bytes)[i];
    CastsAreLossless(hash, bytes);
    ChunkByIndex(hash, bytes, chunk);
    PieceFound(arrived, hash, i);
    forall f | f in arrived && IsPiece(f, hash, i)
      ensures f == chunk
    {
      ChunkByIndex(hash, bytes, f);
    }
    assert IsPiece(chunk, hash, i);
  }

  lemma CompleteReassembles(hash: Digest, bytes: Bytes, arrived: seq<WireFrame>)
    requires |bytes| <= MAX_FETCH && Genuine(arrived, hash, bytes) && Complete(arrived, hash, bytes)
    ensures Reassemble(arrived, hash) == Some(bytes)
  {
    var fs := ChunkFetchResponse(hash, bytes);
    ReplyShape(hash, bytes);
    forall f | f in arrived && IsResponse(f, hash)
      ensures f.total as nat == |fs|
    {
      ChunkByIndex(hash, bytes, f);
    }
    AnnouncedIs(arrived, hash, |fs|);
    assert fs[0] in fs && fs[0] in arrived && IsResponse(fs[0], hash);
    forall i | 0 <= i < |fs|
      ensures Piece(arrived, hash, i) == Some(Bodies(fs)[i])
    {
      assert fs[i] in fs;
      PieceIsChunk(hash, bytes, arrived, i);
    }
    AssembleFrom(arrived, hash, Bodies(fs), 0);
    assert Bodies(fs)[0..] == Bodies(fs);
  }

  lemma IncompleteWaits(hash: Digest, bytes: Bytes, arrived: seq<WireFrame>)
    requires |bytes| <= MAX_FETCH && Genuine(arrived, hash, bytes) && !Complete(arrived, hash, bytes)
    ensures Reassemble(arrived, hash) == None
  {
    var fs := ChunkFetchResponse(hash, bytes);
    forall f | f in arrived && IsResponse(f, hash)
      ensures f.total as nat == |fs|
    {
      ChunkByIndex(hash, bytes, f);
    }
    AnnouncedIs(arrived, hash, |fs|);
    var lacking :| lacking in fs && lacking !in arrived;
    ChunkByIndex(hash, bytes, lacking);
    PieceIsChunk(hash, bytes, arrived, lacking.chunkIdx);
    AssembleLacks(arrived, hash, 0, |fs|, lacking.chunkIdx);
  }

  lemma {:induction false} AnnouncedIsU32(arrived: seq<WireFrame>, hash: Digest)
    ensures AnnouncedTotal(arrived, hash).Some? ==> AnnouncedTotal(arrived, hash).value <= 0xFFFF_FFFF
  {
    if arrived != [] {
      AnnouncedIsU32(arrived[1..], hash);
    }
  }

  lemma OversizeNeverArrives(hash: Digest, bytes: Bytes, arrived: seq<WireFrame>)
    requires MAX_FETCH < |bytes| && Genuine(arrived, hash, bytes)
    ensures Reassemble(arrived, hash) != Some(bytes)
  {
    ReplyShape(hash, bytes);
    forall f | f in arrived && IsResponse(f, hash)
      ensures |f.bytes| <= CHUNK
    {
      var fs := ChunkFetchResponse(hash, bytes);
      var k :| 0 <= k < |fs| && fs[k] == f;
    }
    if AnnouncedTotal(arrived, hash).Some? {
      AnnouncedIsU32(arrived, hash);
      AssembledSize(arrived, hash, 0, AnnouncedTotal(arrived, hash).value);
    }
  }

  /** Reassembly, exactly: from chunks that arrive in any order, repeated, and
      among any other frames, the receiver gets the bytes if and only if every
      chunk is there and the chunk count fits its 32 bits; within that limit it
      gets nothing before the last chunk, and never anything else. */
  lemma ReassemblesIff(hash: Digest, bytes: Bytes, arrived: seq<WireFrame>)
    requires Genuine(arrived, hash, bytes)
    ensures Reassemble(arrived, hash) == Some(bytes) <==> |bytes| <= MAX_FETCH && Complete(arrived, hash, bytes)
    ensures |bytes| <= MAX_FETCH ==> Reassemble(arrived, hash) in {None, Some(bytes)}
  {
    if MAX_FETCH < |bytes| {
      OversizeNeverArrives(hash, bytes, arrived);
    } else if Complete(arrived, hash, bytes) {
      CompleteReassembles(hash, bytes, arrived);
    } else {
      IncompleteWaits(hash, bytes, arrived);
    }
  }

  /** The hub's answer to a fetch request, from what its store holds. */
  function Reply(found: Option<Bytes>, hash: Digest): seq<WireFrame> {
    match found
    case Some(bytes) => ChunkFetchResponse(hash, bytes)
    case None => [FetchMiss(hash)]
  }

  /** Frame by frame: the reply to a hash whose bytes are found. */
  lemma ReplyAt(hash: Digest, bytes: Bytes, i: nat)
    requires i < |Reply(Some(bytes), hash)|
    ensures var fs, from := Reply(Some(bytes), hash), 256 * 1024 * i;
      && |fs| == (if bytes == [] then 1 else (|bytes| + 256 * 1024 - 1) / (256 * 1024))
      && from <= |bytes|
      && fs[i] == FetchResponse(hash, i % 0x1_0000_0000, |fs| % 0x1_0000_0000,
                    bytes[from..if |bytes| < from + 256 * 1024 then |bytes| else from + 256 * 1024])
  {
    ReplyShape(hash, bytes);
    if bytes != [] {
      ChunkAt(bytes, CHUNK, i);
    }
  }

  /** A miss is sent exactly when the hash is absent, and the reply alone
      already tells the receiver what was found, up to the size limit. */
  lemma ReplyIsFaithful(found: Option<Bytes>, hash: Digest)
    ensures found.None? ==> Reply(found, hash) == [FetchMiss(hash)]
    ensures FetchMiss(hash) in Reply(found, hash) <==> found.None?
    ensures Reassemble(Reply(found, hash), hash) == found <==> (found.Some? ==> |found.value| <= MAX_FETCH)
  {
    if found.Some? {
      ReassemblesIff(hash, found.value, Reply(found, hash));
    } else {
      AnnouncedIs(Reply(found, hash), hash, 0);
    }
  }

  // ----- from the store to the receiver -----

  function Encoded(encode: WireFrame -> Bytes, frames: seq<WireFrame>): seq<Bytes> {
    seq(|frames|, i requires 0 <= i < |frames| => encode(frames[i]))
  }

  /** Every one of these frames decodes to itself. */
  ghost predicate RoundTrips(encode: WireFrame -> Bytes, decode: Decoder, frames: seq<WireFrame>) {
    forall f :: f in frames ==> decode(encode(f)) == Some(f)
  }

  lemma {:induction false} DecodedEncoded(
      encode: WireFrame -> Bytes, decode: Decoder, frames: seq<WireFrame>, end: ReadError)
    requires RoundTrips(encode, decode, frames)
    ensures Decoded(decode, Encoded(encode, frames), end) == (frames, end)
  {
    if frames != [] {
      assert frames[0] in frames;
      assert Encoded(encode, frames)[1..] == Encoded(encode, frames[1..]);
      DecodedEncoded(encode, decode, frames[1..], end);
      assert [frames[0]] + frames[1..] == frames;
    }
  }

  /** A peer that reads a stream of encoded frames, cut anywhere, receives
      exactly the frames that arrived whole: as many leading ones as fit. */
  lemma CutStreamReceivesPrefix(encode: WireFrame -> Bytes, decode: Decoder, queue: seq<WireFrame>, cut: nat)
    requires RoundTrips(encode, decode, queue)
    requires Sendable(Encoded(encode, queue)) && cut <= |Frames(Encoded(encode, queue))|
    ensures var k := Whole(Encoded(encode, queue), cut);
      && k <= |queue| && ReceiveAll(decode, Frames(Encoded(encode, queue))[..cut]) == (queue[..k], Eof)
      && |Frames(Encoded(encode, queue[..k]))| <= cut
      && (k < |queue| ==> cut < |Frames(Encoded(encode, queue[..k + 1]))|)
  {
    var payloads := Encoded(encode, queue);
    var k := Whole(payloads, cut);
    CutStreamReadsPrefix(payloads, cut);
    assert payloads[..k] == Encoded(encode, queue[..k]);
    assert k < |queue| ==> payloads[..k + 1] == Encoded(encode, queue[..k + 1]);
    assert forall f :: f in queue[..k] ==> f in queue;
    DecodedEncoded(encode, decode, queue[..k], Eof);
  }

  /** Encoding a response for `hash` adds at most `slack` to its bytes, and the
      slack leaves every chunk within the frame limit. */
  ghost predicate SmallHeader(encode: WireFrame -> Bytes, hash: Digest, slack: nat) {
    && slack <= MAX_FRAME - CHUNK
    && forall i, n, b :: |encode(FetchResponse(hash, i, n, b))| <= |b| + slack
  }

  lemma ChunksPassTheGuard(encode: WireFrame -> Bytes, slack: nat, hash: Digest, bytes: Bytes)
    requires SmallHeader(encode, hash, slack)
    ensures forall f :: f in ChunkFetchResponse(hash, bytes) ==> |encode(f)| <= MAX_FRAME
  {
    ReplyShape(hash, bytes);
    var fs := ChunkFetchResponse(hash, bytes);
    forall f | f in fs
      ensures |encode(f)| <= MAX_FRAME
    {
      var i :| 0 <= i < |fs| && fs[i] == f;
      assert f == FetchResponse(hash, AsU32(i), AsU32(|fs|), f.bytes);
    }
  }

  predicate IsAnswer(f: WireFrame, hash: Digest) {
    IsResponse(f, hash) || f == FetchMiss(hash)
  }

  /** What the queue says about `hash` is the hub's reply, in any order and any
      number of times, among whatever else is sent. */
  ghost predicate Carries(queue: seq<WireFrame>, hash: Digest, found: Option<Bytes>) {
    forall f :: IsAnswer(f, hash) ==> (f in queue <==> f in Reply(found, hash))
  }

  /** What the source assumes of its codec for one queue: frames decode to
      themselves, the header of a chunk is small, and no other frame is too
      large. */
  ghost predicate CodecFits(
      encode: WireFrame -> Bytes, decode: Decoder, slack: nat, hash: Digest, queue: seq<WireFrame>)
  {
    && RoundTrips(encode, decode, queue)
    && SmallHeader(encode, hash, slack)
    && forall f :: f in queue && !IsResponse(f, hash) ==> |encode(f)| <= MAX_FRAME
  }

  lemma QueueIsSendable(
      encode: WireFrame -> Bytes, decode: Decoder, slack: nat, hash: Digest, found: Option<Bytes>,
      queue: seq<WireFrame>)
    requires CodecFits(encode, decode, slack, hash, queue) && Carries(queue, hash, found)
    ensures Sendable(Encoded(encode, queue))
  {
    if found.Some? {
      ChunksPassTheGuard(encode, slack, hash, found.value);
    }
    forall i | 0 <= i < |queue|
      ensures |encode(queue[i])| <= MAX_FRAME
    {
      assert IsResponse(queue[i], hash) ==> queue[i] in Reply(found, hash);
    }
  }

  /** What the frames received so far tell about `hash`: never anything wrong,
      and the bytes exactly when all their chunks are there. */
  ghost predicate Tells(received: seq<WireFrame>, hash: Digest, found: Option<Bytes>) {
    && (FetchMiss(hash) in received ==> found == None)
    && match found
       case None => Reassemble(received, hash) == None
       case Some(bytes) =>
         && (Reassemble(received, hash) == Some(bytes) <==> |bytes| <= MAX_FETCH && Complete(received, hash, bytes))
         && (|bytes| <= MAX_FETCH ==> Reassemble(received, hash) in {None, Some(bytes)})
  }

  lemma PrefixTells(hash: Digest, found: Option<Bytes>, queue: seq<WireFrame>, k: nat)
    requires Carries(queue, hash, found) && k <= |queue|
    ensures Tells(queue[..k], hash, found)
  {
    assert forall f :: f in queue[..k] ==> f in queue;
    ReplyIsFaithful(found, hash);
    assert IsAnswer(FetchMiss(hash), hash);
    match found
    case None => AnnouncedIs(queue[..k], hash, 0);
    case Some(bytes) => ReassemblesIff(hash, bytes, queue[..k]);
  }

  /** The queue is encoded and framed, the stream may be cut anywhere, and the
      receiver decodes what arrived. */
  lemma AnswerArrives(
      encode: WireFrame -> Bytes, decode: Decoder, slack: nat,
      hash: Digest, found: Option<Bytes>, queue: seq<WireFrame>, cut: nat)
    requires CodecFits(encode, decode, slack, hash, queue) && Carries(queue, hash, found)
    requires cut <= |Frames(Encoded(encode, queue))|
    ensures var (received, end) := ReceiveAll(decode, Frames(Encoded(encode, queue))[..cut]);
      && end == Eof && received <= queue && Tells(received, hash, found)
      && (cut == |Frames(Encoded(encode, queue))| ==> received == queue)
  {
    QueueIsSendable(encode, decode, slack, hash, found, queue);
    CutStreamReceivesPrefix(encode, decode, queue, cut);
    PrefixTells(hash, found, queue, Whole(Encoded(encode, queue), cut));
    if cut == |Frames(Encoded(encode, queue))| {
      WholeStream(Encoded(encode, queue));
    }
  }

  /** The whole way: the hub looks the hash up and queues its reply among other
      frames, the queue is encoded and framed, the stream may be cut anywhere,
      and the receiver decodes and reassembles. It never gets wrong bytes, and it
      gets the stored ones exactly when all their chunks came through. */
  lemma StoreToReceiver(
      store: LazyStore, encode: WireFrame -> Bytes, decode: Decoder, slack: nat,
      hash: Digest, queue: seq<WireFrame>, cut: nat)
    requires CodecFits(encode, decode, slack, hash, queue) && Carries(queue, hash, store.Lookup(hash))
    requires cut <= |Frames(Encoded(encode, queue))|
    ensures var (received, end) := ReceiveAll(decode, Frames(Encoded(encode, queue))[..cut]);
      end == Eof && received <= queue && Tells(received, hash, store.Lookup(hash))
  {
    AnswerArrives(encode, decode, slack, hash, store.Lookup(hash), queue, cut);
  }

  lemma ReplyCompletes(hash: Digest, bytes: Bytes, queue: seq<WireFrame>)
    requires Carries(queue, hash, Some(bytes))
    ensures Complete(queue, hash, bytes)
  {
    ReplyShape(hash, bytes);
    var fs := ChunkFetchResponse(hash, bytes);
    forall f | f in fs
      ensures f in queue
    {
      var i :| 0 <= i < |fs| && fs[i] == f;
      assert IsAnswer(f, hash);
    }
  }

  /** What a queue that arrived whole tells: a miss, or the bytes up to the size
      limit. */
  lemma QueueTells(hash: Digest, found: Option<Bytes>, queue: seq<WireFrame>)
    requires Carries(queue, hash, found)
    ensures FetchMiss(hash) in queue <==> found == None
    ensures Reassemble(queue, hash) == found <==> (found.Some? ==> |found.value| <= MAX_FETCH)
  {
    assert queue[..|queue|] == queue;
    PrefixTells(hash, found, queue, |queue|);
    ReplyIsFaithful(found, hash);
    assert IsAnswer(FetchMiss(hash), hash);
    if found.Some? {
      ReplyCompletes(hash, found.value, queue);
    }
  }

  /** Over the uncut stream the receiver learns what the store holds: the bytes,
      up to the size limit, or a miss. */
  lemma ReceiverLearnsTheStore(
      store: LazyStore, encode: WireFrame -> Bytes, decode: Decoder, slack: nat, hash: Digest, queue: seq<WireFrame>)
    requires CodecFits(encode, decode, slack, hash, queue) && Carries(queue, hash, store.Lookup(hash))
    ensures var (received, end) := ReceiveAll(decode, Frames(Encoded(encode, queue)));
      && end == Eof && received == queue
      && (FetchMiss(hash) in received <==> store.Lookup(hash) == None)
      && (Reassemble(received, hash) == store.Lookup(hash)
          <==> (store.Lookup(hash).Some? ==> |store.Lookup(hash).value| <= MAX_FETCH))
  {
    var stream := Frames(Encoded(encode, queue));
    assert stream[..|stream|] == stream;
    AnswerArrives(encode, decode, slack, hash, store.Lookup(hash), queue, |stream|);
    QueueTells(hash, store.Lookup(hash), queue);
  }

  // ----- the assumptions on the codec can be met -----

  /** A tag byte in front: responses for `hash` are written out field by field,
      all other frames go through `encode`. */
  function TagEncode(encode: WireFrame -> Bytes, hash: Digest): WireFrame -> Bytes {
    f => if IsResponse(f, hash) then [0] + ToLe32(f.chunkIdx) + ToLe32(f.total) + f.bytes else [1] + encode(f)
  }

  function TagDecode(decode: Decoder, hash: Digest): Decoder {
    text =>
      if text == [] then None
      else if text[0] != 0 then decode(text[1..])
      else if |text| < 9 then None
      else Some(FetchResponse(hash, FromLe32(text[1..5]), FromLe32(text[5..9]), text[9..]))
  }

  lemma TaggedResponse(encode: WireFrame -> Bytes, decode: Decoder, hash: Digest, f: WireFrame)
    requires IsResponse(f, hash)
    ensures TagDecode(decode, hash)(TagEncode(encode, hash)(f)) == Some(f)
    ensures |TagEncode(encode, hash)(f)| == |f.bytes| + 9
  {
    var text := [0] + ToLe32(f.chunkIdx) + ToLe32(f.total) + f.bytes;
    assert TagEncode(encode, hash)(f) == text;
    assert text[1..5] == ToLe32(f.chunkIdx) && text[5..9] == ToLe32(f.total) && text[9..] == f.bytes;
    Le32RoundTrip(f.chunkIdx);
    Le32RoundTrip(f.total);
  }

  /** Any codec for the other frames of a queue extends to one that fits. */
  lemma TaggedCodecFits(
      encode: WireFrame -> Bytes, decode: Decoder, hash: Digest, queue: seq<WireFrame>)
    requires forall f :: f in queue && !IsResponse(f, hash) ==>
      decode(encode(f)) == Some(f) && |encode(f)| < MAX_FRAME
    ensures CodecFits(TagEncode(encode, hash), TagDecode(decode, hash), 9, hash, queue)
  {
    var tag, untag := TagEncode(encode, hash), TagDecode(decode, hash);
    forall f | f in queue
      ensures untag(tag(f)) == Some(f)
    {
      if IsResponse(f, hash) {
        TaggedResponse(encode, decode, hash, f);
      } else {
        assert tag(f)[1..] == encode(f);
      }
    }
    forall i: u32, n: u32, b: Bytes
      ensures |tag(FetchResponse(hash, i, n, b))| <= |b| + 9
    {
      TaggedResponse(encode, decode, hash, FetchResponse(hash, i, n, b));
    }
  }

  /** And for every store content there are a codec and a queue that meet all
      assumptions of the theorems above. */
  lemma AssumptionsCanBeMet(hash: Digest, found: Option<Bytes>)
      returns (encode: WireFrame -> Bytes, decode: Decoder, queue: seq<WireFrame>)
    ensures CodecFits(encode, decode, 9, hash, queue) && Carries(queue, hash, found)
  {
    queue := Reply(found, hash);
    var blank: WireFrame -> Bytes := f => [];
    var guess: Decoder := text => Some(FetchMiss(hash));
    if found.Some? {
      ReplyShape(hash, found.value);
    }
    TaggedCodecFits(blank, guess, hash, queue);
    encode, decode := TagEncode(blank, hash), TagDecode(guess, hash);
  }
}
