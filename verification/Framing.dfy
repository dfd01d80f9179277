/** Length-prefixed frames on a byte stream shared by several senders
    (crates/transport/src/connection.rs). */
module Framing {
  import opened Core

  const MAX_FRAME := 64 * 1024 * 1024

  /** `u32::to_le_bytes` after the `as u32` cast. */
  function ToLe32(n: nat): Bytes {
    [n % 256, n / 256 % 256, n / 0x1_0000 % 256, n / 0x100_0000 % 256]
  }

  function FromLe32(b: Bytes): nat
    requires |b| == 4
  {
    (b[0] as int) + 256 * (b[1] as int) + 0x1_0000 * (b[2] as int) + 0x100_0000 * (b[3] as int)
  }

  lemma LowByte(n: nat)
    ensures n == 256 * (n / 256) + n % 256
  {
  }

  lemma NextByte(n: nat)
    ensures n / 256 / 256 == n / 0x1_0000 && n / 0x1_0000 / 256 == n / 0x100_0000
  {
  }

  /** The four bytes are the number's digits to base 256, lowest first. */
  lemma Le32RoundTrip(n: nat)
    requires n < 0x1_0000_0000
    ensures FromLe32(ToLe32(n)) == n
    ensures var b := ToLe32(n);
      && |b| == 4
      && n == (b[0] as int) + 0x100 * (b[1] as int) + 0x1_0000 * (b[2] as int) + 0x100_0000 * (b[3] as int)
  {
    var n1, n2, n3 := n / 256, n / 0x1_0000, n / 0x100_0000;
    NextByte(n);
    LowByte(n);
    LowByte(n1);
    LowByte(n2);
    assert n3 % 256 == n3;
  }

  /** And four bytes are the digits of the number they decode to. */
  lemma Le32Digits(b: Bytes)
    requires |b| == 4
    ensures FromLe32(b) < 0x1_0000_0000 && ToLe32(FromLe32(b)) == b
  {
    var b0, b1, b2, b3 := b[0] as int, b[1] as int, b[2] as int, b[3] as int;
    var n, high, top := FromLe32(b), b1 + 256 * (b2 + 256 * b3), b2 + 256 * b3;
    assert n == 256 * high + b0 && high == 256 * top + b1;
    NextByte(n);
    assert n / 256 == high && high / 256 == top && top / 256 == b3;
    assert n % 256 == b0 && high % 256 == b1 && top % 256 == b2;
  }

  function Frame(payload: Bytes): Bytes {
    ToLe32(|payload|) + payload
  }

  function Frames(payloads: seq<Bytes>): Bytes {
    if payloads == [] then [] else Frame(payloads[0]) + Frames(payloads[1..])
  }

  datatype ReadError = Eof | TooLarge(len: nat) | Undecodable(payload: Bytes)

  datatype OneRead = Got(payload: Bytes, rest: Bytes) | Failed(error: ReadError)

  /** What one `read_framed` makes of the bytes that will ever arrive. */
  function ReadOne(stream: Bytes): OneRead {
    if |stream| < 4 then Failed(Eof)
    else
      var len := FromLe32(stream[..4]);
      if MAX_FRAME < len then Failed(TooLarge(len))
      else if |stream| < 4 + len then Failed(Eof)
      else Got(stream[4..4 + len], stream[4 + len..])
  }

  /** The payloads a byte stream holds, and why there is no further one. */
  function ReadAll(stream: Bytes): (seq<Bytes>, ReadError)
    decreases |stream|
  {
    match ReadOne(stream)
    case Failed(e) => ([], e)
    case Got(p, rest) => var (ps, e) := ReadAll(rest); ([p] + ps, e)
  }

  type Decoder = Bytes -> Option<WireFrame>

  /** What a session's reader collects: it stops at the first payload that does
      not decode, whatever follows. */
  function Decoded(decode: Decoder, payloads: seq<Bytes>, end: ReadError): (seq<WireFrame>, ReadError) {
    if payloads == [] then ([], end)
    else
      match decode(payloads[0])
      case None => ([], Undecodable(payloads[0]))
      case Some(f) => var (fs, e) := Decoded(decode, payloads[1..], end); ([f] + fs, e)
  }

  function ReceiveAll(decode: Decoder, stream: Bytes): (seq<WireFrame>, ReadError) {
    var (payloads, end) := ReadAll(stream);
    Decoded(decode, payloads, end)
  }

  /** What one read makes of four length bytes and what follows: refused above
      64 MiB, else the payload, or the end of the stream if it is not all there. */
  lemma ReadOneIs(header: Bytes, rest: Bytes)
    requires |header| == 4
    ensures var len := (header[0] as int) + 0x100 * (header[1] as int)
                       + 0x1_0000 * (header[2] as int) + 0x100_0000 * (header[3] as int);
      ReadOne(header + rest) ==
        if 64 * 1024 * 1024 < len then Failed(TooLarge(len))
        else if |rest| < len then Failed(Eof)
        else Got(rest[..len], rest[len..])
    ensures forall k :: 0 <= k < 4 ==> ReadOne(header[..k]) == Failed(Eof)
  {
    var stream := header + rest;
    assert stream[..4] == header;
    var len := FromLe32(header);
    assert len <= |rest| ==> stream[4..4 + len] == rest[..len] && stream[4 + len..] == rest[len..];
  }

  /** The reader loop's payloads are frame by frame what the stream starts with,
      and what is left fails as the error says. */
  lemma {:induction false} ReadAllIs(stream: Bytes)
    ensures var (payloads, end) := ReadAll(stream);
      && Frames(payloads) <= stream
      && ReadOne(stream[|Frames(payloads)|..]) == Failed(end)
    decreases |stream|
  {
    match ReadOne(stream)
    case Failed(_) => assert stream[0..] == stream;
    case Got(p, rest) =>
      var more := ReadAll(rest).0;
      ReadAllIs(rest);
      Le32Digits(stream[..4]);
      assert stream == Frame(p) + rest;
      assert ([p] + more)[1..] == more;
      assert stream[|Frame(p) + Frames(more)|..] == rest[|Frames(more)|..];
  }

  /** The frames are the decoded payloads up to the first that does not decode. */
  lemma {:induction false} DecodedIs(decode: Decoder, payloads: seq<Bytes>, end: ReadError)
    ensures var (frames, error) := Decoded(decode, payloads, end);
      && |frames| <= |payloads|
      && (forall i :: 0 <= i < |frames| ==> decode(payloads[i]) == Some(frames[i]))
      && if |frames| == |payloads| then error == end
         else decode(payloads[|frames|]) == None && error == Undecodable(payloads[|frames|])
  {
    if payloads != [] {
      DecodedIs(decode, payloads[1..], end);
    }
  }

  ghost predicate Sendable(payloads: seq<Bytes>) {
    forall i :: 0 <= i < |payloads| ==> |payloads[i]| <= MAX_FRAME
  }

  /** A frame's bytes followed by anything give back the payload and the rest:
      the reader accepts every length the writer accepts. */
  lemma ReadBackOne(p: Bytes, rest: Bytes)
    requires |p| <= MAX_FRAME
    ensures ReadOne(Frame(p) + rest) == Got(p, rest)
  {
    var stream := Frame(p) + rest;
    assert stream[..4] == ToLe32(|p|);
    Le32RoundTrip(|p|);
    assert stream[4..4 + |p|] == p;
    assert stream[4 + |p|..] == rest;
  }

  lemma CutFrame(p: Bytes, cut: nat)
    requires |p| <= MAX_FRAME && cut < |Frame(p)|
    ensures ReadOne(Frame(p)[..cut]) == Failed(Eof)
  {
    if 4 <= cut {
      assert Frame(p)[..cut][..4] == ToLe32(|p|);
      Le32RoundTrip(|p|);
    }
  }

  /** How many whole frames lie in the first `cut` bytes. */
  function Whole(payloads: seq<Bytes>, cut: nat): nat {
    if payloads == [] || cut < |Frame(payloads[0])| then 0
    else 1 + Whole(payloads[1..], cut - |Frame(payloads[0])|)
  }

  /** `Whole` is the largest count of leading frames that fit in `cut` bytes. */
  lemma {:induction false} WholeIsLargest(payloads: seq<Bytes>, cut: nat)
    ensures var k := Whole(payloads, cut);
      && k <= |payloads|
      && |Frames(payloads[..k])| <= cut
      && (k < |payloads| ==> cut < |Frames(payloads[..k + 1])|)
  {
    var k := Whole(payloads, cut);
    if payloads != [] {
      if cut < |Frame(payloads[0])| {
        assert payloads[..1][1..] == [];
        assert Frames(payloads[..1]) == Frame(payloads[0]) + Frames([]);
      } else {
        var tail := payloads[1..];
        WholeIsLargest(tail, cut - |Frame(payloads[0])|);
        assert payloads[..k][1..] == tail[..k - 1];
        if k < |payloads| {
          assert payloads[..k + 1][1..] == tail[..k];
        }
      }
    }
  }

  lemma CutInsideFrame(p: Bytes, rest: Bytes, cut: nat)
    requires |p| <= MAX_FRAME && cut < |Frame(p)|
    ensures ReadAll((Frame(p) + rest)[..cut]) == ([], Eof)
  {
    assert (Frame(p) + rest)[..cut] == Frame(p)[..cut];
    CutFrame(p, cut);
  }

  /** Cutting after the first frame cuts what follows it. */
  lemma CutBehindFrame(p: Bytes, rest: Bytes, cut: nat)
    requires |p| <= MAX_FRAME && |Frame(p)| <= cut <= |Frame(p) + rest|
    ensures ReadAll((Frame(p) + rest)[..cut]) ==
      var (ps, e) := ReadAll(rest[..cut - |Frame(p)|]); ([p] + ps, e)
  {
    var left := rest[..cut - |Frame(p)|];
    assert (Frame(p) + rest)[..cut] == Frame(p) + left;
    ReadBackOne(p, left);
  }

  lemma FirstAndMore(payloads: seq<Bytes>, k: nat)
    requires k < |payloads|
    ensures [payloads[0]] + payloads[1..][..k] == payloads[..k + 1]
  {
  }

  lemma {:induction false} ReadsWhole(payloads: seq<Bytes>, cut: nat)
    requires Sendable(payloads) && cut <= |Frames(payloads)|
    ensures Whole(payloads, cut) <= |payloads|
    ensures ReadAll(Frames(payloads)[..cut]) == (payloads[..Whole(payloads, cut)], Eof)
  {
    if payloads != [] {
      var p, tail := payloads[0], payloads[1..];
      if cut < |Frame(p)| {
        CutInsideFrame(p, Frames(tail), cut);
      } else {
        var left := cut - |Frame(p)|;
        CutBehindFrame(p, Frames(tail), cut);
        ReadsWhole(tail, left);
        FirstAndMore(payloads, Whole(tail, left));
      }
    }
  }

  /** A cut stream yields exactly the frames that arrived whole, the most that
      fit, and then the end of the stream, never a length error. */
  lemma CutStreamReadsPrefix(payloads: seq<Bytes>, cut: nat)
    requires Sendable(payloads) && cut <= |Frames(payloads)|
    ensures var k := Whole(payloads, cut);
      && k <= |payloads| && ReadAll(Frames(payloads)[..cut]) == (payloads[..k], Eof)
      && |Frames(payloads[..k])| <= cut
      && (k < |payloads| ==> cut < |Frames(payloads[..k + 1])|)
  {
    WholeIsLargest(payloads, cut);
    ReadsWhole(payloads, cut);
  }

  lemma {:induction false} WholeStream(payloads: seq<Bytes>)
    ensures Whole(payloads, |Frames(payloads)|) == |payloads|
  {
    if payloads != [] {
      WholeStream(payloads[1..]);
    }
  }

  /** An uncut stream gives back every payload in order. */
  lemma StreamRoundTrip(payloads: seq<Bytes>)
    requires Sendable(payloads)
    ensures ReadAll(Frames(payloads)) == (payloads, Eof)
  {
    CutStreamReadsPrefix(payloads, |Frames(payloads)|);
    WholeStream(payloads);
    assert Frames(payloads)[..|Frames(payloads)|] == Frames(payloads);
    assert payloads[..|payloads|] == payloads;
  }

  lemma Regroup(a: Bytes, b: Bytes, c: Bytes)
    ensures (a + b) + c == a + (b + c)
  {
  }

  lemma FramesThenReads(p: Bytes, rest: Bytes)
    requires |p| <= MAX_FRAME
    ensures ReadAll(Frame(p) + rest) == ([p] + ReadAll(rest).0, ReadAll(rest).1)
  {
    ReadBackOne(p, rest);
  }

  lemma OverlongHeader(len: nat, rest: Bytes)
    requires 64 * 1024 * 1024 < len < 0x1_0000_0000
    ensures ReadAll(ToLe32(len) + rest) == ([], TooLarge(len))
  {
    assert (ToLe32(len) + rest)[..4] == ToLe32(len);
    Le32RoundTrip(len);
  }

  /** A length above 64 MiB ends the stream there, whatever follows, after the
      frames before it. */
  lemma {:induction false} OverlongStops(payloads: seq<Bytes>, len: nat, rest: Bytes)
    requires Sendable(payloads) && 64 * 1024 * 1024 < len < 0x1_0000_0000
    ensures ReadAll(Frames(payloads) + (ToLe32(len) + rest)) == (payloads, TooLarge(len))
  {
    var bad := ToLe32(len) + rest;
    if payloads == [] {
      assert Frames([]) + bad == bad;
      OverlongHeader(len, rest);
    } else {
      var p, tail := payloads[0], payloads[1..];
      OverlongStops(tail, len, rest);
      Regroup(Frame(p), Frames(tail), bad);
      FramesThenReads(p, Frames(tail) + bad);
      assert [p] + tail == payloads;
    }
  }

  lemma {:induction false} FramesSnoc(payloads: seq<Bytes>, p: Bytes)
    ensures Frames(payloads + [p]) == Frames(payloads) + Frame(p)
  {
    if payloads == [] {
      assert [p][1..] == [];
    } else {
      assert (payloads + [p])[1..] == payloads[1..] + [p];
      FramesSnoc(payloads[1..], p);
    }
  }

  /** Receiving goes on with what follows the first frame, if that decodes. */
  lemma ReceiveStep(decode: Decoder, stream: Bytes)
    ensures ReceiveAll(decode, stream) ==
      match ReadOne(stream)
      case Failed(e) => ([], e)
      case Got(p, rest) =>
        match decode(p)
        case None => ([], Undecodable(p))
        case Some(f) => var (fs, e) := ReceiveAll(decode, rest); ([f] + fs, e)
  {
    match ReadOne(stream)
    case Failed(_) =>
    case Got(p, rest) =>
      var payloads := ReadAll(rest).0;
      assert ([p] + payloads)[1..] == payloads;
  }

  /** `frames` are what `stream` yields before its part `rest`. */
  ghost predicate Received(decode: Decoder, stream: Bytes, frames: seq<WireFrame>, rest: Bytes) {
    var (ahead, end) := ReceiveAll(decode, rest);
    ReceiveAll(decode, stream) == (frames + ahead, end)
  }

  lemma ReceiveMore(
      decode: Decoder, stream: Bytes, frames: seq<WireFrame>, rest: Bytes, f: WireFrame, left: Bytes)
    requires Received(decode, stream, frames, rest)
    requires ReceiveAll(decode, rest) == ([f] + ReceiveAll(decode, left).0, ReceiveAll(decode, left).1)
    ensures Received(decode, stream, frames + [f], left)
  {
    var ahead := ReceiveAll(decode, left).0;
    assert frames + ([f] + ahead) == frames + [f] + ahead;
  }

  // ----- one end of a connection -----

  function Flatten(segments: seq<Bytes>): Bytes {
    if segments == [] then [] else segments[0] + Flatten(segments[1..])
  }

  /** Taking the first `n` bytes of the first segment. */
  lemma TakeFromFirst(segments: seq<Bytes>, n: nat)
    requires segments != [] && n <= |segments[0]|
    ensures Flatten(segments) == segments[0][..n] + Flatten([segments[0][n..]] + segments[1..])
  {
    var front, back, rest := segments[0][..n], segments[0][n..], segments[1..];
    assert segments[0] == front + back;
    assert ([back] + rest)[1..] == rest;
    Regroup(front, back, Flatten(rest));
  }

  /** One direction out, one direction in. The incoming bytes arrive in
      segments of any size; a read takes from one segment at a time. */
  class Connection {
    var incoming: seq<Bytes>
    var outgoing: Bytes

    constructor (incoming: seq<Bytes>)
      ensures this.incoming == incoming && outgoing == []
    {
      this.incoming := incoming;
      outgoing := [];
    }

    method WriteFramed(payload: Bytes) returns (ok: bool)
      modifies this`outgoing
      ensures ok <==> |payload| <= 64 * 1024 * 1024
      ensures outgoing == if ok then old(outgoing) + ToLe32(|payload|) + payload else old(outgoing)
      ensures ok ==> outgoing == old(outgoing) + Frame(payload)
    {
      if MAX_FRAME < |payload| {
        return false;
      }
      outgoing := outgoing + ToLe32(|payload|);
      outgoing := outgoing + payload;
      ok := true;
    }

    /** Fills a buffer of `n` bytes from as many segments as it takes. */
    method ReadExact(n: nat) returns (buffer: Option<Bytes>)
      modifies this`incoming
      ensures var stream := old(Flatten(incoming));
        if n <= |stream| then buffer == Some(stream[..n]) && Flatten(incoming) == stream[n..]
        else buffer == None && Flatten(incoming) == []
    {
      var got: Bytes := [];
      while |got| < n && incoming != []
        invariant |got| <= n
        invariant got + Flatten(incoming) == old(Flatten(incoming))
        decreases |incoming|, n - |got|
      {
        var segment := incoming[0];
        var need := n - |got|;
        if |segment| <= need {
          got := got + segment;
          incoming := incoming[1..];
        } else {
          TakeFromFirst(incoming, need);
          got := got + segment[..need];
          incoming := [segment[need..]] + incoming[1..];
        }
      }
      buffer := if |got| == n then Some(got) else None;
    }

    /** How the bytes are split into segments is invisible: the outcome is that
        of `ReadOne` on the bytes themselves. */
    method ReadFramed() returns (r: Result<Bytes, ReadError>)
      modifies this`incoming
      ensures match ReadOne(old(Flatten(incoming)))
              case Got(p, rest) => r == Ok(p) && Flatten(incoming) == rest
              case Failed(e) => r == Err(e)
      ensures r.Ok? ==> |Flatten(incoming)| < |old(Flatten(incoming))|
    {
      ghost var stream := Flatten(incoming);
      var lenBuf := ReadExact(4);
      if lenBuf.None? {
        return Err(Eof);
      }
      var len := FromLe32(lenBuf.value);
      if MAX_FRAME < len {
        return Err(TooLarge(len));
      }
      var payload := ReadExact(len);
      assert 4 + len <= |stream| ==>
        stream[4..][..len] == stream[4..4 + len] && stream[4..][len..] == stream[4 + len..];
      r := if payload.None? then Err(Eof) else Ok(payload.value);
    }

    /** One `recv_frame`: a payload that does not decode is an error too. */
    method RecvFrame(decode: Decoder) returns (r: Result<WireFrame, ReadError>)
      modifies this`incoming
      ensures match ReadOne(old(Flatten(incoming)))
              case Failed(e) => r == Err(e)
              case Got(p, rest) =>
                && Flatten(incoming) == rest
                && r == match decode(p) case Some(f) => Ok(f) case None => Err(Undecodable(p))
      ensures r.Ok? ==> |Flatten(incoming)| < |old(Flatten(incoming))|
    {
      var payload := ReadFramed();
      if payload.Err? {
        return Err(payload.error);
      }
      match decode(payload.value)
      case Some(f) => r := Ok(f);
      case None => r := Err(Undecodable(payload.value));
    }

    /** A session's reader loop: it ends at the first error of any kind. */
    method ReadLoop(decode: Decoder) returns (frames: seq<WireFrame>, error: ReadError)
      modifies this`incoming
      ensures (frames, error) == ReceiveAll(decode, old(Flatten(incoming)))
    {
      frames := [];
      ghost var stream := Flatten(incoming);
      ghost var rest := stream;
      assert [] + ReceiveAll(decode, stream).0 == ReceiveAll(decode, stream).0;
      while true
        invariant rest == Flatten(incoming) && Received(decode, stream, frames, rest)
        decreases |rest|
      {
        var r := RecvFrame(decode);
        ReceiveStep(decode, rest);
        if r.Err? {
          assert frames + [] == frames;
          return frames, r.error;
        }
        ReceiveMore(decode, stream, frames, rest, r.value, Flatten(incoming));
        frames := frames + [r.value];
        rest := Flatten(incoming);
      }
    }
  }

  // ----- several senders on one stream -----

  type Sender = nat

  /** `held` is the sender inside the lock and the bytes it still has to write;
      `sent` lists the payloads in the order the lock was taken. */
  datatype Shared = Shared(
    waiting: map<Sender, seq<Bytes>>,
    held: Option<(Sender, Bytes)>,
    stream: Bytes,
    sent: seq<(Sender, Bytes)>)

  datatype WriteStep = Acquire(sender: Sender) | Put(count: nat) | Release

  function Start(waiting: map<Sender, seq<Bytes>>): Shared {
    Shared(waiting, None, [], [])
  }

  predicate CanWrite(s: Shared, step: WriteStep) {
    match step
    case Acquire(i) =>
      s.held == None && i in s.waiting && s.waiting[i] != [] && |s.waiting[i][0]| <= MAX_FRAME
    case Put(n) => s.held.Some? && n <= |s.held.value.1|
    case Release => s.held.Some? && s.held.value.1 == []
  }

  function WriteNext(s: Shared, step: WriteStep): Shared
    requires CanWrite(s, step)
  {
    match step
    case Acquire(i) =>
      var p := s.waiting[i][0];
      s.(waiting := s.waiting[i := s.waiting[i][1..]], held := Some((i, Frame(p))), sent := s.sent + [(i, p)])
    case Put(n) =>
      var (i, unsent) := s.held.value;
      s.(held := Some((i, unsent[n..])), stream := s.stream + unsent[..n])
    case Release => s.(held := None)
  }

  function WriteRun(waiting: map<Sender, seq<Bytes>>, steps: seq<WriteStep>): Option<Shared> {
    if steps == [] then Some(Start(waiting))
    else
      match WriteRun(waiting, steps[..|steps| - 1])
      case None => None
      case Some(s) =>
        var step := steps[|steps| - 1];
        if CanWrite(s, step) then Some(WriteNext(s, step)) else None
  }

  function Payloads(sent: seq<(Sender, Bytes)>): seq<Bytes> {
    seq(|sent|, i requires 0 <= i < |sent| => sent[i].1)
  }

  /** What one sender contributed, in order. */
  function By(sent: seq<(Sender, Bytes)>, i: Sender): seq<Bytes> {
    if sent == [] then []
    else
      var front, last := By(sent[..|sent| - 1], i), sent[|sent| - 1];
      if last.0 == i then front + [last.1] else front
  }

  /** The stream, together with what the lock holder still has to write, is
      exactly the frames of the payloads in lock order. */
  ghost predicate Written(s: Shared) {
    s.stream + (if s.held.Some? then s.held.value.1 else []) == Frames(Payloads(s.sent))
  }

  /** Each sender's part followed by what still waits is what it had to send. */
  ghost predicate Divided(waiting: map<Sender, seq<Bytes>>, s: Shared) {
    && s.waiting.Keys == waiting.Keys
    && forall i :: i in waiting ==> By(s.sent, i) + s.waiting[i] == waiting[i]
  }

  lemma BySnoc(sent: seq<(Sender, Bytes)>, i: Sender, p: Bytes, k: Sender)
    ensures By(sent + [(i, p)], k) == if k == i then By(sent, k) + [p] else By(sent, k)
  {
    assert (sent + [(i, p)])[..|sent|] == sent;
  }

  lemma MoveAcross(done: seq<Bytes>, todo: seq<Bytes>)
    requires todo != []
    ensures done + [todo[0]] + todo[1..] == done + todo
  {
  }

  lemma AcquireKeepsDivided(waiting: map<Sender, seq<Bytes>>, s: Shared, i: Sender)
    requires Divided(waiting, s) && CanWrite(s, Acquire(i))
    ensures Divided(waiting, WriteNext(s, Acquire(i)))
  {
    var t := WriteNext(s, Acquire(i));
    forall k | k in waiting
      ensures By(t.sent, k) + t.waiting[k] == waiting[k]
    {
      BySnoc(s.sent, i, s.waiting[i][0], k);
      if k == i {
        MoveAcross(By(s.sent, k), s.waiting[k]);
      }
    }
  }

  lemma PayloadsSnoc(sent: seq<(Sender, Bytes)>, i: Sender, p: Bytes)
    ensures Payloads(sent + [(i, p)]) == Payloads(sent) + [p]
  {
  }

  lemma AcquireKeepsWritten(s: Shared, i: Sender)
    requires Written(s) && CanWrite(s, Acquire(i))
    ensures Written(WriteNext(s, Acquire(i)))
  {
    var p := s.waiting[i][0];
    PayloadsSnoc(s.sent, i, p);
    FramesSnoc(Payloads(s.sent), p);
    assert s.stream + [] == s.stream;
  }

  lemma PutKeepsWritten(s: Shared, n: nat)
    requires Written(s) && CanWrite(s, Put(n))
    ensures Written(WriteNext(s, Put(n)))
  {
    var unsent := s.held.value.1;
    assert s.stream + unsent[..n] + unsent[n..] == s.stream + unsent;
  }

  lemma {:induction false} RunKeepsWritten(waiting: map<Sender, seq<Bytes>>, steps: seq<WriteStep>)
    ensures var r := WriteRun(waiting, steps); r.Some? ==> Written(r.value)
  {
    if steps != [] && WriteRun(waiting, steps).Some? {
      RunKeepsWritten(waiting, steps[..|steps| - 1]);
      var s := WriteRun(waiting, steps[..|steps| - 1]).value;
      match steps[|steps| - 1]
      case Acquire(i) => AcquireKeepsWritten(s, i);
      case Put(n) => PutKeepsWritten(s, n);
      case Release =>
    }
  }

  lemma {:induction false} RunKeepsSendable(waiting: map<Sender, seq<Bytes>>, steps: seq<WriteStep>)
    ensures var r := WriteRun(waiting, steps); r.Some? ==> Sendable(Payloads(r.value.sent))
  {
    if steps != [] && WriteRun(waiting, steps).Some? {
      RunKeepsSendable(waiting, steps[..|steps| - 1]);
      var s := WriteRun(waiting, steps[..|steps| - 1]).value;
      match steps[|steps| - 1]
      case Acquire(i) => PayloadsSnoc(s.sent, i, s.waiting[i][0]);
      case Put(_) =>
      case Release =>
    }
  }

  lemma {:induction false} RunKeepsDivided(waiting: map<Sender, seq<Bytes>>, steps: seq<WriteStep>)
    ensures var r := WriteRun(waiting, steps); r.Some? ==> Divided(waiting, r.value)
  {
    if steps != [] && WriteRun(waiting, steps).Some? {
      RunKeepsDivided(waiting, steps[..|steps| - 1]);
      var s := WriteRun(waiting, steps[..|steps| - 1]).value;
      match steps[|steps| - 1]
      case Acquire(i) => AcquireKeepsDivided(waiting, s, i);
      case Put(_) =>
      case Release =>
    }
  }

  /** The senders are never blocked: nothing but empty writes is possible exactly
      when nobody holds the lock and whoever has something to send is stopped by
      its size. */
  lemma BlockedIffSent(waiting: map<Sender, seq<Bytes>>, steps: seq<WriteStep>, s: Shared)
    requires WriteRun(waiting, steps) == Some(s)
    ensures (forall step :: CanWrite(s, step) ==> step == Put(0)) <==>
      s.held == None && forall i :: i in s.waiting ==> s.waiting[i] == [] || 64 * 1024 * 1024 < |s.waiting[i][0]|
  {
    if forall step :: CanWrite(s, step) ==> step == Put(0) {
      if s.held.Some? {
        var unsent := s.held.value.1;
        assert CanWrite(s, if unsent == [] then Release else Put(|unsent|));
      }
      forall i | i in s.waiting
        ensures s.waiting[i] == [] || 64 * 1024 * 1024 < |s.waiting[i][0]|
      {
        assert !CanWrite(s, Acquire(i));
      }
    }
  }

  /** Concurrent senders: at any moment of any run, and wherever the stream is
      cut, the reader collects exactly a prefix of the payloads in lock order
      and then meets the end; it collects all of them once nobody holds the
      lock. That order is a shuffle: each sender's part is the start of what
      it had to send. */
  lemma ConcurrentSenders(waiting: map<Sender, seq<Bytes>>, steps: seq<WriteStep>, s: Shared, cut: nat)
    requires WriteRun(waiting, steps) == Some(s) && cut <= |s.stream|
    ensures var (read, error) := ReadAll(s.stream[..cut]);
      && error == Eof
      && read <= Payloads(s.sent)
      && (cut == |s.stream| && s.held == None ==> read == Payloads(s.sent))
    ensures s.waiting.Keys == waiting.Keys
    ensures forall i :: i in waiting ==> By(s.sent, i) + s.waiting[i] == waiting[i]
  {
    RunKeepsWritten(waiting, steps);
    RunKeepsSendable(waiting, steps);
    RunKeepsDivided(waiting, steps);
    var all := Frames(Payloads(s.sent));
    assert all[..cut] == s.stream[..cut];
    CutStreamReadsPrefix(Payloads(s.sent), cut);
    if cut == |s.stream| && s.held == None {
      assert s.stream == all && s.stream[..cut] == all;
      StreamRoundTrip(Payloads(s.sent));
    }
  }
}
