/** The shared vocabulary: identifiers, clipboard snapshots, wire frames and
    input events (crates/core). */
module Core {

  datatype Option<+T> = None | Some(value: T)

  datatype Result<+T, +E> = Ok(value: T) | Err(error: E)

  /** Sixteen opaque bytes in the source; only equality is ever used. */
  type NodeId = nat

  type byte = x: int | 0 <= x < 256

  type Bytes = seq<byte>

  /** A 32-byte BLAKE3 digest; only equality is ever used. */
  type Digest = nat

  type i32 = x: int | -0x8000_0000 <= x < 0x8000_0000

  type u32 = x: int | 0 <= x < 0x1_0000_0000

  datatype ImageFormat = Png | Jpeg | Rgba8

  datatype LazyPayload = Inline(bytes: Bytes) | OnDemand(hash: Digest, size: nat)

  datatype FileRef =
    | OriginPath(path: string)
    | InlineFile(name: string, data: Bytes)
    | OnDemandFile(name: string, size: nat, hash: Digest)

  datatype ClipItem =
    | Text(text: string)
    | Html(html: string, plainFallback: string)
    | Image(format: ImageFormat, hash: Digest, data: LazyPayload)
    | Files(refs: seq<FileRef>)

  datatype Snapshot = Snapshot(version: nat, origin: NodeId, createdUnixMs: nat, items: seq<ClipItem>)

  datatype Button = LeftButton | RightButton | MiddleButton | BackButton | ForwardButton | OtherButton(code: byte)

  /** The eight modifier keys, one bit each, in HID order. */
  type ModifierMask = bv8

  datatype InputEvent =
    | MouseMove(dx: i32, dy: i32, ts: nat)
    | MouseAbs(x: i32, y: i32, screenId: byte)
    | MouseButton(btn: Button, pressed: bool)
    | Scroll(sx: i32, sy: i32)
    | Key(code: nat, down: bool, modifiers: ModifierMask)
    | Enter(from: NodeId, held: ModifierMask)
    | Leave(to: NodeId)

  datatype ControlFrame =
    | Hello(nodeId: NodeId, name: string, maxProtocol: nat)
    | Welcome(nodeId: NodeId, name: string, protocol: nat)
    | Ping(nonce: nat)
    | Pong(nonce: nat)
    | Bye(reason: string)

  datatype WireFrame =
    | Control(control: ControlFrame)
    | Input(event: InputEvent)
    | Clipboard(snap: Snapshot)
    | FetchRequest(hash: Digest)
    | FetchResponse(hash: Digest, chunkIdx: u32, total: u32, bytes: Bytes)
    | FetchMiss(hash: Digest)
}
