/**
 The length-prefixed framing of a tunnel stream, from both ends, with the datagram header and
 the TCP relay built on it.

 The server writes any payload with its length cut to 16 bits; the client refuses payloads over
 `BUF_SIZE` and reads the length 0xFFFF as the start of an error frame.
 */
module MuxFraming {
  import opened Wrappers
  import opened Text

  type Byte = x: int | 0 <= x < 256

  type Bytes = seq<Byte>

  const BUF_SIZE: nat := 65534
  const ERROR_MARKER: nat := 0xFFFF

  // ---- frames

  function Length16(n: nat): (r: nat)
    ensures r < 0x1_0000
  {
    n % 0x1_0000
  }

  function Header(n: nat): Bytes
    requires n < 0x1_0000
  {
    [n / 256, n % 256]
  }

  function HeaderValue(hi: Byte, lo: Byte): nat {
    hi * 256 + lo
  }

  /** What the server puts on the wire for a payload. */
  function Frame(payload: Bytes): Bytes {
    Header(Length16(|payload|)) + payload
  }

  function Frames(payloads: seq<Bytes>): Bytes {
    if payloads == [] then [] else Frames(payloads[..|payloads| - 1]) + Frame(payloads[|payloads| - 1])
  }

  /** One read: a payload, the half-close signal, an error frame (client only), or the end of input. */
  datatype Read = Payload(data: Bytes) | HalfClose | RemoteError(msg: Bytes) | EndOfInput

  datatype Step = Step(read: Read, rest: Bytes)

  /** The server's `readMsgBuf`: what it returns and what is left unread. */
  function ServerRead(input: Bytes): Step {
    if |input| < 2 then Step(EndOfInput, [])
    else
      var n := HeaderValue(input[0], input[1]);
      var body := input[2..];
      if n == 0 then Step(HalfClose, body)
      else if |body| < n then Step(EndOfInput, [])
      else Step(Payload(body[..n]), body[n..])
  }

  /** The client's `readMsg`: as the server's, with error frames. */
  function ClientRead(input: Bytes): Step {
    if |input| >= 2 && HeaderValue(input[0], input[1]) == ERROR_MARKER then
      var body := input[2..];
      if |body| < 2 then Step(EndOfInput, [])
      else
        var n := HeaderValue(body[0], body[1]);
        var msg := body[2..];
        if |msg| < n then Step(EndOfInput, []) else Step(RemoteError(msg[..n]), msg[n..])
    else ServerRead(input)
  }

  /** An empty payload is the half-close signal. */
  function AsRead(payload: Bytes): Read {
    if payload == [] then HalfClose else Payload(payload)
  }

  /** Reading until the input ends. */
  function ServerReadAll(input: Bytes): seq<Read>
    decreases |input|
  {
    var step := ServerRead(input);
    if step.read == EndOfInput then [] else [step.read] + ServerReadAll(step.rest)
  }

  function ClientReadAll(input: Bytes): seq<Read>
    decreases |input|
  {
    var step := ClientRead(input);
    if step.read == EndOfInput then [] else [step.read] + ClientReadAll(step.rest)
  }

  function AsReads(payloads: seq<Bytes>): seq<Read> {
    seq(|payloads|, i requires 0 <= i < |payloads| => AsRead(payloads[i]))
  }

  lemma HeaderBack(n: nat)
    requires n < 0x1_0000
    ensures HeaderValue(Header(n)[0], Header(n)[1]) == n
  {
  }

  /** What a read of a frame starts with: the length as the header tells it. */
  lemma FrameStart(payload: Bytes, rest: Bytes)
    ensures var input := Frame(payload) + rest;
            && |input| == 2 + |payload| + |rest|
            && HeaderValue(input[0], input[1]) == Length16(|payload|)
            && input[2..] == payload + rest
  {
    var h := Header(Length16(|payload|));
    HeaderBack(Length16(|payload|));
    HeadAndBody(h, payload, rest);
  }

  lemma HeadAndBody(h: Bytes, payload: Bytes, rest: Bytes)
    requires |h| == 2
    ensures var input := h + payload + rest;
            |input| == 2 + |payload| + |rest| && input[0] == h[0] && input[1] == h[1] && input[2..] == payload + rest
  {
  }

  /** The server reads a frame back, whatever follows, exactly when its length fits 16 bits. */
  lemma ServerReadsFrameIff(payload: Bytes, rest: Bytes)
    ensures ServerRead(Frame(payload) + rest) == Step(AsRead(payload), rest) <==> |payload| < 0x1_0000
  {
    FrameStart(payload, rest);
    ReadBody(Length16(|payload|), payload, rest);
  }

  /** What reading `n` bytes of a body gives: the payload when `n` is its length, less when it is shorter. */
  lemma ReadBody(n: nat, payload: Bytes, rest: Bytes)
    requires n <= |payload|
    ensures var body := payload + rest;
            && |body| >= n && (body[..n] == payload <==> n == |payload|) && (n == |payload| ==> body[n..] == rest)
  {
    var body := payload + rest;
    if n == |payload| {
      assert body[..n] == payload && body[n..] == rest;
    } else {
      assert |body[..n]| == n;
    }
  }

  /** The client reads a server frame back exactly when it is at most `BUF_SIZE` long. */
  lemma ClientReadsFrameIff(payload: Bytes, rest: Bytes)
    ensures ClientRead(Frame(payload) + rest) == Step(AsRead(payload), rest) <==> |payload| <= BUF_SIZE
  {
    FrameStart(payload, rest);
    ServerReadsFrameIff(payload, rest);
  }

  // ---- whole streams

  lemma ServerReadMore(payload: Bytes, rest: Bytes)
    requires |payload| < 0x1_0000
    ensures ServerReadAll(Frame(payload) + rest) == [AsRead(payload)] + ServerReadAll(rest)
  {
    ServerReadsFrameIff(payload, rest);
  }

  lemma ClientReadMore(payload: Bytes, rest: Bytes)
    requires |payload| <= BUF_SIZE
    ensures ClientReadAll(Frame(payload) + rest) == [AsRead(payload)] + ClientReadAll(rest)
  {
    ClientReadsFrameIff(payload, rest);
  }

  lemma {:induction false} FramesSplit(payloads: seq<Bytes>)
    requires payloads != []
    ensures Frames(payloads) == Frame(payloads[0]) + Frames(payloads[1..])
    decreases |payloads|
  {
    var n := |payloads| - 1;
    var init, last := payloads[..n], payloads[n];
    if n == 0 {
      assert payloads[..0] == [] && payloads[1..] == [];
    } else {
      FramesSplit(init);
      FramesInit(payloads[1..], init[1..], last);
      ConcatAssoc(Frame(payloads[0]), Frames(init[1..]), Frame(last));
    }
  }

  lemma FramesInit(payloads: seq<Bytes>, init: seq<Bytes>, last: Bytes)
    requires payloads == init + [last]
    ensures Frames(payloads) == Frames(init) + Frame(last)
  {
    assert payloads[..|init|] == init;
  }

  lemma ConcatAssoc(a: Bytes, b: Bytes, c: Bytes)
    ensures (a + b) + c == a + (b + c)
  {
  }

  lemma AsReadsSplit(payloads: seq<Bytes>)
    requires payloads != []
    ensures AsReads(payloads) == [AsRead(payloads[0])] + AsReads(payloads[1..])
  {
  }

  /** Main result: reading until the end returns exactly the payloads that were written, in order, with
      only the empty ones read as half-close. */
  lemma {:induction false} ServerReadsAll(payloads: seq<Bytes>)
    requires forall i :: 0 <= i < |payloads| ==> |payloads[i]| < 0x1_0000
    ensures ServerReadAll(Frames(payloads)) == AsReads(payloads)
    decreases |payloads|
  {
    if payloads != [] {
      ServerReadsAll(payloads[1..]);
      FramesSplit(payloads);
      ServerReadMore(payloads[0], Frames(payloads[1..]));
      AsReadsSplit(payloads);
    }
  }

  lemma {:induction false} ClientReadsAll(payloads: seq<Bytes>)
    requires forall i :: 0 <= i < |payloads| ==> |payloads[i]| <= BUF_SIZE
    ensures ClientReadAll(Frames(payloads)) == AsReads(payloads)
    decreases |payloads|
  {
    if payloads != [] {
      ClientReadsAll(payloads[1..]);
      FramesSplit(payloads);
      ClientReadMore(payloads[0], Frames(payloads[1..]));
      AsReadsSplit(payloads);
    }
  }

  // ---- the code

  /** What gets through to the other end when only `room` more bytes do. */
  function Arrives(room: Option<nat>, bytes: Bytes): Bytes {
    if room.None? || |bytes| <= room.value then bytes else bytes[..room.value]
  }

  predicate Fits(room: Option<nat>, n: nat) {
    room.None? || n <= room.value
  }

  function RoomLeft(room: Option<nat>, n: nat): Option<nat> {
    if room.None? then None else if n <= room.value then Some(room.value - n) else Some(0)
  }

  lemma ArrivesConcat(room: Option<nat>, a: Bytes, b: Bytes)
    ensures Arrives(room, a + b) == Arrives(room, a) + Arrives(RoomLeft(room, |a|), b)
    ensures RoomLeft(room, |a + b|) == RoomLeft(RoomLeft(room, |a|), |b|)
  {
    if room.Some? && |a + b| > room.value && |a| <= room.value {
      assert (a + b)[..room.value] == a + b[..room.value - |a|];
    } else if room.Some? && |a| > room.value {
      assert (a + b)[..room.value] == a[..room.value] + b[..0];
    }
  }

  /** One direction of a stream: bytes written by one end, not yet read by the other. A stream with `room`
      goes down after so many more bytes; the write that meets its end fails half-way. */
  class Stream {
    var data: Bytes
    var room: Option<nat>

    constructor (room: Option<nat>)
      ensures data == [] && this.room == room
    {
      data, this.room := [], room;
    }

    method Write(buf: array<Byte>) returns (ok: bool)
      modifies this
      ensures ok == Fits(old(room), buf.Length)
      ensures data == old(data) + Arrives(old(room), buf[..])
      ensures room == RoomLeft(old(room), buf.Length)
    {
      if room.None? || buf.Length <= room.value {
        data := data + buf[..];
        room := RoomLeft(room, buf.Length);
        return true;
      }
      data := data + buf[..room.value];
      room := Some(0);
      return false;
    }

    /** Takes exactly `n` bytes, or all that is left. */
    method ReadFull(n: nat) returns (ok: bool, bytes: Bytes)
      modifies this`data
      ensures ok == (|old(data)| >= n)
      ensures ok ==> bytes == old(data)[..n] && data == old(data)[n..]
      ensures !ok ==> data == []
    {
      if |data| < n {
        data := [];
        return false, [];
      }
      bytes := data[..n];
      data := data[n..];
      ok := true;
    }
  }

  /** The server's `writeMsg`: one buffer with header and payload, one write. */
  method WriteMsg(w: Stream, payload: Bytes) returns (ok: bool)
    modifies w
    ensures ok == Fits(old(w.room), |Frame(payload)|)
    ensures w.data == old(w.data) + Arrives(old(w.room), Frame(payload))
    ensures w.room == RoomLeft(old(w.room), |Frame(payload)|)
  {
    var buf := new Byte[2 + |payload|](_ => 0);
    var n := |payload| % 0x1_0000;
    buf[0], buf[1] := n / 256, n % 256;
    for i := 0 to |payload|
      invariant w.data == old(w.data) && w.room == old(w.room)
      invariant buf[0] == n / 256 && buf[1] == n % 256
      invariant forall j :: 2 <= j < 2 + i ==> buf[j] == payload[j - 2]
    {
      buf[2 + i] := payload[i];
    }
    assert n == Length16(|payload|);
    assert buf[..] == Header(n) + payload;
    ok := w.Write(buf);
  }

  /** The server's `readMsgBuf`. */
  method ReadMsgBuf(r: Stream) returns (read: Read)
    modifies r`data
    ensures Step(read, r.data) == ServerRead(old(r.data))
  {
    var ok, hdr := r.ReadFull(2);
    if !ok {
      return EndOfInput;
    }
    var n := HeaderValue(hdr[0], hdr[1]);
    if n == 0 {
      return HalfClose;
    }
    var buf;
    ok, buf := r.ReadFull(n);
    if !ok {
      return EndOfInput;
    }
    return Payload(buf);
  }

  // ---- the TCP relay

  function Concat(parts: seq<Bytes>): Bytes {
    if parts == [] then [] else Concat(parts[..|parts| - 1]) + parts[|parts| - 1]
  }

  /** The reads that returned bytes. */
  function NonEmpty(parts: seq<Bytes>): seq<Bytes> {
    if parts == [] then []
    else
      var last := parts[|parts| - 1];
      NonEmpty(parts[..|parts| - 1]) + (if last == [] then [] else [last])
  }

  lemma FramesSnoc(parts: seq<Bytes>, last: Bytes)
    ensures Frames(parts + [last]) == Frames(parts) + Frame(last)
  {
    assert (parts + [last])[..|parts|] == parts;
  }

  /** A read that returned nothing gives no frame; the end of the connection gives a half-close. */
  function FramesOfReads(cuts: seq<Bytes>): Bytes {
    if cuts == [] then Frame([]) else (if cuts[0] == [] then [] else Frame(cuts[0])) + FramesOfReads(cuts[1..])
  }

  lemma FramesCons(first: Bytes, rest: seq<Bytes>)
    ensures Frames([first] + rest) == Frame(first) + Frames(rest)
  {
    FramesSplit([first] + rest);
    assert ([first] + rest)[1..] == rest;
  }

  lemma {:induction false} FramesOfReadsAre(cuts: seq<Bytes>)
    ensures FramesOfReads(cuts) == Frames(NonEmpty(cuts) + [[]])
  {
    if cuts == [] {
      FramesCons([], []);
      assert Frames([]) == [];
    } else {
      FramesOfReadsAre(cuts[1..]);
      NonEmptySplit(cuts);
      FramesMore(cuts[0], NonEmpty(cuts[1..]), [[]]);
    }
  }

  lemma FramesMore(first: Bytes, kept: seq<Bytes>, ends: seq<Bytes>)
    ensures Frames((if first == [] then [] else [first]) + kept + ends) ==
            (if first == [] then [] else Frame(first)) + Frames(kept + ends)
  {
    FramesCons(first, kept + ends);
    assert [] + kept + ends == kept + ends;
    assert [first] + kept + ends == [first] + (kept + ends);
  }

  lemma {:induction false} NonEmptySplit(cuts: seq<Bytes>)
    requires cuts != []
    ensures NonEmpty(cuts) == (if cuts[0] == [] then [] else [cuts[0]]) + NonEmpty(cuts[1..])
    decreases |cuts|
  {
    var n := |cuts| - 1;
    if n == 0 {
      assert cuts[..0] == [] && cuts[1..] == [];
    } else {
      NonEmptySplit(cuts[..n]);
      assert cuts[..n][1..] == cuts[1..][..n - 1] && cuts[1..][n - 1] == cuts[n];
    }
  }

  /** remote -> mux: every read of the connection becomes a frame, and the end of it a half-close. A write that
      fails ends the relay. */
  method RelayToMux(cuts: seq<Bytes>, stream: Stream) returns (ok: bool)
    requires forall i :: 0 <= i < |cuts| ==> |cuts[i]| <= BUF_SIZE
    modifies stream
    ensures ok == Fits(old(stream.room), |FramesOfReads(cuts)|)
    ensures stream.data == old(stream.data) + Arrives(old(stream.room), FramesOfReads(cuts))
  {
    ghost var base, all := stream.data, Arrives(stream.room, FramesOfReads(cuts));
    ghost var fits := Fits(stream.room, |FramesOfReads(cuts)|);
    assert cuts[0..] == cuts;
    for i := 0 to |cuts|
      invariant stream.data + Arrives(stream.room, FramesOfReads(cuts[i..])) == base + all
      invariant Fits(stream.room, |FramesOfReads(cuts[i..])|) == fits
    {
      assert cuts[i..][1..] == cuts[i + 1..];
      if |cuts[i]| > 0 {
        ghost var room, rest := stream.room, FramesOfReads(cuts[i + 1..]);
        ArrivesConcat(room, Frame(cuts[i]), rest);
        ConcatAssoc(stream.data, Arrives(room, Frame(cuts[i])), Arrives(RoomLeft(room, |Frame(cuts[i])|), rest));
        ok := WriteMsg(stream, cuts[i]);
        if !ok {
          return;
        }
      } else {
        assert FramesOfReads(cuts[i..]) == FramesOfReads(cuts[i + 1..]);
      }
    }
    assert cuts[|cuts|..] == [];
    ok := WriteMsg(stream, []);
  }

  datatype Relay = Relay(written: Bytes, closedWrite: bool)

  /** What a relay of these reads writes out: the bytes before the first half-close, and whether one came. */
  function Relayed(cuts: seq<Read>): Relay {
    if cuts == [] then Relay([], false)
    else
      match cuts[0]
      case HalfClose => Relay([], true)
      case Payload(data) => var more := Relayed(cuts[1..]); more.(written := data + more.written)
      case _ => Relay([], false)
  }

  /** A relay whose connection takes only `room` more bytes: the write that meets its end ends the relay. */
  function Through(room: Option<nat>, r: Relay): Relay {
    if Fits(room, |r.written|) then r else Relay(Arrives(room, r.written), false)
  }

  /** mux -> remote: payloads are written to the connection until a half-close, which closes its write
      side, the end of input, or a write that fails. */
  method RelayToRemote(br: Stream, conn: Stream) returns (closedWrite: bool)
    requires br != conn
    modifies br`data, conn
    ensures Relay(conn.data, closedWrite) == Behind(old(conn.data), Through(old(conn.room), RelayedInput(old(br.data))))
  {
    closedWrite := false;
    ghost var whole := Behind(conn.data, Through(conn.room, RelayedInput(br.data)));
    while true
      invariant whole == Behind(conn.data, Through(conn.room, RelayedInput(br.data)))
      invariant !closedWrite
      decreases |br.data|
    {
      ghost var before := br.data;
      var payload := ReadMsgBuf(br);
      RelayedStep(before);
      if payload == EndOfInput {
        return;
      }
      if payload == HalfClose {
        return true;
      }
      ThroughConcat(conn.data, conn.room, payload.data, RelayedInput(br.data));
      var buf := new Byte[|payload.data|](i requires 0 <= i < |payload.data| => payload.data[i]);
      assert buf[..] == payload.data;
      var ok := conn.Write(buf);
      if !ok {
        return;
      }
    }
  }

  lemma ThroughConcat(sent: Bytes, room: Option<nat>, data: Bytes, more: Relay)
    ensures var whole := Behind(sent, Through(room, Behind(data, more)));
            whole == if Fits(room, |data|) then Behind(sent + data, Through(RoomLeft(room, |data|), more))
                     else Relay(sent + Arrives(room, data), false)
  {
    ArrivesConcat(room, data, more.written);
    if !Fits(room, |data|) {
      assert Arrives(room, data) + Arrives(Some(0), more.written) == Arrives(room, data);
    } else if Fits(room, |data + more.written|) {
      ConcatAssoc(sent, data, more.written);
    } else {
      ConcatAssoc(sent, data, Arrives(RoomLeft(room, |data|), more.written));
    }
  }

  function RelayedInput(input: Bytes): Relay {
    Relayed(ServerReadAll(input))
  }

  function Behind(written: Bytes, r: Relay): Relay {
    r.(written := written + r.written)
  }

  /** One turn of the relay loop. */
  lemma RelayedStep(input: Bytes)
    ensures var step := ServerRead(input);
            RelayedInput(input) ==
              match step.read
              case EndOfInput => Relay([], false)
              case HalfClose => Relay([], true)
              case Payload(data) => Behind(data, RelayedInput(step.rest))
              case RemoteError(_) => Relay([], false)
    ensures !ServerRead(input).read.RemoteError?
  {
    var step := ServerRead(input);
    if step.read != EndOfInput {
      assert ServerReadAll(input)[1..] == ServerReadAll(step.rest);
    }
  }

  /** The chunks of a client's write. */
  function Chunks(bytes: Bytes): seq<Bytes>
    decreases |bytes|
  {
    if bytes == [] then []
    else
      var chunk := if |bytes| > BUF_SIZE then bytes[..BUF_SIZE] else bytes;
      [chunk] + Chunks(bytes[|chunk|..])
  }

  /** The chunks fit a frame, none is a half-close, and together they are the bytes. */
  lemma {:induction false} ChunksJoin(bytes: Bytes)
    ensures Concat(Chunks(bytes)) == bytes
    ensures forall i :: 0 <= i < |Chunks(bytes)| ==> 0 < |Chunks(bytes)[i]| <= BUF_SIZE
    decreases |bytes|
  {
    if bytes != [] {
      var chunk := Chunks(bytes)[0];
      ChunksJoin(bytes[|chunk|..]);
      assert Chunks(bytes)[1..] == Chunks(bytes[|chunk|..]);
      ConcatSplit(Chunks(bytes));
      assert bytes == chunk + bytes[|chunk|..];
    }
  }

  /** A stream after bytes were written to it, and whether it took them all. */
  datatype Sent = Sent(data: Bytes, room: Option<nat>, ok: bool)

  function Put(data: Bytes, room: Option<nat>, bytes: Bytes): Sent {
    Sent(data + Arrives(room, bytes), RoomLeft(room, |bytes|), Fits(room, |bytes|))
  }

  lemma PutConcat(data: Bytes, room: Option<nat>, a: Bytes, b: Bytes)
    ensures var first := Put(data, room, a);
            Put(data, room, a + b) == if first.ok then Put(first.data, first.room, b) else first
  {
    ArrivesConcat(room, a, b);
    ConcatAssoc(data, Arrives(room, a), Arrives(RoomLeft(room, |a|), b));
    if !Fits(room, |a|) {
      assert Arrives(room, a) + Arrives(Some(0), b) == Arrives(room, a);
    }
  }

  lemma PutNothing(data: Bytes, room: Option<nat>)
    ensures Put(data, room, []) == Sent(data, room, true)
  {
  }

  /** The first chunk of a write, and the others behind it. */
  lemma ChunksSplit(b: Bytes, chunk: Bytes)
    requires b != [] && chunk == if |b| > BUF_SIZE then b[..BUF_SIZE] else b
    ensures Frames(Chunks(b)) == Frame(chunk) + Frames(Chunks(b[|chunk|..]))
  {
    assert Chunks(b)[0] == chunk && Chunks(b)[1..] == Chunks(b[|chunk|..]);
    FramesSplit(Chunks(b));
  }

  /** The client's `Write`: chunks of at most `BUF_SIZE`; a write that fails ends it. `total` counts what
      was handed over in whole chunks. */
  method ClientWrite(stream: Stream, bytes: Bytes) returns (total: nat, ok: bool)
    modifies stream
    ensures Sent(stream.data, stream.room, ok) == Put(old(stream.data), old(stream.room), Frames(Chunks(bytes)))
    ensures total <= |bytes| && (ok <==> total == |bytes|)
  {
    var b := bytes;
    total := 0;
    ghost var whole := Put(stream.data, stream.room, Frames(Chunks(bytes)));
    while |b| > 0
      invariant Put(stream.data, stream.room, Frames(Chunks(b))) == whole
      invariant total + |b| == |bytes|
      decreases |b|
    {
      var chunk := if |b| > BUF_SIZE then b[..BUF_SIZE] else b;
      ChunksSplit(b, chunk);
      PutConcat(stream.data, stream.room, Frame(chunk), Frames(Chunks(b[|chunk|..])));
      ok := WriteMsg(stream, chunk);
      if !ok {
        return;
      }
      total := total + |chunk|;
      b := b[|chunk|..];
    }
    PutNothing(stream.data, stream.room);
    ok := true;
  }

  /** What a client puts on the stream that writes some bytes and half-closes. */
  function Upload(bytes: Bytes): Bytes {
    Frames(Chunks(bytes) + [[]])
  }

  /** `Write`, then `CloseWrite` whether or not it failed. */
  method UploadBytes(stream: Stream, bytes: Bytes) returns (ok: bool)
    modifies stream
    ensures stream.data == old(stream.data) + Arrives(old(stream.room), Upload(bytes))
    ensures ok == Fits(old(stream.room), |Upload(bytes)|)
  {
    ghost var room, base := stream.room, stream.data;
    FramesSnoc(Chunks(bytes), []);
    ArrivesConcat(room, Frames(Chunks(bytes)), Frame([]));
    ConcatAssoc(base, Arrives(room, Frames(Chunks(bytes))),
                Arrives(RoomLeft(room, |Frames(Chunks(bytes))|), Frame([])));
    var _, _ := ClientWrite(stream, bytes);
    ok := WriteMsg(stream, []);
  }

  lemma {:induction false} RelayedFrames(parts: seq<Bytes>, more: seq<Read>)
    requires forall i :: 0 <= i < |parts| ==> parts[i] != []
    ensures Relayed(AsReads(parts) + [HalfClose] + more) == Relay(Concat(parts), true)
    decreases |parts|
  {
    var cuts := AsReads(parts) + [HalfClose] + more;
    if parts != [] {
      RelayedFrames(parts[1..], more);
      assert cuts[1..] == AsReads(parts[1..]) + [HalfClose] + more;
      ConcatSplit(parts);
    }
  }

  lemma {:induction false} ConcatSplit(parts: seq<Bytes>)
    requires parts != []
    ensures Concat(parts) == parts[0] + Concat(parts[1..])
    decreases |parts|
  {
    var n := |parts| - 1;
    if n > 0 {
      ConcatSplit(parts[..n]);
      assert parts[..n][1..] == parts[1..][..n - 1];
    }
  }

  lemma ConcatKept(kept: seq<Bytes>, last: Bytes)
    ensures Concat(kept + if last == [] then [] else [last]) == Concat(kept) + last
  {
    if last == [] {
      assert kept + [] == kept && Concat(kept) + [] == Concat(kept);
    } else {
      assert (kept + [last])[..|kept|] == kept;
    }
  }

  lemma {:induction false} ConcatNonEmpty(parts: seq<Bytes>)
    ensures Concat(NonEmpty(parts)) == Concat(parts)
  {
    if parts != [] {
      var n := |parts| - 1;
      ConcatNonEmpty(parts[..n]);
      ConcatKept(NonEmpty(parts[..n]), parts[n]);
    }
  }

  lemma {:induction false} NonEmptyParts(parts: seq<Bytes>, limit: nat)
    requires forall i :: 0 <= i < |parts| ==> |parts[i]| <= limit
    ensures forall i :: 0 <= i < |NonEmpty(parts)| ==> 0 < |NonEmpty(parts)[i]| <= limit
  {
    if parts != [] {
      NonEmptyParts(parts[..|parts| - 1], limit);
    }
  }

  lemma EndedReads(parts: seq<Bytes>)
    requires forall i :: 0 <= i < |parts| ==> 0 < |parts[i]| <= BUF_SIZE
    ensures ClientReadAll(Frames(parts + [[]])) == AsReads(parts) + [HalfClose]
  {
    var all := parts + [[]];
    ClientReadsAll(all);
    assert AsReads(all) == AsReads(parts) + [HalfClose];
  }

  /** Main result: however the bytes of a connection are cut into reads, the client receives exactly
      those bytes followed by one half-close and nothing else. */
  lemma RelayIsTransparent(cuts: seq<Bytes>)
    requires forall i :: 0 <= i < |cuts| ==> |cuts[i]| <= BUF_SIZE
    ensures ClientReadAll(FramesOfReads(cuts)) == AsReads(NonEmpty(cuts)) + [HalfClose]
    ensures Relayed(ClientReadAll(FramesOfReads(cuts))) == Relay(Concat(cuts), true)
  {
    ConcatNonEmpty(cuts);
    NonEmptyParts(cuts, BUF_SIZE);
    FramesOfReadsAre(cuts);
    EndedReads(NonEmpty(cuts));
    RelayedFrames(NonEmpty(cuts), []);
    assert AsReads(NonEmpty(cuts)) + [HalfClose] + [] == AsReads(NonEmpty(cuts)) + [HalfClose];
  }

  // ---- streams that go down

  /** The server reads the frames that arrived whole, and is told of no other. */
  lemma {:induction false} ServerReadsPrefix(parts: seq<Bytes>, k: nat) returns (m: nat)
    requires k <= |Frames(parts)| && forall i :: 0 <= i < |parts| ==> |parts[i]| < 0x1_0000
    ensures m <= |parts| && (m == |parts| <==> k == |Frames(parts)|)
    ensures ServerReadAll(Frames(parts)[..k]) == AsReads(parts[..m])
    decreases |parts|
  {
    m := 0;
    if parts != [] {
      FramesSplit(parts);
      var first, rest := Frame(parts[0]), Frames(parts[1..]);
      if k < |first| {
        assert (first + rest)[..k] == first[..k];
        CutFrame(parts[0], k);
      } else {
        m := ServerReadsPrefix(parts[1..], k - |first|);
        assert (first + rest)[..k] == first + rest[..k - |first|];
        ServerReadMore(parts[0], rest[..k - |first|]);
        m := m + 1;
        AsReadsSplit(parts[..m]);
        assert parts[..m][1..] == parts[1..][..m - 1];
      }
    }
  }

  lemma CutFrame(payload: Bytes, k: nat)
    requires |payload| < 0x1_0000 && k < |Frame(payload)|
    ensures ServerRead(Frame(payload)[..k]).read == EndOfInput
    ensures |payload| <= BUF_SIZE ==> ClientRead(Frame(payload)[..k]).read == EndOfInput
  {
    var cut := Frame(payload)[..k];
    HeaderBack(|payload|);
    if k >= 2 {
      assert cut[0] == Header(|payload|)[0] && cut[1] == Header(|payload|)[1];
      assert |cut[2..]| < |payload|;
    }
  }

  lemma {:induction false} ClientReadsPrefix(parts: seq<Bytes>, k: nat)
    requires k <= |Frames(parts)| && forall i :: 0 <= i < |parts| ==> |parts[i]| <= BUF_SIZE
    ensures ClientReadAll(Frames(parts)[..k]) == ServerReadAll(Frames(parts)[..k])
    decreases |parts|
  {
    if parts != [] {
      FramesSplit(parts);
      var first, rest := Frame(parts[0]), Frames(parts[1..]);
      if k < |first| {
        assert (first + rest)[..k] == first[..k];
        CutFrame(parts[0], k);
      } else {
        ClientReadsPrefix(parts[1..], k - |first|);
        assert (first + rest)[..k] == first + rest[..k - |first|];
        ServerReadMore(parts[0], rest[..k - |first|]);
        ClientReadMore(parts[0], rest[..k - |first|]);
      }
    }
  }

  lemma {:induction false} RelayedWithoutEnd(parts: seq<Bytes>)
    requires forall i :: 0 <= i < |parts| ==> parts[i] != []
    ensures Relayed(AsReads(parts)) == Relay(Concat(parts), false)
    decreases |parts|
  {
    if parts != [] {
      RelayedWithoutEnd(parts[1..]);
      AsReadsSplit(parts);
      ConcatSplit(parts);
    }
  }

  lemma {:induction false} ConcatPrefix(parts: seq<Bytes>, m: nat)
    requires m <= |parts|
    ensures Concat(parts[..m]) <= Concat(parts)
    decreases |parts|
  {
    if m == |parts| {
      assert parts[..m] == parts;
    } else {
      var n := |parts| - 1;
      ConcatPrefix(parts[..n], m);
      assert parts[..n][..m] == parts[..m];
    }
  }

  /** A relayed stream of frames that ends anywhere: a prefix of the bytes comes out, and the write side is
      closed exactly when everything arrived, which is when all the bytes have come out. */
  lemma RelayedPrefix(parts: seq<Bytes>, k: nat)
    requires forall i :: 0 <= i < |parts| ==> 0 < |parts[i]| <= BUF_SIZE
    requires k <= |Frames(parts + [[]])|
    ensures var r := RelayedInput(Frames(parts + [[]])[..k]);
            && r == Relayed(ClientReadAll(Frames(parts + [[]])[..k]))
            && r.written <= Concat(parts)
            && (r.closedWrite <==> k == |Frames(parts + [[]])|)
            && (r.closedWrite ==> r.written == Concat(parts))
  {
    var all := parts + [[]];
    ClientReadsPrefix(all, k);
    var m := ServerReadsPrefix(all, k);
    if m == |all| {
      assert all[..m] == all;
      RelayedFrames(parts, []);
      assert AsReads(all) == AsReads(parts) + [HalfClose] + [];
    } else {
      assert all[..m] == parts[..m];
      RelayedWithoutEnd(parts[..m]);
      ConcatPrefix(parts, m);
    }
  }

  /** Main result: however much of an upload reaches the server, its relay writes a prefix of the client's
      bytes to the connection, and closes its write side exactly when all of it arrived, after all the bytes. */
  lemma UploadIsTransparent(bytes: Bytes, k: nat)
    requires k <= |Upload(bytes)|
    ensures var r := RelayedInput(Upload(bytes)[..k]);
            r.written <= bytes && (r.closedWrite <==> k == |Upload(bytes)|) && (r.closedWrite ==> r.written == bytes)
  {
    ChunksJoin(bytes);
    RelayedPrefix(Chunks(bytes), k);
  }

  /** The other direction: however a connection's bytes are cut into reads and however much of the stream
      reaches the client, it reads a prefix of them, and a half-close exactly when all of it arrived. */
  lemma DownloadIsTransparent(cuts: seq<Bytes>, k: nat)
    requires forall i :: 0 <= i < |cuts| ==> |cuts[i]| <= BUF_SIZE
    requires k <= |FramesOfReads(cuts)|
    ensures var r := Relayed(ClientReadAll(FramesOfReads(cuts)[..k]));
            && r.written <= Concat(cuts) && (r.closedWrite <==> k == |FramesOfReads(cuts)|)
            && (r.closedWrite ==> r.written == Concat(cuts))
  {
    ConcatNonEmpty(cuts);
    NonEmptyParts(cuts, BUF_SIZE);
    FramesOfReadsAre(cuts);
    RelayedPrefix(NonEmpty(cuts), k);
  }

  // ---- datagrams

  /** Text as bytes and back, for the ASCII of addresses and ports. */
  function AsBytes(s: string): (b: Bytes)
    requires forall i :: 0 <= i < |s| ==> s[i] < 128 as char
    ensures |b| == |s| && forall i :: 0 <= i < |s| ==> b[i] == s[i] as int
  {
    if s == "" then [] else [s[0] as int] + AsBytes(s[1..])
  }

  const COMMA: Byte := 44

  function IndexOfByte(b: Bytes, x: Byte): (r: int)
    ensures -1 <= r < |b|
    ensures r >= 0 ==> b[r] == x && forall j :: 0 <= j < r ==> b[j] != x
    ensures r < 0 ==> x !in b
  {
    if b == [] then -1
    else if b[0] == x then 0
    else
      var r := IndexOfByte(b[1..], x);
      if r < 0 then -1 else r + 1
  }

  datatype Datagram = Datagram(ip: Bytes, port: Bytes, raw: Bytes)

  function EncodeDatagram(d: Datagram): Bytes {
    d.ip + [COMMA] + d.port + [COMMA] + d.raw
  }

  /** The parse of "ip,port,raw"; a payload without two commas is skipped. */
  function DecodeDatagram(payload: Bytes): Option<Datagram> {
    var i1 := IndexOfByte(payload, COMMA);
    if i1 < 0 then None
    else
      var rest := payload[i1 + 1..];
      var i2 := IndexOfByte(rest, COMMA);
      if i2 < 0 then None
      else Some(Datagram(payload[..i1], rest[..i2], payload[i1 + 1 + i2 + 1..]))
  }

  lemma IndexAfterBytes(head: Bytes, tail: Bytes)
    requires COMMA !in head
    ensures IndexOfByte(head + [COMMA] + tail, COMMA) == |head|
  {
    var s := head + [COMMA] + tail;
    assert s[|head|] == COMMA;
    assert forall j :: 0 <= j < |head| ==> s[j] == head[j] && head[j] in head;
  }

  /** The header decodes back for any raw bytes, commas included. */
  lemma DatagramRoundTrip(d: Datagram)
    requires COMMA !in d.ip && COMMA !in d.port
    ensures DecodeDatagram(EncodeDatagram(d)) == Some(d)
  {
    var payload := EncodeDatagram(d);
    assert payload == d.ip + [COMMA] + (d.port + [COMMA] + d.raw);
    IndexAfterBytes(d.ip, d.port + [COMMA] + d.raw);
    var rest := payload[|d.ip| + 1..];
    assert rest == d.port + [COMMA] + d.raw;
    IndexAfterBytes(d.port, d.raw);
    assert payload[..|d.ip|] == d.ip && rest[..|d.port|] == d.port;
    assert payload[|d.ip| + 1 + |d.port| + 1..] == d.raw;
  }

  /** Decoding is the inverse on everything it accepts. */
  lemma DecodedIsEncoded(payload: Bytes)
    requires DecodeDatagram(payload).Some?
    ensures EncodeDatagram(DecodeDatagram(payload).value) == payload
    ensures COMMA !in DecodeDatagram(payload).value.ip && COMMA !in DecodeDatagram(payload).value.port
  {
  }

  lemma PortLength(port: nat)
    requires port <= 65535
    ensures |Decimal(port)| <= 5
  {
    var a, b, c := port / 10, port / 100, port / 1000;
    assert a / 10 == b && b / 10 == c && c / 10 <= 6;
    assert |Decimal(c)| <= 2;
    assert |Decimal(b)| <= 3;
    assert |Decimal(a)| <= 4;
  }

  /** A datagram from the remote reaches the client intact exactly when header and data fit in
      `BUF_SIZE`; otherwise it is read as something else. */
  lemma DatagramDeliveredIff(d: Datagram, rest: Bytes)
    ensures ClientRead(Frame(EncodeDatagram(d)) + rest) == Step(Payload(EncodeDatagram(d)), rest) <==>
            |d.ip| + |d.port| + 2 + |d.raw| <= BUF_SIZE
  {
    ClientReadsFrameIff(EncodeDatagram(d), rest);
  }

  /** Every IPv4 datagram fits: at most 15 characters of address, 5 of port, and 65507 bytes of data
      (section 3.1 of RFC 791, less the IP and UDP headers). */
  lemma Ipv4DatagramDelivered(d: Datagram, port: nat, rest: Bytes)
    requires |d.ip| <= 15 && port <= 65535 && d.port == AsBytes(Decimal(port)) && |d.raw| <= 65507
    requires COMMA !in d.ip
    ensures ClientRead(Frame(EncodeDatagram(d)) + rest) == Step(Payload(EncodeDatagram(d)), rest)
    ensures DecodeDatagram(EncodeDatagram(d)) == Some(d)
  {
    PortLength(port);
    DatagramDeliveredIff(d, rest);
    assert COMMA !in d.port;
    DatagramRoundTrip(d);
  }

  /** The largest IPv6 datagrams do not fit: with a long address, 65527 bytes of data are never read
      back as sent. */
  lemma LargeIpv6DatagramLost(d: Datagram, rest: Bytes)
    requires |d.ip| + |d.port| > 5 && |d.raw| == 65527
    ensures ClientRead(Frame(EncodeDatagram(d)) + rest) != Step(Payload(EncodeDatagram(d)), rest)
  {
    DatagramDeliveredIff(d, rest);
  }
}
