/** The tunnel stream byte by byte: which bytes are a frame, a half-close or an error, and which a datagram. */
module MuxBytes {
  import opened Wrappers
  import opened MuxFraming

  /** Two bytes of length, the higher one first, then the payload; the length is cut to 16 bits. */
  lemma FrameIs(payload: Bytes)
    ensures var f := Frame(payload);
            && |f| == |payload| + 2 && f[2..] == payload
            && 256 * (f[0] as int) + f[1] as int == |payload| % 65536
  {
  }

  /** Main result: exactly which bytes the server reads as a payload and which as a half-close; anything else is the end
      of input. */
  lemma ServerReadIff(input: Bytes, read: Read, rest: Bytes)
    ensures ServerRead(input) == Step(read, rest) <==>
            match read
            case Payload(data) => exists hi: Byte, lo: Byte :: IsFrame(input, hi, lo, data, rest) && data != []
            case HalfClose => input == [0, 0] + rest
            case RemoteError(_) => false
            case EndOfInput => rest == [] && !Whole(input)
  {
    match read
    case Payload(data) =>
      if ServerRead(input) == Step(read, rest) {
        FrameParts(input, data, rest);
      }
      forall hi: Byte, lo: Byte | IsFrame(input, hi, lo, data, rest) && data != []
        ensures ServerRead(input) == Step(Payload(data), rest)
      {
        ReadsFrame(input, hi, lo, data, rest);
      }
    case HalfClose =>
      if input == [0, 0] + rest {
        assert input[2..] == rest;
      }
    case _ =>
  }

  predicate IsFrame(input: Bytes, hi: Byte, lo: Byte, data: Bytes, rest: Bytes) {
    256 * (hi as int) + lo as int == |data| && input == [hi, lo] + data + rest
  }

  /** The input starts with a length and at least as many bytes. */
  predicate Whole(input: Bytes) {
    |input| >= 2 && |input| - 2 >= 256 * (input[0] as int) + input[1] as int
  }

  lemma ReadsFrame(input: Bytes, hi: Byte, lo: Byte, data: Bytes, rest: Bytes)
    requires IsFrame(input, hi, lo, data, rest) && data != []
    ensures ServerRead(input) == Step(Payload(data), rest)
  {
    var body := input[2..];
    assert input[0] == hi && input[1] == lo && body == data + rest;
    assert body[..|data|] == data && body[|data|..] == rest;
  }

  /** Bytes cut where their first two say. */
  lemma FrameParts(input: Bytes, data: Bytes, rest: Bytes)
    requires |input| >= 2 && |data| == 256 * (input[0] as int) + input[1] as int <= |input| - 2
    requires data == input[2..][..|data|] && rest == input[2..][|data|..]
    ensures IsFrame(input, input[0], input[1], data, rest)
  {
    assert input == [input[0], input[1]] + input[2..];
    assert input[2..] == data + rest;
  }

  /** Main result: the client reads 255, 255 and then a frame as an error of the other side, and everything else as the
      server does. */
  lemma ClientReadIff(input: Bytes, read: Read, rest: Bytes)
    ensures ClientRead(input) == Step(read, rest) <==>
            if [255, 255] <= input then
              match read
              case RemoteError(msg) => exists hi: Byte, lo: Byte :: IsFrame(input[2..], hi, lo, msg, rest)
              case EndOfInput => rest == [] && !Whole(input[2..])
              case _ => false
            else ServerRead(input) == Step(read, rest)
  {
    if [255, 255] <= input {
      assert input[0] == 255 && input[1] == 255;
      match read
      case RemoteError(msg) =>
        if ClientRead(input) == Step(read, rest) {
          FrameParts(input[2..], msg, rest);
        }
        forall hi: Byte, lo: Byte | IsFrame(input[2..], hi, lo, msg, rest)
          ensures ClientRead(input) == Step(RemoteError(msg), rest)
        {
          ReadsError(input, hi, lo, msg, rest);
        }
      case _ =>
    } else if |input| >= 2 {
      assert [255, 255] <= input <==> input[0] == 255 && input[1] == 255;
    }
  }

  lemma ReadsError(input: Bytes, hi: Byte, lo: Byte, msg: Bytes, rest: Bytes)
    requires [255, 255] <= input && IsFrame(input[2..], hi, lo, msg, rest)
    ensures ClientRead(input) == Step(RemoteError(msg), rest)
  {
    var body := input[2..];
    assert body[0] == hi && body[1] == lo && body[2..] == msg + rest;
    assert (msg + rest)[..|msg|] == msg && (msg + rest)[|msg|..] == rest;
    assert input[0] == 255 && input[1] == 255;
  }

  /** Main result: a datagram is address, comma, port, comma and data, where neither of the first two has a comma. */
  lemma DatagramIff(payload: Bytes, d: Datagram)
    ensures DecodeDatagram(payload) == Some(d) <==>
            44 !in d.ip && 44 !in d.port && payload == d.ip + [44] + d.port + [44] + d.raw
    ensures EncodeDatagram(d) == d.ip + [44] + d.port + [44] + d.raw
  {
    if DecodeDatagram(payload) == Some(d) {
      DecodedIsEncoded(payload);
    }
    if COMMA !in d.ip && COMMA !in d.port {
      DatagramRoundTrip(d);
    }
  }
}
