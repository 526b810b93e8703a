/** Length-prefixed frames over a byte stream that may be delivered in any fragments. */
module Protocol {
  import opened Wrappers
  import opened Json
  import opened Store
  import opened Arithmetic

  const PREFIX_BYTES: nat := 8
  const MAX_HEADER_BYTES: nat := 0x10_0000

  type Header = JsonObject

  /** Header serialisation: JSON text, encoded as UTF-8. */
  datatype HeaderCodec = HeaderCodec(encode: Header -> Bytes, decode: Bytes -> Option<Json>)

  /** What JSON promises for objects with string keys. */
  ghost predicate Faithful(codec: HeaderCodec) {
    forall h :: codec.decode(codec.encode(h)) == Some(JObj(h))
  }

  datatype ProtocolError =
    | EndOfStream
    | HeaderTooLarge
    | InvalidHeader
    | NotAnObject
    | BadPayloadField(value: Json)
    | PayloadNotAllowed(size: int)

  // ---------- the length prefix ----------

  function Power256(width: nat): (p: nat)
    ensures p > 0
  {
    if width == 0 then 1 else 256 * Power256(width - 1)
  }

  function BigEndian(n: nat, width: nat): (b: Bytes)
    ensures |b| == width
  {
    if width == 0 then [] else BigEndian(n / 256, width - 1) + [(n % 256) as byte]
  }

  function FromBigEndian(b: Bytes): nat {
    if b == [] then 0 else 256 * FromBigEndian(b[..|b| - 1]) + b[|b| - 1] as nat
  }

  lemma {:induction false} BigEndianRoundTrip(n: nat, width: nat)
    requires n < Power256(width)
    ensures FromBigEndian(BigEndian(n, width)) == n
  {
    if width > 0 {
      BigEndianRoundTrip(n / 256, width - 1);
      var b := BigEndian(n, width);
      assert b[..|b| - 1] == BigEndian(n / 256, width - 1);
    }
  }

  /** The most significant byte comes first. */
  lemma {:induction false} BigEndianDigits(n: nat, width: nat, i: nat)
    requires i < width
    ensures BigEndian(n, width)[i] as nat == n / Power256(width - 1 - i) % 256
  {
    if i < width - 1 {
      BigEndianDigits(n / 256, width - 1, i);
      DivDiv(n, 256, Power256(width - 2 - i));
    }
  }

  /** The length prefix of a header. */
  function Prefix(n: nat): (b: Bytes)
    ensures |b| == PREFIX_BYTES
  {
    BigEndian(n, PREFIX_BYTES)
  }

  // ---------- frames as values ----------

  function WithPayloadSize(header: Header, payload: Bytes): Header {
    header["payload_bytes" := JInt(|payload|)]
  }

  function Frame(codec: HeaderCodec, header: Header, payload: Bytes): Result<Bytes, ProtocolError> {
    var encoded := codec.encode(WithPayloadSize(header, payload));
    if |encoded| > MAX_HEADER_BYTES then Err(HeaderTooLarge)
    else Ok(Prefix(|encoded|) + encoded + payload)
  }

  /** `int(value)`, for the values a header field can hold. */
  function ToInt(value: Json): Option<int> {
    match value
    case JInt(n) => Some(n)
    case JBool(b) => Some(if b then 1 else 0)
    case JFloat(Finite(_, _, whole)) => Some(whole)
    case _ => None
  }

  function PayloadSize(header: Header, maxPayload: nat): Result<nat, ProtocolError> {
    var value := if "payload_bytes" in header then header["payload_bytes"] else JInt(0);
    match ToInt(value)
    case None => Err(BadPayloadField(value))
    case Some(size) => if size < 0 || size > maxPayload then Err(PayloadNotAllowed(size)) else Ok(size)
  }

  function DecodeHeader(codec: HeaderCodec, encoded: Bytes): Result<Header, ProtocolError> {
    match codec.decode(encoded)
    case None => Err(InvalidHeader)
    case Some(JObj(fields)) => Ok(fields)
    case Some(_) => Err(NotAnObject)
  }

  /** `size` bytes of the stream, or the end of it; and what is left. */
  function Take(stream: Bytes, size: nat): (Result<Bytes, ProtocolError>, Bytes) {
    if |stream| < size then (Err(EndOfStream), []) else (Ok(stream[..size]), stream[size..])
  }

  /** Receiving one frame from a stream, and what is left of the stream. */
  function Parse(codec: HeaderCodec, stream: Bytes, maxPayload: nat): (Result<(Header, Bytes), ProtocolError>, Bytes) {
    var (prefix, afterPrefix) := Take(stream, PREFIX_BYTES);
    if prefix.Err? then (Err(prefix.error), afterPrefix)
    else if FromBigEndian(prefix.value) > MAX_HEADER_BYTES then (Err(HeaderTooLarge), afterPrefix)
    else
      var (encoded, afterHeader) := Take(afterPrefix, FromBigEndian(prefix.value));
      if encoded.Err? then (Err(encoded.error), afterHeader)
      else ParsePayload(codec, encoded.value, afterHeader, maxPayload)
  }

  function ParsePayload(codec: HeaderCodec, encoded: Bytes, afterHeader: Bytes, maxPayload: nat)
    : (Result<(Header, Bytes), ProtocolError>, Bytes)
  {
    var header := DecodeHeader(codec, encoded);
    if header.Err? then (Err(header.error), afterHeader)
    else
      var size := PayloadSize(header.value, maxPayload);
      if size.Err? then (Err(size.error), afterHeader)
      else
        var (payload, rest) := Take(afterHeader, size.value);
        if payload.Err? then (Err(payload.error), rest) else (Ok((header.value, payload.value)), rest)
  }

  // ---------- the theorems ----------

  /** What receiving makes of a prefix, a header and a payload laid end to end. */
  lemma ParseParts(codec: HeaderCodec, prefix: Bytes, encoded: Bytes, header: Header, payload: Bytes, rest: Bytes, maxPayload: nat)
    requires |prefix| == PREFIX_BYTES && FromBigEndian(prefix) == |encoded| <= MAX_HEADER_BYTES
    requires codec.decode(encoded) == Some(JObj(WithPayloadSize(header, payload))) && |payload| <= maxPayload
    ensures Parse(codec, prefix + (encoded + (payload + rest)), maxPayload) == (Ok((WithPayloadSize(header, payload), payload)), rest)
  {
  }

  /** A frame is received as it was sent, and nothing beyond it is consumed. */
  lemma FrameRoundTrip(codec: HeaderCodec, header: Header, payload: Bytes, rest: Bytes, maxPayload: nat)
    requires Faithful(codec) && |payload| <= maxPayload && Frame(codec, header, payload).Ok?
    ensures Parse(codec, Frame(codec, header, payload).value + rest, maxPayload) ==
            (Ok((WithPayloadSize(header, payload), payload)), rest)
  {
    var prefix, encoded := FrameShape(codec, header, payload);
    Regroup(prefix, encoded, payload, rest);
    ParseParts(codec, prefix, encoded, header, payload, rest, maxPayload);
  }

  lemma Regroup(a: Bytes, b: Bytes, c: Bytes, d: Bytes)
    ensures a + b + c + d == a + (b + (c + d))
  {
  }

  /** A frame is a prefix announcing the header's length, the header and the payload. */
  lemma FrameShape(codec: HeaderCodec, header: Header, payload: Bytes) returns (prefix: Bytes, encoded: Bytes)
    requires Faithful(codec) && Frame(codec, header, payload).Ok?
    ensures Frame(codec, header, payload).value == prefix + encoded + payload
    ensures |prefix| == PREFIX_BYTES && FromBigEndian(prefix) == |encoded| <= MAX_HEADER_BYTES
    ensures codec.decode(encoded) == Some(JObj(WithPayloadSize(header, payload)))
  {
    encoded := codec.encode(WithPayloadSize(header, payload));
    prefix := Prefix(|encoded|);
    PrefixRoundTrip(|encoded|);
  }

  lemma PrefixRoundTrip(n: nat)
    requires n <= MAX_HEADER_BYTES
    ensures FromBigEndian(Prefix(n)) == n
  {
    PrefixFits(n);
    BigEndianRoundTrip(n, PREFIX_BYTES);
  }

  lemma PrefixFits(n: nat)
    requires n <= MAX_HEADER_BYTES
    ensures n < Power256(PREFIX_BYTES)
  {
  }

  /**
   What is sent: eight bytes of the header's length, the header with the payload's size in it,
   and the payload; a header over one mebibyte is refused.
   */
  lemma FrameExactly(codec: HeaderCodec, header: Header, payload: Bytes)
    ensures var encoded := codec.encode(header["payload_bytes" := JInt(|payload|)]);
      var frame := Frame(codec, header, payload);
      && (|encoded| > 0x10_0000 ==> frame == Err(HeaderTooLarge))
      && (|encoded| <= 0x10_0000 ==>
            && frame.Ok? && |frame.value| == 8 + |encoded| + |payload|
            && frame.value[..8] == BigEndian(|encoded|, 8)
            && frame.value[8..8 + |encoded|] == encoded && frame.value[8 + |encoded|..] == payload)
  {
  }

  /** `int` of the value is n. */
  ghost predicate StandsFor(value: Json, n: int) {
    || value == JInt(n) || (value == JBool(true) && n == 1) || (value == JBool(false) && n == 0)
    || (value.JFloat? && value.float.Finite? && value.float.whole == n)
  }

  lemma {:induction false} ToIntStands(value: Json)
    ensures ToInt(value).Some? ==> StandsFor(value, ToInt(value).value)
    ensures ToInt(value) == None <==> forall n :: !StandsFor(value, n)
  {
    if ToInt(value).Some? { assert StandsFor(value, ToInt(value).value); }
  }

  /** What is made of a decoded header and the bytes after it. */
  ghost predicate ReadsBody(header: Header, body: Bytes, maxPayload: nat, outcome: (Result<(Header, Bytes), ProtocolError>, Bytes)) {
    if "payload_bytes" !in header then outcome == (Ok((header, [])), body)
    else
      var value := header["payload_bytes"];
      && ((forall n :: !StandsFor(value, n)) ==> outcome == (Err(BadPayloadField(value)), body))
      && forall n :: StandsFor(value, n) ==>
           if n < 0 || n > maxPayload then outcome == (Err(PayloadNotAllowed(n)), body)
           else if |body| < n then outcome == (Err(EndOfStream), [])
           else outcome == (Ok((header, body[..n])), body[n..])
  }

  /**
   What is received, from any stream: the end of the stream in any of the three parts, a header
   that is announced too long, that is no JSON or no object, or a payload size that is not
   allowed; otherwise the header and its payload.  `announced` is the length in the first eight
   bytes.
   */
  lemma ParseExactly(codec: HeaderCodec, stream: Bytes, announced: nat, maxPayload: nat)
    requires |stream| >= 8 ==> announced == FromBigEndian(stream[..8])
    ensures var outcome := Parse(codec, stream, maxPayload);
      if |stream| < 8 then outcome == (Err(EndOfStream), [])
      else if announced > 0x10_0000 then outcome == (Err(HeaderTooLarge), stream[8..])
      else if |stream| < 8 + announced then outcome == (Err(EndOfStream), [])
      else match codec.decode(stream[8..8 + announced])
        case None => outcome == (Err(InvalidHeader), stream[8 + announced..])
        case Some(JObj(header)) => ReadsBody(header, stream[8 + announced..], maxPayload, outcome)
        case Some(_) => outcome == (Err(NotAnObject), stream[8 + announced..])
  {
    forall value ensures ToInt(value) == None <==> forall n :: !StandsFor(value, n) {
      ToIntStands(value);
    }
    if |stream| >= 8 + announced {
      assert stream[8..][..announced] == stream[8..8 + announced];
      assert stream[8..][announced..] == stream[8 + announced..];
    }
  }

  datatype Message = Message(header: Header, payload: Bytes)

  function Send(codec: HeaderCodec, messages: seq<Message>): Bytes
    requires forall m :: m in messages ==> Frame(codec, m.header, m.payload).Ok?
  {
    if messages == [] then []
    else Frame(codec, messages[0].header, messages[0].payload).value + Send(codec, messages[1..])
  }

  /** `count` receives in a row: the messages received, and what is left of the stream. */
  function ReceiveAll(codec: HeaderCodec, stream: Bytes, maxPayload: nat, count: nat): (seq<Message>, Bytes) {
    if count == 0 then ([], stream)
    else match Parse(codec, stream, maxPayload)
      case (Err(_), rest) => ([], rest)
      case (Ok((header, payload)), rest) =>
        var (more, left) := ReceiveAll(codec, rest, maxPayload, count - 1);
        ([Message(header, payload)] + more, left)
  }

  function Sized(message: Message): Message {
    Message(WithPayloadSize(message.header, message.payload), message.payload)
  }

  /** The messages as they are received, with their payload sizes. */
  function Delivered(messages: seq<Message>): seq<Message> {
    seq(|messages|, i requires 0 <= i < |messages| => Sized(messages[i]))
  }

  lemma ReceiveFirst(codec: HeaderCodec, first: Message, later: Bytes, maxPayload: nat, count: nat)
    requires Faithful(codec) && Frame(codec, first.header, first.payload).Ok? && |first.payload| <= maxPayload
    ensures ReceiveAll(codec, Frame(codec, first.header, first.payload).value + later, maxPayload, count + 1) ==
      var (more, left) := ReceiveAll(codec, later, maxPayload, count); ([Sized(first)] + more, left)
  {
    FrameRoundTrip(codec, first.header, first.payload, later, maxPayload);
  }

  lemma SendFirst(codec: HeaderCodec, messages: seq<Message>, rest: Bytes)
    requires messages != [] && forall m :: m in messages ==> Frame(codec, m.header, m.payload).Ok?
    ensures forall m :: m in messages[1..] ==> Frame(codec, m.header, m.payload).Ok?
    ensures Send(codec, messages) + rest ==
            Frame(codec, messages[0].header, messages[0].payload).value + (Send(codec, messages[1..]) + rest)
  {
    assert forall m :: m in messages[1..] ==> m in messages;
  }

  /** Frames sent back to back are received one by one, in order, each consuming exactly its own bytes. */
  lemma {:induction false} BackToBack(codec: HeaderCodec, messages: seq<Message>, rest: Bytes, maxPayload: nat)
    requires Faithful(codec)
    requires forall m :: m in messages ==> Frame(codec, m.header, m.payload).Ok? && |m.payload| <= maxPayload
    ensures ReceiveAll(codec, Send(codec, messages) + rest, maxPayload, |messages|) == (Delivered(messages), rest)
  {
    if messages == [] {
      assert Send(codec, messages) + rest == rest && Delivered(messages) == [];
    } else {
      var first, more := messages[0], messages[1..];
      assert forall m :: m in more ==> m in messages;
      BackToBack(codec, more, rest, maxPayload);
      SendFirst(codec, messages, rest);
      ReceiveFirst(codec, first, Send(codec, more) + rest, maxPayload, |more|);
      DeliveredFirst(messages);
    }
  }

  lemma DeliveredFirst(messages: seq<Message>)
    requires messages != []
    ensures Delivered(messages) == [Sized(messages[0])] + Delivered(messages[1..])
  {
  }

  /** What receiving makes of such bytes cut short anywhere. */
  lemma ParseCut(codec: HeaderCodec, prefix: Bytes, encoded: Bytes, header: Header, payload: Bytes, cut: nat, maxPayload: nat)
    requires |prefix| == PREFIX_BYTES && FromBigEndian(prefix) == |encoded| <= MAX_HEADER_BYTES
    requires codec.decode(encoded) == Some(JObj(WithPayloadSize(header, payload))) && |payload| <= maxPayload
    requires cut < |prefix| + |encoded| + |payload|
    ensures Parse(codec, (prefix + encoded + payload)[..cut], maxPayload) == (Err(EndOfStream), [])
  {
    var all := prefix + encoded + payload;
    var stream := all[..cut];
    if cut >= |prefix| {
      assert stream[..|prefix|] == prefix;
      var afterPrefix := stream[|prefix|..];
      assert Take(stream, PREFIX_BYTES) == (Ok(prefix), afterPrefix);
      if |afterPrefix| >= |encoded| {
        assert all[|prefix|..|prefix| + |encoded|] == encoded;
        assert afterPrefix[..|encoded|] == all[|prefix|..|prefix| + |encoded|];
        assert PayloadSize(WithPayloadSize(header, payload), maxPayload) == Ok(|payload|);
        assert |afterPrefix[|encoded|..]| < |payload|;
      }
    }
  }

  /** Every strict prefix of a frame ends in end-of-stream and never yields a frame. */
  lemma StrictPrefix(codec: HeaderCodec, header: Header, payload: Bytes, cut: nat, maxPayload: nat)
    requires Faithful(codec) && |payload| <= maxPayload && Frame(codec, header, payload).Ok?
    requires cut < |Frame(codec, header, payload).value|
    ensures Parse(codec, Frame(codec, header, payload).value[..cut], maxPayload) == (Err(EndOfStream), [])
  {
    var prefix, encoded := FrameShape(codec, header, payload);
    ParseCut(codec, prefix, encoded, header, payload, cut, maxPayload);
  }

  // ---------- sockets ----------

  function Join(chunks: seq<Bytes>): Bytes {
    if chunks == [] then [] else Join(chunks[..|chunks| - 1]) + chunks[|chunks| - 1]
  }

  lemma JoinGrows(chunks: seq<Bytes>, chunk: Bytes, rest: Bytes)
    ensures Join(chunks + [chunk]) == Join(chunks) + chunk
    ensures Join(chunks) + (chunk + rest) == Join(chunks + [chunk]) + rest
  {
    assert (chunks + [chunk])[..|chunks|] == chunks;
  }

  /** A connected socket: the bytes the peer sends before it closes, and the bytes sent to the peer. */
  class Socket {
    var inbox: Bytes
    var outbox: Bytes

    constructor (inbox: Bytes)
      ensures this.inbox == inbox && outbox == []
    {
      this.inbox := inbox;
      outbox := [];
    }

    /** `recv`: any nonempty fragment of at most `limit` bytes, and nothing only at the end of the stream. */
    method Recv(limit: nat) returns (chunk: Bytes)
      requires limit > 0
      modifies this`inbox
      ensures |chunk| <= limit && old(inbox) == chunk + inbox
      ensures chunk == [] <==> old(inbox) == []
    {
      if inbox == [] {
        return [];
      }
      var n: nat :| 1 <= n <= |inbox| && n <= limit;
      chunk := inbox[..n];
      inbox := inbox[n..];
    }

    method SendAll(data: Bytes)
      modifies this`outbox
      ensures outbox == old(outbox) + data
    {
      outbox := outbox + data;
    }
  }

  method RecvExact(sock: Socket, size: nat) returns (r: Result<Bytes, ProtocolError>)
    modifies sock`inbox
    ensures (r, sock.inbox) == Take(old(sock.inbox), size)
  {
    var chunks: seq<Bytes> := [];
    var remaining: nat := size;
    while remaining > 0
      invariant remaining + |Join(chunks)| == size
      invariant old(sock.inbox) == Join(chunks) + sock.inbox
    {
      var chunk := sock.Recv(remaining);
      if chunk == [] {
        return Err(EndOfStream);
      }
      JoinGrows(chunks, chunk, sock.inbox);
      chunks := chunks + [chunk];
      remaining := remaining - |chunk|;
    }
    assert old(sock.inbox)[..size] == Join(chunks) && old(sock.inbox)[size..] == sock.inbox;
    return Ok(Join(chunks));
  }

  method SendFrame(sock: Socket, codec: HeaderCodec, header: Header, payload: Bytes) returns (error: Option<ProtocolError>)
    modifies sock`outbox
    ensures match Frame(codec, header, payload)
      case Ok(frame) => error == None && sock.outbox == old(sock.outbox) + frame
      case Err(e) => error == Some(e) && sock.outbox == old(sock.outbox)
  {
    var encoded := codec.encode(WithPayloadSize(header, payload));
    if |encoded| > MAX_HEADER_BYTES {
      return Some(HeaderTooLarge);
    }
    ghost var before := sock.outbox;
    sock.SendAll(Prefix(|encoded|));
    sock.SendAll(encoded);
    if payload != [] {
      sock.SendAll(payload);
    }
    assert sock.outbox == before + (Prefix(|encoded|) + encoded + payload);
    return None;
  }

  method RecvFrame(sock: Socket, codec: HeaderCodec, maxPayload: nat) returns (r: Result<(Header, Bytes), ProtocolError>)
    modifies sock`inbox
    ensures (r, sock.inbox) == Parse(codec, old(sock.inbox), maxPayload)
  {
    var prefix := RecvExact(sock, PREFIX_BYTES);
    if prefix.Err? {
      return Err(prefix.error);
    }
    var headerSize := FromBigEndian(prefix.value);
    if headerSize > MAX_HEADER_BYTES {
      return Err(HeaderTooLarge);
    }
    var encoded := RecvExact(sock, headerSize);
    if encoded.Err? {
      return Err(encoded.error);
    }
    var header := DecodeHeader(codec, encoded.value);
    if header.Err? {
      return Err(header.error);
    }
    var size := PayloadSize(header.value, maxPayload);
    if size.Err? {
      return Err(size.error);
    }
    if size.value == 0 {
      return Ok((header.value, []));
    }
    var payload := RecvExact(sock, size.value);
    if payload.Err? {
      return Err(payload.error);
    }
    return Ok((header.value, payload.value));
  }
}
