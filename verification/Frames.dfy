/** The frame format [type:1][connID:8][length:4][payload] and the length prefix of the handshake. */
module Frames {
  import opened Messages
  import opened Wire

  const HEADER_SIZE: nat := 13

  const MSG_CONNECT: Byte := 1
  const MSG_DATA: Byte := 2
  const MSG_CLOSE: Byte := 3
  const MSG_PING: Byte := 4
  const MSG_PONG: Byte := 5

  datatype Frame = Frame(kind: Byte, connID: nat, payload: Bytes)

  predicate Uint64(n: nat) {
    n < 0x1_0000_0000_0000_0000
  }

  // ---- Specification ----

  function Header(m: Frame): (h: Bytes)
    ensures |h| == HEADER_SIZE
  {
    [m.kind] + BigEndian(m.connID, 8) + BigEndian(|m.payload|, 4)
  }

  function Encoded(m: Frame): Result<Bytes> {
    if |m.payload| > MAX_PAYLOAD_SIZE then Err(PayloadTooLarge) else Ok(Header(m) + m.payload)
  }

  /** What decoding from a stream gives, and what is left of the stream. */
  function Decoded(s: Bytes): (Result<Frame>, Bytes) {
    if |s| < HEADER_SIZE then (Err(if s == [] then EndOfFile else UnexpectedEnd), [])
    else
      var length := Value(s[9..13]);
      var body := s[13..];
      if length > MAX_PAYLOAD_SIZE then (Err(PayloadTooLarge), body)
      else if |body| < length then (Err(if body == [] then EndOfFile else UnexpectedEnd), [])
      else (Ok(Frame(s[0], Value(s[1..9]), body[..length])), body[length..])
  }

  function Prefixed(data: Bytes): Result<Bytes> {
    if |data| > MAX_PAYLOAD_SIZE then Err(PayloadTooLarge) else Ok(BigEndian(|data|, 4) + data)
  }

  function Unprefixed(s: Bytes): (Result<Bytes>, Bytes) {
    if |s| < 4 then (Err(if s == [] then EndOfFile else UnexpectedEnd), [])
    else
      var length := Value(s[..4]);
      if length > MAX_PAYLOAD_SIZE then (Err(PayloadTooLarge), s[4..]) else Full(s[4..], length)
  }

  // ---- Code ----

  method Encode(m: Frame) returns (r: Result<array<Byte>>)
    ensures Encoded(m).Err? ==> r.Err? && r.error == Encoded(m).error
    ensures Encoded(m).Ok? ==> r.Ok? && fresh(r.value) && r.value[..] == Encoded(m).value
  {
    if |m.payload| > MAX_PAYLOAD_SIZE {
      return Err(PayloadTooLarge);
    }
    var buf := new Byte[HEADER_SIZE + |m.payload|](_ => 0);
    buf[0] := m.kind;
    PutUint(buf, 1, 8, m.connID);
    assert buf[..9] == [m.kind] + BigEndian(m.connID, 8);
    PutUint(buf, 9, 4, |m.payload|);
    assert buf[..13] == Header(m);
    CopyInto(buf, 13, m.payload);
    return Ok(buf);
  }

  /** Go's copy into buf[at:], with room for all of src. */
  method CopyInto(buf: array<Byte>, at: nat, src: Bytes)
    requires at + |src| == buf.Length
    modifies buf
    ensures buf[..] == old(buf[..at]) + src
  {
    for i := 0 to |src|
      invariant buf[..at] == old(buf[..at]) && buf[at..at + i] == src[..i]
    {
      buf[at + i] := src[i];
      assert buf[at..at + i + 1] == buf[at..at + i] + [src[i]];
    }
    assert buf[..] == buf[..at] + buf[at..at + |src|];
  }

  method DecodeMessage(r: Reader) returns (m: Result<Frame>)
    modifies r
    ensures (m, r.rest) == Decoded(old(r.rest))
  {
    var header := new Byte[HEADER_SIZE](_ => 0);
    var res := r.ReadFull(header);
    if res.Err? {
      return Err(res.error);
    }
    ghost var s := old(r.rest);
    assert header[..] == s[..13] && header[1..9] == s[1..9] && header[9..13] == s[9..13];
    var length := Value(header[9..13]);
    if length > MAX_PAYLOAD_SIZE {
      return Err(PayloadTooLarge);
    }
    var payload := new Byte[length](_ => 0);
    if length > 0 {
      res := r.ReadFull(payload);
      if res.Err? {
        return Err(res.error);
      }
    }
    assert payload[..] == s[13..][..length];
    return Ok(Frame(header[0], Value(header[1..9]), payload[..]));
  }

  method WriteLengthPrefixed(w: seq<Byte>, data: Bytes) returns (r: Result<()>, written: Bytes)
    ensures Prefixed(data).Err? ==> r == Err(PayloadTooLarge) && written == w
    ensures Prefixed(data).Ok? ==> r.Ok? && written == w + Prefixed(data).value
  {
    if |data| > MAX_PAYLOAD_SIZE {
      return Err(PayloadTooLarge), w;
    }
    var lengthBuf := new Byte[4](_ => 0);
    PutUint(lengthBuf, 0, 4, |data|);
    assert lengthBuf[..] == BigEndian(|data|, 4);
    written := w + lengthBuf[..];
    written := written + data;
    return Ok(()), written;
  }

  method ReadLengthPrefixed(r: Reader) returns (data: Result<Bytes>)
    modifies r
    ensures (data, r.rest) == Unprefixed(old(r.rest))
  {
    var lengthBuf := new Byte[4](_ => 0);
    var res := r.ReadFull(lengthBuf);
    if res.Err? {
      return Err(res.error);
    }
    var length := Value(lengthBuf[..]);
    if length > MAX_PAYLOAD_SIZE {
      return Err(PayloadTooLarge);
    }
    var buf := new Byte[length](_ => 0);
    res := r.ReadFull(buf);
    if res.Err? {
      return Err(res.error);
    }
    return Ok(buf[..]);
  }

  // ---- The layout ----

  /** b spells v, the most significant byte first. */
  predicate Spells(b: Bytes, v: nat) {
    forall j :: 0 <= j < |b| ==> b[j] == ByteAt(v, |b| - 1 - j)
  }

  lemma BigEndianSpells(v: nat, n: nat)
    ensures Spells(BigEndian(v, n), v)
  {
    forall j | 0 <= j < |BigEndian(v, n)|
      ensures BigEndian(v, n)[j] == ByteAt(v, n - 1 - j)
    {
      MostSignificantFirst(v, n, j);
    }
  }

  /** Byte by byte: the type, eight bytes of the id, four of the length, and the payload, unless it is over 64 KiB. */
  lemma FrameLayout(m: Frame)
    ensures Encoded(m).Ok? <==> |m.payload| <= 65536
    ensures Encoded(m).Ok? ==>
      var b := Encoded(m).value;
      |b| == 13 + |m.payload| && b[0] == m.kind && Spells(b[1..9], m.connID) && Spells(b[9..13], |m.payload|) && b[13..] == m.payload
  {
    if |m.payload| <= MAX_PAYLOAD_SIZE {
      var b := Encoded(m).value;
      BigEndianSpells(m.connID, 8);
      BigEndianSpells(|m.payload|, 4);
      assert b[1..9] == BigEndian(m.connID, 8) && b[9..13] == BigEndian(|m.payload|, 4);
    }
  }

  /** Four bytes of the length and then the data, unless it is over 64 KiB. */
  lemma PrefixLayout(data: Bytes)
    ensures Prefixed(data).Ok? <==> |data| <= 65536
    ensures Prefixed(data).Ok? ==>
      var b := Prefixed(data).value; |b| == 4 + |data| && Spells(b[..4], |data|) && b[4..] == data
  {
    if |data| <= MAX_PAYLOAD_SIZE {
      BigEndianSpells(|data|, 4);
      assert Prefixed(data).value[..4] == BigEndian(|data|, 4);
    }
  }

  // ---- One frame ----

  /** A frame at the head of a stream decodes to itself and nothing behind it is touched. */
  lemma DecodeEncoded(m: Frame, rest: Bytes)
    requires Uint64(m.connID) && Encoded(m).Ok?
    ensures Decoded(Encoded(m).value + rest) == (Ok(m), rest)
  {
    var s := Encoded(m).value + rest;
    Pow256Values();
    assert s[1..9] == BigEndian(m.connID, 8);
    assert s[9..13] == BigEndian(|m.payload|, 4);
    ValueOfBigEndian(m.connID, 8);
    ValueOfBigEndian(|m.payload|, 4);
    assert s[13..] == m.payload + rest;
  }

  /** Whatever decodes is the encoding of its result: the format has no second spelling. */
  lemma EncodeDecoded(s: Bytes)
    requires Decoded(s).0.Ok?
    ensures var (m, rest) := Decoded(s);
      Uint64(m.value.connID) && Encoded(m.value).Ok? && s == Encoded(m.value).value + rest
  {
    var (m, rest) := Decoded(s);
    Pow256Values();
    BigEndianOfValue(s[1..9]);
    BigEndianOfValue(s[9..13]);
    assert s == [s[0]] + s[1..9] + s[9..13] + s[13..];
  }

  /** A frame that is cut short never decodes, and is never mistaken for an oversized one. */
  lemma CutFrameFails(m: Frame, k: nat)
    requires Uint64(m.connID) && Encoded(m).Ok? && k < |Encoded(m).value|
    ensures Decoded(Encoded(m).value[..k]).0 in {Err(EndOfFile), Err(UnexpectedEnd)}
  {
    var s := Encoded(m).value;
    if k >= 13 {
      Pow256Values();
      assert s[..k][9..13] == BigEndian(|m.payload|, 4);
      ValueOfBigEndian(|m.payload|, 4);
    }
  }

  /**
   * A cut stream is reported as a clean end exactly when nothing was left, or
   * when it was cut right behind the header of a frame that has a payload.
   */
  lemma CleanEndExactly(s: Bytes)
    ensures Decoded(s).0 == Err(EndOfFile) <==>
      s == [] || (|s| == HEADER_SIZE && 0 < Value(s[9..13]) <= MAX_PAYLOAD_SIZE)
  {
  }

  /** So a clean end does not mean that the last frame was whole. */
  lemma CleanEndInsideFrame() returns (m: Frame)
    ensures Encoded(m).Ok? && Decoded(Encoded(m).value[..HEADER_SIZE]).0 == Err(EndOfFile)
  {
    m := Frame(MSG_DATA, 1, [7]);
    var s := Encoded(m).value;
    Pow256Values();
    assert s[..HEADER_SIZE][9..13] == BigEndian(1, 4);
    ValueOfBigEndian(1, 4);
    CleanEndExactly(s[..HEADER_SIZE]);
  }

  // ---- Streams ----

  predicate Sendable(m: Frame) {
    Uint64(m.connID) && |m.payload| <= MAX_PAYLOAD_SIZE
  }

  function EncodedAll(ms: seq<Frame>): Bytes
    requires forall i :: 0 <= i < |ms| ==> Sendable(ms[i])
  {
    if ms == [] then []
    else
      assert Sendable(ms[0]);
      Encoded(ms[0]).value + EncodedAll(ms[1..])
  }

  lemma DecodeShrinks(s: Bytes)
    requires Decoded(s).0.Ok?
    ensures |Decoded(s).1| < |s|
  {
  }

  /** A read loop: frames until the first error. */
  function DecodedAll(s: Bytes): (seq<Frame>, Error)
    decreases |s|
  {
    var (m, rest) := Decoded(s);
    if m.Err? then ([], m.error)
    else
      DecodeShrinks(s);
      var (ms, e) := DecodedAll(rest);
      ([m.value] + ms, e)
  }

  lemma {:induction false} StreamRoundTrip(ms: seq<Frame>)
    requires forall i :: 0 <= i < |ms| ==> Sendable(ms[i])
    ensures DecodedAll(EncodedAll(ms)) == (ms, EndOfFile)
  {
    if ms != [] {
      DecodeEncoded(ms[0], EncodedAll(ms[1..]));
      StreamRoundTrip(ms[1..]);
      assert [ms[0]] + ms[1..] == ms;
    }
  }

  lemma EncodedAllStep(ms: seq<Frame>, n: nat)
    requires 0 < n <= |ms| && forall i :: 0 <= i < |ms| ==> Sendable(ms[i])
    ensures EncodedAll(ms[..n]) == Encoded(ms[0]).value + EncodedAll(ms[1..][..n - 1])
  {
    assert ms[..n][1..] == ms[1..][..n - 1];
  }

  /** n is the number of whole frames in front of a cut after k bytes. */
  predicate WholeBefore(ms: seq<Frame>, k: nat, n: nat)
    requires forall i :: 0 <= i < |ms| ==> Sendable(ms[i])
  {
    n <= |ms| && |EncodedAll(ms[..n])| <= k && (n < |ms| ==> k < |EncodedAll(ms[..n + 1])|)
  }

  /** The cut is between frames, or right behind the header of a frame that has a payload. */
  predicate CleanCut(ms: seq<Frame>, k: nat, n: nat)
    requires (forall i :: 0 <= i < |ms| ==> Sendable(ms[i])) && n <= |ms|
  {
    var whole := |EncodedAll(ms[..n])|;
    k == whole || (k == whole + HEADER_SIZE && n < |ms| && ms[n].payload != [])
  }

  /** What the frames behind the first one say of the whole stream. */
  lemma CutLater(ms: seq<Frame>, k: nat, n: nat)
    requires ms != [] && (forall i :: 0 <= i < |ms| ==> Sendable(ms[i])) && n < |ms|
    requires var first := |EncodedAll(ms[..1])|; first <= k && WholeBefore(ms[1..], k - first, n)
    ensures WholeBefore(ms, k, n + 1)
    ensures CleanCut(ms, k, n + 1) <==> CleanCut(ms[1..], k - |EncodedAll(ms[..1])|, n)
  {
    EncodedAllStep(ms, 1);
    EncodedAllStep(ms, n + 1);
    if n + 1 < |ms| { EncodedAllStep(ms, n + 2); }
  }

  lemma FirstFrame(ms: seq<Frame>)
    requires ms != [] && forall i :: 0 <= i < |ms| ==> Sendable(ms[i])
    ensures Sendable(ms[0]) && EncodedAll(ms[..1]) == Encoded(ms[0]).value
    ensures EncodedAll(ms) == EncodedAll(ms[..1]) + EncodedAll(ms[1..])
  {
    EncodedAllStep(ms, 1);
  }

  lemma CutFirst(ms: seq<Frame>, k: nat)
    requires ms != [] && (forall i :: 0 <= i < |ms| ==> Sendable(ms[i])) && k < |EncodedAll(ms[..1])|
    ensures k <= |EncodedAll(ms)| && WholeBefore(ms, k, 0)
    ensures var (got, e) := DecodedAll(EncodedAll(ms)[..k]);
      got == [] && e in {EndOfFile, UnexpectedEnd} && (e == EndOfFile <==> CleanCut(ms, k, 0))
  {
    FirstFrame(ms);
    assert EncodedAll(ms)[..k] == Encoded(ms[0]).value[..k];
    CutFrameFails(ms[0], k);
    CutFrameEnds(ms[0], k);
  }

  /**
   * A stream cut after any number of bytes gives exactly the n whole frames in
   * front of the cut. It ends cleanly if and only if the cut is between frames,
   * or right behind the header of a frame that has a payload.
   */
  lemma {:induction false} CutStream(ms: seq<Frame>, k: nat) returns (n: nat)
    requires (forall i :: 0 <= i < |ms| ==> Sendable(ms[i])) && k <= |EncodedAll(ms)|
    ensures WholeBefore(ms, k, n)
    ensures var (got, e) := DecodedAll(EncodedAll(ms)[..k]);
      got == ms[..n] && e in {EndOfFile, UnexpectedEnd} && (e == EndOfFile <==> CleanCut(ms, k, n))
  {
    if ms == [] {
      n := 0;
    } else if k < |EncodedAll(ms[..1])| {
      n := 0;
      CutFirst(ms, k);
    } else {
      FirstFrame(ms);
      var m := CutStream(ms[1..], k - |EncodedAll(ms[..1])|);
      n := m + 1;
      CutLater(ms, k, m);
      DecodeFirst(ms, k);
      HeadAndTail(ms, m);
    }
  }

  lemma HeadAndTail(ms: seq<Frame>, m: nat)
    requires m < |ms|
    ensures [ms[0]] + ms[1..][..m] == ms[..m + 1]
  {
  }

  /** A stream cut behind its first frame: that frame, and then what the rest gives. */
  lemma DecodeFirst(ms: seq<Frame>, k: nat)
    requires ms != [] && (forall i :: 0 <= i < |ms| ==> Sendable(ms[i])) && |EncodedAll(ms[..1])| <= k <= |EncodedAll(ms)|
    ensures |EncodedAll(ms)| - |EncodedAll(ms[..1])| == |EncodedAll(ms[1..])|
    ensures var (got, e) := DecodedAll(EncodedAll(ms[1..])[..k - |EncodedAll(ms[..1])|]);
      DecodedAll(EncodedAll(ms)[..k]) == ([ms[0]] + got, e)
  {
    FirstFrame(ms);
    var first := EncodedAll(ms[..1]);
    var rest := EncodedAll(ms[1..])[..k - |first|];
    assert EncodedAll(ms)[..k] == first + rest;
    DecodeEncoded(ms[0], rest);
  }

  /** Which of the two errors a cut frame gives. */
  lemma CutFrameEnds(m: Frame, k: nat)
    requires Uint64(m.connID) && Encoded(m).Ok? && k < |Encoded(m).value|
    ensures Decoded(Encoded(m).value[..k]).0 == Err(EndOfFile) <==> k == 0 || k == HEADER_SIZE
  {
    var s := Encoded(m).value[..k];
    if k >= HEADER_SIZE {
      Pow256Values();
      assert s[9..13] == BigEndian(|m.payload|, 4);
      ValueOfBigEndian(|m.payload|, 4);
    }
  }

  lemma UnprefixPrefixed(data: Bytes, rest: Bytes)
    requires Prefixed(data).Ok?
    ensures Unprefixed(Prefixed(data).value + rest) == (Ok(data), rest)
  {
    var s := Prefixed(data).value + rest;
    Pow256Values();
    assert s[..4] == BigEndian(|data|, 4);
    ValueOfBigEndian(|data|, 4);
    assert s[4..] == data + rest;
  }

  /** Whatever is read was written so: an oversized length is never read, and nothing behind the data is taken. */
  lemma PrefixUnprefixed(s: Bytes)
    requires Unprefixed(s).0.Ok?
    ensures var (data, rest) := Unprefixed(s);
      Prefixed(data.value).Ok? && s == Prefixed(data.value).value + rest
  {
    var (data, rest) := Unprefixed(s);
    Pow256Values();
    BigEndianOfValue(s[..4]);
    assert s == s[..4] + s[4..];
  }

  /** A stream is refused as oversized whatever may still come, behind a whole length field and with nothing more taken. */
  lemma OversizedForGood(s: Bytes, more: Bytes)
    ensures Decoded(s).0 == Err(PayloadTooLarge) ==> |s| >= 13 && Decoded(s + more) == (Err(PayloadTooLarge), s[13..] + more)
    ensures Unprefixed(s).0 == Err(PayloadTooLarge) ==> |s| >= 4 && Unprefixed(s + more) == (Err(PayloadTooLarge), s[4..] + more)
  {
    if |s| >= 13 { assert (s + more)[9..13] == s[9..13] && (s + more)[13..] == s[13..] + more; }
    if |s| >= 4 { assert (s + more)[..4] == s[..4] && (s + more)[4..] == s[4..] + more; }
  }

  /** Zeros to fill a stream up. */
  function Zeros(n: nat): Bytes {
    seq(n, _ => 0)
  }

  /** The other two errors only mean that the stream is not long enough: behind a whole header some continuation decodes. */
  lemma ShortDecodesLater(s: Bytes) returns (more: Bytes)
    requires |s| >= HEADER_SIZE && Decoded(s).0 in {Err(EndOfFile), Err(UnexpectedEnd)}
    ensures Decoded(s + more).0.Ok?
  {
    more := Zeros(MAX_PAYLOAD_SIZE);
    assert (s + more)[9..13] == s[9..13];
  }

  // ---- The protocol's messages on the wire ----

  function OnWire(m: Message): Frame {
    match m
    case Connect(id) => Frame(MSG_CONNECT, id, [])
    case Data(id, data) => Frame(MSG_DATA, id, data)
    case Close(id) => Frame(MSG_CLOSE, id, [])
  }

  datatype Call = HandleConnect(id: nat) | HandleConnectWithPayload(id: nat, payload: Bytes)
                | HandleData(id: nat, data: Bytes) | HandleClose(id: nat) | SendPong | Ignore

  /** handleMessage: what a received frame makes the handler do. */
  function Dispatch(f: Frame): Call {
    if f.kind == MSG_CONNECT then
      if |f.payload| > 0 then HandleConnectWithPayload(f.connID, f.payload) else HandleConnect(f.connID)
    else if f.kind == MSG_DATA then HandleData(f.connID, f.payload)
    else if f.kind == MSG_CLOSE then HandleClose(f.connID)
    else if f.kind == MSG_PING then SendPong
    else Ignore
  }

  /** What is no Connect, Data or Close of a forwarder: a ping is answered, a Connect with a payload is a call of its own. */
  lemma DispatchOthers(id: nat, payload: Bytes, kind: Byte)
    ensures Dispatch(Frame(MSG_PING, id, payload)) == SendPong
    ensures payload != [] ==> Dispatch(Frame(MSG_CONNECT, id, payload)) == HandleConnectWithPayload(id, payload)
    ensures kind == 0 || kind >= MSG_PONG ==> Dispatch(Frame(kind, id, payload)) == Ignore
  {
  }

  function CallFor(m: Message): Call {
    match m
    case Connect(id) => HandleConnect(id)
    case Data(id, data) => HandleData(id, data)
    case Close(id) => HandleClose(id)
  }

  function OnWireAll(q: seq<Message>): seq<Frame> {
    seq(|q|, i requires 0 <= i < |q| => OnWire(q[i]))
  }

  /**
   * A tunnel is a FIFO queue of messages: the bytes of any queue of messages
   * make the other side's read loop do exactly those messages, in that order.
   */
  lemma QueueOverWire(q: seq<Message>)
    requires forall i :: 0 <= i < |q| ==> q[i].id < UDP_FLAG && (q[i].Data? ==> |q[i].payload| <= MAX_PAYLOAD_SIZE)
    ensures forall i :: 0 <= i < |OnWireAll(q)| ==> Sendable(OnWireAll(q)[i])
    ensures var (frames, e) := DecodedAll(EncodedAll(OnWireAll(q)));
      e == EndOfFile && |frames| == |q| && forall i :: 0 <= i < |q| ==> Dispatch(frames[i]) == CallFor(q[i])
  {
    forall i | 0 <= i < |q|
      ensures Sendable(OnWireAll(q)[i])
    {
      assert OnWireAll(q)[i] == OnWire(q[i]);
    }
    StreamRoundTrip(OnWireAll(q));
  }
}
