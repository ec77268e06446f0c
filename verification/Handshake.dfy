/**
 * The obfuscated handshake [padding_len:1][padding][data xor key]. The tunnel
 * package and the pinger each have their own copy of the code and of the key.
 */
module Handshake {
  import opened Messages
  import opened Wire
  import opened Frames

  const TUNNEL_KEY: Bytes := [0x7a, 0x3f, 0x9c, 0x2e, 0x5d, 0x8b, 0x1a, 0x4f, 0x6c, 0x0e, 0x9d, 0x3b, 0x7f, 0x2c, 0x5a, 0x8e]

  const PINGER_KEY: Bytes := [0x7a, 0x3f, 0x9c, 0x2e, 0x5d, 0x8b, 0x1a, 0x4f, 0x6c, 0x0e, 0x9d, 0x3b, 0x7f, 0x2c, 0x5a, 0x8e]

  function Masked(key: Bytes, data: Bytes): Bytes
    requires key != []
  {
    seq(|data|, i requires 0 <= i < |data| => Xor(data[i], key[i % |key|]))
  }

  /** 8 + random % 57 in byte arithmetic: 8 to 64, never wrapping. */
  function PaddingLength(random: Byte): (n: Byte)
    ensures 8 <= n <= 64
  {
    8 + random % 57
  }

  function Obfuscated(key: Bytes, padding: Bytes, data: Bytes): Bytes
    requires key != [] && |padding| < 256
  {
    [|padding|] + padding + Masked(key, data)
  }

  function Deobfuscated(key: Bytes, d: Bytes): Result<Bytes>
    requires key != []
  {
    if |d| < 2 then Err(TooShort)
    else
      var paddingLen: int := d[0];
      if |d| < 1 + paddingLen then Err(InvalidPadding) else Ok(Masked(key, d[1 + paddingLen..]))
  }

  /** The xor loop that both directions share. */
  method Mask(key: Bytes, data: Bytes) returns (out: array<Byte>)
    requires key != []
    ensures fresh(out) && out[..] == Masked(key, data)
  {
    out := new Byte[|data|](_ => 0);
    for i := 0 to |data|
      invariant out[..i] == Masked(key, data)[..i]
    {
      out[i] := Xor(data[i], key[i % |key|]);
    }
  }

  method ObfuscateHandshake(key: Bytes, data: Bytes, random: Byte, padding: Bytes) returns (result: array<Byte>)
    requires key != [] && |padding| == PaddingLength(random)
    ensures fresh(result) && result[..] == Obfuscated(key, padding, data)
    ensures 8 <= |padding| <= 64 && result.Length == 1 + |padding| + |data|
    ensures result[0] == |padding| && result[1..1 + |padding|] == padding
    ensures forall i :: 0 <= i < |data| ==> result[1 + |padding| + i] == Xor(data[i], key[i % |key|])
  {
    var xorData := Mask(key, data);
    var tail := padding + xorData[..];
    result := new Byte[1 + |tail|](_ => 0);
    result[0] := PaddingLength(random);
    CopyInto(result, 1, tail);
  }

  method DeobfuscateHandshake(key: Bytes, data: Bytes) returns (r: Result<Bytes>)
    requires key != []
    ensures r == Deobfuscated(key, data)
    ensures r == Err(TooShort) <==> |data| < 2
    ensures r == Err(InvalidPadding) <==> |data| >= 2 && |data| <= data[0]
    ensures r.Ok? <==> |data| >= 2 && |data| > data[0]
  {
    if |data| < 2 {
      return Err(TooShort);
    }
    var paddingLen: int := data[0];
    if |data| < 1 + paddingLen {
      return Err(InvalidPadding);
    }
    var result := Mask(key, data[1 + paddingLen..]);
    return Ok(result[..]);
  }

  lemma MaskTwice(key: Bytes, data: Bytes)
    requires key != []
    ensures Masked(key, Masked(key, data)) == data
  {
    forall i | 0 <= i < |data|
      ensures Masked(key, Masked(key, data))[i] == data[i]
    {
      XorInvolution(data[i], key[i % |key|]);
    }
  }

  /**
   * Either copy undoes the other, for every padding length a byte can hold,
   * exactly unless both the padding and the data are empty.
   */
  lemma CopiesUndoEachOther(padding: Bytes, data: Bytes)
    requires |padding| < 256
    ensures Deobfuscated(TUNNEL_KEY, Obfuscated(PINGER_KEY, padding, data)) == Ok(data) <==> padding != [] || data != []
    ensures Deobfuscated(PINGER_KEY, Obfuscated(TUNNEL_KEY, padding, data)) == Ok(data) <==> padding != [] || data != []
  {
    MaskTwice(TUNNEL_KEY, data);
    var d := Obfuscated(TUNNEL_KEY, padding, data);
    assert d[1 + |padding|..] == Masked(TUNNEL_KEY, data);
  }

  /** Whatever deobfuscates is the obfuscation of its result with the padding it came with. */
  lemma ObfuscateDeobfuscated(key: Bytes, d: Bytes)
    requires key != [] && Deobfuscated(key, d).Ok?
    ensures d[0] < |d| && d == Obfuscated(key, d[1..1 + d[0] as int], Deobfuscated(key, d).value)
  {
    MaskTwice(key, d[1 + d[0] as int..]);
    assert d == [d[0]] + d[1..1 + d[0] as int] + d[1 + d[0] as int..];
  }

  /** Every padding length from 8 to 64 bytes can be drawn. */
  lemma EveryPadding(n: nat)
    requires 8 <= n <= 64
    ensures exists random: Byte :: PaddingLength(random) == n
  {
    assert PaddingLength(n - 8) == n;
  }

  /** The hand-built ping of the pinger is the encoding of a ping frame. */
  lemma PingFrame()
    ensures Encoded(Frame(MSG_PING, 0, [])) == Ok([MSG_PING] + seq(12, _ => 0))
  {
    ZeroBytes(8);
    ZeroBytes(4);
    assert Header(Frame(MSG_PING, 0, [])) + [] == [MSG_PING] + seq(12, _ => 0);
  }

  lemma {:induction false} ZeroBytes(n: nat)
    ensures BigEndian(0, n) == seq(n, _ => 0)
  {
    if n > 0 {
      ZeroBytes(n - 1);
    }
  }

  /**
   * A whole tunnel session: the length-prefixed obfuscated handshake and then
   * any frames come out of the stream as that handshake and those frames, and
   * reading the handshake takes no byte of the first frame.
   */
  lemma SessionRoundTrip(padding: Bytes, hello: Bytes, ms: seq<Frame>)
    requires 8 <= |padding| <= 64 && 1 + |padding| + |hello| <= MAX_PAYLOAD_SIZE
    requires forall i :: 0 <= i < |ms| ==> Sendable(ms[i])
    ensures Prefixed(Obfuscated(TUNNEL_KEY, padding, hello)).Ok?
    ensures var stream := Prefixed(Obfuscated(TUNNEL_KEY, padding, hello)).value + EncodedAll(ms);
      var (got, rest) := Unprefixed(stream);
      && got.Ok? && Deobfuscated(TUNNEL_KEY, got.value) == Ok(hello)
      && rest == EncodedAll(ms) && DecodedAll(rest) == (ms, EndOfFile)
  {
    var d := Obfuscated(TUNNEL_KEY, padding, hello);
    UnprefixPrefixed(d, EncodedAll(ms));
    CopiesUndoEachOther(padding, hello);
    StreamRoundTrip(ms);
  }

  /** The handshake goes through exactly up to 65,535 bytes less its padding. */
  lemma LongestHandshake(padding: Bytes, hello: Bytes)
    requires |padding| < 256
    ensures Prefixed(Obfuscated(TUNNEL_KEY, padding, hello)).Ok? <==> |hello| <= MAX_PAYLOAD_SIZE - 1 - |padding|
  {
    assert |Obfuscated(TUNNEL_KEY, padding, hello)| == 1 + |padding| + |hello|;
  }
}
