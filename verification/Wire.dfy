/** Big-endian integers, byte-wise exclusive or, and the reader that frames are taken from. */
module Wire {
  import opened Messages

  datatype Error = EndOfFile | UnexpectedEnd | PayloadTooLarge | TooShort | InvalidPadding

  datatype Result<+T> = Ok(value: T) | Err(error: Error)

  function Pow256(n: nat): nat {
    if n == 0 then 1 else 256 * Pow256(n - 1)
  }

  /** The n low bytes of v, most significant first. */
  function BigEndian(v: nat, n: nat): (b: Bytes)
    ensures |b| == n
  {
    if n == 0 then [] else BigEndian(v / 256, n - 1) + [v % 256]
  }

  function Value(b: Bytes): nat {
    if b == [] then 0 else 256 * Value(b[..|b| - 1]) + b[|b| - 1]
  }

  lemma {:induction false} ValueOfBigEndian(v: nat, n: nat)
    requires v < Pow256(n)
    ensures Value(BigEndian(v, n)) == v
  {
    if n > 0 {
      ValueOfBigEndian(v / 256, n - 1);
      assert BigEndian(v, n)[..n - 1] == BigEndian(v / 256, n - 1);
    }
  }

  lemma {:induction false} BigEndianOfValue(b: Bytes)
    ensures Value(b) < Pow256(|b|) && BigEndian(Value(b), |b|) == b
  {
    if b != [] {
      BigEndianOfValue(b[..|b| - 1]);
      assert b == b[..|b| - 1] + [b[|b| - 1]];
    }
  }

  /** The byte of v that has k less significant ones. */
  function ByteAt(v: nat, k: nat): Byte {
    if k == 0 then v % 256 else ByteAt(v / 256, k - 1)
  }

  lemma {:induction false} MostSignificantFirst(v: nat, n: nat, j: nat)
    requires j < n
    ensures BigEndian(v, n)[j] == ByteAt(v, n - 1 - j)
  {
    if j < n - 1 {
      MostSignificantFirst(v / 256, n - 1, j);
    }
  }

  lemma Pow256Values()
    ensures Pow256(4) == 0x1_0000_0000 && Pow256(8) == 0x1_0000_0000_0000_0000
  {
    assert Pow256(1) == 256 && Pow256(2) == 0x1_0000 && Pow256(3) == 0x100_0000;
    assert Pow256(5) == 0x100_0000_0000 && Pow256(6) == 0x1_0000_0000_0000 && Pow256(7) == 0x100_0000_0000_0000;
  }

  /** binary.BigEndian.PutUint32 and PutUint64. */
  method PutUint(buf: array<Byte>, at: nat, n: nat, value: nat)
    requires at + n <= buf.Length
    modifies buf
    ensures buf[..] == old(buf[..at]) + BigEndian(value, n) + old(buf[at + n..])
  {
    var v, i := value, n;
    assert BigEndian(value, n) == BigEndian(v, i) + BigEndian(value, n)[i..];
    while i > 0
      invariant 0 <= i <= n
      invariant buf[..at] == old(buf[..at]) && buf[at + n..] == old(buf[at + n..])
      invariant BigEndian(value, n) == BigEndian(v, i) + buf[at + i..at + n]
      decreases i
    {
      i := i - 1;
      buf[at + i] := v % 256;
      assert buf[at + i..at + n] == [v % 256] + buf[at + i + 1..at + n];
      v := v / 256;
    }
    assert buf[..] == buf[..at] + buf[at..at + n] + buf[at + n..];
  }

  // ---- Exclusive or ----

  /** The n low bits of a xor k. */
  function XorBits(a: nat, k: nat, n: nat): nat {
    if n == 0 then 0 else XorBit(a, k) + 2 * XorBits(a / 2, k / 2, n - 1)
  }

  /** The lowest bit of a xor k. */
  function XorBit(a: nat, k: nat): (bit: nat)
    ensures bit < 2
  {
    if a % 2 == k % 2 then 0 else 1
  }

  function Pow2(n: nat): nat {
    if n == 0 then 1 else 2 * Pow2(n - 1)
  }

  lemma {:induction false} XorBounded(a: nat, k: nat, n: nat)
    ensures XorBits(a, k, n) < Pow2(n)
  {
    if n > 0 { XorBounded(a / 2, k / 2, n - 1); }
  }

  lemma {:induction false} XorTwice(a: nat, k: nat, n: nat)
    requires a < Pow2(n)
    ensures XorBits(XorBits(a, k, n), k, n) == a
  {
    if n > 0 {
      XorTwice(a / 2, k / 2, n - 1);
      var rest := XorBits(a / 2, k / 2, n - 1);
      LowBitFirst(XorBit(a, k), rest);
      assert XorBits(a, k, n) == XorBit(a, k) + 2 * rest;
      assert XorBit(XorBits(a, k, n), k) == a % 2;
    }
  }

  lemma LowBitFirst(bit: nat, rest: nat)
    requires bit < 2
    ensures (bit + 2 * rest) / 2 == rest && (bit + 2 * rest) % 2 == bit
  {
  }

  lemma Pow2Eight()
    ensures Pow2(8) == 256
  {
    assert Pow2(1) == 2 && Pow2(2) == 4 && Pow2(3) == 8 && Pow2(4) == 16;
    assert Pow2(5) == 32 && Pow2(6) == 64 && Pow2(7) == 128;
  }

  function Xor(a: Byte, k: Byte): Byte {
    XorBounded(a, k, 8);
    Pow2Eight();
    XorBits(a, k, 8)
  }

  lemma XorInvolution(a: Byte, k: Byte)
    ensures Xor(Xor(a, k), k) == a
  {
    Pow2Eight();
    XorTwice(a, k, 8);
  }

  function Bit(a: nat, j: nat): nat {
    if j == 0 then a % 2 else Bit(a / 2, j - 1)
  }

  lemma {:induction false} XorBitsAt(a: nat, k: nat, n: nat, j: nat)
    requires j < n
    ensures Bit(XorBits(a, k, n), j) == if Bit(a, j) == Bit(k, j) then 0 else 1
  {
    var rest := XorBits(a / 2, k / 2, n - 1);
    LowBitFirst(XorBit(a, k), rest);
    assert XorBits(a, k, n) == XorBit(a, k) + 2 * rest;
    if j > 0 {
      XorBitsAt(a / 2, k / 2, n - 1, j - 1);
    }
  }

  /** Each bit of the result is set exactly where the two bytes differ. */
  lemma XorIsBitwise(a: Byte, k: Byte, j: nat)
    requires j < 8
    ensures Bit(Xor(a, k), j) == 1 <==> Bit(a, j) != Bit(k, j)
  {
    XorBitsAt(a, k, 8, j);
  }

  // ---- Reading ----

  /** io.ReadFull of n bytes from a stream that holds s and then ends: the result and what is left. */
  function Full(s: Bytes, n: nat): (Result<Bytes>, Bytes) {
    if |s| >= n then (Ok(s[..n]), s[n..])
    else (Err(if s == [] then EndOfFile else UnexpectedEnd), [])
  }

  class Reader {
    var rest: Bytes

    constructor (s: Bytes)
      ensures rest == s
    {
      rest := s;
    }

    /** Fills buf, or takes what there is and fails. */
    method ReadFull(buf: array<Byte>) returns (r: Result<()>)
      modifies this, buf
      ensures rest == Full(old(rest), buf.Length).1
      ensures |old(rest)| >= buf.Length ==> r.Ok? && buf[..] == old(rest)[..buf.Length]
      ensures |old(rest)| < buf.Length ==> r == Err(if old(rest) == [] then EndOfFile else UnexpectedEnd)
    {
      var i := 0;
      while i < buf.Length && i < |rest|
        invariant 0 <= i <= buf.Length && i <= |rest| && rest == old(rest)
        invariant buf[..i] == rest[..i]
      {
        buf[i] := rest[i];
        i := i + 1;
      }
      rest := rest[i..];
      if i == buf.Length {
        assert buf[..i] == buf[..];
        return Ok(());
      }
      return Err(if i == 0 then EndOfFile else UnexpectedEnd);
    }
  }
}
