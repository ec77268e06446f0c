/** The messages that travel through a tunnel, and the bytes they carry. */
module Messages {

  type Byte = b: int | 0 <= b < 256

  type Bytes = seq<Byte>

  /** A TCP connection id. Bit 63 marks UDP ids, so TCP ids stay below 2^63. */
  type ConnID = nat

  const UDP_FLAG: nat := 0x8000_0000_0000_0000

  const MAX_PAYLOAD_SIZE: nat := 64 * 1024

  datatype Message =
    | Connect(id: ConnID)
    | Data(id: ConnID, payload: Bytes)
    | Close(id: ConnID)

  /** The sub-sequence of a queue that concerns one connection. */
  function Of(q: seq<Message>, c: ConnID): seq<Message> {
    if q == [] then [] else (if q[0].id == c then [q[0]] else []) + Of(q[1..], c)
  }

  lemma {:induction false} OfConcat(a: seq<Message>, b: seq<Message>, c: ConnID)
    ensures Of(a + b, c) == Of(a, c) + Of(b, c)
  {
    if a == [] {
      assert a + b == b;
    } else {
      assert (a + b)[1..] == a[1..] + b;
      OfConcat(a[1..], b, c);
    }
  }

  /** The data bytes carried by a run of messages, in order. */
  function Payload(ms: seq<Message>): Bytes {
    if ms == [] then [] else (if ms[0].Data? then ms[0].payload else []) + Payload(ms[1..])
  }

  lemma {:induction false} PayloadConcat(a: seq<Message>, b: seq<Message>)
    ensures Payload(a + b) == Payload(a) + Payload(b)
  {
    if a == [] {
      assert a + b == b;
    } else {
      assert (a + b)[1..] == a[1..] + b;
      PayloadConcat(a[1..], b);
    }
  }
}
