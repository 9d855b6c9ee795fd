/** The process executor's wire framing: every message is an `'I'`-packed
    payload length followed by the payload. `'I'` is a native unsigned int,
    modelled as 4 bytes little-endian (the size and byte order on the x86 and
    ARM platforms the executor runs on). The payload (the jsonpickle text) is
    opaque here. */
module Framing {
  import opened Base

  /** `_INT_SIZE = struct.calcsize('I')`. */
  const IntSize: nat := 4

  /** One more than the largest value `'I'` can pack. */
  const IntLimit: nat := 0x1_0000_0000

  function Min(a: nat, b: nat): nat {
    if a <= b then a else b
  }

  /** `struct.pack('I', n)`. */
  function PackLength(n: nat): (b: seq<byte>)
    requires n < IntLimit
    ensures |b| == IntSize
  {
    var n1 := n / 256;
    var n2 := n1 / 256;
    var n3 := n2 / 256;
    [(n % 256) as byte, (n1 % 256) as byte, (n2 % 256) as byte, (n3 % 256) as byte]
  }

  /** `struct.unpack('I', b)[0]`. */
  function UnpackLength(b: seq<byte>): (n: nat)
    requires |b| == IntSize
    ensures n < IntLimit
    ensures n % 256 == b[0] as nat
  {
    var x2 := b[2] as nat + 256 * b[3] as nat;
    var x1 := b[1] as nat + 256 * x2;
    assert x2 < 256 * 256;
    assert x1 < 256 * 256 * 256;
    b[0] as nat + 256 * x1
  }

  lemma DivMod256(a: nat, x: nat)
    requires a < 256
    ensures (a + 256 * x) % 256 == a
    ensures (a + 256 * x) / 256 == x
  {
  }

  /** Unpacking a packed length gives the length back. */
  lemma UnpackPack(n: nat)
    requires n < IntLimit
    ensures UnpackLength(PackLength(n)) == n
  {
    var n1 := n / 256;
    var n2 := n1 / 256;
    var n3 := n2 / 256;
    assert n3 < 256;
    assert n2 == n2 % 256 + 256 * n3;
    assert n1 == n1 % 256 + 256 * n2;
    assert n == n % 256 + 256 * n1;
  }

  /** Every four bytes are the packing of the length they unpack to, so unpacked
      lengths are always below `IntLimit`. */
  lemma PackUnpack(b: seq<byte>)
    requires |b| == IntSize
    ensures UnpackLength(b) < IntLimit
    ensures PackLength(UnpackLength(b)) == b
  {
    var x2 := b[2] as nat + 256 * b[3] as nat;
    var x1 := b[1] as nat + 256 * x2;
    var n := b[0] as nat + 256 * x1;
    DivMod256(b[0] as nat, x1);
    DivMod256(b[1] as nat, x2);
    DivMod256(b[2] as nat, b[3] as nat);
    assert b[3] as nat / 256 == 0 && b[3] as nat % 256 == b[3] as nat;
  }

  /** The bytes `_send_message` writes for a payload. */
  function Frame(payload: seq<byte>): (f: seq<byte>)
    requires |payload| < IntLimit
    ensures |f| == IntSize + |payload|
    ensures f[IntSize..] == payload
  {
    PackLength(|payload|) + payload
  }

  /** `_send_message`: `struct.pack` refuses a length that does not fit `'I'`. */
  function SendMessage(payload: seq<byte>): (r: Result<seq<byte>>)
    ensures r.Ok? <==> |payload| < IntLimit
    ensures r.Ok? ==> |r.value| == IntSize + |payload| && r.value[IntSize..] == payload
    ensures r.Ok? ==> UnpackLength(r.value[..IntSize]) == |payload|
  {
    if |payload| < IntLimit then
      var f := Frame(payload);
      assert f[..IntSize] == PackLength(|payload|);
      UnpackPack(|payload|);
      Ok(f)
    else
      Err("integer out of range for 'I' format code")
  }

  /** The receiving end of a socket: the bytes still to arrive, and how many of
      them each successive `recv` delivers at most (after the schedule runs out
      a `recv` delivers as much as asked). A closed peer is an exhausted stream. */
  datatype Conn = Conn(stream: seq<byte>, chunks: seq<nat>)

  /** `connection.recv(count)`: at least one byte unless the peer has closed,
      never more than `count`. */
  function Recv(c: Conn, count: nat): (r: (seq<byte>, Conn))
    requires count > 0
    ensures 1 <= |r.0| <= count || (|r.0| == 0 && |c.stream| == 0)
    ensures r.0 + r.1.stream == c.stream
  {
    var limit := if |c.chunks| > 0 && c.chunks[0] > 0 then c.chunks[0] else count;
    var n := Min(Min(count, limit), |c.stream|);
    (c.stream[..n], Conn(c.stream[n..], if |c.chunks| > 0 then c.chunks[1..] else []))
  }

  /** `_recv_bytes`: reads until `count` bytes arrived or the peer closed. */
  method RecvBytes(c: Conn, count: nat) returns (data: seq<byte>, rest: Conn)
    ensures |data| <= count
    ensures data == c.stream[..Min(count, |c.stream|)]
    ensures rest.stream == c.stream[|data|..]
  {
    data := [];
    rest := c;
    var remaining: nat := count;
    while remaining != 0
      invariant data + rest.stream == c.stream
      invariant |data| + remaining == count
      decreases remaining
    {
      var step := Recv(rest, remaining);
      if |step.0| == 0 {
        break;
      }
      assert (data + step.0) + step.1.stream == data + (step.0 + step.1.stream);
      data := data + step.0;
      rest := step.1;
      remaining := remaining - |step.0|;
    }
    SplitPrefix(data, rest.stream, c.stream);
  }

  lemma SplitPrefix(a: seq<byte>, b: seq<byte>, s: seq<byte>)
    requires a + b == s
    ensures a == s[..|a|] && b == s[|a|..]
  {
  }

  /** `_recv_message`: the length first, then that many payload bytes (fewer if
      the peer closes early). Fewer than `IntSize` length bytes make
      `struct.unpack` raise. */
  method RecvMessage(c: Conn) returns (r: Result<seq<byte>>, rest: Conn)
    ensures r.Err? <==> |c.stream| < IntSize
    ensures r.Ok? ==>
              var n := UnpackLength(c.stream[..IntSize]);
              var body := c.stream[IntSize..];
              && r.value == body[..Min(n, |body|)]
              && rest.stream == body[|r.value|..]
  {
    var header, afterHeader := RecvBytes(c, IntSize);
    if |header| != IntSize {
      return Err("unpack requires a string argument of length 4"), afterHeader;
    }
    assert header == c.stream[..IntSize];
    var n := UnpackLength(header);
    var body, afterBody := RecvBytes(afterHeader, n);
    r, rest := Ok(body), afterBody;
  }

  /** A frame read back from a connection whose stream starts with it yields the
      original payload and leaves exactly what followed it. */
  method SendThenReceive(payload: seq<byte>, tail: seq<byte>, chunks: seq<nat>) returns (r: Result<seq<byte>>, rest: Conn)
    requires |payload| < IntLimit
    ensures r == Ok(payload)
    ensures rest.stream == tail
  {
    var sent := SendMessage(payload);
    var stream := sent.value + tail;
    assert stream[..IntSize] == sent.value[..IntSize];
    assert stream[IntSize..] == payload + tail;
    r, rest := RecvMessage(Conn(stream, chunks));
    assert (payload + tail)[..|payload|] == payload;
  }
}
