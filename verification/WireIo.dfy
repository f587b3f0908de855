/** The read and write loops of src/common/net.c:36-109 and the framing of src/common/proto.c over them, in place. The
    transport is a FIFO of bytes; how it chops them up, when it asks to retry and when it breaks is an arbitrary list of
    chances, one for each call of the system. */
module WireIo {
  import opened Machine
  import opened Wire

  /** What one call of `SSL_read`, `read`, `SSL_write` or `write` does. */
  datatype Chance = Retry | Chunk(n: nat) | Broken

  /** How often the transport will still move bytes before it breaks; after the end of the list it is broken. */
  function Willing(chances: seq<Chance>): nat {
    if chances == [] then 0
    else match chances[0]
         case Retry => Willing(chances[1..])
         case Chunk(_) => 1 + Willing(chances[1..])
         case Broken => 0
  }

  datatype Moved = Again | Bytes(k: nat) | Eof | Failed

  class Conn {
    const secure: bool  // conn_readn and conn_writen choose between TLS and the plain loops
    var incoming: seq<Byte>  // what the peer has sent and this side has not read
    var outgoing: seq<Byte>  // what this side has written, ever
    var chances: seq<Chance>

    constructor (secure: bool, incoming: seq<Byte>, chances: seq<Chance>)
      ensures this.secure == secure && this.incoming == incoming && this.outgoing == [] && this.chances == chances
    {
      this.secure, this.incoming, this.outgoing, this.chances := secure, incoming, [], chances;
    }

    /** No failure ahead: the transport is willing to move a byte at a time everything that is still to be read. */
    ghost predicate Healthy() reads this { Slack() >= 0 }

    /** How much more it is willing to move than there is to read: what is left for sending. */
    ghost function Slack(): int reads this { Willing(chances) - |incoming| }

    /** One system call that may move up to `most` of the `ready` bytes. */
    method Attempt(most: nat, ready: nat) returns (r: Moved)
      requires most > 0
      modifies this`chances
      ensures r.Bytes? ==> 1 <= r.k <= most && r.k <= ready && Willing(chances) + 1 == Willing(old(chances))
      ensures r.Again? ==> |chances| < |old(chances)| && Willing(chances) == Willing(old(chances))
      ensures r.Eof? || r.Failed? ==> chances == old(chances)
      ensures r.Eof? ==> ready == 0
      ensures r.Failed? ==> Willing(chances) == 0
    {
      if chances == [] { return Failed; }
      var c := chances[0];
      match c
      case Retry =>
        chances := chances[1..];
        return Again;
      case Broken => return Failed;
      case Chunk(n) =>
        if ready == 0 { return Eof; }
        var top := if most < ready then most else ready;
        chances := chances[1..];
        return Bytes(if n < 1 then 1 else if n > top then top else n);
    }

    /** `readn`, the plain loop: at end of file it returns the short count, and that is all there was. */
    method ReadN(buf: array<Byte>, at: nat, n: nat) returns (r: int)
      requires at + n <= buf.Length
      modifies this`incoming, this`chances, buf
      ensures -1 <= r <= n
      ensures forall k | 0 <= k < buf.Length && !(at <= k < at + n) :: buf[k] == old(buf[k])
      ensures r == n ==> Delivered(old(incoming), buf[..], at, n)
      ensures 0 <= r < n ==> r == |old(incoming)| && Delivered(old(incoming), buf[..], at, r)
      ensures |old(incoming)| < n ==> r != n
      ensures n <= |old(incoming)| && n <= Willing(old(chances)) ==> r == n
      ensures Willing(chances) - |incoming| >= Willing(old(chances)) - |old(incoming)|
    {
      var left: nat := n;
      var p: nat := at;
      while left > 0
        invariant left <= n && p == at + n - left && |old(incoming)| == |incoming| + (n - left)
        invariant incoming == old(incoming)[n - left..]
        invariant forall k | 0 <= k < buf.Length && !(at <= k < p) :: buf[k] == old(buf[k])
        invariant forall j | at <= j < p :: buf[j] == old(incoming)[j - at]
        invariant Willing(chances) + (n - left) >= Willing(old(chances))
        invariant Willing(chances) - |incoming| >= Willing(old(chances)) - |old(incoming)|
        decreases left, |chances|
      {
        var got := Attempt(left, |incoming|);
        match got
        case Again => continue;
        case Eof => return n - left;
        case Failed => return -1;
        case Bytes(k) =>
          Take(buf, p, k);
          left := left - k;
          p := p + k;
      }
      return n;
    }

    /** The next n bytes have moved from the transport to the buffer. */
    ghost predicate Delivered(before: seq<Byte>, bytes: seq<Byte>, at: nat, n: nat) reads this {
      n <= |before| && at + n <= |bytes| && bytes[at..at + n] == before[..n] && incoming == before[n..]
    }

    /** The transport copies k bytes to the buffer. */
    method Take(buf: array<Byte>, at: nat, k: nat)
      requires at + k <= buf.Length && k <= |incoming|
      modifies this`incoming, buf
      ensures incoming == old(incoming)[k..]
      ensures forall j | 0 <= j < buf.Length ::
                buf[j] == if at <= j < at + k then old(incoming)[j - at] else old(buf[j])
    {
      forall j | at <= j < at + k { buf[j] := incoming[j - at]; }
      incoming := incoming[k..];
    }

    /** `conn_readn`: the same loop over TLS, where an end of file is an error. */
    method ConnReadN(buf: array<Byte>, at: nat, n: nat) returns (r: int)
      requires at + n <= buf.Length
      modifies this`incoming, this`chances, buf
      ensures -1 <= r <= n
      ensures forall k | 0 <= k < buf.Length && !(at <= k < at + n) :: buf[k] == old(buf[k])
      ensures r == n ==> Delivered(old(incoming), buf[..], at, n)
      ensures 0 <= r < n ==> !secure && r == |old(incoming)| && Delivered(old(incoming), buf[..], at, r)
      ensures |old(incoming)| < n ==> r != n
      ensures n <= |old(incoming)| && n <= Willing(old(chances)) ==> r == n
      ensures Willing(chances) - |incoming| >= Willing(old(chances)) - |old(incoming)|
    {
      if !secure {
        r := ReadN(buf, at, n);
        return;
      }
      var left: nat := n;
      var p: nat := at;
      while left > 0
        invariant left <= n && p == at + n - left && |old(incoming)| == |incoming| + (n - left)
        invariant incoming == old(incoming)[n - left..]
        invariant forall k | 0 <= k < buf.Length && !(at <= k < p) :: buf[k] == old(buf[k])
        invariant forall j | at <= j < p :: buf[j] == old(incoming)[j - at]
        invariant Willing(chances) + (n - left) >= Willing(old(chances))
        invariant Willing(chances) - |incoming| >= Willing(old(chances)) - |old(incoming)|
        decreases left, |chances|
      {
        var got := Attempt(left, |incoming|);
        match got
        case Again => continue;
        case Eof => return -1;
        case Failed => return -1;
        case Bytes(k) =>
          Take(buf, p, k);
          left := left - k;
          p := p + k;
      }
      return n;
    }

    /** `conn_writen` and `writen`; over a transport that never takes zero bytes the two loops are the same. */
    method ConnWriteN(buf: array<Byte>, n: nat) returns (r: int)
      requires n <= buf.Length
      modifies this`outgoing, this`chances
      ensures r == n || r == -1
      ensures r == n ==> outgoing == old(outgoing) + buf[..n]
      ensures r != n ==> exists k | 0 <= k < n :: outgoing == old(outgoing) + buf[..k]
      ensures n <= Willing(old(chances)) ==> r == n
      ensures r == n ==> Willing(chances) + n >= Willing(old(chances))
    {
      var left: nat := n;
      var p: nat := 0;
      assert buf[..0] == [];
      while left > 0
        invariant left <= n && p == n - left
        invariant outgoing == old(outgoing) + buf[..p]
        invariant Willing(chances) + p >= Willing(old(chances))
        decreases left, |chances|
      {
        var got := Attempt(left, left);
        match got
        case Again => continue;
        case Eof => return -1;
        case Failed =>
          assert outgoing == old(outgoing) + buf[..p];
          return -1;
        case Bytes(k) =>
          assert buf[..p] + buf[p..p + k] == buf[..p + k];
          outgoing := outgoing + buf[p..p + k];
          left := left - k;
          p := p + k;
      }
      return n;
    }
  }

  lemma AddOne(s: seq<Byte>, longer: seq<Byte>, b: Byte, sum: nat)
    requires longer == s + [b] && sum == Sum(s) % WORD32
    ensures Sum(longer) % WORD32 == (sum + b) % WORD32
  {
    assert longer[..|s|] == s;
    var q := Sum(s) / WORD32;
    WrapsOff(sum + b, q);
    assert Sum(longer) == (sum + b) + WORD32 * q;
  }

  lemma {:induction false} WrapsOff(x: nat, q: nat)
    ensures (x + WORD32 * q) % WORD32 == x % WORD32
    decreases q
  {
    if q > 0 {
      WrapsOff(x, q - 1);
    }
  }

  lemma FoldOnce(x: nat)
    requires x / 0x1_0000 != 0
    ensures Fold(x) == Fold(x % 0x1_0000 + x / 0x1_0000) && x % 0x1_0000 + x / 0x1_0000 < x
  {
  }

  /** `proto_checksum16`. */
  method Checksum16(buf: array<Byte>, n: nat) returns (ck: Word16)
    requires n <= buf.Length
    ensures ck == Checksum(buf[..n])
  {
    var sum: nat := 0;
    for i := 0 to n
      invariant sum == Sum(buf[..i]) % WORD32
    {
      AddOne(buf[..i], buf[..i + 1], buf[i], sum);
      sum := (sum + buf[i]) % WORD32;
    }
    while sum / 0x1_0000 != 0
      invariant Fold(sum) == Fold(Sum(buf[..n]) % WORD32)
      decreases sum
    {
      FoldOnce(sum);
      sum := sum % 0x1_0000 + sum / 0x1_0000;
    }
    ck := 0xFFFF - sum;
  }

  /** `memcpy` into the stack buffer. */
  method CopyIn(buf: array<Byte>, at: nat, bytes: seq<Byte>)
    requires at + |bytes| <= buf.Length
    modifies buf
    ensures buf[..] == old(buf[..at]) + bytes + old(buf[at + |bytes|..])
  {
    forall k | 0 <= k < |bytes| { buf[at + k] := bytes[k]; }
  }

  /** The stack buffer with a header and a payload copied in. */
  method Laid(head: seq<Byte>, payload: seq<Byte>) returns (buf: array<Byte>)
    requires |head| == HEADER && HEADER + |payload| <= BUFFER
    ensures fresh(buf) && buf.Length == BUFFER && buf[..HEADER + |payload|] == head + payload
  {
    buf := new Byte[BUFFER](_ => 0);
    CopyIn(buf, 0, head);
    ghost var first := buf[..];
    assert first[..HEADER] == head;
    CopyIn(buf, HEADER, payload);
    assert buf[..HEADER] == first[..HEADER];
  }

  /** Writing the checksum field over a frame with that field zero. */
  lemma Patched(op: Word16, ck: Word16, payload: seq<Byte>, plain: seq<Byte>, buf: seq<Byte>)
    requires |payload| <= BUFFER - HEADER && |plain| == BUFFER
    requires plain[..HEADER + |payload|] == Assemble(op, 0, payload)
    requires buf == plain[..6] + Be16(ck) + plain[HEADER..]
    ensures buf[..HEADER + |payload|] == Assemble(op, ck, payload)
  {
    var total := HEADER + |payload|;
    assert plain[..6] == plain[..total][..6] == Be32(total) + Be16(op);
    assert plain[HEADER..total] == plain[..total][HEADER..] == payload;
    assert buf[..total] == plain[..6] + Be16(ck) + plain[HEADER..total];
  }

  /** The fields of a header that has been read. */
  lemma HeadFields(head: seq<Byte>, s: seq<Byte>)
    requires |s| >= HEADER && head == s[..HEADER]
    ensures head[..4] == s[..4] && head[4..6] == s[4..6] && head[6..8] == s[6..8] && head[..6] == s[..6]
  {
  }

  /** `proto_send`. What does not fit the stack buffer is refused and nothing is written; a failing transport leaves a
      proper prefix of the frame behind. */
  method ProtoSend(c: Conn, op: Word16, payload: seq<Byte>) returns (rc: int)
    requires |payload| < WORD32 - HEADER
    modifies c`outgoing, c`chances
    ensures rc == 0 || rc == -1
    ensures rc == 0 ==> |payload| <= BUFFER - HEADER && c.outgoing == old(c.outgoing) + Frame(op, payload)
    ensures |payload| > BUFFER - HEADER ==> c.outgoing == old(c.outgoing)
    ensures rc == -1 && |payload| <= BUFFER - HEADER ==>
              exists k | 0 <= k < HEADER + |payload| :: c.outgoing == old(c.outgoing) + Frame(op, payload)[..k]
    ensures |payload| <= BUFFER - HEADER && HEADER + |payload| <= Willing(old(c.chances)) ==> rc == 0
    ensures rc == 0 ==> c.Slack() + HEADER + |payload| >= old(c.Slack())
  {
    var total := HEADER + |payload|;
    if total > BUFFER { return -1; }
    var buf := Laid(Be32(total) + Be16(op) + Be16(0), payload);
    assert buf[..total] == Assemble(op, 0, payload);
    var ck := Checksum16(buf, total);
    ghost var plain := buf[..];
    CopyIn(buf, 6, Be16(ck));
    Patched(op, ck, payload, plain, buf[..]);
    var written := c.ConnWriteN(buf, total);
    if written != total {
      ghost var k :| 0 <= k < total && c.outgoing == old(c.outgoing) + buf[..k];
      assert buf[..k] == Frame(op, payload)[..k];
      return -1;
    }
    return 0;
  }

  /** `proto_recv`. It accepts exactly what Parse accepts of the bytes ahead, however they arrive, unless the transport
      breaks first. */
  method ProtoRecv(c: Conn, payloadBuf: array<Byte>) returns (rc: int, op: Word16, len: nat)
    modifies c`incoming, c`chances, payloadBuf
    ensures rc == 0 || rc == -1
    ensures rc == 0 ==> len <= payloadBuf.Length &&
                        Parse(old(c.incoming), payloadBuf.Length) == Accept(op, payloadBuf[..len], c.incoming)
    ensures old(c.Healthy()) && Parse(old(c.incoming), payloadBuf.Length).Accept? ==> rc == 0
    ensures c.Slack() >= old(c.Slack())
  {
    rc, op, len := -1, 0, 0;
    var cap := payloadBuf.Length;
    ghost var s := c.incoming;
    var head := new Byte[HEADER](_ => 0);
    var got := c.ConnReadN(head, 0, HEADER);
    if got != HEADER { return; }
    assert head[..] == s[..HEADER] && c.incoming == s[HEADER..];
    HeadFields(head[..], s);
    var total := FromBe32(head[..4]);
    var opcode := FromBe16(head[4..6]);
    var given := FromBe16(head[6..8]);
    if total < HEADER || total > HEADER + cap { return; }
    var size: nat := total - HEADER;
    if size > 0 {
      got := c.ConnReadN(payloadBuf, 0, size);
      if got != size { return; }
    }
    assert payloadBuf[..size] == s[HEADER..total] && c.incoming == s[total..];
    if total > BUFFER { return; }
    var buf := Laid(head[..6] + Be16(0), payloadBuf[..size]);
    assert buf[..total] == s[..6] + [0, 0] + s[HEADER..total];
    var computed := Checksum16(buf, total);
    if computed != given { return; }
    return 0, opcode, size;
  }

  /** As many calls of `proto_recv` as there are messages to come: they are the ones the stream holds, in order. */
  method ReceiveAll(c: Conn, payloadBuf: array<Byte>, n: nat) returns (ok: bool, packets: seq<Packet>)
    modifies c`incoming, c`chances, payloadBuf
    ensures ok ==> Receive(old(c.incoming), n, payloadBuf.Length) == Some((packets, c.incoming))
    ensures old(c.Healthy()) && Receive(old(c.incoming), n, payloadBuf.Length).Some? ==> ok
  {
    var cap := payloadBuf.Length;
    ghost var s := c.incoming;
    packets := [];
    for i := 0 to n
      invariant c.Slack() >= old(c.Slack())
      invariant Receive(s, i, cap) == Some((packets, c.incoming))
    {
      ghost var before := c.incoming;
      var rc, op, len := ProtoRecv(c, payloadBuf);
      ReceiveOneAfter(s, i, cap, packets, before);
      if rc != 0 {
        if old(c.Healthy()) {
          ReceiveStops(s, i + 1, n, cap);
        }
        return false, packets;
      }
      packets := packets + [Packet(op, payloadBuf[..len])];
    }
    ok := true;
  }
}
