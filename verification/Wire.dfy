/** The frame format of src/common/proto.c on byte sequences: a length-prefixed header of 8 bytes, big-endian, with a
    folded checksum over the whole frame. */
module Wire {
  import opened Machine

  const HEADER := 8
  const BUFFER := 4096  // the stack buffer of proto_send and proto_recv
  const WORD32 := 0x1_0000_0000

  function Be16(x: Word16): (s: seq<Byte>) { [x / 0x100, x % 0x100] }

  function Be32(x: int): (s: seq<Byte>)
    requires 0 <= x < WORD32
  {
    Be16(x / 0x1_0000) + Be16(x % 0x1_0000)
  }

  function FromBe16(s: seq<Byte>): Word16
    requires |s| == 2
  {
    var high: int := s[0];
    high * 0x100 + s[1]
  }

  function FromBe32(s: seq<Byte>): (x: int)
    requires |s| == 4
    ensures 0 <= x < WORD32
  {
    FromBe16(s[..2]) * 0x1_0000 + FromBe16(s[2..])
  }

  lemma Be16Inverse(x: Word16, s: seq<Byte>)
    requires |s| == 2
    ensures FromBe16(Be16(x)) == x && Be16(FromBe16(s)) == s
  {
  }

  lemma Be32Inverse(x: int, s: seq<Byte>)
    requires 0 <= x < WORD32 && |s| == 4
    ensures FromBe32(Be32(x)) == x && Be32(FromBe32(s)) == s
  {
    assert Be32(x)[..2] == Be16(x / 0x1_0000) && Be32(x)[2..] == Be16(x % 0x1_0000);
    Be16Inverse(x / 0x1_0000, s[..2]);
    Be16Inverse(x % 0x1_0000, s[2..]);
    HalvesAre(FromBe16(s[..2]), FromBe16(s[2..]));
    assert s == s[..2] + s[2..];
  }

  lemma HalvesAre(high: Word16, low: Word16)
    ensures var x: int := high * 0x1_0000 + low; x / 0x1_0000 == high && x % 0x1_0000 == low
  {
  }

  /* ---- Checksum ---- */

  function Sum(s: seq<Byte>): (n: nat)
    ensures n <= 0xFF * |s|
  {
    if s == [] then 0 else Sum(s[..|s| - 1]) + s[|s| - 1]
  }

  /** The loop that adds the carries back in until 16 bits are left. */
  function Fold(x: nat): (y: nat)
    ensures y < 0x1_0000
    decreases x
  {
    if x / 0x1_0000 == 0 then x else Fold(x % 0x1_0000 + x / 0x1_0000)
  }

  /** `proto_checksum16`: the sum is kept in 32 bits, and the result is the complement of its low 16. */
  function Checksum(s: seq<Byte>): Word16 { 0xFFFF - Fold(Sum(s) % WORD32) }

  /** Every carry added back keeps the value modulo 65535, and keeps it positive. */
  lemma {:induction false} FoldClosedForm(x: nat)
    ensures Fold(x) == if x == 0 then 0 else (x - 1) % 0xFFFF + 1
    decreases x
  {
    if x >= 0x1_0000 {
      var y := x % 0x1_0000 + x / 0x1_0000;
      FoldClosedForm(y);
      ModShift(y - 1, x / 0x1_0000);
      assert x - 1 == (y - 1) + 0xFFFF * (x / 0x1_0000);
    }
  }

  lemma {:induction false} ModShift(a: nat, q: nat)
    ensures (a + 0xFFFF * q) % 0xFFFF == a % 0xFFFF
    decreases q
  {
    if q > 0 {
      ModShift(a, q - 1);
      assert a + 0xFFFF * q == (a + 0xFFFF * (q - 1)) + 0xFFFF;
    }
  }

  /** The longest input for which the 32-bit sum cannot overflow, whatever the bytes. */
  const SAFE_LENGTH := 16843009

  /** The checksum in closed form. */
  lemma ChecksumClosedForm(s: seq<Byte>)
    requires |s| <= SAFE_LENGTH
    ensures Sum(s) < WORD32
    ensures Checksum(s) == 0xFFFF - (if Sum(s) == 0 then 0 else (Sum(s) - 1) % 0xFFFF + 1)
  {
    NoOverflow(s);
    FoldClosedForm(Sum(s));
  }

  lemma {:induction false} NoOverflow(s: seq<Byte>)
    requires |s| <= SAFE_LENGTH
    ensures Sum(s) < WORD32 && Checksum(s) == 0xFFFF - Fold(Sum(s))
  {
  }

  lemma {:induction false} SumOfOnes(s: seq<Byte>)
    requires forall i | 0 <= i < |s| :: s[i] == 0xFF
    ensures Sum(s) == 0xFF * |s|
  {
    if s != [] {
      SumOfOnes(s[..|s| - 1]);
    }
  }

  lemma OverflowMovesChecksum(s: seq<Byte>)
    requires Sum(s) == 0xFF * (SAFE_LENGTH + 1)
    ensures Checksum(s) != 0xFFFF - ((Sum(s) - 1) % 0xFFFF + 1)
  {
    assert Sum(s) == WORD32 + 0xFE;
    FoldClosedForm(0xFE);
  }

  predicate HasClosedForm(s: seq<Byte>) {
    Checksum(s) == 0xFFFF - (if Sum(s) == 0 then 0 else (Sum(s) - 1) % 0xFFFF + 1)
  }

  lemma {:induction false} SumOfZeros(s: seq<Byte>)
    requires forall i | 0 <= i < |s| :: s[i] == 0
    ensures Sum(s) == 0
  {
    if s != [] {
      SumOfZeros(s[..|s| - 1]);
    }
  }

  /** In every greater length the sum can wrap: enough bytes 255, then zeros. */
  lemma LongerInputFails(n: nat) returns (s: seq<Byte>)
    requires n > SAFE_LENGTH
    ensures |s| == n && !HasClosedForm(s)
  {
    var ones: seq<Byte> := seq(SAFE_LENGTH + 1, _ => 0xFF);
    var zeros: seq<Byte> := seq(n - SAFE_LENGTH - 1, _ => 0);
    SumOfOnes(ones);
    SumOfZeros(zeros);
    SumConcatenates(ones, zeros);
    s := ones + zeros;
    OverflowMovesChecksum(s);
  }

  /** The closed form holds of all inputs of a length if and only if the length is safe. */
  lemma SafeLengthIsExact(n: nat)
    ensures (forall s: seq<Byte> | |s| == n :: HasClosedForm(s)) <==> n <= SAFE_LENGTH
  {
    if n <= SAFE_LENGTH {
      forall s: seq<Byte> | |s| == n
        ensures HasClosedForm(s)
      {
        ChecksumClosedForm(s);
      }
    } else {
      var s := LongerInputFails(n);
    }
  }

  lemma {:induction false} SumConcatenates(a: seq<Byte>, b: seq<Byte>)
    ensures Sum(a + b) == Sum(a) + Sum(b)
  {
    if b == [] {
      assert a + b == a;
    } else {
      SumConcatenates(a, b[..|b| - 1]);
      assert (a + b)[..|a + b| - 1] == a + b[..|b| - 1];
    }
  }

  lemma {:induction false} SumSplit(s: seq<Byte>, i: nat)
    requires i < |s|
    ensures Sum(s) == Sum(s[..i]) + s[i] + Sum(s[i + 1..])
  {
    assert s == s[..i] + ([s[i]] + s[i + 1..]);
    SumConcatenates(s[..i], [s[i]] + s[i + 1..]);
    SumConcatenates([s[i]], s[i + 1..]);
    assert Sum([s[i]]) == s[i] by { assert [s[i]][..0] == []; }
  }

  lemma CancelLast(a: seq<Byte>, b: seq<Byte>, x: Byte)
    ensures multiset(a + [x]) == multiset(a) + multiset{x}
    ensures multiset(a + [x]) == multiset(b) + multiset{x} ==> multiset(a) == multiset(b)
  {
    var m := multiset(a) + multiset{x};
    assert m - multiset{x} == multiset(a);
    assert multiset(b) + multiset{x} - multiset{x} == multiset(b);
  }

  /** The order of the bytes is immaterial: rearranged input has the same sum. */
  lemma {:induction false} SumIgnoresOrder(a: seq<Byte>, b: seq<Byte>)
    requires multiset(a) == multiset(b)
    ensures Sum(a) == Sum(b)
    decreases |a|
  {
    assert |a| == |multiset(a)| == |multiset(b)| == |b|;
    if a != [] {
      var last := a[|a| - 1];
      assert last in multiset(b);
      var j :| 0 <= j < |b| && b[j] == last;
      var a' := a[..|a| - 1];
      var b' := b[..j] + b[j + 1..];
      assert a == a' + [last];
      assert b == b[..j] + [last] + b[j + 1..];
      CancelLast(a', b', last);
      SumIgnoresOrder(a', b');
      SumSplit(b, j);
      SumConcatenates(b[..j], b[j + 1..]);
    }
  }

  /** Two sums a few bytes apart never fold to the same value. */
  lemma CloseSumsDiffer(x: nat, y: nat)
    requires 0 < x < y < x + 0xFFFF
    ensures Fold(x) != Fold(y)
  {
    FoldClosedForm(x);
    FoldClosedForm(y);
    RemaindersDiffer(x - 1, y - x);
  }

  lemma RemaindersDiffer(a: nat, d: nat)
    requires 0 < d < 0xFFFF
    ensures a % 0xFFFF != (a + d) % 0xFFFF
  {
    var q, r := a / 0xFFFF, a % 0xFFFF;
    assert a + d == 0xFFFF * q + (r + d);
    if r + d < 0xFFFF {
      Remainder(a + d, q, r + d);
    } else {
      Remainder(a + d, q + 1, r + d - 0xFFFF);
    }
  }

  lemma Remainder(n: nat, q: nat, r: nat)
    requires n == 0xFFFF * q + r && r < 0xFFFF
    ensures n % 0xFFFF == r
  {
    ModShift(r, q);
  }

  /* ---- Frames ---- */

  /** A frame with the given checksum field. */
  function Assemble(op: Word16, ck: Word16, payload: seq<Byte>): (f: seq<Byte>)
    requires |payload| < WORD32 - HEADER
    ensures |f| == HEADER + |payload|
  {
    Be32(HEADER + |payload|) + Be16(op) + Be16(ck) + payload
  }

  /** The frame `proto_send` writes: the checksum is computed with its own field zero and patched in. */
  function Frame(op: Word16, payload: seq<Byte>): (f: seq<Byte>)
    requires |payload| < WORD32 - HEADER
    ensures |f| == HEADER + |payload|
  {
    Assemble(op, Checksum(Assemble(op, 0, payload)), payload)
  }

  datatype Parsed = Reject | Accept(op: Word16, payload: seq<Byte>, rest: seq<Byte>)

  /** What `proto_recv` makes of the bytes ahead of it. */
  function Parse(s: seq<Byte>, cap: nat): Parsed {
    if |s| < HEADER then Reject
    else
      var len := FromBe32(s[..4]);
      if len < HEADER || len > HEADER + cap || |s| < len || len > BUFFER then Reject
      else if Checksum(s[..6] + [0, 0] + s[HEADER..len]) != FromBe16(s[6..8]) then Reject
      else Accept(FromBe16(s[4..6]), s[HEADER..len], s[len..])
  }

  lemma FrameFields(op: Word16, ck: Word16, payload: seq<Byte>, rest: seq<Byte>)
    requires |payload| < WORD32 - HEADER
    ensures var s := Assemble(op, ck, payload) + rest; var len := HEADER + |payload|;
            && s[..4] == Be32(len) && s[4..6] == Be16(op) && s[6..8] == Be16(ck)
            && s[HEADER..len] == payload && s[len..] == rest && s[..6] == Be32(len) + Be16(op)
  {
  }

  /** Round trip: what was sent is what is received, whatever bytes follow. */
  lemma ParseOfFrame(op: Word16, payload: seq<Byte>, rest: seq<Byte>, cap: nat)
    requires |payload| <= cap && |payload| <= BUFFER - HEADER
    ensures Parse(Frame(op, payload) + rest, cap) == Accept(op, payload, rest)
  {
    var ck := Checksum(Assemble(op, 0, payload));
    FrameFields(op, ck, payload, rest);
    Be32Inverse(HEADER + |payload|, [0, 0, 0, 0]);
    Be16Inverse(op, [0, 0]);
    Be16Inverse(ck, [0, 0]);
    assert Be32(HEADER + |payload|) + Be16(op) + [0, 0] + payload == Assemble(op, 0, payload);
  }

  /** And back: bytes that are accepted are exactly the frame of what was received, followed by the rest. */
  lemma FrameOfParse(s: seq<Byte>, cap: nat)
    requires Parse(s, cap).Accept?
    ensures var p := Parse(s, cap);
            && |p.payload| <= cap && |p.payload| <= BUFFER - HEADER
            && s == Frame(p.op, p.payload) + p.rest
  {
    var p := Parse(s, cap);
    var len := FromBe32(s[..4]);
    Be32Inverse(0, s[..4]);
    Be16Inverse(0, s[4..6]);
    Be16Inverse(0, s[6..8]);
    assert s[..6] == s[..4] + s[4..6];
    assert s[..6] + [0, 0] + s[HEADER..len] == Assemble(p.op, 0, p.payload);
    assert s == s[..4] + s[4..6] + s[6..8] + s[HEADER..len] + s[len..];
  }

  /** The sum behind a frame's checksum: all its bytes but the checksum's own two. */
  function FrameSum(s: seq<Byte>, len: nat): nat
    requires HEADER <= len <= |s|
  {
    Sum(s[..6]) + Sum(s[HEADER..len])
  }

  lemma ZeroedSum(s: seq<Byte>, len: nat)
    requires HEADER <= len <= |s| && len <= BUFFER && s[..4] == Be32(len)
    ensures var zeroed := s[..6] + [0, 0] + s[HEADER..len];
            FrameSum(s, len) > 0 && Checksum(zeroed) == 65535 - ((FrameSum(s, len) - 1) % 65535 + 1)
  {
    var zeroed := s[..6] + [0, 0] + s[HEADER..len];
    SumConcatenates(s[..6] + [0, 0], s[HEADER..len]);
    SumConcatenates(s[..6], [0, 0]);
    SumOfZeros([0, 0]);
    assert zeroed[..4] == s[..4];
    LengthIsPositive(zeroed, len);
    ChecksumClosedForm(zeroed);
  }

  lemma Be32Bytes(s: seq<Byte>)
    requires |s| == 4
    ensures FromBe32(s) == ((s[0] as int * 256 + s[1]) * 256 + s[2]) * 256 + s[3]
  {
  }

  /** What `proto_recv` accepts, byte for byte: a length, an opcode and a checksum with the high byte first; the length within
      the limits and all there; and the checksum that of all other bytes. */
  lemma ParseReadsBytes(s: seq<Byte>, cap: nat)
    requires |s| >= 8
    ensures var len := ((s[0] as int * 256 + s[1]) * 256 + s[2]) * 256 + s[3];
            Parse(s, cap).Accept? <==>
              && 8 <= len <= 8 + cap && len <= 4096 && len <= |s|
              && s[6] as int * 256 + s[7] == 65535 - ((FrameSum(s, len) - 1) % 65535 + 1)
    ensures var len := ((s[0] as int * 256 + s[1]) * 256 + s[2]) * 256 + s[3];
            Parse(s, cap).Accept? ==> Parse(s, cap) == Accept(s[4] as int * 256 + s[5], s[8..len], s[len..])
  {
    var len := FromBe32(s[..4]);
    Be32Bytes(s[..4]);
    Be32Inverse(0, s[..4]);
    if HEADER <= len <= |s| && len <= BUFFER {
      ZeroedSum(s, len);
    }
  }

  lemma ShortIsRejected(s: seq<Byte>, cap: nat)
    requires |s| < 8
    ensures Parse(s, cap).Reject?
  {
  }

  /** What `proto_send` writes, byte for byte. */
  lemma FrameBytes(op: Word16, payload: seq<Byte>)
    requires |payload| <= 4088
    ensures var f := Frame(op, payload); var len := 8 + |payload|;
            && |f| == len
            && ((f[0] as int * 256 + f[1]) * 256 + f[2]) * 256 + f[3] == len
            && f[4] as int * 256 + f[5] == op
            && f[6] as int * 256 + f[7] == 65535 - ((FrameSum(f, len) - 1) % 65535 + 1)
            && f[8..] == payload
  {
    var f := Frame(op, payload);
    assert f + [] == f;
    ParseOfFrame(op, payload, [], |payload|);
    ParseReadsBytes(f, |payload|);
  }

  /** The opcode's two bytes. */
  lemma FrameOpcode(op: Word16, payload: seq<Byte>)
    requires |payload| <= 4088
    ensures Frame(op, payload)[4..6] == [op / 256, op % 256]
  {
    FrameBytes(op, payload);
    var f := Frame(op, payload);
    TwoBytes(f[4], f[5], op);
  }

  lemma TwoBytes(high: Byte, low: Byte, x: Word16)
    requires high as int * 256 + low == x
    ensures high == x / 256 && low == x % 256
  {
  }

  lemma {:induction false} SumOneMore(s: seq<Byte>, i: nat)
    requires i < |s|
    ensures Sum(s[..i + 1]) == Sum(s[..i]) + s[i]
  {
    assert s[..i + 1][..i] == s[..i];
  }

  lemma SumOfSix(s: seq<Byte>)
    requires |s| >= 6
    ensures Sum(s[..6]) == s[0] as int + s[1] as int + s[2] as int + s[3] as int + s[4] as int + s[5] as int
  {
    assert Sum(s[..0]) == 0;
    SumOneMore(s, 0);
    SumOneMore(s, 1);
    SumOneMore(s, 2);
    SumOneMore(s, 3);
    SumOneMore(s, 4);
    SumOneMore(s, 5);
  }

  /** A short frame, byte for byte: with bytes this small the checksum's complement is their plain sum. */
  lemma ShortFrame(op: Word16, payload: seq<Byte>, high: Byte, low: Byte, sum: nat)
    requires |payload| <= 1 && op == high as int * 256 + low && sum < 256
    requires sum == 8 + |payload| + high + low + (if payload == [] then 0 else payload[0])
    ensures Frame(op, payload) == [0, 0, 0, 8 + |payload|, high, low, 255, 255 - sum] + payload
  {
    FrameBytes(op, payload);
    ShortBytes(Frame(op, payload), payload, op, high, low, sum);
  }

  lemma ShortBytes(f: seq<Byte>, payload: seq<Byte>, op: Word16, high: Byte, low: Byte, sum: nat)
    requires |payload| <= 1 && |f| == 8 + |payload| && f[8..] == payload && op == high as int * 256 + low
    requires sum == |f| + high + low + (if payload == [] then 0 else payload[0]) && sum < 256
    requires ((f[0] as int * 256 + f[1]) * 256 + f[2]) * 256 + f[3] == |f| && f[4] as int * 256 + f[5] == op
    requires f[6] as int * 256 + f[7] == 65535 - ((FrameSum(f, |f|) - 1) % 65535 + 1)
    ensures f == [0, 0, 0, |f|, high, low, 255, 255 - sum] + payload
  {
    LengthBytes(f, |f|);
    TwoBytes(f[4], f[5], op);
    ShortSum(f, payload, sum);
    ShortHeader(f, |f|, op, high, low, sum);
    assert f == f[..8] + f[8..];
  }

  lemma LengthBytes(f: seq<Byte>, len: nat)
    requires |f| >= 8 && len < 256 && ((f[0] as int * 256 + f[1]) * 256 + f[2]) * 256 + f[3] == len
    ensures f[0] == f[1] == f[2] == 0 && f[3] == len
  {
  }

  lemma ShortSum(f: seq<Byte>, payload: seq<Byte>, sum: nat)
    requires |payload| <= 1 && |f| == 8 + |payload| && f[8..] == payload && f[0] == f[1] == f[2] == 0 && f[3] == |f|
    requires sum == |f| + f[4] + f[5] + (if payload == [] then 0 else payload[0])
    ensures FrameSum(f, |f|) == sum
  {
    SumOfSix(f);
    ShortPayloadSum(payload);
    assert f[HEADER..|f|] == payload;
  }

  lemma {:induction false} ShortPayloadSum(payload: seq<Byte>)
    requires |payload| <= 1
    ensures Sum(payload) == if payload == [] then 0 else payload[0]
  {
    if payload != [] {
      assert payload[..0] == [];
    }
  }

  lemma ShortHeader(f: seq<Byte>, len: nat, op: Word16, high: Byte, low: Byte, sum: nat)
    requires |f| >= 8 && len < 256 && op == high as int * 256 + low && 0 < sum < 256
    requires ((f[0] as int * 256 + f[1]) * 256 + f[2]) * 256 + f[3] == len && f[4] as int * 256 + f[5] == op
    requires f[6] as int * 256 + f[7] == 65535 - ((sum - 1) % 65535 + 1)
    ensures f[..8] == [0, 0, 0, len, high, low, 255, 255 - sum]
  {
    TwoBytes(f[6], f[7], 65535 - sum);
  }

  /* ---- Streams ---- */

  datatype Packet = Packet(op: Word16, payload: seq<Byte>)

  predicate Sendable(p: Packet, cap: nat) { |p.payload| <= cap && |p.payload| <= BUFFER - HEADER }

  predicate AllSendable(ps: seq<Packet>, cap: nat) { forall i | 0 <= i < |ps| :: Sendable(ps[i], cap) }

  /** The concatenated output of `proto_send`. */
  function Stream(ps: seq<Packet>): seq<Byte>
    requires AllSendable(ps, BUFFER)
    decreases |ps|
  {
    if ps == [] then [] else Frame(ps[0].op, ps[0].payload) + Stream(ps[1..])
  }

  /** n calls of `proto_recv`: the packets received, and the bytes left; `None` when a call rejects. */
  function Receive(s: seq<Byte>, n: nat, cap: nat): Option<(seq<Packet>, seq<Byte>)> {
    if n == 0 then Some(([], s))
    else match Parse(s, cap)
         case Reject => None
         case Accept(op, payload, rest) =>
           match Receive(rest, n - 1, cap)
           case None => None
           case Some((ps, left)) => Some(([Packet(op, payload)] + ps, left))
  }

  lemma ReceiveOneMore(s: seq<Byte>, n: nat, cap: nat, p: Packet, rest: seq<Byte>, ps: seq<Packet>, left: seq<Byte>)
    requires Parse(s, cap) == Accept(p.op, p.payload, rest) && Receive(rest, n, cap) == Some((ps, left))
    ensures Receive(s, n + 1, cap) == Some(([p] + ps, left))
  {
  }

  lemma Regroup(a: seq<Byte>, b: seq<Byte>, c: seq<Byte>)
    ensures (a + b) + c == a + (b + c)
  {
  }

  lemma ReceiveFirst(p: Packet, bytes: seq<Byte>, tail: seq<Packet>, rest: seq<Byte>, cap: nat)
    requires Sendable(p, cap) && Receive(bytes + rest, |tail|, cap) == Some((tail, rest))
    ensures Receive((Frame(p.op, p.payload) + bytes) + rest, |tail| + 1, cap) == Some(([p] + tail, rest))
  {
    ParseOfFrame(p.op, p.payload, bytes + rest, cap);
    Regroup(Frame(p.op, p.payload), bytes, rest);
    ReceiveOneMore(Frame(p.op, p.payload) + (bytes + rest), |tail|, cap, p, bytes + rest, tail, rest);
  }

  /** Whole conversations: receiving as often as was sent returns exactly the packets sent, in order. */
  lemma {:induction false} ReceiveStream(ps: seq<Packet>, rest: seq<Byte>, cap: nat)
    requires AllSendable(ps, cap) && AllSendable(ps, BUFFER)
    ensures Receive(Stream(ps) + rest, |ps|, cap) == Some((ps, rest))
    decreases |ps|
  {
    if ps == [] {
      assert Stream(ps) + rest == rest;
    } else {
      var p := ps[0];
      var tail := ps[1..];
      assert ps == [p] + tail;
      assert Stream(ps) == Frame(p.op, p.payload) + Stream(tail);
      ReceiveStream(tail, rest, cap);
      ReceiveFirst(p, Stream(tail), tail, rest, cap);
    }
  }

  lemma PrependPacket(p: Packet, tail: seq<Packet>, cap: nat)
    requires Sendable(p, cap) && AllSendable(tail, cap) && AllSendable(tail, BUFFER)
    ensures AllSendable([p] + tail, cap) && AllSendable([p] + tail, BUFFER)
    ensures Stream([p] + tail) == Frame(p.op, p.payload) + Stream(tail)
  {
    assert ([p] + tail)[1..] == tail;
  }

  /** Conversely, whatever n receives accept is the stream of the packets they returned. */
  lemma {:induction false} StreamOfReceive(s: seq<Byte>, n: nat, cap: nat)
    requires Receive(s, n, cap).Some?
    ensures var (ps, left) := Receive(s, n, cap).value;
            |ps| == n && AllSendable(ps, cap) && AllSendable(ps, BUFFER) && s == Stream(ps) + left
  {
    if n > 0 {
      FrameOfParse(s, cap);
      var p := Parse(s, cap);
      StreamOfReceive(p.rest, n - 1, cap);
      var (tail, left) := Receive(p.rest, n - 1, cap).value;
      PrependPacket(Packet(p.op, p.payload), tail, cap);
      Regroup(Frame(p.op, p.payload), Stream(tail), left);
    }
  }

  /** Receiving once more at the end. */
  lemma {:induction false} ReceiveOneAfter(s: seq<Byte>, n: nat, cap: nat, ps: seq<Packet>, left: seq<Byte>)
    requires Receive(s, n, cap) == Some((ps, left))
    ensures Receive(s, n + 1, cap) ==
            match Parse(left, cap)
            case Reject => None
            case Accept(op, payload, rest) => Some((ps + [Packet(op, payload)], rest))
  {
    var next := Parse(left, cap);
    if n == 0 {
      if next.Accept? {
        var last := Packet(next.op, next.payload);
        ReceiveOneMore(s, 0, cap, last, next.rest, [], next.rest);
        assert [last] + [] == [] + [last];
      }
    } else {
      var first := Parse(s, cap);
      var (tail, _) := Receive(first.rest, n - 1, cap).value;
      ReceiveOneAfter(first.rest, n - 1, cap, tail, left);
      if next.Accept? {
        var last := Packet(next.op, next.payload);
        ReceiveOneMore(s, n, cap, Packet(first.op, first.payload), first.rest, tail + [last], next.rest);
        assert [Packet(first.op, first.payload)] + (tail + [last]) == ps + [last];
      }
    }
  }

  /** Once a receive is rejected, no longer sequence of them succeeds. */
  lemma {:induction false} ReceiveStops(s: seq<Byte>, i: nat, n: nat, cap: nat)
    requires i <= n && Receive(s, i, cap).None?
    ensures Receive(s, n, cap).None?
  {
    if i > 0 {
      match Parse(s, cap)
      case Reject =>
      case Accept(_, _, rest) =>
        if Receive(rest, i - 1, cap).None? {
          ReceiveStops(rest, i - 1, n - 1, cap);
        }
    }
  }

  /* ---- Corruption ---- */

  /** Changing any one byte of a frame but the four length bytes makes the receiver reject it. */
  lemma CorruptionIsDetected(op: Word16, payload: seq<Byte>, rest: seq<Byte>, cap: nat, i: nat, b: Byte)
    requires |payload| <= BUFFER - HEADER && 4 <= i < HEADER + |payload| && b != Frame(op, payload)[i]
    ensures Parse(Frame(op, payload)[i := b] + rest, cap) == Reject
  {
    var len := HEADER + |payload|;
    var f := Frame(op, payload);
    var ck := Checksum(Assemble(op, 0, payload));
    var s := f[i := b] + rest;
    FrameFields(op, ck, payload, []);
    assert f + [] == f;
    Be32Inverse(len, [0, 0, 0, 0]);
    assert s[..4] == f[..4] == Be32(len);
    var zeroed := s[..6] + [0, 0] + s[HEADER..len];
    var plain := Assemble(op, 0, payload);
    assert plain == f[..6] + [0, 0] + f[HEADER..len];
    if i == 6 || i == 7 {
      assert zeroed == plain;
      assert s[6..8] != f[6..8] by { assert s[6..8][i - 6] != f[6..8][i - 6]; }
      Be16Inverse(ck, s[6..8]);
    } else {
      assert zeroed == plain[i := b];
      OneByteMovesChecksum(plain, i, b, len);
      assert s[6..8] == f[6..8];
      Be16Inverse(ck, [0, 0]);
    }
  }

  lemma OneByteMovesChecksum(plain: seq<Byte>, i: nat, b: Byte, len: nat)
    requires HEADER <= len == |plain| <= BUFFER && plain[..4] == Be32(len) && 4 <= i < |plain| && b != plain[i]
    ensures Checksum(plain[i := b]) != Checksum(plain)
  {
    var other := plain[i := b];
    SumAfterChange(plain, i, b);
    LengthIsPositive(plain, len);
    LengthIsPositive(other, len);
    NoOverflow(plain);
    NoOverflow(other);
    if Sum(plain) < Sum(other) {
      CloseSumsDiffer(Sum(plain), Sum(other));
    } else {
      CloseSumsDiffer(Sum(other), Sum(plain));
    }
  }

  lemma SumAfterChange(s: seq<Byte>, i: nat, b: Byte)
    requires i < |s|
    ensures Sum(s[i := b]) == Sum(s) - s[i] + b
  {
    SumSplit(s, i);
    SumSplit(s[i := b], i);
    assert s[i := b][..i] == s[..i] && s[i := b][i + 1..] == s[i + 1..];
  }

  /** The length bytes alone make every frame's sum positive. */
  lemma LengthIsPositive(s: seq<Byte>, len: nat)
    requires HEADER <= len == |s| <= BUFFER && s[..4] == Be32(len)
    ensures Sum(s) > 0
  {
    assert s == s[..4] + s[4..];
    SumConcatenates(s[..4], s[4..]);
    if len % 0x100 != 0 {
      SumSplit(s[..4], 3);
    } else {
      SumSplit(s[..4], 2);
    }
  }

  /** What the checksum cannot see: rearranging the payload leaves the header, checksum included, as it was. */
  lemma RearrangementIsInvisible(op: Word16, a: seq<Byte>, b: seq<Byte>)
    requires multiset(a) == multiset(b) && |a| <= BUFFER - HEADER
    ensures |a| == |b| && Frame(op, a)[..HEADER] == Frame(op, b)[..HEADER]
  {
    assert |a| == |multiset(a)| == |multiset(b)| == |b|;
    var head := Be32(HEADER + |a|) + Be16(op) + Be16(0);
    SumIgnoresOrder(a, b);
    SumConcatenates(head, a);
    SumConcatenates(head, b);
    var ck := Checksum(Assemble(op, 0, a));
    assert Frame(op, a)[..HEADER] == Be32(HEADER + |a|) + Be16(op) + Be16(ck);
    assert Frame(op, b)[..HEADER] == Be32(HEADER + |a|) + Be16(op) + Be16(ck);
  }
}
