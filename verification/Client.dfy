/** The terminal client (src/client_app.c): `recv_until` and the key loop, over the images of `state_t` and `hand_t` it
    copies off the wire. */
module Client {
  import opened Machine
  import opened Wire
  import opened WireIo
  import opened Table
  import opened Session

  const STATE_BYTES := 405  // sizeof(state_t)
  const HAND_BYTES := 17  // sizeof(hand_t)
  const CLIENT_CAP := 2048  // the client's receive buffer
  const SERVER_CAP := 1024  // the server's

  /** The host's byte layout of the structures sent: any layout of the right sizes in which the client can read back the
      two fields its key loop looks at. */
  datatype Layout = Layout(state: StateT -> seq<Byte>, hand: Hand -> seq<Byte>, other: Reply -> seq<Byte>,
                           over: seq<Byte> -> bool, count: seq<Byte> -> int)

  ghost predicate Lawful(l: Layout) {
    && (forall s :: |l.state(s)| == STATE_BYTES && l.over(l.state(s)) == s.g.over)
    && (forall h: Hand :: |l.hand(h)| == HAND_BYTES && l.count(l.hand(h)) == h.n)
    && (forall x :: |l.other(x)| <= 52)
  }

  function ToPacket(l: Layout, x: Reply): Packet {
    match x
    case Pong => Packet(OP_PONG, [])
    case LoginResp => Packet(OP_LOGIN_RESP, l.other(x))
    case ResumeResp(_, _) => Packet(OP_RESUME_RESP, l.other(x))
    case StateMsg(st) => Packet(OP_STATE, l.state(st))
    case HandMsg(hand) => Packet(OP_HAND, l.hand(hand))
    case ErrorMsg(_, _) => Packet(OP_ERROR, l.other(x))
  }

  function ToPackets(l: Layout, xs: seq<Reply>): (ps: seq<Packet>)
    ensures |ps| == |xs| && forall i | 0 <= i < |xs| :: ps[i] == ToPacket(l, xs[i])
  {
    seq(|xs|, i requires 0 <= i < |xs| => ToPacket(l, xs[i]))
  }

  lemma RepliesAreSendable(l: Layout, xs: seq<Reply>)
    requires Lawful(l)
    ensures AllSendable(ToPackets(l, xs), CLIENT_CAP) && AllSendable(ToPackets(l, xs), BUFFER)
  {
  }

  /** The frames of the client's requests, byte for byte. */
  lemma RequestFrames(i: Byte)
    requires i <= 2
    ensures Frame(OP_LOGIN_REQ, []) == [0, 0, 0, 8, 0, 1, 0xFF, 0xF6]
    ensures Frame(OP_PING, []) == [0, 0, 0, 8, 0, 2, 0xFF, 0xF5]
    ensures Frame(OP_END_TURN, []) == [0, 0, 0, 8, 1, 2, 0xFF, 0xF4]
    ensures Frame(OP_PLAY_CARD, [i]) == [0, 0, 0, 9, 1, 1, 0xFF, 0xF4 - i, i]
  {
    ShortFrame(OP_LOGIN_REQ, [], 0, 1, 9);
    ShortFrame(OP_PING, [], 0, 2, 10);
    ShortFrame(OP_END_TURN, [], 1, 2, 11);
    ShortFrame(OP_PLAY_CARD, [i], 1, 1, 11 + i);
  }

  /** The opcodes of the server's replies on the wire, and their lengths where they are fixed. */
  lemma ReplyFrames(l: Layout, x: Reply)
    requires Lawful(l)
    ensures var p := ToPacket(l, x);
            |p.payload| <= 4088 &&
            var f := Frame(p.op, p.payload);
            f[4..6] == match x
                       case Pong => [0x80, 2]
                       case LoginResp => [0x80, 1]
                       case ResumeResp(_, _) => [0x80, 3]
                       case StateMsg(_) => [2, 1]
                       case HandMsg(_) => [2, 2]
                       case ErrorMsg(_, _) => [0xFF, 0xFF]
  {
    FrameOpcode(ToPacket(l, x).op, ToPacket(l, x).payload);
  }

  /* ---- recv_until ---- */

  /** The client's copies, and what this call of `recv_until` has got so far. */
  datatype Mirror = Mirror(st: seq<Byte>, hand: seq<Byte>, gotState: bool, gotHand: bool)

  /** What one received packet does. */
  function Absorb(c: Mirror, p: Packet): Mirror {
    if p.op == OP_STATE && |p.payload| == STATE_BYTES then c.(st := p.payload, gotState := true)
    else if p.op == OP_HAND && |p.payload| == HAND_BYTES then c.(hand := p.payload, gotHand := true)
    else c
  }

  /** A copy is overwritten by a packet of the right opcode and exactly the right length, and by nothing else. */
  lemma AbsorbsWholePackets(c: Mirror, p: Packet)
    ensures var c' := Absorb(c, p);
            && (p.op == 0x0201 && |p.payload| == 405 ==> c' == c.(st := p.payload, gotState := true))
            && (p.op == 0x0202 && |p.payload| == 17 ==> c' == c.(hand := p.payload, gotHand := true))
            && (c' != c ==> (p.op == 0x0201 && |p.payload| == 405) || (p.op == 0x0202 && |p.payload| == 17))
  {
  }

  datatype Collected = Incomplete | Complete(c: Mirror, rest: seq<Byte>)

  /** `recv_until` over the bytes ahead. */
  function Collect(s: seq<Byte>, c: Mirror): Collected
    decreases |s|
  {
    if c.gotState && c.gotHand then Complete(c, s)
    else match Parse(s, CLIENT_CAP)
         case Reject => Incomplete
         case Accept(op, payload, rest) => Collect(rest, Absorb(c, Packet(op, payload)))
  }

  /** The client's `state_t` and `hand_t`. */
  class Copies {
    var st: seq<Byte>
    var hand: seq<Byte>

    constructor ()
      ensures st == seq(STATE_BYTES, _ => 0) && hand == seq(HAND_BYTES, _ => 0)
    {
      st, hand := seq(STATE_BYTES, _ => 0), seq(HAND_BYTES, _ => 0);
    }
  }

  method RecvUntil(conn: Conn, copies: Copies) returns (rc: int)
    modifies conn`incoming, conn`chances, copies
    ensures rc == 0 || rc == -1
    ensures rc == 0 ==> Collect(old(conn.incoming), Mirror(old(copies.st), old(copies.hand), false, false)) ==
                        Complete(Mirror(copies.st, copies.hand, true, true), conn.incoming)
    ensures old(conn.Healthy()) &&
            Collect(old(conn.incoming), Mirror(old(copies.st), old(copies.hand), false, false)).Complete? ==>
              rc == 0
    ensures conn.Slack() >= old(conn.Slack())
  {
    var gotState, gotHand := false, false;
    var buf := new Byte[CLIENT_CAP](_ => 0);
    ghost var goal := Collect(conn.incoming, Mirror(copies.st, copies.hand, false, false));
    while !(gotState && gotHand)
      invariant Collect(conn.incoming, Mirror(copies.st, copies.hand, gotState, gotHand)) == goal
      invariant conn.Slack() >= old(conn.Slack())
      decreases |conn.incoming|
    {
      var got, op, len := ProtoRecv(conn, buf);
      if got != 0 { return -1; }
      if op == OP_STATE && len == STATE_BYTES {
        copies.st := buf[..len];
        gotState := true;
      } else if op == OP_HAND && len == HAND_BYTES {
        copies.hand := buf[..len];
        gotHand := true;
      }
    }
    return 0;
  }

  /* ---- Keys ---- */

  /** What a key can make the client send. */
  type KeyMsg = m: Msg | |m.payload| <= PLAY_REQ_BYTES witness Msg(0, [])

  /** What a key makes the loop do. */
  datatype Deed = Idle | Quit | Ask(m: KeyMsg)

  function OnKey(l: Layout, st: seq<Byte>, hand: seq<Byte>, ch: char): Deed {
    if ch == 'q' || ch == 'Q' then Quit
    else if l.over(st) then Idle
    else if ch == 'e' || ch == 'E' then Ask(Msg(OP_END_TURN, []))
    else if ch == '1' || ch == '2' || ch == '3' then
      var idx := ch as int - '1' as int;
      if idx >= l.count(hand) then Idle else Ask(Msg(OP_PLAY_CARD, [idx]))
    else Idle
  }

  function Wired(m: KeyMsg): seq<Byte> { Frame(m.op, m.payload) }

  /** The bytes of these requests, one after another. */
  function WiredAll(ms: seq<KeyMsg>): seq<Byte> {
    if ms == [] then [] else WiredAll(ms[..|ms| - 1]) + Wired(ms[|ms| - 1])
  }

  /** The same with any wire format in its place. */
  function Joined(wire: KeyMsg -> seq<Byte>, ms: seq<KeyMsg>): seq<Byte> {
    if ms == [] then [] else Joined(wire, ms[..|ms| - 1]) + wire(ms[|ms| - 1])
  }

  lemma {:induction false} JoinedConcatenates(wire: KeyMsg -> seq<Byte>, a: seq<KeyMsg>, b: seq<KeyMsg>)
    ensures Joined(wire, a + b) == Joined(wire, a) + Joined(wire, b)
  {
    if b == [] {
      assert a + b == a;
    } else {
      JoinedConcatenates(wire, a, b[..|b| - 1]);
      assert (a + b)[..|a + b| - 1] == a + b[..|b| - 1];
    }
  }

  lemma {:induction false} WiredIsJoined(wire: KeyMsg -> seq<Byte>, ms: seq<KeyMsg>)
    requires forall m: KeyMsg :: wire(m) == Wired(m)
    ensures WiredAll(ms) == Joined(wire, ms)
  {
    if ms != [] {
      WiredIsJoined(wire, ms[..|ms| - 1]);
    }
  }

  lemma WiredConcatenates(a: seq<KeyMsg>, b: seq<KeyMsg>)
    ensures WiredAll(a + b) == WiredAll(a) + WiredAll(b)
  {
    var wire := (m: KeyMsg) => Wired(m);
    WiredIsJoined(wire, a);
    WiredIsJoined(wire, b);
    WiredIsJoined(wire, a + b);
    JoinedConcatenates(wire, a, b);
  }

  /** What `recv_until` makes of the bytes ahead and the copies held; a variable where the loop around it is meant. */
  type Reader = (seq<Byte>, seq<Byte>, seq<Byte>) -> Collected

  ghost predicate ReadsAs(read: Reader) {
    forall s, st, hand {:trigger Collect(s, Mirror(st, hand, false, false))} ::
      read(s, st, hand) == Collect(s, Mirror(st, hand, false, false))
  }

  /** The key loop of `run_app_mode` up to its exit: the requests sent, the copies held, the bytes left unread, and whether
      it was left because an answer did not come. */
  datatype Exit = Exit(asked: seq<KeyMsg>, st: seq<Byte>, hand: seq<Byte>, rest: seq<Byte>, broken: bool)

  function KeyLoop(l: Layout, read: Reader, keys: string, s: seq<Byte>, st: seq<Byte>, hand: seq<Byte>): Exit
    decreases |keys|
  {
    if keys == [] then Exit([], st, hand, s, false)
    else
      match OnKey(l, st, hand, keys[0])
      case Quit => Exit([], st, hand, s, false)
      case Idle => KeyLoop(l, read, keys[1..], s, st, hand)
      case Ask(m) =>
        match read(s, st, hand)
        case Incomplete => Exit([m], st, hand, s, true)
        case Complete(c, rest) =>
          var later := KeyLoop(l, read, keys[1..], rest, c.st, c.hand);
          later.(asked := [m] + later.asked)
  }

  /** The invariant of the loop: after these requests it owes exactly what is left of the run. */
  ghost predicate OnTrack(goal: Exit, asked: seq<KeyMsg>, left: Exit) { goal == left.(asked := asked + left.asked) }

  lemma AskStaysOnTrack(goal: Exit, asked: seq<KeyMsg>, m: KeyMsg, later: Exit)
    requires OnTrack(goal, asked, later.(asked := [m] + later.asked))
    ensures OnTrack(goal, asked + [m], later)
  {
    assert asked + ([m] + later.asked) == (asked + [m]) + later.asked;
  }

  lemma KeyLoopEnds(s: seq<Byte>, st: seq<Byte>, hand: seq<Byte>, goal: Exit, asked: seq<KeyMsg>)
    requires OnTrack(goal, asked, Exit([], st, hand, s, false))
    ensures goal == Exit(asked, st, hand, s, false)
  {
    assert asked + [] == asked;
  }

  /** A request the run goes through takes no more than the whole run does. */
  lemma AskIsAfforded(goal: Exit, asked: seq<KeyMsg>, m: KeyMsg, left: Exit)
    requires OnTrack(goal, asked, left) && left.asked != [] && left.asked[0] == m
    ensures |WiredAll(asked)| + HEADER + |m.payload| <= |WiredAll(goal.asked)|
  {
    WiredConcatenates(asked, left.asked);
    WiredConcatenates([m], left.asked[1..]);
    assert [m] + left.asked[1..] == left.asked && [m][..0] == [];
    assert WiredAll([m]) == Wired(m);
  }

  lemma SentOneMore(before: seq<Byte>, asked: seq<KeyMsg>, m: KeyMsg)
    ensures (before + WiredAll(asked)) + Frame(m.op, m.payload) == before + WiredAll(asked + [m])
    ensures |WiredAll(asked + [m])| == |WiredAll(asked)| + HEADER + |m.payload|
  {
    assert (asked + [m])[..|asked|] == asked;
    Regroup(before, WiredAll(asked), Wired(m));
  }

  /** One request and its answer, after the ones asked before. */
  method Exchange(conn: Conn, copies: Copies, m: KeyMsg, ghost read: Reader, ghost before: seq<Byte>, ghost asked: seq<KeyMsg>)
    returns (ok: bool)
    requires ReadsAs(read) && conn.outgoing == before + WiredAll(asked)
    modifies conn`incoming, conn`outgoing, conn`chances, copies
    ensures ok ==> conn.outgoing == before + WiredAll(asked + [m])
    ensures ok ==> read(old(conn.incoming), old(copies.st), old(copies.hand)) ==
                   Complete(Mirror(copies.st, copies.hand, true, true), conn.incoming)
    ensures ok ==> conn.Slack() + |WiredAll(asked + [m])| >= old(conn.Slack()) + |WiredAll(asked)|
    ensures (old(conn.Slack()) >= HEADER + |m.payload| &&
             read(old(conn.incoming), old(copies.st), old(copies.hand)).Complete?) ==> ok
  {
    SentOneMore(before, asked, m);
    var rc := ProtoSend(conn, m.op, m.payload);
    if rc != 0 { return false; }
    rc := RecvUntil(conn, copies);
    ok := rc == 0;
  }

  /** A key that asks: after the exchange the loop is on track for the keys behind it. */
  method PressKey(l: Layout, conn: Conn, copies: Copies, m: KeyMsg, ghost read: Reader, ghost keys: string, ghost goal: Exit,
                  ghost before: seq<Byte>, ghost asked: seq<KeyMsg>)
    returns (ok: bool)
    requires ReadsAs(read) && keys != [] && OnKey(l, copies.st, copies.hand, keys[0]) == Ask(m)
    requires conn.outgoing == before + WiredAll(asked)
    requires OnTrack(goal, asked, KeyLoop(l, read, keys, conn.incoming, copies.st, copies.hand))
    modifies conn`incoming, conn`outgoing, conn`chances, copies
    ensures ok ==> conn.outgoing == before + WiredAll(asked + [m])
    ensures ok ==> OnTrack(goal, asked + [m], KeyLoop(l, read, keys[1..], conn.incoming, copies.st, copies.hand))
    ensures ok ==> conn.Slack() + |WiredAll(asked + [m])| >= old(conn.Slack()) + |WiredAll(asked)|
    ensures (!goal.broken && old(conn.Slack()) + |WiredAll(asked)| >= |WiredAll(goal.asked)|) ==> ok
  {
    AskIsAfforded(goal, asked, m, KeyLoop(l, read, keys, conn.incoming, copies.st, copies.hand));
    ok := Exchange(conn, copies, m, read, before, asked);
    if ok {
      AskStaysOnTrack(goal, asked, m, KeyLoop(l, read, keys[1..], conn.incoming, copies.st, copies.hand));
    }
  }

  /** The loop itself, for the keys the user will press. It does what KeyLoop says unless the connection breaks, and a
      connection willing to carry the requests and all that is to be read does not. */
  method RunKeys(l: Layout, conn: Conn, copies: Copies, keys: string, ghost read: Reader) returns (broken: bool)
    requires ReadsAs(read)
    modifies conn`incoming, conn`outgoing, conn`chances, copies
    ensures var e := KeyLoop(l, read, keys, old(conn.incoming), old(copies.st), old(copies.hand));
            && (!broken ==> conn.outgoing == old(conn.outgoing) + WiredAll(e.asked) &&
                            e == Exit(e.asked, copies.st, copies.hand, conn.incoming, false))
            && (!e.broken && old(conn.Slack()) >= |WiredAll(e.asked)| ==> !broken)
  {
    ghost var before := conn.outgoing;
    ghost var goal := KeyLoop(l, read, keys, conn.incoming, copies.st, copies.hand);
    ghost var asked: seq<KeyMsg> := [];
    assert before + [] == before && [] + goal.asked == goal.asked;
    assert keys[0..] == keys;
    var i := 0;
    while i < |keys|
      invariant i <= |keys| && conn.outgoing == before + WiredAll(asked)
      invariant conn.Slack() + |WiredAll(asked)| >= old(conn.Slack())
      invariant OnTrack(goal, asked, KeyLoop(l, read, keys[i..], conn.incoming, copies.st, copies.hand))
    {
      assert keys[i..][0] == keys[i] && keys[i..][1..] == keys[i + 1..];
      match OnKey(l, copies.st, copies.hand, keys[i])
      case Quit =>
        KeyLoopEnds(conn.incoming, copies.st, copies.hand, goal, asked);
        return false;
      case Idle => i := i + 1;
      case Ask(m) =>
        var ok := PressKey(l, conn, copies, m, read, keys[i..], goal, before, asked);
        if !ok { return true; }
        asked := asked + [m];
        i := i + 1;
    }
    assert keys[i..] == [];
    KeyLoopEnds(conn.incoming, copies.st, copies.hand, goal, asked);
    return false;
  }
}
