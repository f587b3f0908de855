/** The terminal client and its server process together, over two byte pipes that deliver in chunks of any size and at
    any time, with nothing lost. */
module Lockstep {
  import opened Machine
  import opened Wire
  import opened Table
  import opened Store
  import opened Session
  import opened SessionProofs
  import opened Client

  /** Bytes that can be read, and bytes still on their way. */
  datatype Pipe = Pipe(arrived: seq<Byte>, flying: seq<Byte>) {
    function All(): seq<Byte> { arrived + flying }
  }

  /** `Broken` is where either side gives up on a frame it cannot accept. */
  datatype Mode = AtKeys | Receiving | Gone | Broken

  datatype Duo = Duo(mode: Mode, c: Mirror, up: Pipe, t: Table, down: Pipe)

  datatype Move =
    | Press(ch: char)     // the user, while the client waits for a key
    | CarryUp(k: nat)     // the network
    | CarryDown(k: nat)
    | Serve               // the server, once a whole frame has arrived
    | Read                // the client inside recv_until, once a whole frame has arrived

  /** A whole frame has arrived, so the exact-count reads of `proto_recv` will return. */
  predicate FrameReady(s: seq<Byte>) { |s| >= HEADER && |s| >= FromBe32(s[..4]) }

  predicate Enabled(d: Duo, mv: Move) {
    match mv
    case Press(_) => d.mode == AtKeys
    case CarryUp(k) => 1 <= k <= |d.up.flying|
    case CarryDown(k) => 1 <= k <= |d.down.flying|
    case Serve => d.mode != Broken && FrameReady(d.up.arrived)
    case Read => d.mode == Receiving && FrameReady(d.down.arrived)
  }

  function Carry(p: Pipe, k: nat): Pipe
    requires k <= |p.flying|
  {
    Pipe(p.arrived + p.flying[..k], p.flying[k..])
  }

  function Pressed(l: Layout, d: Duo, ch: char): Duo {
    match OnKey(l, d.c.st, d.c.hand, ch)
    case Idle => d
    case Quit => d.(mode := Gone)
    case Ask(m) =>
      d.(mode := Receiving, c := d.c.(gotState := false, gotHand := false),
         up := d.up.(flying := d.up.flying + Wired(m)))
  }

  function Served(l: Layout, r: Rand, d: Duo): Duo
    requires Lawful(l)
  {
    match Parse(d.up.arrived, SERVER_CAP)
    case Reject => d.(mode := Broken)
    case Accept(op, payload, rest) =>
      var pass := Pass(r, d.t, Msg(op, payload));
      RepliesAreSendable(l, Replies(pass.events));
      d.(up := d.up.(arrived := rest), t := pass.t,
         down := d.down.(flying := d.down.flying + Stream(ToPackets(l, Replies(pass.events)))))
  }

  function HasRead(d: Duo): Duo {
    match Parse(d.down.arrived, CLIENT_CAP)
    case Reject => d.(mode := Broken)
    case Accept(op, payload, rest) =>
      var c := Absorb(d.c, Packet(op, payload));
      d.(c := c, down := d.down.(arrived := rest), mode := if c.gotState && c.gotHand then AtKeys else Receiving)
  }

  function Apply(l: Layout, r: Rand, d: Duo, mv: Move): Duo
    requires Lawful(l) && Enabled(d, mv)
  {
    match mv
    case Press(ch) => Pressed(l, d, ch)
    case CarryUp(k) => d.(up := Carry(d.up, k))
    case CarryDown(k) => d.(down := Carry(d.down, k))
    case Serve => Served(l, r, d)
    case Read => HasRead(d)
  }

  /* ---- Reading from a pipe ---- */

  /** Once a whole frame has arrived, it is accepted, and what was behind it stays behind it. */
  lemma ReadyFrame(p: Pipe, op: Word16, payload: seq<Byte>, rest: seq<Byte>, cap: nat)
    requires |payload| <= cap && |payload| <= BUFFER - HEADER
    requires p.All() == Frame(op, payload) + rest && FrameReady(p.arrived)
    ensures Parse(p.arrived, cap).Accept?
    ensures var a := Parse(p.arrived, cap);
            a.op == op && a.payload == payload && Pipe(a.rest, p.flying).All() == rest
  {
    var len := HEADER + |payload|;
    FrameFields(op, Checksum(Assemble(op, 0, payload)), payload, rest);
    Be32Inverse(len, [0, 0, 0, 0]);
    assert p.arrived[..4] == p.All()[..4] == Be32(len);
    assert p.arrived[..len] == p.All()[..len] == Frame(op, payload);
    assert p.arrived == Frame(op, payload) + p.arrived[len..];
    ParseOfFrame(op, payload, p.arrived[len..], cap);
    assert p.arrived[len..] + p.flying == p.All()[len..] == rest;
  }

  /** A frame that is all there is ready to be read, so while it is not, something is still on its way. */
  lemma WholeFrameIsReady(s: seq<Byte>, op: Word16, payload: seq<Byte>, rest: seq<Byte>)
    requires |payload| <= BUFFER - HEADER && s == Frame(op, payload) + rest
    ensures FrameReady(s)
  {
    FrameFields(op, Checksum(Assemble(op, 0, payload)), payload, rest);
    Be32Inverse(HEADER + |payload|, [0, 0, 0, 0]);
  }

  lemma CarryKeepsAll(p: Pipe, k: nat)
    requires k <= |p.flying|
    ensures Carry(p, k).All() == p.All()
  {
    assert p.flying == p.flying[..k] + p.flying[k..];
  }

  /* ---- The invariant ---- */

  predicate InStep(l: Layout, d: Duo) { d.c.st == l.state(d.t.st) && d.c.hand == l.hand(d.t.hand) }

  /** The packets ahead of the client end with the current STATE and HAND, and those before are neither. */
  predicate Awaiting(l: Layout, c: Mirror, t: Table, ps: seq<Packet>) {
    var stateMsg := ToPacket(l, StateMsg(t.st));
    var handMsg := ToPacket(l, HandMsg(t.hand));
    !c.gotHand &&
    if c.gotState then c.st == l.state(t.st) && ps == [handMsg]
    else
      && |ps| >= 2 && ps[|ps| - 2] == stateMsg && ps[|ps| - 1] == handMsg
      && forall i | 0 <= i < |ps| - 2 :: ps[i].op != OP_STATE && ps[i].op != OP_HAND
  }

  ghost predicate Asked(d: Duo) {
    d.down.All() == [] && !d.c.gotState && !d.c.gotHand &&
    exists m | Request(m) && |m.payload| <= 1 :: d.up.All() == Wired(m)
  }

  predicate AnsweredWith(l: Layout, d: Duo, ps: seq<Packet>) {
    && d.up.All() == []
    && AllSendable(ps, CLIENT_CAP) && AllSendable(ps, BUFFER)
    && d.down.All() == Stream(ps) && Awaiting(l, d.c, d.t, ps)
  }

  ghost predicate Answered(l: Layout, d: Duo) { exists ps :: AnsweredWith(l, d, ps) }

  ghost predicate Inv(l: Layout, d: Duo) {
    match d.mode
    case Broken => false
    case Gone => d.up.All() == [] && d.down.All() == []
    case AtKeys => Ready(d.t) && d.up.All() == [] && d.down.All() == [] && InStep(l, d)
    case Receiving => Ready(d.t) && (Asked(d) || Answered(l, d))
  }

  /* ---- Every move keeps it ---- */

  /** The client is in step, asks, and the request is on its way. */
  lemma PressKeepsInv(l: Layout, d: Duo, ch: char)
    requires Lawful(l) && Inv(l, d) && d.mode == AtKeys
    ensures Inv(l, Pressed(l, d, ch))
  {
    match OnKey(l, d.c.st, d.c.hand, ch)
    case Idle =>
    case Quit =>
    case Ask(m) =>
      var d' := Pressed(l, d, ch);
      assert Request(m) && |m.payload| <= 1;
      assert d'.up.All() == Wired(m) by {
        assert d.up.arrived == [] && d.up.flying == [];
      }
      assert Asked(d');
  }

  lemma CarryKeepsInv(l: Layout, d: Duo, mv: Move)
    requires Lawful(l) && Inv(l, d) && Enabled(d, mv) && (mv.CarryUp? || mv.CarryDown?)
    ensures Inv(l, if mv.CarryUp? then d.(up := Carry(d.up, mv.k)) else d.(down := Carry(d.down, mv.k)))
  {
    var d' := if mv.CarryUp? then d.(up := Carry(d.up, mv.k)) else d.(down := Carry(d.down, mv.k));
    CarryKeepsAll(if mv.CarryUp? then d.up else d.down, mv.k);
    assert d'.up.All() == d.up.All() && d'.down.All() == d.down.All();
    if d.mode == Receiving && Answered(l, d) {
      var ps :| AnsweredWith(l, d, ps);
      assert AnsweredWith(l, d', ps);
    }
  }

  lemma ListIsAwaited(l: Layout, c: Mirror, t: Table, front: seq<Reply>)
    requires !c.gotState && !c.gotHand && forall x | x in front :: !x.StateMsg? && !x.HandMsg?
    ensures Awaiting(l, c, t, ToPackets(l, front + [StateMsg(t.st), HandMsg(t.hand)]))
  {
    var xs := front + [StateMsg(t.st), HandMsg(t.hand)];
    var ps := ToPackets(l, xs);
    forall i | 0 <= i < |ps| - 2
      ensures ps[i].op != OP_STATE && ps[i].op != OP_HAND
    {
      assert xs[i] == front[i] && front[i] in front;
    }
  }

  /** What the server sends back for a request is what the client awaits. */
  lemma AnswerIsAwaited(l: Layout, r: Rand, t: Table, m: Msg, c: Mirror)
    requires Lawful(l) && Ready(t) && Request(m) && !c.gotState && !c.gotHand
    ensures var pass := Pass(r, t, m);
            Ready(pass.t) && Awaiting(l, c, pass.t, ToPackets(l, Replies(pass.events)))
  {
    PassIsHandle(r, t, m);
    HandleKeepsReady(r, t, m);
    var errors := RequestIsAnswered(r, t, m);
    ListIsAwaited(l, c, Handle(r, t, m).t, errors);
  }

  lemma PassIsHandle(r: Rand, t: Table, m: Msg)
    requires Ready(t)
    ensures Pass(r, t, m) == Handle(r, t, m)
  {
    LetAiPlayMakesReady(r, t);
    assert [] + Handle(r, t, m).events == Handle(r, t, m).events;
  }

  lemma ServeKeepsInv(l: Layout, r: Rand, d: Duo)
    requires Lawful(l) && Inv(l, d) && Enabled(d, Serve)
    ensures Inv(l, Served(l, r, d))
  {
    if d.mode != Receiving || !Asked(d) {
      assert false;
    }
    var m: Msg :| Request(m) && |m.payload| <= 1 && d.up.All() == Wired(m);
    assert d.up.All() == Frame(m.op, m.payload) + [];
    ReadyFrame(d.up, m.op, m.payload, [], SERVER_CAP);
    AnswerIsAwaited(l, r, d.t, m, d.c);
    var ps := ToPackets(l, Replies(Pass(r, d.t, m).events));
    RepliesAreSendable(l, Replies(Pass(r, d.t, m).events));
    assert AnsweredWith(l, Served(l, r, d), ps);
  }

  /** The client reads the next packet ahead of it. */
  lemma ReadKeepsInv(l: Layout, d: Duo)
    requires Lawful(l) && Inv(l, d) && Enabled(d, Read)
    ensures Inv(l, HasRead(d))
  {
    if Asked(d) {
      assert false;
    }
    var ps: seq<Packet> :| AnsweredWith(l, d, ps);
    var p := ps[0];
    ReadyFrame(d.down, p.op, p.payload, Stream(ps[1..]), CLIENT_CAP);
    var d' := HasRead(d);
    AbsorbOne(l, d.c, d.t, ps);
    if d'.mode == AtKeys {
      assert Stream(ps[1..]) == [];
    } else {
      assert AnsweredWith(l, d', ps[1..]);
    }
  }

  lemma AbsorbOne(l: Layout, c: Mirror, t: Table, ps: seq<Packet>)
    requires Lawful(l) && Awaiting(l, c, t, ps)
    ensures ps != []
    ensures var c' := Absorb(c, ps[0]);
            if c'.gotState && c'.gotHand then ps[1..] == [] && c'.st == l.state(t.st) && c'.hand == l.hand(t.hand)
            else Awaiting(l, c', t, ps[1..])
  {
  }

  lemma MoveKeepsInv(l: Layout, r: Rand, d: Duo, mv: Move)
    requires Lawful(l) && Inv(l, d) && Enabled(d, mv)
    ensures Inv(l, Apply(l, r, d, mv))
  {
    match mv
    case Press(ch) => PressKeepsInv(l, d, ch);
    case CarryUp(_) => CarryKeepsInv(l, d, mv);
    case CarryDown(_) => CarryKeepsInv(l, d, mv);
    case Serve => ServeKeepsInv(l, r, d);
    case Read => ReadKeepsInv(l, d);
  }

  /** The same for the loop itself: `recv_until` takes from the stream exactly the packets it awaits. */
  lemma {:induction false} AwaitedIsCollected(l: Layout, c: Mirror, t: Table, ps: seq<Packet>, rest: seq<Byte>)
    requires Lawful(l) && Awaiting(l, c, t, ps) && AllSendable(ps, CLIENT_CAP) && AllSendable(ps, BUFFER)
    ensures Collect(Stream(ps) + rest, c) == Complete(Mirror(l.state(t.st), l.hand(t.hand), true, true), rest)
    decreases |ps|
  {
    AbsorbOne(l, c, t, ps);
    var p := ps[0];
    var c' := Absorb(c, p);
    ParseOfFrame(p.op, p.payload, Stream(ps[1..]) + rest, CLIENT_CAP);
    Regroup(Frame(p.op, p.payload), Stream(ps[1..]), rest);
    if c'.gotState && c'.gotHand {
      assert Stream(ps[1..]) + rest == rest;
    } else {
      AwaitedIsCollected(l, c', t, ps[1..], rest);
    }
  }

  /** One whole exchange: the reply to a key's request, followed by anything, leaves the client in step and the rest
      unread. */
  lemma ExchangeIsExact(l: Layout, r: Rand, t: Table, m: Msg, st: seq<Byte>, hand: seq<Byte>, rest: seq<Byte>)
    requires Lawful(l) && Ready(t) && Request(m)
    ensures var pass := Pass(r, t, m); var ps := ToPackets(l, Replies(pass.events));
            && AllSendable(ps, BUFFER)
            && Collect(Stream(ps) + rest, Mirror(st, hand, false, false)) ==
               Complete(Mirror(l.state(pass.t.st), l.hand(pass.t.hand), true, true), rest)
  {
    var c := Mirror(st, hand, false, false);
    AnswerIsAwaited(l, r, t, m, c);
    RepliesAreSendable(l, Replies(Pass(r, t, m).events));
    AwaitedIsCollected(l, c, Pass(r, t, m).t, ToPackets(l, Replies(Pass(r, t, m).events)), rest);
  }

  /* ---- The key loop against the server ---- */

  /** The requests the keys make while client and server are in step at table t. */
  function Requests(l: Layout, r: Rand, t: Table, keys: string): seq<KeyMsg>
    decreases |keys|
  {
    if keys == [] then []
    else
      match OnKey(l, l.state(t.st), l.hand(t.hand), keys[0])
      case Quit => []
      case Idle => Requests(l, r, t, keys[1..])
      case Ask(m) => [m] + Requests(l, r, Handle(r, t, m).t, keys[1..])
  }

  /** What the server writes in answer to these messages. */
  function AnswerBytes(l: Layout, r: Rand, t: Table, msgs: seq<Msg>): seq<Byte>
    requires Lawful(l)
    decreases |msgs|
  {
    if msgs == [] then []
    else
      var h := Handle(r, t, msgs[0]);
      RepliesAreSendable(l, Replies(h.events));
      Stream(ToPackets(l, Replies(h.events))) + AnswerBytes(l, r, h.t, msgs[1..])
  }

  lemma KeyIsRequest(l: Layout, st: seq<Byte>, hand: seq<Byte>, ch: char)
    ensures var deed := OnKey(l, st, hand, ch); deed.Ask? ==> Request(deed.m)
  {
  }

  /** One key that asks, over the answer to it and whatever follows. */
  lemma KeyExchange(l: Layout, r: Rand, read: Reader, t: Table, m: Msg, rest: seq<Byte>)
    requires Lawful(l) && ReadsAs(read) && Ready(t) && Request(m)
    ensures var h := Handle(r, t, m);
            && AllSendable(ToPackets(l, Replies(h.events)), BUFFER)
            && read(Stream(ToPackets(l, Replies(h.events))) + rest, l.state(t.st), l.hand(t.hand)) ==
               Complete(Mirror(l.state(h.t.st), l.hand(h.t.hand), true, true), rest)
  {
    PassIsHandle(r, t, m);
    ExchangeIsExact(l, r, t, m, l.state(t.st), l.hand(t.hand), rest);
  }

  /** The key loop over the concatenated answers of the server, for any keys: it sends the requests the keys make, ends
      with the server's own state and hand, breaks nowhere, and leaves unread exactly what follows the answers. */
  lemma {:induction false} KeysPlayOut(l: Layout, r: Rand, read: Reader, t: Table, keys: string, rest: seq<Byte>)
    requires Lawful(l) && ReadsAs(read) && Ready(t)
    ensures var ms := Requests(l, r, t, keys); var u := ServeAll(r, t, ms).t;
            KeyLoop(l, read, keys, AnswerBytes(l, r, t, ms) + rest, l.state(t.st), l.hand(t.hand)) ==
            Exit(ms, l.state(u.st), l.hand(u.hand), rest, false)
    decreases |keys|
  {
    var ms := Requests(l, r, t, keys);
    if keys == [] {
      assert [] + rest == rest;
    } else {
      match OnKey(l, l.state(t.st), l.hand(t.hand), keys[0])
      case Quit => assert [] + rest == rest;
      case Idle => KeysPlayOut(l, r, read, t, keys[1..], rest);
      case Ask(m) =>
        var h := Handle(r, t, m);
        var later := Requests(l, r, h.t, keys[1..]);
        HandleKeepsReady(r, t, m);
        KeysPlayOut(l, r, read, h.t, keys[1..], rest);
        KeyAsks(l, r, read, t, keys, m, later, rest);
    }
  }

  lemma KeyAsks(l: Layout, r: Rand, read: Reader, t: Table, keys: string, m: KeyMsg, later: seq<KeyMsg>, rest: seq<Byte>)
    requires Lawful(l) && ReadsAs(read) && Ready(t) && keys != []
    requires OnKey(l, l.state(t.st), l.hand(t.hand), keys[0]) == Ask(m)
    ensures var h := Handle(r, t, m);
            var after := KeyLoop(l, read, keys[1..], AnswerBytes(l, r, h.t, later) + rest, l.state(h.t.st), l.hand(h.t.hand));
            && KeyLoop(l, read, keys, AnswerBytes(l, r, t, [m] + later) + rest, l.state(t.st), l.hand(t.hand)) ==
               after.(asked := [m] + after.asked)
            && ServeAll(r, t, [m] + later).t == ServeAll(r, h.t, later).t
  {
    var h := Handle(r, t, m);
    assert ([m] + later)[1..] == later;
    KeyIsRequest(l, l.state(t.st), l.hand(t.hand), keys[0]);
    KeyExchange(l, r, read, t, m, AnswerBytes(l, r, h.t, later) + rest);
    Regroup(Stream(ToPackets(l, Replies(h.events))), AnswerBytes(l, r, h.t, later), rest);
  }

  /* ---- Conversations ---- */

  function LoginReplies(r: Rand, sid: Word64): seq<Reply> {
    [LoginResp, ResumeResp(true, sid)] + [StateMsg(LoginTable(r).st), HandMsg(LoginTable(r).hand)]
  }

  /** The moment the server has answered the client's login and the client has just entered `recv_until`. */
  function Begin(l: Layout, r: Rand, sid: Word64): Duo
    requires Lawful(l)
  {
    RepliesAreSendable(l, LoginReplies(r, sid));
    Duo(Receiving, Mirror(seq(STATE_BYTES, _ => 0), seq(HAND_BYTES, _ => 0), false, false), Pipe([], []), LoginTable(r),
        Pipe([], Stream(ToPackets(l, LoginReplies(r, sid)))))
  }

  /** Those are the replies of the handshake. */
  lemma BeginIsLogin(r: Rand, slots: seq<Slot>, draw: Word64, m: Msg)
    requires m.op == OP_LOGIN_REQ && Greet(r, slots, draw, m).Joined?
    ensures var j := Greet(r, slots, draw, m);
            j.t == LoginTable(r) && Replies(j.events) == LoginReplies(r, j.sid)
  {
    var j := Greet(r, slots, draw, m);
    var head := [Save(EntryOf(j.t)), Send(LoginResp), Send(ResumeResp(true, j.sid))];
    assert head[1..][1..] == [Send(ResumeResp(true, j.sid))] && head[1..][1..][1..] == [];
    assert Replies(head[1..][1..]) == [ResumeResp(true, j.sid)];
    assert Replies(head[1..]) == [LoginResp] + [ResumeResp(true, j.sid)];
    ShowReplies(head, j.t);
  }

  lemma BeginInv(l: Layout, r: Rand, sid: Word64)
    requires Lawful(l)
    ensures Inv(l, Begin(l, r, sid))
  {
    var d := Begin(l, r, sid);
    LoginIsReady(r);
    RepliesAreSendable(l, LoginReplies(r, sid));
    ListIsAwaited(l, d.c, d.t, [LoginResp, ResumeResp(true, sid)]);
    assert AnsweredWith(l, d, ToPackets(l, LoginReplies(r, sid)));
  }

  /** Any interleaving of keys, chunks, server and client steps; a move that cannot happen does not. */
  function Converse(l: Layout, r: Rand, d: Duo, moves: seq<Move>): Duo
    requires Lawful(l)
    decreases |moves|
  {
    if moves == [] then d
    else Converse(l, r, if Enabled(d, moves[0]) then Apply(l, r, d, moves[0]) else d, moves[1..])
  }

  lemma {:induction false} ConverseKeepsInv(l: Layout, r: Rand, d: Duo, moves: seq<Move>)
    requires Lawful(l) && Inv(l, d)
    ensures Inv(l, Converse(l, r, d, moves))
    decreases |moves|
  {
    if moves != [] {
      if Enabled(d, moves[0]) {
        MoveKeepsInv(l, r, d, moves[0]);
      }
      ConverseKeepsInv(l, r, if Enabled(d, moves[0]) then Apply(l, r, d, moves[0]) else d, moves[1..]);
    }
  }

  /** Lockstep: after a login, whatever the deals, the keys, the chunks and the schedule, no frame is ever rejected, and
      whenever the client waits for a key its state and hand are the server's and no byte is unread on either side. */
  lemma ClientIsInStep(l: Layout, r: Rand, sid: Word64, moves: seq<Move>)
    requires Lawful(l)
    ensures var d := Converse(l, r, Begin(l, r, sid), moves);
            && d.mode != Broken
            && (d.mode == AtKeys ==> InStep(l, d) && d.up.All() == [] && d.down.All() == [] && Ready(d.t))
  {
    BeginInv(l, r, sid);
    ConverseKeepsInv(l, r, Begin(l, r, sid), moves);
  }

  /** Inside `recv_until` the conversation is never stuck: the network, the server or the client can move. */
  lemma NeverStuck(l: Layout, d: Duo)
    requires Lawful(l) && Inv(l, d) && d.mode == Receiving
    ensures exists mv: Move | !mv.Press? :: Enabled(d, mv)
  {
    if Asked(d) {
      var m: Msg :| Request(m) && |m.payload| <= 1 && d.up.All() == Wired(m);
      assert d.up.All() == Frame(m.op, m.payload) + [];
      WholeFrameIsReady(d.up.All(), m.op, m.payload, []);
      if d.up.flying == [] {
        assert d.up.All() == d.up.arrived;
        assert Enabled(d, Serve);
      } else {
        assert Enabled(d, CarryUp(1));
      }
    } else {
      var ps: seq<Packet> :| AnsweredWith(l, d, ps);
      var p := ps[0];
      WholeFrameIsReady(d.down.All(), p.op, p.payload, Stream(ps[1..]));
      if d.down.flying == [] {
        assert d.down.All() == d.down.arrived;
        assert Enabled(d, Read);
      } else {
        assert Enabled(d, CarryDown(1));
      }
    }
  }

  /** What is left to carry, serve and read. Every byte is carried and then read; a byte of a request also stands for its
      share of the answer. */
  function Weight(d: Duo): nat { 500 * |d.up.All()| + |d.up.flying| + |d.down.All()| + |d.down.flying| }

  lemma {:induction false} StreamSize(ps: seq<Packet>)
    requires AllSendable(ps, BUFFER) && forall i | 0 <= i < |ps| :: |ps[i].payload| <= STATE_BYTES
    ensures |Stream(ps)| <= 413 * |ps|
    decreases |ps|
  {
    if ps != [] {
      var bytes := Frame(ps[0].op, ps[0].payload);
      assert |bytes| <= 413;
      StreamSize(ps[1..]);
    }
  }

  lemma RepliesSize(l: Layout, xs: seq<Reply>)
    requires Lawful(l)
    ensures AllSendable(ToPackets(l, xs), BUFFER) && |Stream(ToPackets(l, xs))| <= 413 * |xs|
  {
    RepliesAreSendable(l, xs);
    StreamSize(ToPackets(l, xs));
  }

  /** An answer is at most three packets, none longer than a STATE. */
  lemma AnswerSize(l: Layout, r: Rand, t: Table, m: Msg, xs: seq<Reply>)
    requires Lawful(l) && Ready(t) && Request(m) && xs == Replies(Pass(r, t, m).events)
    ensures AllSendable(ToPackets(l, xs), BUFFER) && |Stream(ToPackets(l, xs))| <= 3 * 413
  {
    PassIsHandle(r, t, m);
    var errors := RequestIsAnswered(r, t, m);
    assert |xs| <= 3;
    RepliesSize(l, xs);
  }

  lemma ServeGetsLighter(l: Layout, r: Rand, d: Duo)
    requires Lawful(l) && Inv(l, d) && Enabled(d, Serve)
    ensures Weight(Served(l, r, d)) < Weight(d) && Served(l, r, d).mode == d.mode
  {
    if d.mode != Receiving || !Asked(d) {
      assert false;
    }
    var m: Msg :| Request(m) && |m.payload| <= 1 && d.up.All() == Wired(m);
    assert d.up.All() == Frame(m.op, m.payload) + [];
    ReadyFrame(d.up, m.op, m.payload, [], SERVER_CAP);
    AnswerSize(l, r, d.t, m, Replies(Pass(r, d.t, m).events));
    var d' := Served(l, r, d);
    assert d'.up.All() == [] && |d'.down.All()| == |d'.down.flying|;
  }

  lemma ReadGetsLighter(l: Layout, d: Duo)
    requires Lawful(l) && Inv(l, d) && Enabled(d, Read)
    ensures Weight(HasRead(d)) < Weight(d) && HasRead(d).mode in {AtKeys, Receiving}
  {
    if Asked(d) {
      assert false;
    }
    var ps: seq<Packet> :| AnsweredWith(l, d, ps);
    var p := ps[0];
    ReadyFrame(d.down, p.op, p.payload, Stream(ps[1..]), CLIENT_CAP);
  }

  /** Every move inside `recv_until` leaves less to do. */
  lemma MovesGetLighter(l: Layout, r: Rand, d: Duo, mv: Move)
    requires Lawful(l) && Inv(l, d) && Enabled(d, mv) && !mv.Press? && d.mode in {AtKeys, Receiving}
    ensures Weight(Apply(l, r, d, mv)) < Weight(d) && Apply(l, r, d, mv).mode in {AtKeys, Receiving}
  {
    match mv
    case CarryUp(k) => CarryKeepsAll(d.up, k);
    case CarryDown(k) => CarryKeepsAll(d.down, k);
    case Serve => ServeGetsLighter(l, r, d);
    case Read => ReadGetsLighter(l, d);
  }

  /** Moves of the network, the server and the client, each of which can happen. */
  predicate Driven(l: Layout, r: Rand, d: Duo, moves: seq<Move>)
    requires Lawful(l)
    decreases |moves|
  {
    moves == [] ||
    (!moves[0].Press? && Enabled(d, moves[0]) && Driven(l, r, Apply(l, r, d, moves[0]), moves[1..]))
  }

  lemma {:induction false} DrivenGetsLighter(l: Layout, r: Rand, d: Duo, moves: seq<Move>)
    requires Lawful(l) && Inv(l, d) && d.mode in {AtKeys, Receiving} && Driven(l, r, d, moves)
    ensures var d' := Converse(l, r, d, moves);
            Inv(l, d') && d'.mode in {AtKeys, Receiving} && |moves| + Weight(d') <= Weight(d)
    decreases |moves|
  {
    if moves != [] {
      MoveKeepsInv(l, r, d, moves[0]);
      MovesGetLighter(l, r, d, moves[0]);
      DrivenGetsLighter(l, r, Apply(l, r, d, moves[0]), moves[1..]);
    }
  }

  /** `recv_until` ends: however the network, the server and the client take their steps, there are no more than Weight of
      them, and when they have been taken, or none is left to take, the client is back at its keys and in step. */
  lemma ReceivingEnds(l: Layout, r: Rand, d: Duo, moves: seq<Move>)
    requires Lawful(l) && Inv(l, d) && d.mode == Receiving && Driven(l, r, d, moves)
    ensures |moves| <= Weight(d)
    ensures var d' := Converse(l, r, d, moves);
            |moves| == Weight(d) || (forall mv: Move | !mv.Press? :: !Enabled(d', mv)) ==> d'.mode == AtKeys && InStep(l, d')
  {
    var d' := Converse(l, r, d, moves);
    DrivenGetsLighter(l, r, d, moves);
    if d'.mode == Receiving {
      NeverStuck(l, d');
      var mv: Move :| !mv.Press? && Enabled(d', mv);
      MovesGetLighter(l, r, d', mv);
    }
  }
}
