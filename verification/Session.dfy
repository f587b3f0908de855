/** One session process (`run_session`, src/server.c:272-427) as a function from messages to the saves and sends it
    performs, in order. Everything between two of these events is private to the process, so a crash is a prefix. */
module Session {
  import opened Machine
  import opened Duel
  import LogRing
  import opened Table
  import opened AiPlayer
  import opened Store

  const OP_LOGIN_REQ: Word16 := 0x0001
  const OP_LOGIN_RESP: Word16 := 0x8001
  const OP_PING: Word16 := 0x0002
  const OP_PONG: Word16 := 0x8002
  const OP_RESUME_REQ: Word16 := 0x0003
  const OP_RESUME_RESP: Word16 := 0x8003
  const OP_PLAY_CARD: Word16 := 0x0101
  const OP_END_TURN: Word16 := 0x0102
  const OP_STATE: Word16 := 0x0201
  const OP_HAND: Word16 := 0x0202
  const OP_ERROR: Word16 := 0xFFFF

  /** What `proto_recv` delivers. */
  datatype Msg = Msg(op: Word16, payload: seq<Byte>)

  datatype Reply =
    | Pong
    | LoginResp
    | ResumeResp(ok: bool, sid: Word64)
    | StateMsg(st: StateT)
    | HandMsg(hand: Hand)
    | ErrorMsg(code: int, text: string)

  datatype Event = Save(e: Entry) | Send(reply: Reply)

  /** The process's table after a step, and the events of that step. */
  datatype Turnout = Turnout(t: Table, events: seq<Event>)

  function EntryOf(t: Table): Entry { Entry(t.st, t.hand) }

  function Show(t: Table): seq<Event> { [Send(StateMsg(t.st)), Send(HandMsg(t.hand))] }

  predicate AiPending(g: Game) { g.turn == Ai && !g.over }

  /** `process_ai_turn` and the save behind it, where the main loop runs them; nothing if the AI has no turn. */
  function LetAiPlay(r: Rand, t: Table): Turnout {
    if AiPending(t.st.g) then Turnout(AiTurn(r, t), [Save(EntryOf(AiTurn(r, t)))]) else Turnout(t, [])
  }

  function PlayError(rc: int): seq<Event> {
    if rc == 0 then []
    else if rc == -1 then [Send(ErrorMsg(-1, "invalid hand idx"))]
    else if rc == -2 then [Send(ErrorMsg(-2, "not enough mana"))]
    else [Send(ErrorMsg(-3, "invalid card"))]
  }

  const PLAY_REQ_BYTES := 1

  function HandlePlay(t: Table, payload: seq<Byte>): Turnout {
    if t.st.g.turn != Player then Turnout(t, [Send(ErrorMsg(-11, "not your turn"))])
    else if t.st.g.phase != MainPhase then Turnout(t, [Send(ErrorMsg(-12, "phase error"))])
    else if |payload| != PLAY_REQ_BYTES then Turnout(t, [Send(ErrorMsg(-10, "bad payload"))])
    else
      var rc := PlayCode(t.st.g, t.hand, Player, payload[0]);
      var u := t.(st := PlaySt(t.st, t.hand, Player, payload[0]));
      Turnout(u, PlayError(rc) + [Save(EntryOf(u))] + Show(u))
  }

  function HandleEnd(r: Rand, t: Table): Turnout {
    if t.st.g.turn != Player then Turnout(t, [Send(ErrorMsg(-11, "not your turn"))])
    else
      var ended := EndTurnT(r, t);
      var ai := LetAiPlay(r, ended);
      Turnout(ai.t, [Save(EntryOf(ended))] + ai.events + Show(ai.t))
  }

  /** The body of the main loop for one message. */
  function Handle(r: Rand, t: Table, m: Msg): Turnout {
    if m.op == OP_PING then Turnout(t, [Send(Pong)])
    else if t.st.g.over then Turnout(t, Show(t))
    else if m.op == OP_PLAY_CARD then HandlePlay(t, m.payload)
    else if m.op == OP_END_TURN then HandleEnd(r, t)
    else if m.op == OP_LOGIN_REQ || m.op == OP_RESUME_REQ then Turnout(t, [])
    else Turnout(t, [Send(ErrorMsg(-99, "unknown opcode"))])
  }

  /** One pass of the main loop: the AI first if it has a turn pending, then the message. */
  function Pass(r: Rand, t: Table, m: Msg): Turnout {
    var ai := LetAiPlay(r, t);
    var h := Handle(r, ai.t, m);
    Turnout(h.t, ai.events + h.events)
  }

  /** The main loop over all the messages the client ever sends. The AI also moves at the top of the pass in which the
      receive finally fails. */
  function MainLoop(r: Rand, t: Table, msgs: seq<Msg>): Turnout
    decreases |msgs|
  {
    if msgs == [] then LetAiPlay(r, t)
    else
      var now := Pass(r, t, msgs[0]);
      var later := MainLoop(r, now.t, msgs[1..]);
      Turnout(later.t, now.events + later.events)
  }

  /* ---- Handshake ---- */

  const RESUME_REQ_BYTES := 8

  /** A 64-bit field in the byte order of the (little-endian) host. */
  function Word(bytes: seq<Byte>): (w: nat) {
    if bytes == [] then 0 else bytes[0] + 0x100 * Word(bytes[1..])
  }

  lemma WordFits(bytes: seq<Byte>)
    requires |bytes| == 8
    ensures Word(bytes) < 0x1_0000_0000_0000_0000
  {
    var b := bytes;
    assert Word(b[8..]) == 0;
    assert b[7..][1..] == b[8..] && b[6..][1..] == b[7..] && b[5..][1..] == b[6..] && b[4..][1..] == b[5..];
    assert b[3..][1..] == b[4..] && b[2..][1..] == b[3..];
    assert Word(b[6..]) < 0x1_0000;
    assert Word(b[4..]) < 0x1_0000_0000;
    assert Word(b[2..]) < 0x1_0000_0000_0000;
  }

  function SessionId(payload: seq<Byte>): Word64
    requires |payload| >= RESUME_REQ_BYTES
  {
    WordFits(payload[..RESUME_REQ_BYTES]);
    Word(payload[..RESUME_REQ_BYTES])
  }

  /** Byte for byte, the low byte first. */
  lemma SessionIdBytes(p: seq<Byte>)
    requires |p| >= 8
    ensures SessionId(p) ==
            p[0] as int + 0x100 * (p[1] as int + 0x100 * (p[2] as int + 0x100 * (p[3] as int + 0x100 *
            (p[4] as int + 0x100 * (p[5] as int + 0x100 * (p[6] as int + 0x100 * p[7] as int))))))
  {
    var b := p[..8];
    assert Word(b[8..]) == 0;
    WordUnfolds(b, 7);
    WordUnfolds(b, 6);
    WordUnfolds(b, 5);
    WordUnfolds(b, 4);
    WordUnfolds(b, 3);
    WordUnfolds(b, 2);
    WordUnfolds(b, 1);
    WordUnfolds(b, 0);
    assert b[0..] == b;
  }

  lemma {:induction false} WordUnfolds(b: seq<Byte>, i: nat)
    requires i < |b|
    ensures Word(b[i..]) == b[i] + 0x100 * Word(b[i + 1..])
  {
    assert b[i..][1..] == b[i + 1..];
  }

  /** The table a resumed process works on: the stored copies, with a line logged after they have been sent. */
  function Resumed(e: Entry): Table {
    Table(e.st.(log := LogRing.Push(e.st.log, "Player Resumed Session")), e.hand, 0)
  }

  datatype Greeting =
    | Waiting(events: seq<Event>)
    | Closed(events: seq<Event>)
    | Joined(sid: Word64, t: Table, events: seq<Event>)

  /** One message of the handshake against the store as it stands; `draw` is for the id of a new session. */
  function Greet(r: Rand, slots: seq<Slot>, draw: Word64, m: Msg): Greeting {
    if m.op == OP_PING then Waiting([Send(Pong)])
    else if m.op == OP_LOGIN_REQ then
      var t := LoginTable(r);
      var sid := AllocId(slots, draw);
      if sid == 0 then Closed([Send(ErrorMsg(-999, "server full"))])
      else Joined(sid, t, [Save(EntryOf(t)), Send(LoginResp), Send(ResumeResp(true, sid))] + Show(t))
    else if m.op == OP_RESUME_REQ then
      if |m.payload| < RESUME_REQ_BYTES then Closed([])
      else
        match Lookup(slots, SessionId(m.payload))
        case None => Waiting([Send(ResumeResp(false, 0))])
        case Some(e) =>
          Joined(SessionId(m.payload), Resumed(e),
                 [Send(ResumeResp(true, SessionId(m.payload))), Send(StateMsg(e.st)), Send(HandMsg(e.hand))])
    else Waiting([])
  }

  /** The store after the process that owns `sid` has performed these events. */
  function StoreAfter(slots: seq<Slot>, sid: Word64, events: seq<Event>): seq<Slot>
    decreases |events|
  {
    if events == [] then slots
    else match events[0]
         case Save(e) => StoreAfter(AfterSave(slots, sid, e), sid, events[1..])
         case Send(_) => StoreAfter(slots, sid, events[1..])
  }

  /** The entry of the process's own session after these events. */
  function Stored(e: Entry, events: seq<Event>): Entry
    decreases |events|
  {
    if events == [] then e
    else match events[0]
         case Save(e') => Stored(e', events[1..])
         case Send(_) => Stored(e, events[1..])
  }

  /** The store in which a joined process performs its first event. */
  function JoinedStore(slots: seq<Slot>, draw: Word64, m: Msg): seq<Slot> {
    if m.op == OP_LOGIN_REQ then AfterAlloc(slots, draw) else slots
  }

  datatype Outcome = Outcome(events: seq<Event>, slots: seq<Slot>)

  /** A whole connection, from the first handshake message to the failing receive, with nobody else at the store. */
  function WholeSession(r: Rand, slots: seq<Slot>, draw: Word64, inbox: seq<Msg>): Outcome
    decreases |inbox|
  {
    if inbox == [] then Outcome([], slots)
    else match Greet(r, slots, draw, inbox[0])
         case Closed(events) => Outcome(events, slots)
         case Waiting(events) =>
           var later := WholeSession(r, slots, draw, inbox[1..]);
           Outcome(events + later.events, later.slots)
         case Joined(sid, t, events) =>
           var all := events + MainLoop(r, t, inbox[1..]).events;
           Outcome(all, StoreAfter(JoinedStore(slots, draw, inbox[0]), sid, all))
  }
}
