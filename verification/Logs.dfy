/** The log ring over whole sessions: which lines a session writes, and that whatever a client is sent shows the last six of
    all it has written so far. */
module Logs {
  import opened Machine
  import opened Duel
  import opened Cards
  import opened LogRing
  import opened Table
  import opened AiPlayer
  import opened Store
  import opened Session
  import opened SessionProofs

  /* ---- The lines written ---- */

  /** An accepted play, and the end of the game if it is one; a refused play writes nothing. */
  function PlayLines(s: StateT, h: Hand, who: Seat, idx: Byte): seq<string> {
    if PlayCode(s.g, h, who, idx) != 0 then []
    else
      var c := GetCardDef(h.ids[idx]).value;
      var after := PlaySt(s, h, who, idx).g;
      [PlayLine(who, c, c.value + s.g.Of(who).buff, after.mana)] + OverLines(s.g, after)
  }

  function OverLines(before: Game, after: Game): seq<string> { if !before.over && after.over then ["GAME OVER"] else [] }

  /** A turn end: the poison that takes effect, and the end of the game or the other side's draw. */
  function EndLines(g: Game): seq<string> {
    var after := EndTurn(Narrow, g);
    [Name(g.turn) + ": END PHASE"] +
    (if g.p.poison > 0 then ["P takes poison (-2)"] else []) +
    (if g.ai.poison > 0 then ["AI takes poison (-2)"] else []) +
    OverLines(g, after) +
    (if after.over then [] else [DrawLine(g.turn.Other())])
  }

  function AiLines(t: Table): seq<string>
    decreases t.st.g.mana
  {
    var i := Choice(t.st.g, t.hand);
    if !Acting(t.st.g) || i < 0 then []
    else
      PlayCosts(t, i);
      PlayLines(t.st, t.hand, Ai, i) + AiLines(AiPlay(t, i))
  }

  function AiTurnLines(t: Table): seq<string> {
    if !AiPending(t.st.g) then []
    else AiLines(t) + (if AiPlays(t).st.g.over then [] else EndLines(AiPlays(t).st.g))
  }

  function HandleLines(r: Rand, t: Table, m: Msg): seq<string> {
    if m.op == OP_PING || t.st.g.over then []
    else if m.op == OP_PLAY_CARD then
      if t.st.g.turn == Player && t.st.g.phase == MainPhase && |m.payload| == PLAY_REQ_BYTES
      then PlayLines(t.st, t.hand, Player, m.payload[0]) else []
    else if m.op == OP_END_TURN && t.st.g.turn == Player then EndLines(t.st.g) + AiTurnLines(EndTurnT(r, t))
    else []
  }

  function ServeLines(r: Rand, t: Table, msgs: seq<Msg>): seq<string>
    decreases |msgs|
  {
    if msgs == [] then [] else HandleLines(r, t, msgs[0]) + ServeLines(r, Handle(r, t, msgs[0]).t, msgs[1..])
  }

  /* ---- They are what the ring is given ---- */

  lemma {:induction false} PushesConcatenate(ring: Ring, a: seq<string>, b: seq<string>)
    ensures PushAll(ring, a + b) == PushAll(PushAll(ring, a), b)
  {
    if b == [] {
      assert a + b == a;
    } else {
      PushesConcatenate(ring, a, b[..|b| - 1]);
      assert (a + b)[..|a + b| - 1] == a + b[..|b| - 1];
    }
  }

  /** `PushIf` is pushing one line or none. */
  lemma PushOne(ring: Ring, pushed: bool, line: string)
    ensures PushIf(ring, pushed, line) == PushAll(ring, if pushed then [line] else [])
    ensures Push(ring, line) == PushAll(ring, [line])
  {
    assert [line][..0] == [];
  }

  lemma OverWrites(s: StateT)
    ensures CheckOverSt(s).log == PushAll(s.log, OverLines(s.g, CheckOver(s.g)))
  {
    PushOne(s.log, !s.g.over && Down(s.g), "GAME OVER");
  }

  lemma PlayWrites(s: StateT, h: Hand, who: Seat, idx: Byte)
    ensures PlaySt(s, h, who, idx).log == PushAll(s.log, PlayLines(s, h, who, idx))
  {
    if idx < h.n && h.ids[idx] != 0 && GetCardDef(h.ids[idx]).Some? {
      var c := GetCardDef(h.ids[idx]).value;
      TableIsRated(c);
      if c.cost <= s.g.mana {
        CardWrites(s, who, c);
      }
    }
  }

  lemma CardWrites(s: StateT, who: Seat, c: CardDef)
    requires Rated(c) && c.cost <= s.g.mana
    ensures var after := PlayDefSt(s, who, c);
            after.log == PushAll(s.log, [PlayLine(who, c, c.value + s.g.Of(who).buff, after.g.mana)] + OverLines(s.g, after.g))
  {
    var paid := s.(g := s.g.(mana := Wrap8(s.g.mana - c.cost)));
    var line := PlayLine(who, c, c.value + s.g.Of(who).buff, paid.g.mana);
    var played := EffectSt(paid, who, c);
    PushOne(s.log, true, line);
    OverWrites(played);
    PushesConcatenate(s.log, [line], OverLines(played.g, CheckOver(played.g)));
  }

  lemma TickWrites(s: StateT)
    ensures TickSt(s).log == PushAll(PushAll(s.log, if s.g.p.poison > 0 then ["P takes poison (-2)"] else []),
                                     if s.g.ai.poison > 0 then ["AI takes poison (-2)"] else [])
  {
    PushOne(s.log, s.g.p.poison > 0, "P takes poison (-2)");
    PushOne(PushIf(s.log, s.g.p.poison > 0, "P takes poison (-2)"), s.g.ai.poison > 0, "AI takes poison (-2)");
  }

  lemma EndWrites(r: Rand, t: Table)
    ensures EndTurnT(r, t).st.log == PushAll(t.st.log, EndLines(t.st.g))
  {
    var g := t.st.g;
    var first := Name(g.turn) + ": END PHASE";
    var p := if g.p.poison > 0 then ["P takes poison (-2)"] else [];
    var ai := if g.ai.poison > 0 then ["AI takes poison (-2)"] else [];
    var s := StateT(g.(phase := EndPhase), Push(t.st.log, first));
    PushOne(t.st.log, true, first);
    TickWrites(s);
    OverWrites(TickSt(s));
    var over := OverLines(TickSt(s).g, CheckOver(TickSt(s).g));
    PushesConcatenate(t.st.log, [first], p);
    PushesConcatenate(t.st.log, [first] + p, ai);
    PushesConcatenate(t.st.log, [first] + p + ai, over);
    EnterWrites(r, t, [first] + p + ai + over);
  }

  lemma EnterWrites(r: Rand, t: Table, lines: seq<string>)
    requires EndedSt(t.st).log == PushAll(t.st.log, lines)
    ensures var u := EndTurnT(r, t);
            u.st.log == PushAll(t.st.log, lines + (if u.st.g.over then [] else [DrawLine(t.st.g.turn.Other())]))
  {
    var s := EndedSt(t.st);
    if s.g.over {
      assert lines + [] == lines;
    } else {
      PushOne(s.log, true, DrawLine(s.g.turn.Other()));
      PushesConcatenate(t.st.log, lines, [DrawLine(s.g.turn.Other())]);
    }
  }

  lemma {:induction false} AiPlaysWrite(t: Table)
    ensures AiPlays(t).st.log == PushAll(t.st.log, AiLines(t))
    decreases t.st.g.mana
  {
    var i := Choice(t.st.g, t.hand);
    if Acting(t.st.g) && i >= 0 {
      PlayCosts(t, i);
      var u := AiPlay(t, i);
      PlayWrites(t.st, t.hand, Ai, i);
      AiPlaysWrite(u);
      PushesConcatenate(t.st.log, PlayLines(t.st, t.hand, Ai, i), AiLines(u));
    }
  }

  lemma AiTurnWrites(r: Rand, t: Table)
    ensures LetAiPlay(r, t).t.st.log == PushAll(t.st.log, AiTurnLines(t))
  {
    if AiPending(t.st.g) {
      var u := AiPlays(t);
      AiPlaysWrite(t);
      if u.st.g.over {
        assert AiLines(t) + [] == AiLines(t);
      } else {
        EndWrites(r, u);
        PushesConcatenate(t.st.log, AiLines(t), EndLines(u.st.g));
      }
    }
  }

  lemma HandleWrites(r: Rand, t: Table, m: Msg)
    ensures Handle(r, t, m).t.st.log == PushAll(t.st.log, HandleLines(r, t, m))
  {
    if m.op != OP_PING && !t.st.g.over {
      if m.op == OP_PLAY_CARD && |m.payload| == PLAY_REQ_BYTES {
        PlayWrites(t.st, t.hand, Player, m.payload[0]);
      } else if m.op == OP_END_TURN && t.st.g.turn == Player {
        var ended := EndTurnT(r, t);
        EndWrites(r, t);
        AiTurnWrites(r, ended);
        PushesConcatenate(t.st.log, EndLines(t.st.g), AiTurnLines(ended));
      }
    }
  }

  lemma {:induction false} ServeWrites(r: Rand, t: Table, msgs: seq<Msg>)
    ensures ServeAll(r, t, msgs).t.st.log == PushAll(t.st.log, ServeLines(r, t, msgs))
    decreases |msgs|
  {
    if msgs != [] {
      var u := Handle(r, t, msgs[0]).t;
      HandleWrites(r, t, msgs[0]);
      ServeWrites(r, u, msgs[1..]);
      PushesConcatenate(t.st.log, HandleLines(r, t, msgs[0]), ServeLines(r, u, msgs[1..]));
    }
  }

  /* ---- What clients are sent ---- */

  /** A STATE shows the table as it is once the request is served. */
  lemma StateIsCurrent(r: Rand, t: Table, m: Msg, st: StateT)
    requires Send(StateMsg(st)) in Handle(r, t, m).events
    ensures st == Handle(r, t, m).t.st
  {
  }

  lemma {:induction false} StateIsServed(r: Rand, t: Table, msgs: seq<Msg>, st: StateT) returns (j: nat)
    requires Send(StateMsg(st)) in ServeAll(r, t, msgs).events
    ensures j <= |msgs| && st == ServeAll(r, t, msgs[..j]).t.st
    decreases |msgs|
  {
    var h := Handle(r, t, msgs[0]);
    if Send(StateMsg(st)) in h.events {
      StateIsCurrent(r, t, msgs[0], st);
      assert msgs[..1][1..] == [] && ServeAll(r, h.t, []).t == h.t;
      j := 1;
    } else {
      var i := StateIsServed(r, h.t, msgs[1..], st);
      j := i + 1;
      assert msgs[..j][1..] == msgs[1..][..i];
    }
  }

  /** The lines of a session since its login, after these requests. */
  function SessionLines(r: Rand, msgs: seq<Msg>): seq<string> {
    ["P: DRAW PHASE"] + ServeLines(r, LoginTable(r), msgs)
  }

  lemma LoginWrites(r: Rand, msgs: seq<Msg>)
    ensures ServeAll(r, LoginTable(r), msgs).t.st.log == PushAll(EMPTY, SessionLines(r, msgs))
  {
    PushOne(EMPTY, true, "P: DRAW PHASE");
    assert LoginTable(r).st.log == PushAll(EMPTY, ["P: DRAW PHASE"]);
    ServeWrites(r, LoginTable(r), msgs);
    PushesConcatenate(EMPTY, ["P: DRAW PHASE"], ServeLines(r, LoginTable(r), msgs));
  }

  /** From a login: every STATE the main loop sends shows exactly the last six lines of all the session has written up to
      the request it answers. */
  lemma ClientSeesLastSix(r: Rand, msgs: seq<Msg>, st: StateT) returns (j: nat)
    requires Send(StateMsg(st)) in MainLoop(r, LoginTable(r), msgs).events
    ensures j <= |msgs|
    ensures var lines := SessionLines(r, msgs[..j]);
            st.log == PushAll(EMPTY, lines) && Shown(st.log) == History(lines)[|lines|..]
  {
    var t := LoginTable(r);
    LoginIsReady(r);
    LetAiPlayMakesReady(r, t);
    LoopIsServe(r, t, msgs);
    j := StateIsServed(r, t, msgs, st);
    LoginWrites(r, msgs[..j]);
    ShowsLastSix(SessionLines(r, msgs[..j]));
  }

  /** A resume goes on with the history of the entry it found: a line of its own, the AI's turn if it was pending, and what
      its requests write. */
  lemma ResumeGoesOn(r: Rand, e: Entry, past: seq<string>, msgs: seq<Msg>)
    requires Resumable(e) && e.st.log == PushAll(EMPTY, past)
    ensures var t := Resumed(e);
            MainLoop(r, t, msgs).t.st.log ==
            PushAll(EMPTY, past + ["Player Resumed Session"] + AiTurnLines(t) + ServeLines(r, LetAiPlay(r, t).t, msgs))
  {
    var t := Resumed(e);
    var served := ServeLines(r, LetAiPlay(r, t).t, msgs);
    LoopIsServe(r, t, msgs);
    PushOne(e.st.log, true, "Player Resumed Session");
    AiTurnWrites(r, t);
    ServeWrites(r, LetAiPlay(r, t).t, msgs);
    PushesConcatenate(EMPTY, past, ["Player Resumed Session"]);
    PushesConcatenate(EMPTY, past + ["Player Resumed Session"], AiTurnLines(t));
    PushesConcatenate(EMPTY, past + ["Player Resumed Session"] + AiTurnLines(t), served);
  }

  /* ---- How lines read ---- */

  /** The numbers of the examples below have one or two digits. */
  lemma SmallText(n: nat)
    requires n < 100
    ensures Text(n) == if n < 10 then ["0123456789"[n]] else ["0123456789"[n / 10], "0123456789"[n % 10]]
  {
    if n >= 10 {
      assert Text(n / 10) == ["0123456789"[n / 10]];
    }
  }

  /* One line of each kind, letter for letter. */

  lemma AttackLine(c: CardDef)
    requires c == CardDef(102, ATK, 3, 8)
    ensures PlayLine(Player, c, 12, 0) == "P ATK (12) [mana 0]"
  {
    SmallText(12);
  }

  lemma HealLine(c: CardDef)
    requires c == CardDef(201, HEAL, 3, 7)
    ensures PlayLine(Ai, c, 7, 0) == "AI HEAL (+7) [mana 0]"
  {
    SmallText(7);
  }

  lemma ShieldLine(c: CardDef)
    requires c == CardDef(300, SHIELD, 1, 3)
    ensures PlayLine(Player, c, 3, 2) == "P SHIELD (+3) [mana 2]"
  {
    SmallText(3);
  }

  lemma BuffLine(c: CardDef)
    requires c == CardDef(401, BUFF, 2, 4)
    ensures PlayLine(Ai, c, 4, 1) == "AI BUFF (+4 next) [mana 1]"
  {
    SmallText(4);
  }

  lemma PoisonLine(c: CardDef)
    requires c == CardDef(500, POISON, 2, 2)
    ensures PlayLine(Player, c, 2, 1) == "P POISON (+2 turns) [mana 1]"
  {
    SmallText(2);
  }
}
