/** What one session process keeps while it waits, what it can answer, and that its stores and sends agree. */
module SessionProofs {
  import opened Machine
  import opened Cards
  import opened Duel
  import opened Table
  import opened AiProofs
  import opened ManaTurn
  import opened Store
  import opened Session

  predicate Ready(t: Table) { PlayerReady(t.st.g, t.hand) }

  /** What may lie in the store: a table that waits for the player, or one on which the AI's turn is still to be played. */
  predicate Resumable(e: Entry) { PlayerReady(e.st.g, e.hand) || AiReady(e.st.g, e.hand) }

  lemma LetAiPlayMakesReady(r: Rand, t: Table)
    requires Resumable(EntryOf(t))
    ensures Ready(LetAiPlay(r, t).t)
    ensures Ready(t) ==> LetAiPlay(r, t) == Turnout(t, [])
  {
    if AiPending(t.st.g) {
      AiTurnHandsOver(r, t);
    }
  }

  lemma HandleKeepsReady(r: Rand, t: Table, m: Msg)
    requires Ready(t)
    ensures Ready(Handle(r, t, m).t)
  {
    if m.op != OP_PING && !t.st.g.over {
      if m.op == OP_PLAY_CARD && |m.payload| == PLAY_REQ_BYTES {
        PlayKeepsLive(t.st.g, Player, if m.payload[0] < t.hand.n then t.hand.ids[m.payload[0]] else 0);
      } else if m.op == OP_END_TURN {
        EndIsResumable(r, t);
        LetAiPlayMakesReady(r, EndTurnT(r, t));
      }
    }
  }

  /** The first save of an END_TURN: either the game has ended, or the AI is about to play a full turn. */
  lemma EndIsResumable(r: Rand, t: Table)
    requires Ready(t) && !t.st.g.over
    ensures Resumable(EntryOf(EndTurnT(r, t)))
  {
    EndHandsOver(r, t);
  }

  /** The main loop as it runs in practice: the AI can be pending only before the first message. */
  function ServeAll(r: Rand, t: Table, msgs: seq<Msg>): Turnout
    decreases |msgs|
  {
    if msgs == [] then Turnout(t, [])
    else
      var now := Handle(r, t, msgs[0]);
      var later := ServeAll(r, now.t, msgs[1..]);
      Turnout(later.t, now.events + later.events)
  }

  lemma {:induction false} LoopIsServe(r: Rand, t: Table, msgs: seq<Msg>)
    requires Resumable(EntryOf(t))
    ensures var ai := LetAiPlay(r, t); var served := ServeAll(r, ai.t, msgs);
            MainLoop(r, t, msgs) == Turnout(served.t, ai.events + served.events)
    decreases |msgs|
  {
    var ai := LetAiPlay(r, t);
    LetAiPlayMakesReady(r, t);
    if msgs == [] {
      assert ai.events + [] == ai.events;
    } else {
      HandleKeepsReady(r, ai.t, msgs[0]);
      var h := Handle(r, ai.t, msgs[0]);
      LetAiPlayMakesReady(r, h.t);
      LoopIsServe(r, h.t, msgs[1..]);
      var rest := ServeAll(r, h.t, msgs[1..]);
      assert [] + rest.events == rest.events;
      assert (ai.events + h.events) + rest.events == ai.events + (h.events + rest.events);
    }
  }

  lemma {:induction false} ServeKeepsReady(r: Rand, t: Table, msgs: seq<Msg>)
    requires Ready(t)
    ensures Ready(ServeAll(r, t, msgs).t)
    decreases |msgs|
  {
    if msgs != [] {
      HandleKeepsReady(r, t, msgs[0]);
      ServeKeepsReady(r, Handle(r, t, msgs[0]).t, msgs[1..]);
    }
  }

  /** Whenever the main loop waits in `proto_recv`, after a login or a resume and any messages: the game is over, or it
      is the player's main phase with both sides standing, at most 3 mana and three pool cards. */
  lemma WaitsReady(r: Rand, t: Table, msgs: seq<Msg>)
    requires Resumable(EntryOf(t))
    ensures Ready(MainLoop(r, t, msgs).t)
  {
    LoopIsServe(r, t, msgs);
    LetAiPlayMakesReady(r, t);
    ServeKeepsReady(r, LetAiPlay(r, t).t, msgs);
  }

  lemma LoginIsReady(r: Rand)
    ensures Ready(LoginTable(r))
  {
    LoginStartsTheRun(r);
  }

  /** The end of a game is final: whatever is still sent to a process whose game is over, its table stays the same, it
      saves nothing, and every game state it sends is that table's. */
  lemma {:induction false} EndIsFinal(r: Rand, t: Table, msgs: seq<Msg>)
    requires t.st.g.over
    ensures MainLoop(r, t, msgs).t == t
    ensures forall x | x in MainLoop(r, t, msgs).events :: x.Send? && (x.reply.StateMsg? ==> x.reply.st == t.st)
    decreases |msgs|
  {
    if msgs != [] {
      assert LetAiPlay(r, t) == Turnout(t, []);
      var h := Handle(r, t, msgs[0]);
      assert h.t == t && forall x | x in h.events :: x.Send? && (x.reply.StateMsg? ==> x.reply.st == t.st);
      EndIsFinal(r, t, msgs[1..]);
    }
  }

  /* ---- Dead replies ---- */

  /** In a waiting process a play is answered 0, -1 or -2 and nothing else. */
  lemma ReadyPlayCodes(t: Table, idx: Byte)
    requires Ready(t) && !t.st.g.over
    ensures PlayCode(t.st.g, t.hand, Player, idx) in {0, -1, -2}
  {
    PlayCodes(t.st.g, t.hand, Player, idx);
    if idx < t.hand.n {
      assert idx == 0 || idx == 1 || idx == 2;
      PoolIsKnown(t.hand.ids[idx]);
    }
  }

  /** So for one message the replies "not your turn", "phase error" and "invalid card" are not sent. */
  lemma DeadReplies(r: Rand, t: Table, m: Msg, code: int, text: string)
    requires Ready(t) && code in {-3, -11, -12}
    ensures Send(ErrorMsg(code, text)) !in Handle(r, t, m).events
  {
    if m.op != OP_PING && !t.st.g.over && m.op == OP_PLAY_CARD && |m.payload| == PLAY_REQ_BYTES {
      ReadyPlayCodes(t, m.payload[0]);
    }
  }

  lemma {:induction false} ServeDeadReplies(r: Rand, t: Table, msgs: seq<Msg>, code: int, text: string)
    requires Ready(t) && code in {-3, -11, -12}
    ensures Send(ErrorMsg(code, text)) !in ServeAll(r, t, msgs).events
    decreases |msgs|
  {
    if msgs != [] {
      DeadReplies(r, t, msgs[0], code, text);
      HandleKeepsReady(r, t, msgs[0]);
      ServeDeadReplies(r, Handle(r, t, msgs[0]).t, msgs[1..], code, text);
    }
  }

  /** In no session, logged in or resumed, whatever the client sends, are they ever sent. */
  lemma SessionDeadReplies(r: Rand, t: Table, msgs: seq<Msg>, code: int, text: string)
    requires Resumable(EntryOf(t)) && code in {-3, -11, -12}
    ensures Send(ErrorMsg(code, text)) !in MainLoop(r, t, msgs).events
  {
    LetAiPlayMakesReady(r, t);
    LoopIsServe(r, t, msgs);
    ServeDeadReplies(r, LetAiPlay(r, t).t, msgs, code, text);
  }

  /* ---- Requests and their answers ---- */

  function Replies(events: seq<Event>): seq<Reply>
    decreases |events|
  {
    if events == [] then []
    else match events[0]
         case Save(_) => Replies(events[1..])
         case Send(x) => [x] + Replies(events[1..])
  }

  lemma {:induction false} RepliesConcatenate(a: seq<Event>, b: seq<Event>)
    ensures Replies(a + b) == Replies(a) + Replies(b)
    decreases |a|
  {
    if a == [] {
      assert a + b == b;
    } else {
      RepliesConcatenate(a[1..], b);
      assert (a + b)[1..] == a[1..] + b;
    }
  }

  /** The messages the client's keys produce. */
  predicate Request(m: Msg) {
    m.op == OP_END_TURN || (m.op == OP_PLAY_CARD && |m.payload| == PLAY_REQ_BYTES)
  }

  /** Every such request is answered by at most one ERROR and then exactly one STATE and one HAND, both current. */
  lemma RequestIsAnswered(r: Rand, t: Table, m: Msg) returns (errors: seq<Reply>)
    requires Ready(t) && Request(m)
    ensures |errors| <= 1 && (forall x | x in errors :: x.ErrorMsg?)
    ensures var h := Handle(r, t, m);
            Replies(h.events) == errors + [StateMsg(h.t.st), HandMsg(h.t.hand)]
  {
    var h := Handle(r, t, m);
    errors := [];
    if t.st.g.over {
      ShowReplies([], h.t);
      assert [] + Show(h.t) == Show(h.t);
    } else if m.op == OP_PLAY_CARD {
      var e := PlayError(PlayCode(t.st.g, t.hand, Player, m.payload[0]));
      errors := Replies(e);
      ErrorReplies(PlayCode(t.st.g, t.hand, Player, m.payload[0]));
      ShowReplies(e + [Save(EntryOf(h.t))], h.t);
      RepliesConcatenate(e, [Save(EntryOf(h.t))]);
      SaveReplies(EntryOf(h.t));
    } else {
      var ended := EndTurnT(r, t);
      var ai := LetAiPlay(r, ended);
      ShowReplies([Save(EntryOf(ended))] + ai.events, h.t);
      RepliesConcatenate([Save(EntryOf(ended))], ai.events);
      SaveReplies(EntryOf(ended));
      SaveReplies(EntryOf(ai.t));
    }
  }

  lemma SaveReplies(e: Entry)
    ensures Replies([Save(e)]) == [] && Replies([]) == []
  {
    assert [Save(e)][1..] == [];
  }

  lemma ErrorReplies(rc: int)
    ensures |Replies(PlayError(rc))| <= 1 && forall x | x in Replies(PlayError(rc)) :: x.ErrorMsg?
  {
    if rc != 0 {
      assert PlayError(rc)[1..] == [];
    }
  }

  lemma ShowReplies(a: seq<Event>, t: Table)
    ensures Replies(a + Show(t)) == Replies(a) + [StateMsg(t.st), HandMsg(t.hand)]
  {
    RepliesConcatenate(a, Show(t));
    assert Show(t)[1..] == [Send(HandMsg(t.hand))] && Show(t)[1..][1..] == [];
    assert Replies(Show(t)[1..]) == [HandMsg(t.hand)];
  }

  /* ---- The store is a faithful checkpoint ---- */

  /** The stored copies agree with the working table, the log apart. */
  predicate Matches(e: Entry, t: Table) { e.st.g == t.st.g && e.hand == t.hand }

  /** Every STATE and HAND among the events equals the entry stored at that moment, the log apart. */
  predicate Faithful(e: Entry, events: seq<Event>)
    decreases |events|
  {
    events == [] ||
    match events[0]
    case Save(e') => Faithful(e', events[1..])
    case Send(StateMsg(st)) => st.g == e.st.g && Faithful(e, events[1..])
    case Send(HandMsg(hand)) => hand == e.hand && Faithful(e, events[1..])
    case Send(_) => Faithful(e, events[1..])
  }

  lemma {:induction false} FaithfulConcatenate(e: Entry, a: seq<Event>, b: seq<Event>)
    ensures Stored(e, a + b) == Stored(Stored(e, a), b)
    ensures Faithful(e, a + b) <==> Faithful(e, a) && Faithful(Stored(e, a), b)
    decreases |a|
  {
    if a == [] {
      assert a + b == b;
    } else {
      FaithfulConcatenate(if a[0].Save? then a[0].e else e, a[1..], b);
      assert (a + b)[1..] == a[1..] + b;
    }
  }

  lemma {:induction false} SendsStoreNothing(e: Entry, events: seq<Event>)
    requires forall x | x in events :: x.Send?
    ensures Stored(e, events) == e
    decreases |events|
  {
    if events != [] {
      assert events[0] in events && forall x | x in events[1..] :: x in events;
      SendsStoreNothing(e, events[1..]);
    }
  }

  lemma LastSaveIsStored(e: Entry, front: seq<Event>, x: Entry, back: seq<Event>)
    requires forall y | y in back :: y.Send?
    ensures Stored(e, front + [Save(x)] + back) == x
  {
    FaithfulConcatenate(e, front + [Save(x)], back);
    FaithfulConcatenate(e, front, [Save(x)]);
    assert [Save(x)][1..] == [];
    SendsStoreNothing(x, back);
  }

  lemma ShowIsFaithful(e: Entry, t: Table)
    requires Matches(e, t)
    ensures Faithful(e, Show(t)) && Stored(e, Show(t)) == e
  {
    assert Show(t)[1..] == [Send(HandMsg(t.hand))] && Show(t)[1..][1..] == [];
    assert Stored(e, Show(t)[1..]) == e;
  }

  lemma AiIsFaithful(r: Rand, e: Entry, t: Table)
    requires Matches(e, t)
    ensures Faithful(e, LetAiPlay(r, t).events)
    ensures Matches(Stored(e, LetAiPlay(r, t).events), LetAiPlay(r, t).t)
  {
  }

  lemma HandleIsFaithful(r: Rand, t: Table, e: Entry, m: Msg)
    requires Matches(e, t)
    ensures var h := Handle(r, t, m); Faithful(e, h.events) && Matches(Stored(e, h.events), h.t)
  {
    var h := Handle(r, t, m);
    if m.op == OP_PING {
    } else if t.st.g.over {
      ShowIsFaithful(e, t);
    } else if m.op == OP_PLAY_CARD && t.st.g.turn == Player && t.st.g.phase == MainPhase && |m.payload| == PLAY_REQ_BYTES {
      var a := PlayError(PlayCode(t.st.g, t.hand, Player, m.payload[0]));
      FaithfulConcatenate(e, a, [Save(EntryOf(h.t))]);
      FaithfulConcatenate(e, a + [Save(EntryOf(h.t))], Show(h.t));
      ShowIsFaithful(EntryOf(h.t), h.t);
    } else if m.op == OP_END_TURN && t.st.g.turn == Player {
      var ended := EndTurnT(r, t);
      var ai := LetAiPlay(r, ended);
      AiIsFaithful(r, EntryOf(ended), ended);
      FaithfulConcatenate(e, [Save(EntryOf(ended))], ai.events);
      FaithfulConcatenate(e, [Save(EntryOf(ended))] + ai.events, Show(h.t));
      ShowIsFaithful(Stored(EntryOf(ended), ai.events), h.t);
    }
  }

  lemma {:induction false} LoopIsFaithful(r: Rand, t: Table, e: Entry, msgs: seq<Msg>)
    requires Matches(e, t)
    ensures var l := MainLoop(r, t, msgs); Faithful(e, l.events) && Matches(Stored(e, l.events), l.t)
    decreases |msgs|
  {
    AiIsFaithful(r, e, t);
    if msgs != [] {
      var ai := LetAiPlay(r, t);
      var h := Handle(r, ai.t, msgs[0]);
      var e1 := Stored(e, ai.events);
      HandleIsFaithful(r, ai.t, e1, msgs[0]);
      FaithfulConcatenate(e, ai.events, h.events);
      LoopIsFaithful(r, h.t, Stored(e1, h.events), msgs[1..]);
      FaithfulConcatenate(e, ai.events + h.events, MainLoop(r, h.t, msgs[1..]).events);
    }
  }

  lemma LoginIsFaithful(r: Rand, sid: Word64)
    ensures var t := LoginTable(r);
            var events := [Save(EntryOf(t)), Send(LoginResp), Send(ResumeResp(true, sid))] + Show(t);
            forall e :: Faithful(e, events) && Stored(e, events) == EntryOf(t)
  {
    var t := LoginTable(r);
    var e0 := EntryOf(t);
    var head := [Save(e0), Send(LoginResp), Send(ResumeResp(true, sid))];
    forall e
      ensures Faithful(e, head + Show(t)) && Stored(e, head + Show(t)) == e0
    {
      assert head[1..] == [Send(LoginResp), Send(ResumeResp(true, sid))];
      assert head[1..][1..] == [Send(ResumeResp(true, sid))] && head[1..][1..][1..] == [];
      assert Stored(e0, head[1..][1..]) == e0;
      FaithfulConcatenate(e, head, Show(t));
      ShowIsFaithful(e0, t);
    }
  }

  lemma ResumeIsFaithful(e: Entry, sid: Word64)
    ensures var events := [Send(ResumeResp(true, sid)), Send(StateMsg(e.st)), Send(HandMsg(e.hand))];
            Faithful(e, events) && Stored(e, events) == e
  {
    var events := [Send(ResumeResp(true, sid)), Send(StateMsg(e.st)), Send(HandMsg(e.hand))];
    assert events[1..] == Show(Table(e.st, e.hand, 0));
    ShowIsFaithful(e, Table(e.st, e.hand, 0));
  }

  /** In every session, from its first event: each STATE and HAND sent equals what is stored for it at that moment. The
      session may begin with a login in a new slot or by resuming a stored entry. */
  lemma SessionIsFaithful(r: Rand, slots: seq<Slot>, draw: Word64, hello: Msg, msgs: seq<Msg>)
    requires Greet(r, slots, draw, hello).Joined?
    ensures var j := Greet(r, slots, draw, hello);
            var e := if hello.op == OP_LOGIN_REQ then BLANK_ENTRY else Lookup(slots, j.sid).value;
            Faithful(e, j.events + MainLoop(r, j.t, msgs).events)
  {
    var j := Greet(r, slots, draw, hello);
    if hello.op == OP_LOGIN_REQ {
      LoginIsFaithful(r, j.sid);
      LoopIsFaithful(r, j.t, EntryOf(j.t), msgs);
      FaithfulConcatenate(BLANK_ENTRY, j.events, MainLoop(r, j.t, msgs).events);
    } else {
      var e := Lookup(slots, j.sid).value;
      ResumeIsFaithful(e, j.sid);
      LoopIsFaithful(r, j.t, e, msgs);
      FaithfulConcatenate(e, j.events, MainLoop(r, j.t, msgs).events);
    }
  }
}
