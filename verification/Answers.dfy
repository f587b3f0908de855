/** The reason behind every answer of the server: which errors refuse which requests, what pings do, and how a handshake
    goes on. */
module Answers {
  import opened Machine
  import opened Cards
  import opened Duel
  import opened Table
  import opened ManaTurn
  import opened Store
  import opened Session
  import opened SessionProofs

  /* ---- Refused plays ---- */

  predicate Refused(events: seq<Event>, code: int, text: string) { Send(ErrorMsg(code, text)) in events }

  /** The price of the card in a slot. */
  function CostAt(h: Hand, idx: Byte): int
    requires idx < h.n && GetCardDef(h.ids[idx]).Some?
  {
    GetCardDef(h.ids[idx]).value.cost
  }

  /** A slot of a waiting player's hand holds a known card. */
  lemma SlotIsKnown(t: Table, idx: Byte)
    requires Ready(t) && !t.st.g.over && idx < t.hand.n
    ensures t.hand.ids[idx] != 0 && GetCardDef(t.hand.ids[idx]).Some?
  {
    assert idx == 0 || idx == 1 || idx == 2;
    PoolIsKnown(t.hand.ids[idx]);
  }

  /** What a waiting server says to a PLAY_CARD, and exactly when: -10 to a payload that is not one byte, -1 to a slot behind
      the hand, -2 to a card that costs more than the mana left. No other error is sent. */
  lemma PlayRefusals(r: Rand, t: Table, payload: seq<Byte>, code: int, text: string)
    requires Ready(t) && !t.st.g.over
    ensures forall k | k in payload && k < t.hand.n :: GetCardDef(t.hand.ids[k]).Some?
    ensures Refused(Handle(r, t, Msg(OP_PLAY_CARD, payload)).events, code, text) <==>
            || (code == -10 && text == "bad payload" && |payload| != 1)
            || (code == -1 && text == "invalid hand idx" && |payload| == 1 && payload[0] >= t.hand.n)
            || (code == -2 && text == "not enough mana" && |payload| == 1 && payload[0] < t.hand.n &&
                CostAt(t.hand, payload[0]) > t.st.g.mana)
  {
    forall k | k in payload && k < t.hand.n
      ensures GetCardDef(t.hand.ids[k]).Some?
    {
      SlotIsKnown(t, k);
    }
    if |payload| == 1 {
      PlayCodes(t.st.g, t.hand, Player, payload[0]);
      if payload[0] < t.hand.n {
        SlotIsKnown(t, payload[0]);
      }
      ErrorsOfPlay(t, payload[0], code, text);
    } else {
      assert HandlePlay(t, payload).events == [Send(ErrorMsg(-10, "bad payload"))];
    }
  }

  lemma ErrorsOfPlay(t: Table, idx: Byte, code: int, text: string)
    requires Ready(t) && !t.st.g.over
    ensures Refused(HandlePlay(t, [idx]).events, code, text) <==>
            Refused(PlayError(PlayCode(t.st.g, t.hand, Player, idx)), code, text)
  {
    var u := t.(st := PlaySt(t.st, t.hand, Player, idx));
    assert HandlePlay(t, [idx]).events == PlayError(PlayCode(t.st.g, t.hand, Player, idx)) + [Save(EntryOf(u))] + Show(u);
  }

  /** A play goes through, and is paid for, if and only if no error is sent. */
  lemma PlayIsPaidOrRefused(r: Rand, t: Table, payload: seq<Byte>)
    requires Ready(t) && !t.st.g.over
    ensures var h := Handle(r, t, Msg(OP_PLAY_CARD, payload));
            if forall code, text :: !Refused(h.events, code, text)
            then |payload| == 1 && payload[0] < t.hand.n && GetCardDef(t.hand.ids[payload[0]]).Some? &&
                 h.t.st.g.mana == t.st.g.mana - CostAt(t.hand, payload[0]) < t.st.g.mana
            else h.t == t
  {
    var h := Handle(r, t, Msg(OP_PLAY_CARD, payload));
    if |payload| != 1 {
      PlayRefusals(r, t, payload, -10, "bad payload");
    } else if payload[0] >= t.hand.n {
      PlayRefusals(r, t, payload, -1, "invalid hand idx");
      PlayCodes(t.st.g, t.hand, Player, payload[0]);
      RefusalChangesNothing(t.st, t.hand, Player, payload[0]);
    } else {
      SlotIsKnown(t, payload[0]);
      PlayRefusals(r, t, payload, -2, "not enough mana");
      PlayCodes(t.st.g, t.hand, Player, payload[0]);
      if CostAt(t.hand, payload[0]) > t.st.g.mana {
        RefusalChangesNothing(t.st, t.hand, Player, payload[0]);
      } else {
        PlayPays(t.st, t.hand, payload[0]);
        forall code, text
          ensures !Refused(h.events, code, text)
        {
          PlayRefusals(r, t, payload, code, text);
        }
      }
    }
  }

  /** A message that is none of the client's is refused with -99 and does nothing; a second LOGIN or RESUME is passed over. */
  lemma StrayMessages(r: Rand, t: Table, m: Msg)
    requires Ready(t) && !t.st.g.over && m.op !in {OP_PING, OP_PLAY_CARD, OP_END_TURN}
    ensures Handle(r, t, m).t == t
    ensures Replies(Handle(r, t, m).events) ==
            if m.op == OP_LOGIN_REQ || m.op == OP_RESUME_REQ then [] else [ErrorMsg(-99, "unknown opcode")]
  {
  }

  /** Once the game is over every message but a ping is answered with the final STATE and HAND. */
  lemma OverIsShown(r: Rand, t: Table, m: Msg)
    requires t.st.g.over && m.op != OP_PING
    ensures Replies(Handle(r, t, m).events) == [StateMsg(t.st), HandMsg(t.hand)]
  {
    ShowReplies([], t);
    assert [] + Show(t) == Show(t);
  }

  /* ---- Pings ---- */

  function NoPings(msgs: seq<Msg>): seq<Msg> {
    if msgs == [] then [] else (if msgs[0].op == OP_PING then [] else [msgs[0]]) + NoPings(msgs[1..])
  }

  predicate IsPong(x: Event) { x.Send? && x.reply.Pong? }

  function NoPongs(events: seq<Event>): seq<Event> {
    if events == [] then [] else (if IsPong(events[0]) then [] else [events[0]]) + NoPongs(events[1..])
  }

  function Pongs(events: seq<Event>): nat {
    if events == [] then 0 else (if IsPong(events[0]) then 1 else 0) + Pongs(events[1..])
  }

  function Pings(msgs: seq<Msg>): nat {
    if msgs == [] then 0 else (if msgs[0].op == OP_PING then 1 else 0) + Pings(msgs[1..])
  }

  lemma {:induction false} NoPongsConcatenate(a: seq<Event>, b: seq<Event>)
    ensures NoPongs(a + b) == NoPongs(a) + NoPongs(b)
    decreases |a|
  {
    if a == [] {
      assert a + b == b;
    } else {
      NoPongsConcatenate(a[1..], b);
      assert (a + b)[1..] == a[1..] + b;
      Regroup(if IsPong(a[0]) then [] else [a[0]], NoPongs(a[1..]), NoPongs(b));
    }
  }

  lemma Regroup(a: seq<Event>, b: seq<Event>, c: seq<Event>)
    ensures (a + b) + c == a + (b + c)
  {
  }

  lemma {:induction false} PongsConcatenate(a: seq<Event>, b: seq<Event>)
    ensures Pongs(a + b) == Pongs(a) + Pongs(b)
    decreases |a|
  {
    if a == [] {
      assert a + b == b;
    } else {
      PongsConcatenate(a[1..], b);
      assert (a + b)[1..] == a[1..] + b;
    }
  }

  lemma {:induction false} WithoutPongs(events: seq<Event>)
    requires Send(Pong) !in events
    ensures NoPongs(events) == events && Pongs(events) == 0
    decreases |events|
  {
    if events != [] {
      assert events[0] in events && forall x | x in events[1..] :: x in events;
      WithoutPongs(events[1..]);
    }
  }

  /** Only a ping is answered with a PONG. */
  lemma PongsAnswerPings(r: Rand, t: Table, m: Msg)
    ensures m.op == OP_PING ==> Handle(r, t, m) == Turnout(t, [Send(Pong)])
    ensures m.op != OP_PING ==> Send(Pong) !in Handle(r, t, m).events
  {
  }

  lemma PingIsPonged(events: seq<Event>, rest: seq<Event>)
    requires events == [Send(Pong)] + rest
    ensures NoPongs(events) == NoPongs(rest) && Pongs(events) == Pongs(rest) + 1
  {
    assert events[1..] == rest;
  }

  /** Pings are answered one by one, in whatever state, and are otherwise invisible: without them the server comes to the same
      table by the same saves and sends. */
  lemma {:induction false} PingsAreInvisible(r: Rand, t: Table, msgs: seq<Msg>)
    ensures ServeAll(r, t, msgs).t == ServeAll(r, t, NoPings(msgs)).t
    ensures NoPongs(ServeAll(r, t, msgs).events) == ServeAll(r, t, NoPings(msgs)).events
    ensures Pongs(ServeAll(r, t, msgs).events) == Pings(msgs)
    decreases |msgs|
  {
    if msgs != [] {
      var m, rest := msgs[0], msgs[1..];
      var h := Handle(r, t, m);
      PongsAnswerPings(r, t, m);
      PingsAreInvisible(r, h.t, rest);
      if m.op == OP_PING {
        PingIsPonged(ServeAll(r, t, msgs).events, ServeAll(r, t, rest).events);
        assert NoPings(msgs) == NoPings(rest);
      } else {
        WithoutPongs(h.events);
        PongsConcatenate(h.events, ServeAll(r, h.t, rest).events);
        NoPongsConcatenate(h.events, ServeAll(r, h.t, rest).events);
        ServeFirst(r, t, m, NoPings(rest));
      }
    }
  }

  lemma ServeFirst(r: Rand, t: Table, m: Msg, rest: seq<Msg>)
    ensures var h := Handle(r, t, m); var later := ServeAll(r, h.t, rest);
            ServeAll(r, t, [m] + rest) == Turnout(later.t, h.events + later.events)
  {
    assert ([m] + rest)[1..] == rest;
  }

  /* ---- Handshake ---- */

  /** How one handshake message ends the handshake or not, against the store as a map. */
  lemma HandshakeOutcomes(r: Rand, slots: seq<Slot>, draw: Word64, m: Msg)
    requires WellFormed(slots)
    ensures var g := Greet(r, slots, draw, m); var full := |m.payload| >= 8;
            && (g.Joined? <==> (m.op == OP_LOGIN_REQ && Free(slots) < |slots|) ||
                               (m.op == OP_RESUME_REQ && full && SessionId(m.payload) in View(slots)))
            && (g.Closed? <==> (m.op == OP_LOGIN_REQ && Free(slots) == |slots|) || (m.op == OP_RESUME_REQ && !full))
            && (g.Closed? ==> g.events == if m.op == OP_LOGIN_REQ then [Send(ErrorMsg(-999, "server full"))] else [])
            && (g.Waiting? ==> g.events == if m.op == OP_PING then [Send(Pong)]
                                           else if m.op == OP_RESUME_REQ then [Send(ResumeResp(false, 0))] else [])
  {
    if m.op == OP_RESUME_REQ && |m.payload| >= 8 {
      FindIsMember(slots, SessionId(m.payload));
    }
  }

  /** A message that leaves a handshake open costs nothing but its answer: a client refused an unknown id, above all, can
      still log in on the same connection and gets all a fresh one would. */
  lemma HandshakeGoesOn(r: Rand, slots: seq<Slot>, draw: Word64, m: Msg, rest: seq<Msg>)
    requires WellFormed(slots)
    requires m.op != OP_LOGIN_REQ
    requires m.op == OP_RESUME_REQ ==> |m.payload| >= 8 && SessionId(m.payload) !in View(slots)
    ensures var alone := WholeSession(r, slots, draw, rest); var answer := Greet(r, slots, draw, m).events;
            WholeSession(r, slots, draw, [m] + rest) == Outcome(answer + alone.events, alone.slots) && |answer| <= 1
  {
    HandshakeOutcomes(r, slots, draw, m);
    assert ([m] + rest)[1..] == rest;
  }
}
