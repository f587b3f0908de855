/** `run_session` (src/server.c:272-427) in place: the process's own state, hand and dealer, and the shared store, proved
    against Session. Receiving is a parameter: `inbox` is what `proto_recv` delivers before it first fails. */
module Server {
  import opened Machine
  import opened Duel
  import opened Table
  import opened Board
  import opened Store
  import opened Session

  /** What lies in shared memory are images of `state_t`. */
  predicate AllFit(s: seq<Slot>) { forall i | 0 <= i < |s| :: Fits(s[i].entry.st.g) }

  method SendBoth(st: State, hand: HandObj) returns (events: seq<Event>)
    requires st.Valid() && hand.Valid()
    ensures events == [Send(StateMsg(st.View())), Send(HandMsg(hand.View()))]
  {
    events := [Send(StateMsg(st.View())), Send(HandMsg(hand.View()))];
  }

  /** `ipc_save_session` with its result ignored, as everywhere in the loop. */
  method Checkpoint(st: State, hand: HandObj, store: SharedStore, sid: Word64) returns (events: seq<Event>)
    requires st.Valid() && hand.Valid() && store.Valid() && AllFit(store.slots[..])
    modifies store.slots
    ensures events == [Save(Entry(st.View(), hand.View()))]
    ensures store.slots[..] == StoreAfter(old(store.slots[..]), sid, events) && AllFit(store.slots[..])
  {
    st.FieldsFit();
    var rc := store.SaveSession(sid, st.View(), hand.View());
    events := [Save(Entry(st.View(), hand.View()))];
    assert events[1..] == [];
  }

  /** The AI's pending turn, and the save after it. */
  method MaybeAi(st: State, hand: HandObj, dealer: Dealer, store: SharedStore, sid: Word64) returns (events: seq<Event>)
    requires st.Valid() && hand.Valid() && store.Valid() && AllFit(store.slots[..])
    modifies st, st.logs, hand, hand.ids, dealer, store.slots
    ensures hand.Valid() && AllFit(store.slots[..])
    ensures Turnout(TableOf(st, hand, dealer), events) == LetAiPlay(dealer.stream, old(TableOf(st, hand, dealer)))
    ensures store.slots[..] == StoreAfter(old(store.slots[..]), sid, events)
  {
    events := [];
    if st.turn == Ai && !st.gameOver {
      ProcessAiTurn(st, hand, dealer);
      events := Checkpoint(st, hand, store, sid);
    }
  }

  method ServePlay(st: State, hand: HandObj, dealer: Dealer, store: SharedStore, sid: Word64, payload: seq<Byte>)
    returns (events: seq<Event>)
    requires st.Valid() && hand.Valid() && store.Valid() && AllFit(store.slots[..])
    modifies st, st.logs, store.slots
    ensures AllFit(store.slots[..])
    ensures Turnout(TableOf(st, hand, dealer), events) == HandlePlay(old(TableOf(st, hand, dealer)), payload)
    ensures store.slots[..] == StoreAfter(old(store.slots[..]), sid, events)
  {
    if st.turn != Player { return [Send(ErrorMsg(-11, "not your turn"))]; }
    if st.phase != MainPhase { return [Send(ErrorMsg(-12, "phase error"))]; }
    if |payload| != PLAY_REQ_BYTES { return [Send(ErrorMsg(-10, "bad payload"))]; }
    var rc := st.HandlePlayCard(hand, Player, payload[0]);
    var error: seq<Event> := [];
    if rc == 0 {
    } else if rc == -1 {
      error := [Send(ErrorMsg(-1, "invalid hand idx"))];
    } else if rc == -2 {
      error := [Send(ErrorMsg(-2, "not enough mana"))];
    } else {
      error := [Send(ErrorMsg(-3, "invalid card"))];
    }
    var saved := Checkpoint(st, hand, store, sid);
    var shown := SendBoth(st, hand);
    SendsLeaveStore(old(store.slots[..]), sid, error);
    SendsLeaveStore(store.slots[..], sid, shown);
    StoreAfterConcatenates(old(store.slots[..]), sid, error, saved);
    StoreAfterConcatenates(old(store.slots[..]), sid, error + saved, shown);
    return error + saved + shown;
  }

  method ServeEnd(st: State, hand: HandObj, dealer: Dealer, store: SharedStore, sid: Word64) returns (events: seq<Event>)
    requires st.Valid() && hand.Valid() && store.Valid() && AllFit(store.slots[..])
    modifies st, st.logs, hand, hand.ids, dealer, store.slots
    ensures hand.Valid() && AllFit(store.slots[..])
    ensures Turnout(TableOf(st, hand, dealer), events) == HandleEnd(dealer.stream, old(TableOf(st, hand, dealer)))
    ensures store.slots[..] == StoreAfter(old(store.slots[..]), sid, events)
  {
    if st.turn != Player { return [Send(ErrorMsg(-11, "not your turn"))]; }
    PhaseEnd(st, hand, dealer);
    var saved := Checkpoint(st, hand, store, sid);
    var ai := MaybeAi(st, hand, dealer, store, sid);
    var shown := SendBoth(st, hand);
    SendsLeaveStore(store.slots[..], sid, shown);
    StoreAfterConcatenates(old(store.slots[..]), sid, saved, ai);
    StoreAfterConcatenates(old(store.slots[..]), sid, saved + ai, shown);
    return saved + ai + shown;
  }

  /** The body of the main loop. */
  method ServeMessage(st: State, hand: HandObj, dealer: Dealer, store: SharedStore, sid: Word64, m: Msg)
    returns (events: seq<Event>)
    requires st.Valid() && hand.Valid() && store.Valid() && AllFit(store.slots[..])
    modifies st, st.logs, hand, hand.ids, dealer, store.slots
    ensures hand.Valid() && AllFit(store.slots[..])
    ensures Turnout(TableOf(st, hand, dealer), events) == Handle(dealer.stream, old(TableOf(st, hand, dealer)), m)
    ensures store.slots[..] == StoreAfter(old(store.slots[..]), sid, events)
  {
    var touched := store.TouchSession(sid);
    if m.op == OP_PING {
      events := [Send(Pong)];
    } else if st.gameOver {
      events := SendBoth(st, hand);
    } else if m.op == OP_PLAY_CARD {
      events := ServePlay(st, hand, dealer, store, sid, m.payload);
      return;
    } else if m.op == OP_END_TURN {
      events := ServeEnd(st, hand, dealer, store, sid);
      return;
    } else if m.op == OP_LOGIN_REQ || m.op == OP_RESUME_REQ {
      events := [];
    } else {
      events := [Send(ErrorMsg(-99, "unknown opcode"))];
    }
    SendsLeaveStore(store.slots[..], sid, events);
  }

  /** The loop invariant: with these events behind it and table t, the process owes exactly what is left of the run. */
  ghost predicate OnCourse(r: Rand, t0: Table, inbox: seq<Msg>, i: nat, t: Table, events: seq<Event>) {
    i <= |inbox| &&
    var rest := MainLoop(r, t, inbox[i..]);
    MainLoop(r, t0, inbox) == Turnout(rest.t, events + rest.events)
  }

  lemma StaysOnCourse(r: Rand, t0: Table, inbox: seq<Msg>, i: nat, t: Table, events: seq<Event>)
    requires OnCourse(r, t0, inbox, i, t, events) && i < |inbox|
    ensures var ai := LetAiPlay(r, t); var h := Handle(r, ai.t, inbox[i]);
            OnCourse(r, t0, inbox, i + 1, h.t, events + ai.events + h.events)
  {
    assert inbox[i..][1..] == inbox[i + 1..] && inbox[i..][0] == inbox[i];
    OnePass(r, t, inbox[i..]);
    var ai := LetAiPlay(r, t);
    var h := Handle(r, ai.t, inbox[i]);
    Regroup(events, ai.events, h.events, MainLoop(r, h.t, inbox[i + 1..]).events);
  }

  lemma OnePass(r: Rand, t: Table, msgs: seq<Msg>)
    requires msgs != []
    ensures var ai := LetAiPlay(r, t); var h := Handle(r, ai.t, msgs[0]); var rest := MainLoop(r, h.t, msgs[1..]);
            MainLoop(r, t, msgs) == Turnout(rest.t, (ai.events + h.events) + rest.events)
  {
  }

  lemma Regroup(a: seq<Event>, b: seq<Event>, c: seq<Event>, d: seq<Event>)
    ensures a + ((b + c) + d) == (a + b + c) + d
  {
  }

  lemma EndsOnCourse(r: Rand, t0: Table, inbox: seq<Msg>, t: Table, events: seq<Event>)
    requires OnCourse(r, t0, inbox, |inbox|, t, events)
    ensures MainLoop(r, t0, inbox) == Turnout(LetAiPlay(r, t).t, events + LetAiPlay(r, t).events)
  {
    assert inbox[|inbox|..] == [];
  }

  /** The main loop, until receiving fails. */
  method RunMainLoop(st: State, hand: HandObj, dealer: Dealer, store: SharedStore, sid: Word64, inbox: seq<Msg>)
    returns (events: seq<Event>)
    requires st.Valid() && hand.Valid() && store.Valid() && AllFit(store.slots[..])
    modifies st, st.logs, hand, hand.ids, dealer, store.slots
    ensures hand.Valid() && AllFit(store.slots[..])
    ensures Turnout(TableOf(st, hand, dealer), events) == MainLoop(dealer.stream, old(TableOf(st, hand, dealer)), inbox)
    ensures store.slots[..] == StoreAfter(old(store.slots[..]), sid, events)
  {
    ghost var t0 := TableOf(st, hand, dealer);
    ghost var slots0 := store.slots[..];
    events := [];
    assert inbox[0..] == inbox && events + MainLoop(dealer.stream, t0, inbox).events == MainLoop(dealer.stream, t0, inbox).events;
    var i := 0;
    while true
      invariant hand.Valid() && AllFit(store.slots[..])
      invariant OnCourse(dealer.stream, t0, inbox, i, TableOf(st, hand, dealer), events)
      invariant store.slots[..] == StoreAfter(slots0, sid, events)
      decreases |inbox| - i
    {
      ghost var t := TableOf(st, hand, dealer);
      ghost var before := events;
      var ai := MaybeAi(st, hand, dealer, store, sid);
      StoreAfterConcatenates(slots0, sid, events, ai);
      events := events + ai;
      if i == |inbox| {
        EndsOnCourse(dealer.stream, t0, inbox, t, before);
        return;
      }
      var served := ServeMessage(st, hand, dealer, store, sid, inbox[i]);
      StoreAfterConcatenates(slots0, sid, events, served);
      StaysOnCourse(dealer.stream, t0, inbox, i, t, before);
      events := events + served;
      i := i + 1;
    }
  }

  /* ---- Handshake ---- */

  method NewDuel(st: State, hand: HandObj, dealer: Dealer)
    requires st.Valid() && hand.Valid() && TableOf(st, hand, dealer) == Table(BLANK_STATE, NO_HAND, 0)
    modifies st, st.logs, hand, hand.ids, dealer
    ensures hand.Valid() && TableOf(st, hand, dealer) == LoginTable(dealer.stream)
  {
    st.pHp := 30;
    st.aiHp := 30;
    st.maxMana := 3;
    st.gameOver := false;
    Board.EnterTurn(st, hand, dealer, Player);
  }

  method GreetLogin(st: State, hand: HandObj, dealer: Dealer, store: SharedStore, draw: Word64)
    returns (sid: Word64, events: seq<Event>)
    requires st.Valid() && hand.Valid() && store.Valid() && AllFit(store.slots[..])
    requires TableOf(st, hand, dealer) == Table(BLANK_STATE, NO_HAND, 0)
    modifies st, st.logs, hand, hand.ids, dealer, store.slots
    ensures hand.Valid() && AllFit(store.slots[..])
    ensures var g := Greet(dealer.stream, old(store.slots[..]), draw, Msg(OP_LOGIN_REQ, []));
            if sid == 0 then g == Closed(events) && store.slots[..] == old(store.slots[..])
            else g == Joined(sid, TableOf(st, hand, dealer), events) &&
                 store.slots[..] == StoreAfter(AfterAlloc(old(store.slots[..]), draw), sid, events)
  {
    NewDuel(st, hand, dealer);
    sid := store.AllocSession(draw);
    if sid == 0 { return 0, [Send(ErrorMsg(-999, "server full"))]; }
    var saved := Checkpoint(st, hand, store, sid);
    var told: seq<Event> := [Send(LoginResp), Send(ResumeResp(true, sid))];
    var shown := SendBoth(st, hand);
    LoginEvents(store.slots[..], AfterAlloc(old(store.slots[..]), draw), sid, saved, told, shown);
    events := saved + told + shown;
  }

  lemma LoginEvents(s: seq<Slot>, s0: seq<Slot>, sid: Word64, saved: seq<Event>, told: seq<Event>, shown: seq<Event>)
    requires |saved| == 1 && s == StoreAfter(s0, sid, saved)
    requires told == [Send(LoginResp), Send(ResumeResp(true, sid))] && forall x | x in shown :: x.Send?
    ensures s == StoreAfter(s0, sid, saved + told + shown)
    ensures saved + told + shown == [saved[0], Send(LoginResp), Send(ResumeResp(true, sid))] + shown
  {
    SendsLeaveStore(s, sid, told + shown);
    StoreAfterConcatenates(s0, sid, saved, told + shown);
    assert saved + told + shown == saved + (told + shown);
  }

  method GreetResume(st: State, hand: HandObj, dealer: Dealer, store: SharedStore, wanted: Word64)
    returns (found: bool, events: seq<Event>)
    requires st.Valid() && hand.Valid() && store.Valid() && AllFit(store.slots[..]) && dealer.pos == 0
    modifies st, st.logs, hand, hand.ids
    ensures hand.Valid()
    ensures match Lookup(store.slots[..], wanted)
            case None => !found && events == [Send(ResumeResp(false, 0))] && TableOf(st, hand, dealer) == old(TableOf(st, hand, dealer))
            case Some(e) =>
              && found && TableOf(st, hand, dealer) == Resumed(e)
              && events == [Send(ResumeResp(true, wanted)), Send(StateMsg(e.st)), Send(HandMsg(e.hand))]
  {
    var rc, saved, cards := store.LoadSession(wanted, st.View(), hand.View());
    if rc != 0 { return false, [Send(ResumeResp(false, 0))]; }
    st.Restore(saved);
    hand.Restore(cards);
    var shown := SendBoth(st, hand);
    st.PushLog("Player Resumed Session");
    return true, [Send(ResumeResp(true, wanted))] + shown;
  }

  /** One handshake message, for a process without a session. */
  method GreetMessage(st: State, hand: HandObj, dealer: Dealer, store: SharedStore, draw: Word64, m: Msg)
    returns (joined: bool, closed: bool, sid: Word64, events: seq<Event>)
    requires st.Valid() && hand.Valid() && store.Valid() && AllFit(store.slots[..])
    requires TableOf(st, hand, dealer) == Table(BLANK_STATE, NO_HAND, 0)
    modifies st, st.logs, hand, hand.ids, dealer, store.slots
    ensures hand.Valid() && AllFit(store.slots[..]) && !(joined && closed)
    ensures var g := Greet(dealer.stream, old(store.slots[..]), draw, m);
            if joined then
              && g == Joined(sid, TableOf(st, hand, dealer), events)
              && store.slots[..] == StoreAfter(JoinedStore(old(store.slots[..]), draw, m), sid, events)
            else
              && g == (if closed then Closed(events) else Waiting(events))
              && store.slots[..] == old(store.slots[..])
              && (closed || TableOf(st, hand, dealer) == old(TableOf(st, hand, dealer)))
  {
    joined, closed, sid, events := false, false, 0, [];
    if m.op == OP_PING {
      events := [Send(Pong)];
    } else if m.op == OP_LOGIN_REQ {
      sid, events := GreetLogin(st, hand, dealer, store, draw);
      joined, closed := sid != 0, sid == 0;
    } else if m.op == OP_RESUME_REQ {
      if |m.payload| < RESUME_REQ_BYTES {
        closed := true;
      } else {
        sid := SessionId(m.payload);
        joined, events := GreetResume(st, hand, dealer, store, sid);
        SendsLeaveStore(store.slots[..], sid, events);
      }
    }
  }

  /** The invariant of the handshake loop. */
  ghost predicate StillGreeting(r: Rand, slots: seq<Slot>, draw: Word64, inbox: seq<Msg>, i: nat, events: seq<Event>) {
    i <= |inbox| &&
    var rest := WholeSession(r, slots, draw, inbox[i..]);
    WholeSession(r, slots, draw, inbox) == Outcome(events + rest.events, rest.slots)
  }

  lemma GreetingEnds(r: Rand, slots: seq<Slot>, draw: Word64, inbox: seq<Msg>, events: seq<Event>)
    requires StillGreeting(r, slots, draw, inbox, |inbox|, events)
    ensures WholeSession(r, slots, draw, inbox) == Outcome(events, slots)
  {
    assert inbox[|inbox|..] == [] && events + [] == events;
  }

  lemma GreetingStep(r: Rand, slots: seq<Slot>, draw: Word64, inbox: seq<Msg>, i: nat, events: seq<Event>)
    requires StillGreeting(r, slots, draw, inbox, i, events) && i < |inbox|
    ensures var whole := WholeSession(r, slots, draw, inbox);
            match Greet(r, slots, draw, inbox[i])
            case Waiting(more) => StillGreeting(r, slots, draw, inbox, i + 1, events + more)
            case Closed(more) => whole == Outcome(events + more, slots)
            case Joined(sid, t, more) =>
              var all := more + MainLoop(r, t, inbox[i + 1..]).events;
              whole == Outcome(events + all, StoreAfter(JoinedStore(slots, draw, inbox[i]), sid, all))
  {
    var rest := inbox[i..];
    assert rest[0] == inbox[i] && rest[1..] == inbox[i + 1..];
    match Greet(r, slots, draw, inbox[i])
    case Waiting(more) =>
      var later := WholeSession(r, slots, draw, inbox[i + 1..]);
      assert events + (more + later.events) == events + more + later.events;
    case Closed(more) =>
    case Joined(sid, t, more) =>
  }

  /** `run_session`. */
  method RunSession(stream: Rand, store: SharedStore, draw: Word64, inbox: seq<Msg>) returns (events: seq<Event>)
    requires store.Valid() && AllFit(store.slots[..])
    modifies store.slots
    ensures Outcome(events, store.slots[..]) == WholeSession(stream, old(store.slots[..]), draw, inbox)
    ensures AllFit(store.slots[..])
  {
    var st := new State();
    var hand := new HandObj();
    var dealer := new Dealer(stream);
    ghost var slots0 := store.slots[..];
    events := [];
    var i := 0;
    assert inbox[0..] == inbox && [] + WholeSession(stream, slots0, draw, inbox).events == WholeSession(stream, slots0, draw, inbox).events;
    while i < |inbox|
      invariant hand.Valid() && store.slots[..] == slots0
      invariant TableOf(st, hand, dealer) == Table(BLANK_STATE, NO_HAND, 0)
      invariant StillGreeting(stream, slots0, draw, inbox, i, events)
    {
      GreetingStep(stream, slots0, draw, inbox, i, events);
      var joined, closed, sid, greeted := GreetMessage(st, hand, dealer, store, draw, inbox[i]);
      if joined {
        var played := RunMainLoop(st, hand, dealer, store, sid, inbox[i + 1..]);
        StoreAfterConcatenates(JoinedStore(slots0, draw, inbox[i]), sid, greeted, played);
        return events + (greeted + played);
      }
      if closed { return events + greeted; }
      events := events + greeted;
      i := i + 1;
    }
    GreetingEnds(stream, slots0, draw, inbox, events);
  }

  lemma {:induction false} SendsLeaveStore(s: seq<Slot>, sid: Word64, events: seq<Event>)
    requires forall x | x in events :: x.Send?
    ensures StoreAfter(s, sid, events) == s
    decreases |events|
  {
    if events != [] {
      assert events[0] in events;
      SendsLeaveStore(s, sid, events[1..]);
    }
  }

  lemma {:induction false} StoreAfterConcatenates(s: seq<Slot>, sid: Word64, a: seq<Event>, b: seq<Event>)
    ensures StoreAfter(s, sid, a + b) == StoreAfter(StoreAfter(s, sid, a), sid, b)
    decreases |a|
  {
    if a == [] {
      assert a + b == b;
    } else {
      StoreAfterConcatenates(if a[0].Save? then AfterSave(s, sid, a[0].e) else s, sid, a[1..], b);
      assert (a + b)[1..] == a[1..] + b;
    }
  }
}
