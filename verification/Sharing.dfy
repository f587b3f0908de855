/** Why Cluster assumes one live process per session and fresh ids: the server checks neither, and without either one a
    client loses what it was shown. */
module Sharing {
  import opened Machine
  import opened Duel
  import opened Cards
  import opened Table
  import opened ManaTurn
  import opened AiProofs
  import opened Store
  import opened Session
  import opened SessionProofs

  const FIRST_CARD := Msg(OP_PLAY_CARD, [0])
  const NO_CARD := Msg(OP_PLAY_CARD, [3])  // behind the end of a hand of three

  lemma {:induction false} LookupAfter(slots: seq<Slot>, sid: Word64, e: Entry, events: seq<Event>)
    requires Lookup(slots, sid) == Some(e)
    ensures Lookup(StoreAfter(slots, sid, events), sid) == Some(Stored(e, events))
    decreases |events|
  {
    if events != [] {
      if events[0].Save? {
        SavePreserves(slots, sid, events[0].e, sid);
        LookupAfter(AfterSave(slots, sid, events[0].e), sid, events[0].e, events[1..]);
      } else {
        LookupAfter(slots, sid, e, events[1..]);
      }
    }
  }

  /** A full player turn: the first card is played and shown, the request behind the hand is refused. */
  lemma FirstCardPlays(r: Rand, t: Table)
    requires PlayerReady(t.st.g, t.hand) && !t.st.g.over && t.st.g.mana == MANA0
    ensures var h := Handle(r, t, FIRST_CARD); h.t.st.g != t.st.g && Send(StateMsg(h.t.st)) in h.events
  {
    PlayCodes(t.st.g, t.hand, Player, 0);
    PoolIsKnown(t.hand.ids[0]);
    TableIsRated(GetCardDef(t.hand.ids[0]).value);
    PlayPays(t.st, t.hand, 0);
    var h := HandlePlay(t, [0]);
    assert h.events[|h.events| - 2] == Send(StateMsg(h.t.st));
  }

  lemma NoCardIsRefused(r: Rand, t: Table)
    requires PlayerReady(t.st.g, t.hand) && !t.st.g.over
    ensures Handle(r, t, NO_CARD).t == t
  {
    PlayCodes(t.st.g, t.hand, Player, 3);
    RefusalChangesNothing(t.st, t.hand, Player, 3);
  }

  /** Two processes resume the same announced session, which nothing in the server prevents. The first performs an accepted
      play and shows its client the result; then the second refuses a play, and its save puts back the old game. */
  lemma TwoOwnersLoseAPlay(r1: Rand, r2: Rand, slots: seq<Slot>, draw1: Word64, draw2: Word64, hello: Msg)
    requires hello.op == OP_RESUME_REQ && Greet(r1, slots, draw1, hello).Joined?
    requires var e := Lookup(slots, Greet(r1, slots, draw1, hello).sid).value;
             PlayerReady(e.st.g, e.hand) && !e.st.g.over && e.st.g.mana == MANA0
    ensures Greet(r2, slots, draw2, hello) == Greet(r1, slots, draw1, hello)
    ensures var j := Greet(r1, slots, draw1, hello);
            var a := Handle(r1, j.t, FIRST_CARD);
            var between := StoreAfter(slots, j.sid, a.events);
            var after := StoreAfter(between, j.sid, Handle(r2, j.t, NO_CARD).events);
            && Send(StateMsg(a.t.st)) in a.events && a.t.st.g != j.t.st.g
            && Lookup(between, j.sid).Some? && Lookup(between, j.sid).value.st.g == a.t.st.g
            && Lookup(after, j.sid).Some? && Lookup(after, j.sid).value.st.g == j.t.st.g
  {
    var j := Greet(r1, slots, draw1, hello);
    var e := Lookup(slots, j.sid).value;
    FirstCardPlays(r1, j.t);
    StoredByProcess(r1, slots, j.sid, e, j.t, FIRST_CARD, j.t);
    var between := StoreAfter(slots, j.sid, Handle(r1, j.t, FIRST_CARD).events);
    NoCardIsRefused(r2, j.t);
    RefusalIsSaved(r2, between, j.sid, j.t);
  }

  lemma StoredByProcess(r: Rand, slots: seq<Slot>, sid: Word64, e: Entry, t: Table, m: Msg, was: Table)
    requires Lookup(slots, sid) == Some(e) && Matches(e, t)
    ensures var h := Handle(r, t, m); var l := Lookup(StoreAfter(slots, sid, h.events), sid);
            l.Some? && l.value.st.g == h.t.st.g
  {
    LookupAfter(slots, sid, e, Handle(r, t, m).events);
    HandleIsFaithful(r, t, e, m);
  }

  /** The second process saves its own old table, whatever is in the store by then. */
  lemma RefusalIsSaved(r: Rand, slots: seq<Slot>, sid: Word64, t: Table)
    requires Lookup(slots, sid).Some? && PlayerReady(t.st.g, t.hand) && !t.st.g.over
    ensures var l := Lookup(StoreAfter(slots, sid, Handle(r, t, NO_CARD).events), sid); l.Some? && l.value.st.g == t.st.g
  {
    var h := Handle(r, t, NO_CARD);
    NoCardIsRefused(r, t);
    ReadyPlayCodes(t, 3);
    var e := Lookup(slots, sid).value;
    LookupAfter(slots, sid, e, h.events);
    PlaySaves(t, e);
  }

  lemma PlaySaves(t: Table, e: Entry)
    requires PlayerReady(t.st.g, t.hand) && !t.st.g.over
    ensures var h := HandlePlay(t, [3]); Stored(e, h.events) == EntryOf(h.t)
  {
    var h := HandlePlay(t, [3]);
    PlayCodes(t.st.g, t.hand, Player, 3);
    assert h.events == [Send(ErrorMsg(-1, "invalid hand idx"))] + [Save(EntryOf(h.t))] + Show(h.t);
    LastSaveIsStored(e, [Send(ErrorMsg(-1, "invalid hand idx"))], EntryOf(h.t), Show(h.t));
  }

  /** A login that draws an id in use gets a slot of its own, but is announced as the other session and overwrites it. */
  lemma CollidingLoginOverwrites(r: Rand, slots: seq<Slot>, draw: Word64, hello: Msg)
    requires WellFormed(slots) && Free(slots) < |slots| && Clean(draw) in View(slots) && hello.op == OP_LOGIN_REQ
    ensures var j := Greet(r, slots, draw, hello);
            && j.Joined? && j.sid == Clean(draw) && Send(ResumeResp(true, j.sid)) in j.events
            && Lookup(JoinedStore(slots, draw, hello), j.sid) == Lookup(slots, j.sid)
            && Lookup(StoreAfter(JoinedStore(slots, draw, hello), j.sid, j.events), j.sid) == Some(EntryOf(LoginTable(r)))
  {
    var j := Greet(r, slots, draw, hello);
    var sid := Clean(draw);
    FindIsMember(slots, sid);
    AllocPreserves(slots, draw, sid);
    LookupAfter(JoinedStore(slots, draw, hello), sid, Lookup(slots, sid).value, j.events);
    LoginSaves(r, sid, Lookup(slots, sid).value);
  }

  lemma LoginSaves(r: Rand, sid: Word64, e: Entry)
    ensures var t := LoginTable(r);
            var events := [Save(EntryOf(t)), Send(LoginResp), Send(ResumeResp(true, sid))] + Show(t);
            Send(ResumeResp(true, sid)) == events[2] && Stored(e, events) == EntryOf(t)
  {
    var t := LoginTable(r);
    var told := [Send(LoginResp), Send(ResumeResp(true, sid))] + Show(t);
    assert [Save(EntryOf(t)), Send(LoginResp), Send(ResumeResp(true, sid))] + Show(t) == [] + [Save(EntryOf(t))] + told;
    LastSaveIsStored(e, [], EntryOf(t), told);
  }
}
