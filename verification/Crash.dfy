/** Killing a session process at any point and resuming it: every request is then either wholly done or not done at
    all, and a life with any number of crashes is still one run of the duel. */
module Crash {
  import opened Machine
  import opened Duel
  import opened Table
  import opened AiPlayer
  import opened AiProofs
  import opened Store
  import opened Session
  import opened SessionProofs

  /** The game a process resumed from this entry first waits with. By AiTurnIgnoresDeals the new process's dealer has
      no part in it. */
  function Settled(e: Entry): Game { LetAiPlay(_ => 0, Resumed(e)).t.st.g }

  /** A process that resumes this entry goes on from the game of table t, and from its hand too unless the AI has still to
      move, when a new one is dealt. */
  predicate Regains(e: Entry, t: Table) { Settled(e) == t.st.g && (!AiPending(e.st.g) ==> e.hand == t.hand) }

  lemma SettledIgnoresDeals(e: Entry, r: Rand, t: Table)
    requires Matches(e, t)
    ensures LetAiPlay(r, t).t.st.g == Settled(e)
  {
    if AiPending(e.st.g) {
      AiTurnIgnoresDeals(r, _ => 0, t, Resumed(e));
    }
  }

  /** Whatever a crash leaves in the store is what was there before or one of the entries saved. */
  lemma {:induction false} StoredIsSaved(e: Entry, events: seq<Event>, k: nat)
    requires k <= |events|
    ensures var e' := Stored(e, events[..k]); e' == e || Save(e') in events
    decreases |events|
  {
    if k > 0 {
      assert events[..k][1..] == events[1..][..k - 1];
      StoredIsSaved(if events[0].Save? then events[0].e else e, events[1..], k - 1);
    }
  }

  lemma SavesOfHandle(r: Rand, t: Table, m: Msg, e: Entry)
    requires Save(e) in Handle(r, t, m).events
    ensures !t.st.g.over
    ensures e == EntryOf(Handle(r, t, m).t) || (m.op == OP_END_TURN && e == EntryOf(EndTurnT(r, t)))
  {
    if m.op == OP_END_TURN && t.st.g.turn == Player {
      var ended := EndTurnT(r, t);
      assert Save(e) in [Save(EntryOf(ended))] + LetAiPlay(r, ended).events + Show(LetAiPlay(r, ended).t);
    }
  }

  /** What a client that got these replies has been shown the outcome of. */
  predicate Answered(events: seq<Event>) { exists x | x in events :: x.Send? && x.reply.StateMsg? }

  /** Durability: once all events of a request are performed, or its STATE alone has been sent, what is stored is the
      table the request led to, and a resume goes on from its game. */
  lemma DoneIsKept(r: Rand, t: Table, e: Entry, m: Msg, k: nat)
    requires Ready(t) && Matches(e, t) && k <= |Handle(r, t, m).events|
    requires k == |Handle(r, t, m).events| || Answered(Handle(r, t, m).events[..k])
    ensures var h := Handle(r, t, m); var e' := Stored(e, h.events[..k]);
            Matches(e', h.t) && Regains(e', h.t)
  {
    var h := Handle(r, t, m);
    HandleIsFaithful(r, t, e, m);
    if k == |h.events| {
      assert h.events[..k] == h.events;
    } else {
      HandleShowsLast(r, t, m);
      AnswerFollowsSaves(h.events, k);
      assert h.events == h.events[..k] + h.events[k..];
      FaithfulConcatenate(e, h.events[..k], h.events[k..]);
      SendsStoreNothing(Stored(e, h.events[..k]), h.events[k..]);
    }
    var e' := Stored(e, h.events[..k]);
    HandleKeepsReady(r, t, m);
    LetAiPlayMakesReady(r, h.t);
    SettledIgnoresDeals(e', r, h.t);
  }

  /** A STATE is the last event but one, with a send behind it. */
  predicate ShowsLast(events: seq<Event>) {
    forall i | 0 <= i < |events| && events[i].Send? && events[i].reply.StateMsg? ::
      i == |events| - 2 && events[i + 1].Send?
  }

  lemma ShowAtEnd(front: seq<Event>, t: Table)
    requires forall i | 0 <= i < |front| :: front[i].Send? ==> !front[i].reply.StateMsg?
    ensures ShowsLast(front + Show(t))
  {
  }

  lemma HandleShowsLast(r: Rand, t: Table, m: Msg)
    ensures ShowsLast(Handle(r, t, m).events)
  {
    if m.op != OP_PING && t.st.g.over {
      ShowAtEnd([], t);
      assert [] + Show(t) == Show(t);
    } else if m.op == OP_PLAY_CARD {
      PlayShowsLast(t, m.payload);
    } else if m.op == OP_END_TURN && t.st.g.turn == Player {
      var ended := EndTurnT(r, t);
      var ai := LetAiPlay(r, ended);
      ShowAtEnd([Save(EntryOf(ended))] + ai.events, ai.t);
    }
  }

  lemma PlayShowsLast(t: Table, payload: seq<Byte>)
    ensures ShowsLast(HandlePlay(t, payload).events)
  {
    if t.st.g.turn == Player && t.st.g.phase == MainPhase && |payload| == PLAY_REQ_BYTES {
      var u := t.(st := PlaySt(t.st, t.hand, Player, payload[0]));
      ShowAtEnd(PlayError(PlayCode(t.st.g, t.hand, Player, payload[0])) + [Save(EntryOf(u))], u);
    }
  }

  /** So no save comes after it. */
  lemma AnswerFollowsSaves(events: seq<Event>, k: nat)
    requires k <= |events| && ShowsLast(events) && Answered(events[..k])
    ensures forall x | x in events[k..] :: x.Send?
  {
    var x :| x in events[..k] && x.Send? && x.reply.StateMsg?;
    var i :| 0 <= i < k && events[..k][i] == x;
    assert events[i] == x;
  }

  /** A crash anywhere in one request, then a resume with another dealer: the game is the one before the request or the
      one the request would have led to, a crash between the two saves of an END_TURN included; and it is the second as
      soon as the client has been sent the STATE. */
  lemma RequestIsAtomic(r: Rand, t: Table, e: Entry, m: Msg, k: nat)
    requires Ready(t) && Matches(e, t) && k <= |Handle(r, t, m).events|
    ensures var h := Handle(r, t, m); var e' := Stored(e, h.events[..k]);
            && Resumable(e') && (Regains(e', t) || Regains(e', h.t))
            && (k == |h.events| || Answered(h.events[..k]) ==> Matches(e', h.t) && Regains(e', h.t))
  {
    var h := Handle(r, t, m);
    var e' := Stored(e, h.events[..k]);
    StoredIsSaved(e, h.events, k);
    HandleKeepsReady(r, t, m);
    if k == |h.events| || Answered(h.events[..k]) {
      DoneIsKept(r, t, e, m, k);
    }
    SavedIsSettled(r, t, e, m, e');
  }

  /** The first save of an END_TURN is not the last only if the AI has still to move. */
  lemma NotYetSettled(r: Rand, t: Table, m: Msg, e: Entry)
    requires Ready(t) && !t.st.g.over && m.op == OP_END_TURN
    requires e == EntryOf(EndTurnT(r, t)) && e != EntryOf(Handle(r, t, m).t)
    ensures AiPending(e.st.g) && LetAiPlay(r, EndTurnT(r, t)).t == Handle(r, t, m).t
  {
  }

  lemma SavedIsSettled(r: Rand, t: Table, e: Entry, m: Msg, e': Entry)
    requires Ready(t) && Matches(e, t) && (e' == e || Save(e') in Handle(r, t, m).events)
    ensures Resumable(e') && (Regains(e', t) || Regains(e', Handle(r, t, m).t))
  {
    HandleKeepsReady(r, t, m);
    if e' != e {
      SavesOfHandle(r, t, m, e');
      if e' != EntryOf(Handle(r, t, m).t) {
        EndIsResumable(r, t);
        SettledIgnoresDeals(e', r, EndTurnT(r, t));
        NotYetSettled(r, t, m, e');
      }
    }
  }

  /** A crash between the two saves of an END_TURN loses nothing but the deal: the resumed process plays the very same
      cards for the AI and reaches the same game. */
  lemma AiTurnIsReplayed(r: Rand, r': Rand, t: Table)
    ensures var ended := EndTurnT(r, t); var again := Resumed(EntryOf(ended));
            && Choices(again) == Choices(ended)
            && AiPlays(again).hand == AiPlays(ended).hand
            && LetAiPlay(r', again).t.st.g == LetAiPlay(r, ended).t.st.g
  {
    AiTurnIgnoresDeals(r, r', EndTurnT(r, t), Resumed(EntryOf(EndTurnT(r, t))));
  }

  /** The requests all of whose events are among the first k. */
  function Performed(r: Rand, t: Table, msgs: seq<Msg>, k: nat): nat
    decreases |msgs|
  {
    if msgs == [] || k < |Handle(r, t, msgs[0]).events| then 0
    else 1 + Performed(r, Handle(r, t, msgs[0]).t, msgs[1..], k - |Handle(r, t, msgs[0]).events|)
  }

  /** The same, and the one in progress if its STATE has been sent. */
  function Acknowledged(r: Rand, t: Table, msgs: seq<Msg>, k: nat): nat
    decreases |msgs|
  {
    if msgs == [] then 0
    else
      var h := Handle(r, t, msgs[0]);
      if k < |h.events| then (if Answered(h.events[..k]) then 1 else 0)
      else 1 + Acknowledged(r, h.t, msgs[1..], k - |h.events|)
  }

  /** A crash after k events takes the session to the point after j requests: none that was acknowledged is lost, and
      none is there that had not been begun. */
  predicate Keeps(r: Rand, t: Table, msgs: seq<Msg>, k: nat, j: nat) {
    j <= |msgs| && Acknowledged(r, t, msgs, k) <= j <= Performed(r, t, msgs, k) + 1
  }

  /** A crash after k events of a process that serves these messages takes it to the game after j of them. */
  predicate ServeKeeps(r: Rand, t: Table, e: Entry, msgs: seq<Msg>, k: nat, j: nat)
    requires k <= |ServeAll(r, t, msgs).events|
  {
    var e' := Stored(e, ServeAll(r, t, msgs).events[..k]);
    Keeps(r, t, msgs, k, j) && Resumable(e') && Regains(e', ServeAll(r, t, msgs[..j]).t)
  }

  lemma CrashInFirst(r: Rand, t: Table, e: Entry, msgs: seq<Msg>, k: nat) returns (j: nat)
    requires Ready(t) && Matches(e, t) && msgs != [] && k < |Handle(r, t, msgs[0]).events|
    ensures k <= |ServeAll(r, t, msgs).events| && ServeKeeps(r, t, e, msgs, k, j)
  {
    var events := Handle(r, t, msgs[0]).events;
    ServeOne(r, t, msgs);
    RequestIsAtomic(r, t, e, msgs[0], k);
    assert ServeAll(r, t, msgs).events[..k] == events[..k];
    j := if !Answered(events[..k]) && Regains(Stored(e, events[..k]), t) then 0 else 1;
  }

  lemma CrashAfterFirst(r: Rand, t: Table, e: Entry, msgs: seq<Msg>, k: nat, h: Turnout, i: nat)
    requires msgs != [] && h == Handle(r, t, msgs[0]) && |h.events| <= k <= |ServeAll(r, t, msgs).events|
    requires ServeKeeps(r, h.t, Stored(e, h.events), msgs[1..], k - |h.events|, i)
    ensures ServeKeeps(r, t, e, msgs, k, i + 1)
  {
    var rest := ServeAll(r, h.t, msgs[1..]);
    var k' := k - |h.events|;
    assert ServeAll(r, t, msgs).events[..k] == h.events + rest.events[..k'] by {
      assert ServeAll(r, t, msgs).events == h.events + rest.events;
    }
    FaithfulConcatenate(e, h.events, rest.events[..k']);
    ServeUnrolled(r, t, msgs, h.t, i);
  }

  lemma ServeUnrolled(r: Rand, t: Table, msgs: seq<Msg>, t': Table, i: nat)
    requires i < |msgs| && t' == Handle(r, t, msgs[0]).t
    ensures ServeAll(r, t, msgs[..i + 1]).t == ServeAll(r, t', msgs[1..][..i]).t
  {
    assert msgs[..i + 1][1..] == msgs[1..][..i];
  }

  /** Across any number of requests: a crash takes the session to the game after j of them, all acknowledged ones included. */
  lemma {:induction false} ServeCrash(r: Rand, t: Table, e: Entry, msgs: seq<Msg>, k: nat) returns (j: nat)
    requires Ready(t) && Matches(e, t) && k <= |ServeAll(r, t, msgs).events|
    ensures ServeKeeps(r, t, e, msgs, k, j)
    decreases |msgs|
  {
    if msgs == [] {
      SettledIgnoresDeals(e, r, t);
      LetAiPlayMakesReady(r, t);
      return 0;
    }
    var h := Handle(r, t, msgs[0]);
    if k < |h.events| {
      j := CrashInFirst(r, t, e, msgs, k);
    } else {
      HandleKeepsReady(r, t, msgs[0]);
      HandleIsFaithful(r, t, e, msgs[0]);
      var i := ServeCrash(r, h.t, Stored(e, h.events), msgs[1..], k - |h.events|);
      CrashAfterFirst(r, t, e, msgs, k, h, i);
      j := i + 1;
    }
  }

  lemma ServeOne(r: Rand, t: Table, msgs: seq<Msg>)
    requires msgs != []
    ensures ServeAll(r, t, msgs[..0]).t == t && ServeAll(r, t, msgs[..1]).t == Handle(r, t, msgs[0]).t
  {
    assert msgs[..1][1..] == [];
  }

  lemma StoredSplits(e: Entry, all: seq<Event>, a: seq<Event>, b: seq<Event>)
    requires all == a + b
    ensures Stored(e, all) == Stored(Stored(e, a), b)
  {
    FaithfulConcatenate(e, a, b);
  }

  /** A crash while the pending AI turn is being saved and shown. */
  lemma CrashInAiTurn(r: Rand, t: Table, e: Entry, ai: Turnout, k: nat)
    requires Resumable(e) && Matches(e, t) && ai == LetAiPlay(r, t) && k <= |ai.events|
    ensures var e' := Stored(e, ai.events[..k]); Resumable(e') && Regains(e', ai.t)
  {
    LetAiPlayMakesReady(r, t);
    SettledIgnoresDeals(e, r, t);
    StoredIsSaved(e, ai.events, k);
  }

  /** A crash in a later exchange. */
  lemma CrashInExchange(r: Rand, t: Table, e: Entry, ai: Turnout, msgs: seq<Msg>, k: nat) returns (j: nat)
    requires Resumable(e) && Matches(e, t) && ai == LetAiPlay(r, t) && k <= |ServeAll(r, ai.t, msgs).events|
    ensures ServeKeeps(r, ai.t, Stored(e, ai.events), msgs, k, j)
  {
    LetAiPlayMakesReady(r, t);
    AiIsFaithful(r, e, t);
    j := ServeCrash(r, ai.t, Stored(e, ai.events), msgs, k);
  }

  /** `Keeps` for the whole main loop, whose first events may be those of a pending AI turn. */
  predicate LoopKeeps(r: Rand, t: Table, msgs: seq<Msg>, k: nat, j: nat) {
    var ai := LetAiPlay(r, t);
    if k < |ai.events| then j == 0 else Keeps(r, ai.t, msgs, k - |ai.events|, j)
  }

  lemma CrashInLoop(r: Rand, t: Table, e: Entry, msgs: seq<Msg>, k: nat, ai: Turnout) returns (j: nat)
    requires Resumable(e) && Matches(e, t) && ai == LetAiPlay(r, t)
    requires |ai.events| <= k <= |MainLoop(r, t, msgs).events|
    ensures LoopKeeps(r, t, msgs, k, j) && j <= |msgs|
    ensures var e' := Stored(e, MainLoop(r, t, msgs).events[..k]);
            Resumable(e') && Regains(e', ServeAll(r, ai.t, msgs[..j]).t)
  {
    LoopIsServe(r, t, msgs);
    var served := ServeAll(r, ai.t, msgs).events;
    var k' := k - |ai.events|;
    j := CrashInExchange(r, t, e, ai, msgs, k');
    StoredSplits(e, (ai.events + served)[..k], ai.events, served[..k']);
  }

  /** The crash theorem: kill a process that was logged in or resumed, at any point of any exchange, and resume it. The
      entry found can be resumed, and the game goes on from the one the killed process waits with after j requests: every
      request it had performed or sent the STATE of is among them, and at most the one in progress besides. */
  lemma CrashIsHarmless(r: Rand, t: Table, e: Entry, msgs: seq<Msg>, k: nat) returns (j: nat)
    requires Resumable(e) && Matches(e, t) && k <= |MainLoop(r, t, msgs).events|
    ensures LoopKeeps(r, t, msgs, k, j) && j <= |msgs|
    ensures var e' := Stored(e, MainLoop(r, t, msgs).events[..k]);
            Resumable(e') && Regains(e', MainLoop(r, t, msgs[..j]).t)
  {
    var events, ai := MainLoop(r, t, msgs).events, LetAiPlay(r, t);
    LoopIsServe(r, t, msgs);
    if k < |ai.events| {
      j := 0;
      assert events[..k] == ai.events[..k] && msgs[..0] == [];
      CrashInAiTurn(r, t, e, ai, k);
    } else {
      j := CrashInLoop(r, t, e, msgs, k, ai);
    }
    LoopIsServe(r, t, msgs[..j]);
  }

  /** A process killed after its last event has lost nothing. */
  lemma {:induction false} AllPerformed(r: Rand, t: Table, msgs: seq<Msg>)
    ensures Acknowledged(r, t, msgs, |ServeAll(r, t, msgs).events|) == |msgs|
    decreases |msgs|
  {
    if msgs != [] {
      AllPerformed(r, Handle(r, t, msgs[0]).t, msgs[1..]);
    }
  }

  /* ---- A whole life is one run ---- */

  /** The acts one message causes in a waiting process. */
  function HandleActs(r: Rand, t: Table, m: Msg): seq<Act> {
    if t.st.g.over then []
    else if m.op == OP_PLAY_CARD && |m.payload| == PLAY_REQ_BYTES && m.payload[0] < t.hand.n then
      [Play(t.hand.ids[m.payload[0]])]
    else if m.op == OP_END_TURN then
      var ended := EndTurnT(r, t);
      if !AiPending(ended.st.g) then [End]
      else [End] + AiActs(ended) + (if AiPlays(ended).st.g.over then [] else [End])
    else []
  }

  lemma OneAct(t: Trail, a: Act)
    ensures RunFrom(Narrow, t, [a]) == Next(Narrow, t, a)
  {
    assert [a][..0] == [];
  }

  /** The AI's turn continues the run. */
  lemma AiTurnIsRun(r: Rand, t: Table, trail: Trail)
    requires AiReady(t.st.g, t.hand) && trail.g == t.st.g
    ensures RunFrom(Narrow, trail, AiActs(t) + (if AiPlays(t).st.g.over then [] else [End])).g == AiTurn(r, t).st.g
  {
    PlaysAreActs(t, trail.pTurns, trail.aiTurns);
    if AiPlays(t).st.g.over {
      assert AiActs(t) + [] == AiActs(t);
    } else {
      RunsConcatenate(Narrow, trail, AiActs(t), [End]);
      OneAct(RunFrom(Narrow, trail, AiActs(t)), End);
    }
  }

  /** One message continues the run. */
  lemma HandleIsRun(r: Rand, t: Table, m: Msg, trail: Trail)
    requires Ready(t) && trail.g == t.st.g
    ensures RunFrom(Narrow, trail, HandleActs(r, t, m)).g == Handle(r, t, m).t.st.g
  {
    if !t.st.g.over {
      if m.op == OP_PLAY_CARD && |m.payload| == PLAY_REQ_BYTES && m.payload[0] < t.hand.n {
        OneAct(trail, Play(t.hand.ids[m.payload[0]]));
      } else if m.op == OP_END_TURN {
        var ended := EndTurnT(r, t);
        OneAct(trail, End);
        if AiPending(ended.st.g) {
          EndIsResumable(r, t);
          var more := AiActs(ended) + (if AiPlays(ended).st.g.over then [] else [End]);
          AiTurnIsRun(r, ended, RunFrom(Narrow, trail, [End]));
          RunsConcatenate(Narrow, trail, [End], more);
          assert [End] + more == HandleActs(r, t, m);
        }
      }
    }
  }

  function ServeActs(r: Rand, t: Table, msgs: seq<Msg>): seq<Act>
    decreases |msgs|
  {
    if msgs == [] then [] else HandleActs(r, t, msgs[0]) + ServeActs(r, Handle(r, t, msgs[0]).t, msgs[1..])
  }

  lemma {:induction false} ServeIsRun(r: Rand, t: Table, msgs: seq<Msg>, trail: Trail)
    requires Ready(t) && trail.g == t.st.g
    ensures RunFrom(Narrow, trail, ServeActs(r, t, msgs)).g == ServeAll(r, t, msgs).t.st.g
    decreases |msgs|
  {
    if msgs != [] {
      var h := Handle(r, t, msgs[0]);
      var acts := HandleActs(r, t, msgs[0]);
      HandleIsRun(r, t, msgs[0], trail);
      HandleKeepsReady(r, t, msgs[0]);
      ServeIsRun(r, h.t, msgs[1..], RunFrom(Narrow, trail, acts));
      RunsConcatenate(Narrow, trail, acts, ServeActs(r, h.t, msgs[1..]));
    }
  }

  /** One process in the life of a session: its dealer, the messages it gets, and the event before which it dies. */
  datatype Process = Process(r: Rand, msgs: seq<Msg>, death: nat)

  function LastEvent(p: Process, t: Table): nat {
    var n := |MainLoop(p.r, t, p.msgs).events|;
    if p.death <= n then p.death else n
  }

  /** What the process leaves in the store when it works on table t and found entry e. */
  function Estate(p: Process, t: Table, e: Entry): Entry { Stored(e, MainLoop(p.r, t, p.msgs).events[..LastEvent(p, t)]) }

  /** The acts of the first j requests of a process that works on table t. */
  function ProcessActs(p: Process, t: Table, j: nat): seq<Act>
    requires j <= |p.msgs|
  {
    ServeActs(p.r, LetAiPlay(p.r, t).t, p.msgs[..j])
  }

  /** The run goes on with what the process did: its first j requests, all acknowledged ones included. */
  ghost predicate Continues(p: Process, t: Table, acts: seq<Act>, all: seq<Act>) {
    exists j: nat | j <= |p.msgs| && LoopKeeps(p.r, t, p.msgs, LastEvent(p, t), j) :: all == acts + ProcessActs(p, t, j)
  }

  /** One process on a table that matches the entry continues the run. */
  lemma ProcessIsRun(p: Process, t: Table, e: Entry, acts: seq<Act>) returns (all: seq<Act>)
    requires Resumable(e) && Matches(e, t) && Run(Narrow, acts).g == Settled(e)
    ensures acts <= all && Continues(p, t, acts, all)
    ensures var e' := Estate(p, t, e); Resumable(e') && Run(Narrow, all).g == Settled(e')
  {
    var j := CrashIsHarmless(p.r, t, e, p.msgs, LastEvent(p, t));
    all := acts + ProcessActs(p, t, j);
    LoopIsServe(p.r, t, p.msgs[..j]);
    LetAiPlayMakesReady(p.r, t);
    SettledIgnoresDeals(e, p.r, t);
    ServeIsRun(p.r, LetAiPlay(p.r, t).t, p.msgs[..j], Run(Narrow, acts));
    RunsConcatenate(Narrow, START, acts, ProcessActs(p, t, j));
  }

  lemma AllIsKept(r: Rand, t: Table, msgs: seq<Msg>, n: nat, j: nat)
    requires Resumable(EntryOf(t)) && n == |MainLoop(r, t, msgs).events| && LoopKeeps(r, t, msgs, n, j)
    ensures j == |msgs|
  {
    LoopIsServe(r, t, msgs);
    AllPerformed(r, LetAiPlay(r, t).t, msgs);
  }

  /** A process that is not cut short leaves exactly the game it waits with. */
  lemma UncutProcessKeepsAll(p: Process, t: Table, e: Entry)
    requires Resumable(e) && Matches(e, t) && p.death >= |MainLoop(p.r, t, p.msgs).events|
    ensures Regains(Estate(p, t, e), MainLoop(p.r, t, p.msgs).t)
  {
    var n := LastEvent(p, t);
    var j := CrashIsHarmless(p.r, t, e, p.msgs, n);
    AllIsKept(p.r, t, p.msgs, n, j);
    assert p.msgs[..j] == p.msgs;
  }

  /** The entry a session's processes leave, each resuming what the one before left. */
  function Legacy(e: Entry, life: seq<Process>): Entry {
    if life == [] then e
    else
      var before := Legacy(e, life[..|life| - 1]);
      Estate(life[|life| - 1], Resumed(before), before)
  }

  /** The entry after the login process and the first n processes that resumed. */
  function Heritage(first: Process, life: seq<Process>): Entry {
    Legacy(Estate(first, LoginTable(first.r), EntryOf(LoginTable(first.r))), life)
  }

  ghost predicate Leads(acts: seq<Act>, e: Entry) { Resumable(e) && Run(Narrow, acts).g == Settled(e) }

  /** A process that found e makes the run longer. */
  ghost predicate GoesOn(p: Process, e: Entry, acts: seq<Act>, all: seq<Act>) {
    acts <= all && Continues(p, Resumed(e), acts, all)
  }

  /** `runs` tells the life of a session: run i leads to the game its entry holds after i resumes, the first is what the
      login process did, and each goes on from the one before with what the next process did. */
  ghost predicate Tells(runs: seq<seq<Act>>, first: Process, life: seq<Process>)
    decreases |life|
  {
    var n := |life|;
    && |runs| == n + 1
    && Leads(runs[n], Heritage(first, life))
    && if n == 0 then Continues(first, LoginTable(first.r), [], runs[0])
       else Tells(runs[..n], first, life[..n - 1]) &&
            GoesOn(life[n - 1], Heritage(first, life[..n - 1]), runs[n - 1], runs[n])
  }

  lemma FirstProcess(first: Process) returns (all: seq<Act>)
    ensures Tells([all], first, [])
  {
    var t := LoginTable(first.r);
    LoginStartsTheRun(first.r);
    all := ProcessIsRun(first, t, EntryOf(t), []);
  }

  lemma NextProcess(runs: seq<seq<Act>>, first: Process, life: seq<Process>) returns (all: seq<Act>)
    requires life != [] && Tells(runs, first, life[..|life| - 1])
    ensures Tells(runs + [all], first, life)
  {
    var n := |life| - 1;
    var e := Heritage(first, life[..n]);
    all := ProcessIsRun(life[n], Resumed(e), e, runs[n]);
    assert (runs + [all])[..n + 1] == runs;
  }

  /** The whole life of a session, from its login through any number of crashes and resumes with any deals and messages,
      is one growing run of the duel: every process goes on where the one before was stopped. */
  lemma {:induction false} LifeIsRun(first: Process, life: seq<Process>) returns (runs: seq<seq<Act>>)
    ensures Tells(runs, first, life)
    decreases |life|
  {
    if life == [] {
      var all := FirstProcess(first);
      runs := [all];
    } else {
      var before := LifeIsRun(first, life[..|life| - 1]);
      var all := NextProcess(before, first, life);
      runs := before + [all];
    }
  }
}
