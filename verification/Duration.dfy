/** The theorems about runs, read off a session: how long a duel between a client and the greedy AI must last, and for
    how many rounds its numbers stay exact. */
module Duration {
  import opened Machine
  import opened Duel
  import opened Horizon
  import opened Exactness
  import opened Pressure
  import opened Endgame
  import opened Table
  import opened AiPlayer
  import opened AiProofs
  import opened Store
  import opened Session
  import opened SessionProofs
  import opened Crash

  /** The rounds a session can have entered after these messages: one more than its END_TURN requests. */
  function Rounds(msgs: seq<Msg>): (n: nat)
    ensures n >= 1
  {
    if msgs == [] then 1 else Rounds(msgs[1..]) + (if msgs[0].op == OP_END_TURN then 1 else 0)
  }

  lemma HandleTurns(r: Rand, t: Table, m: Msg, trail: Trail)
    requires Ready(t) && trail.g == t.st.g
    ensures RunFrom(Narrow, trail, HandleActs(r, t, m)).pTurns <= trail.pTurns + (if m.op == OP_END_TURN then 1 else 0)
  {
    if !t.st.g.over {
      if m.op == OP_PLAY_CARD && |m.payload| == PLAY_REQ_BYTES && m.payload[0] < t.hand.n {
        OneAct(trail, Play(t.hand.ids[m.payload[0]]));
      } else if m.op == OP_END_TURN {
        EndActTurns(r, t, trail);
      }
    }
  }

  lemma NextTurns(trail: Trail, a: Act)
    ensures var n := Next(Narrow, trail, a);
            n.pTurns <= trail.pTurns + 1 && (n.g.turn == Ai || a.Play? ==> n.pTurns == trail.pTurns)
  {
  }

  lemma AiTurnTurns(t: Table, trail: Trail)
    requires Live(t.st.g) && t.st.g.turn == Ai && trail.g == t.st.g
    ensures RunFrom(Narrow, trail, AiActs(t) + (if AiPlays(t).st.g.over then [] else [End])).pTurns <= trail.pTurns + 1
  {
    PlaysAreActs(t, trail.pTurns, trail.aiTurns);
    var played := RunFrom(Narrow, trail, AiActs(t));
    if AiPlays(t).st.g.over {
      assert AiActs(t) + [] == AiActs(t);
    } else {
      RunsConcatenate(Narrow, trail, AiActs(t), [End]);
      OneAct(played, End);
      NextTurns(played, End);
    }
  }

  /** A turn end with the AI's turn behind it begins at most one player turn. */
  lemma EndActTurns(r: Rand, t: Table, trail: Trail)
    requires Ready(t) && trail.g == t.st.g && !t.st.g.over
    ensures RunFrom(Narrow, trail, HandleActs(r, t, Msg(OP_END_TURN, []))).pTurns <= trail.pTurns + 1
  {
    var ended := EndTurnT(r, t);
    var more := EndActs(r, t, ended);
    OneAct(trail, End);
    NextTurns(trail, End);
    EndIsResumable(r, t);
    RunsConcatenate(Narrow, trail, [End], more);
    if AiPending(ended.st.g) {
      AiTurnTurns(ended, Next(Narrow, trail, End));
    }
  }

  lemma EndActs(r: Rand, t: Table, ended: Table) returns (more: seq<Act>)
    requires !t.st.g.over && ended == EndTurnT(r, t)
    ensures HandleActs(r, t, Msg(OP_END_TURN, [])) == [End] + more
    ensures more == if AiPending(ended.st.g) then AiActs(ended) + (if AiPlays(ended).st.g.over then [] else [End]) else []
  {
    more := if AiPending(ended.st.g) then AiActs(ended) + (if AiPlays(ended).st.g.over then [] else [End]) else [];
    assert HandleActs(r, t, Msg(OP_END_TURN, [])) == [End] + more;
  }

  lemma {:induction false} ServeTurns(r: Rand, t: Table, msgs: seq<Msg>, trail: Trail)
    requires Ready(t) && trail.g == t.st.g
    ensures RunFrom(Narrow, trail, ServeActs(r, t, msgs)).pTurns <= trail.pTurns + Rounds(msgs) - 1
    decreases |msgs|
  {
    if msgs != [] {
      var acts := HandleActs(r, t, msgs[0]);
      var h := Handle(r, t, msgs[0]);
      HandleTurns(r, t, msgs[0], trail);
      HandleIsRun(r, t, msgs[0], trail);
      HandleKeepsReady(r, t, msgs[0]);
      ServeTurns(r, h.t, msgs[1..], RunFrom(Narrow, trail, acts));
      RunsConcatenate(Narrow, trail, acts, ServeActs(r, h.t, msgs[1..]));
    }
  }

  /** A session from its login, as a run. */
  lemma SessionRun(r: Rand, msgs: seq<Msg>) returns (acts: seq<Act>)
    ensures Run(Narrow, acts).g == MainLoop(r, LoginTable(r), msgs).t.st.g
    ensures Run(Narrow, acts).pTurns <= Rounds(msgs)
  {
    var t := LoginTable(r);
    LoginIsReady(r);
    LoginStartsTheRun(r);
    LetAiPlayMakesReady(r, t);
    LoopIsServe(r, t, msgs);
    acts := ServeActs(r, t, msgs);
    ServeIsRun(r, t, msgs, START);
    ServeTurns(r, t, msgs, START);
  }

  /** No session is over before its third END_TURN has been answered: the player always gets a fourth turn. */
  lemma NoQuickEnd(r: Rand, msgs: seq<Msg>)
    requires MainLoop(r, LoginTable(r), msgs).t.st.g.over
    ensures Rounds(msgs) >= 4
  {
    var acts := SessionRun(r, msgs);
    EarliestEnd(acts);
  }

  /** The bounds a run gives after at most k rounds. */
  ghost predicate WithinBounds(g: Game, k: nat) {
    && Judged(g)
    && HP0 - 9 * k <= g.ai.hp && HP0 - 9 * k <= g.p.hp
    && (forall s | s == g.p || s == g.ai ::
          s.hp <= HP0 + 7 * k && s.shield <= 9 * k && s.buff <= 6 * k && s.poison <= k + 2)
  }

  lemma RunWithinBounds(acts: seq<Act>, k: nat)
    requires Run(Narrow, acts).pTurns <= k <= LAST_SAFE_ROUND
    ensures WithinBounds(Run(Narrow, acts).g, k)
  {
    EarlyHealsFit(acts);
    RunIsJudged(acts);
    RoundBounds(acts);
    DamageBound(acts, Player);
    DamageBound(acts, Ai);
    RunIsBoundedHere(acts);
  }

  /** In a session of at most 253 rounds nothing wraps: the game is judged rightly, and every number keeps its bound. */
  lemma SessionBounds(r: Rand, msgs: seq<Msg>)
    requires Rounds(msgs) <= LAST_SAFE_ROUND
    ensures WithinBounds(MainLoop(r, LoginTable(r), msgs).t.st.g, Rounds(msgs))
  {
    var acts := SessionRun(r, msgs);
    RunWithinBounds(acts, Rounds(msgs));
  }

  /* ---- Lives with crashes ---- */

  /** The rounds a session can have entered in a life of several processes: one more than all their END_TURN requests. */
  function LifeRounds(first: Process, life: seq<Process>): nat {
    if life == [] then Rounds(first.msgs)
    else LifeRounds(first, life[..|life| - 1]) + Rounds(life[|life| - 1].msgs) - 1
  }

  lemma {:induction false} FewerRounds(msgs: seq<Msg>, j: nat)
    requires j <= |msgs|
    ensures Rounds(msgs[..j]) <= Rounds(msgs)
  {
    if j > 0 {
      FewerRounds(msgs[1..], j - 1);
      assert msgs[..j][1..] == msgs[1..][..j - 1];
    }
  }

  lemma ProcessTurns(p: Process, t: Table, e: Entry, acts: seq<Act>, all: seq<Act>)
    requires Resumable(e) && Matches(e, t) && Run(Narrow, acts).g == Settled(e) && Continues(p, t, acts, all)
    ensures Run(Narrow, all).pTurns <= Run(Narrow, acts).pTurns + Rounds(p.msgs) - 1
  {
    var j: nat :| j <= |p.msgs| && LoopKeeps(p.r, t, p.msgs, LastEvent(p, t), j) && all == acts + ProcessActs(p, t, j);
    LetAiPlayMakesReady(p.r, t);
    SettledIgnoresDeals(e, p.r, t);
    ServeTurns(p.r, LetAiPlay(p.r, t).t, p.msgs[..j], Run(Narrow, acts));
    RunsConcatenate(Narrow, START, acts, ProcessActs(p, t, j));
    FewerRounds(p.msgs, j);
  }

  lemma {:induction false} LifeTurns(runs: seq<seq<Act>>, first: Process, life: seq<Process>)
    requires Tells(runs, first, life)
    ensures Run(Narrow, runs[|life|]).pTurns <= LifeRounds(first, life)
    decreases |life|
  {
    var n := |life|;
    if n == 0 {
      LoginStartsTheRun(first.r);
      ProcessTurns(first, LoginTable(first.r), EntryOf(LoginTable(first.r)), [], runs[0]);
    } else {
      var e := Heritage(first, life[..n - 1]);
      LifeTurns(runs[..n], first, life[..n - 1]);
      ProcessTurns(life[n - 1], Resumed(e), e, runs[n - 1], runs[n]);
    }
  }

  /** The same for a session with any number of crashes and resumes. */
  lemma NoQuickEndOfLife(first: Process, life: seq<Process>)
    requires Settled(Heritage(first, life)).over
    ensures LifeRounds(first, life) >= 4
  {
    var runs := LifeIsRun(first, life);
    LifeTurns(runs, first, life);
    EarliestEnd(runs[|life|]);
  }

  /** And in a life of at most 253 rounds nothing wraps. */
  lemma LifeBounds(first: Process, life: seq<Process>)
    requires LifeRounds(first, life) <= LAST_SAFE_ROUND
    ensures WithinBounds(Settled(Heritage(first, life)), LifeRounds(first, life))
  {
    var runs := LifeIsRun(first, life);
    LifeTurns(runs, first, life);
    RunWithinBounds(runs[|life|], LifeRounds(first, life));
  }
}
