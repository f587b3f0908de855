/** What the AI's turn does: it is greedy at every play, leaves nothing affordable behind, and hands over properly. */
module AiProofs {
  import opened Machine
  import opened Cards
  import opened Duel
  import opened Table
  import opened AiPlayer

  /** What the duel keeps between two requests, beyond the horizon too: mana in range, and both sides standing unless
      the game is over. */
  predicate Live(g: Game) {
    && 0 <= g.mana <= MANA0 && g.maxMana == MANA0
    && (g.over || (g.p.hp > 0 && g.ai.hp > 0 && g.phase == MainPhase))
  }

  /** The player is asked to act: game over, or the player's main phase with three pool cards. */
  predicate PlayerReady(g: Game, h: Hand) {
    Live(g) && (g.over || (g.turn == Player && FreshHand(h)))
  }

  /** The AI is about to act on a full turn. */
  predicate AiReady(g: Game, h: Hand) {
    Live(g) && !g.over && g.turn == Ai && g.mana == MANA0 && FreshHand(h)
  }

  lemma PlayKeepsLive(g: Game, who: Seat, cid: int)
    requires Live(g) && !g.over
    ensures Live(PlayId(Narrow, g, who, cid).g) && PlayId(Narrow, g, who, cid).g.turn == g.turn
  {
  }

  /** After a turn end the game is over or the other side begins a full turn. */
  lemma EndHandsOver(r: Rand, t: Table)
    requires Live(t.st.g) && !t.st.g.over
    ensures var u := EndTurnT(r, t);
            && Live(u.st.g)
            && (!u.st.g.over ==> u.st.g.turn == t.st.g.turn.Other() && u.st.g.mana == MANA0 && FreshHand(u.hand))
            && (u.st.g.over ==> u.hand == t.hand && u.st.g.turn == t.st.g.turn)
  {
  }

  /** The table after the slots in `idxs` were played and blanked, in order. */
  function Replay(t: Table, idxs: seq<int>): Table
    decreases idxs
  {
    if idxs == [] then t
    else if 0 <= idxs[0] < t.hand.n then Replay(AiPlay(t, idxs[0]), idxs[1..])
    else t
  }

  /** Each slot is the greedy one of the table the slots before it have led to, while the game is on. */
  predicate GreedyThroughout(t: Table, idxs: seq<int>) {
    forall k | 0 <= k < |idxs| ::
      var u := Replay(t, idxs[..k]); Acting(u.st.g) && Greedy(Offers(u.st.g, u.hand), idxs[k])
  }

  lemma ReplayFirst(t: Table, i: int, rest: seq<int>)
    requires 0 <= i < t.hand.n
    ensures Replay(t, [i] + rest) == Replay(AiPlay(t, i), rest)
  {
    assert ([i] + rest)[1..] == rest;
  }

  lemma GreedyFirst(t: Table, i: int, t': Table, rest: seq<int>)
    requires 0 <= i < t.hand.n && t' == AiPlay(t, i) && Acting(t.st.g) && Greedy(Offers(t.st.g, t.hand), i)
    requires GreedyThroughout(t', rest)
    ensures GreedyThroughout(t, [i] + rest)
  {
    var cs := [i] + rest;
    forall k | 0 <= k < |cs|
      ensures var u := Replay(t, cs[..k]); Acting(u.st.g) && Greedy(Offers(u.st.g, u.hand), cs[k])
    {
      if k == 0 {
        assert Replay(t, cs[..0]) == t;
      } else {
        ReplayFirst(t, i, rest[..k - 1]);
        assert cs[..k] == [i] + rest[..k - 1];
      }
    }
  }

  /** From any table at all: every slot the loop plays is the greedy one at that moment, while the game is still on,
      and the loop stops only outside the main phase, at game over, or when nothing can be paid for. */
  lemma {:induction false} LoopIsGreedy(t: Table)
    ensures AiPlays(t) == Replay(t, Choices(t))
    ensures GreedyThroughout(t, Choices(t))
    ensures var u := AiPlays(t);
            Acting(u.st.g) ==> forall j | 0 <= j < u.hand.n :: Offer(u.st.g, u.hand, j).None?
    decreases t.st.g.mana
  {
    var i := Choice(t.st.g, t.hand);
    ChoiceIsGreedy(t.st.g, t.hand, i);
    if Acting(t.st.g) && i >= 0 {
      PlayCosts(t, i);
      var t' := AiPlay(t, i);
      LoopIsGreedy(t');
      assert Choices(t)[1..] == Choices(t');
      GreedyFirst(t, i, t', Choices(t'));
    }
  }

  lemma {:induction false} PlaysAtMostMana(t: Table)
    requires 0 <= t.st.g.mana
    ensures |Choices(t)| <= t.st.g.mana
    decreases t.st.g.mana
  {
    var i := Choice(t.st.g, t.hand);
    if Acting(t.st.g) && i >= 0 {
      PlayCosts(t, i);
      TableIsRated(GetCardDef(t.hand.ids[i]).value);
      PlaysAtMostMana(AiPlay(t, i));
    }
  }

  lemma {:induction false} PlaysKeepLive(t: Table)
    requires Live(t.st.g)
    ensures Live(AiPlays(t).st.g) && AiPlays(t).st.g.turn == t.st.g.turn && AiPlays(t).pos == t.pos
    decreases t.st.g.mana
  {
    var i := Choice(t.st.g, t.hand);
    if Acting(t.st.g) && i >= 0 {
      PlayCosts(t, i);
      PlayKeepsLive(t.st.g, Ai, t.hand.ids[i]);
      PlaysKeepLive(AiPlay(t, i));
    }
  }

  lemma FullTurnPlays(t: Table)
    requires AiReady(t.st.g, t.hand)
    ensures |Choices(t)| >= 1
  {
    PoolIsKnown(t.hand.ids[0]);
    TableIsRated(GetCardDef(t.hand.ids[0]).value);
    ChoiceIsGreedy(t.st.g, t.hand, 0);
    assert Offer(t.st.g, t.hand, 0).Some?;
  }

  /** The AI's turn: one to three plays, and then the game is over or the player is in the main phase with full mana
      and a fresh hand. */
  lemma AiTurnHandsOver(r: Rand, t: Table)
    requires AiReady(t.st.g, t.hand)
    ensures 1 <= |Choices(t)| <= 3
    ensures var u := AiTurn(r, t);
            && PlayerReady(u.st.g, u.hand)
            && (!u.st.g.over ==> u.st.g.mana == MANA0 && u.hand == Deal(r, t.pos))
  {
    FullTurnPlays(t);
    PlaysAtMostMana(t);
    PlaysKeepLive(t);
    if !AiPlays(t).st.g.over {
      EndHandsOver(r, AiPlays(t));
    }
  }

  /** The AI's plays, and with them every game field after its turn, do not depend on the dealer: two runs of the turn
      from the same game and hand differ only in the cards dealt next. */
  lemma AiTurnIgnoresDeals(r1: Rand, r2: Rand, t1: Table, t2: Table)
    requires t1.st.g == t2.st.g && t1.hand == t2.hand
    ensures Choices(t1) == Choices(t2)
    ensures AiPlays(t1).st.g == AiPlays(t2).st.g && AiPlays(t1).hand == AiPlays(t2).hand
    ensures AiTurn(r1, t1).st.g == AiTurn(r2, t2).st.g
  {
    PlaysIgnoreDeals(t1, t2);
  }

  lemma {:induction false} PlaysIgnoreDeals(t1: Table, t2: Table)
    requires t1.st.g == t2.st.g && t1.hand == t2.hand
    ensures Choices(t1) == Choices(t2)
    ensures AiPlays(t1).st.g == AiPlays(t2).st.g && AiPlays(t1).hand == AiPlays(t2).hand
    decreases t1.st.g.mana
  {
    var i := Choice(t1.st.g, t1.hand);
    if Acting(t1.st.g) && i >= 0 {
      PlayCosts(t1, i);
      PlaysIgnoreDeals(AiPlay(t1, i), AiPlay(t2, i));
    }
  }

  /* ---- The AI's turn as acts of a run ---- */

  function AiActs(t: Table): seq<Act>
    decreases t.st.g.mana
  {
    var i := Choice(t.st.g, t.hand);
    if !Acting(t.st.g) || i < 0 then []
    else
      PlayCosts(t, i);
      [Play(t.hand.ids[i])] + AiActs(AiPlay(t, i))
  }

  lemma {:induction false} PlaysAreActs(t: Table, pTurns: nat, aiTurns: nat)
    requires Live(t.st.g) && t.st.g.turn == Ai
    ensures RunFrom(Narrow, Trail(t.st.g, pTurns, aiTurns), AiActs(t)) == Trail(AiPlays(t).st.g, pTurns, aiTurns)
    decreases t.st.g.mana
  {
    var i := Choice(t.st.g, t.hand);
    if Acting(t.st.g) && i >= 0 {
      PlayCosts(t, i);
      var a := Play(t.hand.ids[i]);
      var t' := AiPlay(t, i);
      PlayKeepsLive(t.st.g, Ai, t.hand.ids[i]);
      PlaysAreActs(t', pTurns, aiTurns);
      var trail := Trail(t.st.g, pTurns, aiTurns);
      RunsConcatenate(Narrow, trail, [a], AiActs(t'));
      assert RunFrom(Narrow, trail, [a]) == Next(Narrow, trail, a);
    }
  }
}
