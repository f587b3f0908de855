/** `state_t`, `hand_t` and the dealer as objects changed in place, and the server's game helpers over them
    (src/server.c:51-270), each proved against its specification in Table and AiPlayer. */
module Board {
  import opened Machine
  import opened Cards
  import opened Duel
  import LogRing
  import opened Table
  import opened AiPlayer

  predicate FitsSide(s: Side) {
    -0x8000 <= s.hp < 0x8000 && -0x8000 <= s.shield < 0x8000 && -0x8000 <= s.buff < 0x8000 && 0 <= s.poison < 0x100
  }

  /** The game's numbers fit the fields of `state_t`. */
  predicate Fits(g: Game) { FitsSide(g.p) && FitsSide(g.ai) && 0 <= g.mana < 0x100 && 0 <= g.maxMana < 0x100 }

  class HandObj {
    var n: Byte
    const ids: array<Word16>

    ghost predicate Valid() reads this { ids.Length == HAND_SLOTS && n <= HAND_SLOTS }

    function View(): Hand
      reads this, ids
      requires Valid()
    {
      RawHand(n, ids[..])
    }

    constructor ()
      ensures Valid() && View() == NO_HAND && fresh(ids)
    {
      n := 0;
      ids := new Word16[HAND_SLOTS](_ => 0);
    }

    /** `memset`. */
    method Clear()
      requires Valid()
      modifies this, ids
      ensures Valid() && View() == NO_HAND
    {
      n := 0;
      forall k | 0 <= k < ids.Length { ids[k] := 0; }
    }

    /** `*h = saved`. */
    method Restore(saved: Hand)
      requires Valid()
      modifies this, ids
      ensures Valid() && View() == saved
    {
      n := saved.n;
      forall k | 0 <= k < ids.Length { ids[k] := saved.ids[k]; }
      assert ids[..] == saved.ids;
    }
  }

  /** The process's `rand()`. */
  class Dealer {
    const stream: Rand
    var pos: nat

    constructor (stream: Rand)
      ensures this.stream == stream && pos == 0
    {
      this.stream := stream;
      pos := 0;
    }

    method RandCardId() returns (id: Word16)
      modifies this
      ensures id == RandCard(stream, old(pos)) && pos == old(pos) + 1
    {
      id := POOL[stream(pos) % |POOL|];
      pos := pos + 1;
    }

    method DealHand(hand: HandObj)
      requires hand.Valid()
      modifies this, hand, hand.ids
      ensures hand.Valid() && hand.View() == Deal(stream, old(pos)) && pos == old(pos) + DEALT
    {
      hand.Clear();
      hand.n := DEALT;
      ghost var start := pos;
      for i := 0 to DEALT
        invariant hand.Valid() && hand.n == DEALT && pos == start + i
        invariant forall k | 0 <= k < i :: hand.ids[k] == RandCard(stream, start + k)
        invariant forall k | i <= k < HAND_SLOTS :: hand.ids[k] == 0
      {
        var id := RandCardId();
        hand.ids[i] := id;
      }
      DealIs(stream, start, hand.View());
    }
  }

  lemma DealIs(r: Rand, pos: nat, h: Hand)
    requires h.n == DEALT && forall k | 0 <= k < DEALT :: h.ids[k] == RandCard(r, pos + k)
    requires forall k | DEALT <= k < HAND_SLOTS :: h.ids[k] == 0
    ensures h == Deal(r, pos)
  {
    var a, b, c := h.ids[0], h.ids[1], h.ids[2];
    assert h.ids == [a, b, c, 0, 0, 0, 0, 0];
    assert a == RandCard(r, pos + 0) && b == RandCard(r, pos + 1) && c == RandCard(r, pos + 2);
  }

  class State {
    var pHp: Int16
    var aiHp: Int16
    var turn: Seat
    var phase: Phase
    var gameOver: bool
    var winner: Verdict
    var mana: Byte
    var maxMana: Byte
    var pShield: Int16
    var aiShield: Int16
    var pBuff: Int16
    var aiBuff: Int16
    var pPoison: Byte
    var aiPoison: Byte
    var logHead: Byte
    const logs: array<string>

    ghost predicate Valid() reads this { logs.Length == LogRing.LINES }

    function Fields(): Game reads this
    {
      Game(Side(pHp, pShield, pBuff, pPoison), Side(aiHp, aiShield, aiBuff, aiPoison),
                turn, phase, gameOver, winner, mana, maxMana)
    }

    function View(): StateT
      reads this, logs
      requires Valid()
    {
      StateT(Fields(), LogRing.RawRing(logHead, logs[..]))
    }

    /** Zeroed memory. */
    constructor ()
      ensures Valid() && View() == BLANK_STATE && fresh(logs)
    {
      pHp, aiHp, turn, phase, gameOver, winner := 0, 0, Player, DrawPhase, false, Nobody;
      mana, maxMana, pShield, aiShield, pBuff, aiBuff, pPoison, aiPoison, logHead := 0, 0, 0, 0, 0, 0, 0, 0, 0;
      logs := new string[LogRing.LINES](_ => "");
    }

    /** `*st = saved`. */
    method Restore(saved: StateT)
      requires Valid() && Fits(saved.g)
      modifies this, logs
      ensures View() == saved
    {
      RestoreFields(saved.g);
      RestoreLog(saved.log);
    }

    lemma FieldsFit()
      ensures Fits(Fields())
    {
    }

    method RestoreFields(g: Game)
      requires Fits(g)
      modifies this
      ensures Fields() == g && logHead == old(logHead)
    {
      RestoreSide(Player, g.p);
      RestoreSide(Ai, g.ai);
      turn, phase, gameOver, winner, mana, maxMana := g.turn, g.phase, g.over, g.winner, g.mana, g.maxMana;
    }

    method RestoreSide(who: Seat, s: Side)
      requires FitsSide(s)
      modifies this`pHp, this`aiHp, this`pShield, this`aiShield, this`pBuff, this`aiBuff, this`pPoison, this`aiPoison
      ensures Fields() == old(Fields()).With(who, s)
    {
      if who.Player? {
        pHp, pShield, pBuff, pPoison := s.hp, s.shield, s.buff, s.poison;
      } else {
        aiHp, aiShield, aiBuff, aiPoison := s.hp, s.shield, s.buff, s.poison;
      }
    }

    method RestoreLog(ring: LogRing.Ring)
      requires Valid()
      modifies this`logHead, logs
      ensures View() == old(View()).(log := ring)
    {
      logHead := ring.head;
      forall k | 0 <= k < logs.Length { logs[k] := ring.lines[k]; }
      assert logs[..] == ring.lines;
    }

    method PushLog(msg: string)
      requires Valid()
      modifies this`logHead, logs
      ensures View() == old(View()).(log := LogRing.Push(old(View().log), msg))
    {
      var idx := logHead % LogRing.LINES;
      logs[idx] := LogRing.Clip(msg);
      logHead := (logHead + 1) % LogRing.LINES;
    }

    method ApplyDamage(target: Seat, amount: int)
      requires Valid()
      modifies this`pHp, this`aiHp, this`pShield, this`aiShield
      ensures Fields() == old(Fields()).With(target, Damage(Narrow, old(Fields()).Of(target), amount))
    {
      var dmg := amount;
      if dmg <= 0 { return; }
      var shield := if target.Player? then pShield else aiShield;
      if shield > 0 {
        var used := if dmg < shield then dmg else shield;
        if target.Player? { pShield := Wrap16(pShield - used); } else { aiShield := Wrap16(aiShield - used); }
        dmg := dmg - used;
      }
      if dmg > 0 {
        if target.Player? {
          pHp := Wrap16(pHp - dmg);
          if pHp < 0 { pHp := 0; }
        } else {
          aiHp := Wrap16(aiHp - dmg);
          if aiHp < 0 { aiHp := 0; }
        }
      }
    }

    method TickPoison()
      requires Valid()
      modifies this`pHp, this`aiHp, this`pPoison, this`aiPoison, this`logHead, logs
      ensures View() == TickSt(old(View()))
    {
      if pPoison > 0 {
        pPoison := Wrap8(pPoison - 1);
        pHp := Wrap16(pHp - 2);
        if pHp < 0 { pHp := 0; }
        PushLog("P takes poison (-2)");
      }
      assert Fields() == old(Fields()).(p := TickSide(Narrow, old(Fields()).p));
      if aiPoison > 0 {
        aiPoison := Wrap8(aiPoison - 1);
        aiHp := Wrap16(aiHp - 2);
        if aiHp < 0 { aiHp := 0; }
        PushLog("AI takes poison (-2)");
      }
    }

    method CheckGameOver()
      requires Valid()
      modifies this`gameOver, this`winner, this`logHead, logs
      ensures View() == CheckOverSt(old(View()))
    {
      if gameOver { return; }
      if pHp <= 0 || aiHp <= 0 {
        gameOver := true;
        if pHp > aiHp { winner := PlayerWon; }
        else if aiHp > pHp { winner := AiWon; }
        else { winner := Nobody; }
        PushLog("GAME OVER");
      }
    }

    /** The attack case of the `switch`. */
    method Attack(who: Seat, c: CardDef)
      requires Valid() && c.kind == ATK
      modifies this`pHp, this`aiHp, this`pShield, this`aiShield, this`pBuff, this`aiBuff
      ensures Fields() == Effect(Narrow, old(Fields()), who, c)
    {
      var dmg: int := c.value + (if who.Player? then pBuff else aiBuff);
      if who.Player? { pBuff := 0; } else { aiBuff := 0; }
      ApplyDamage(who.Other(), dmg);
    }

    /** The assignments in the `switch` of `handle_play_card`; false is its default branch. */
    method Switch(who: Seat, c: CardDef) returns (known: bool)
      requires Valid()
      modifies this`pHp, this`aiHp, this`pShield, this`aiShield, this`pBuff, this`aiBuff, this`pPoison, this`aiPoison
      ensures known <==> ATK <= c.kind <= POISON
      ensures Fields() == if known then Effect(Narrow, old(Fields()), who, c) else old(Fields())
    {
      known := true;
      if c.kind == ATK {
        Attack(who, c);
      } else if c.kind == HEAL {
        if who.Player? { pHp := Wrap16(pHp + c.value); } else { aiHp := Wrap16(aiHp + c.value); }
      } else if c.kind == SHIELD {
        if who.Player? { pShield := Wrap16(pShield + c.value); } else { aiShield := Wrap16(aiShield + c.value); }
      } else if c.kind == BUFF {
        if who.Player? { pBuff := Wrap16(pBuff + c.value); } else { aiBuff := Wrap16(aiBuff + c.value); }
      } else if c.kind == POISON {
        if who.Player? { aiPoison := Wrap8(aiPoison + Wrap8(c.value)); }
        else { pPoison := Wrap8(pPoison + Wrap8(c.value)); }
      } else {
        known := false;
      }
    }

    /** The `switch` with its log lines, for a card already paid for. */
    method RunEffect(who: Seat, c: CardDef) returns (known: bool)
      requires Valid()
      modifies this, logs
      ensures known <==> ATK <= c.kind <= POISON
      ensures View() == if known then EffectSt(old(View()), who, c) else old(View())
    {
      var dmg: int := c.value + (if who.Player? then pBuff else aiBuff);
      known := Switch(who, c);
      if known { PushLog(PlayLine(who, c, dmg, mana)); }
    }

    method HandlePlayCard(hand: HandObj, who: Seat, idx: Byte) returns (rc: int)
      requires Valid() && hand.Valid()
      modifies this, logs
      ensures rc == PlayCode(old(Fields()), hand.View(), who, idx)
      ensures View() == PlaySt(old(View()), hand.View(), who, idx)
    {
      if idx >= hand.n { return -1; }
      var cid := hand.ids[idx];
      if cid == 0 { return -3; }
      var found := GetCardDef(cid);
      if found.None? { return -3; }
      var c := found.value;
      if c.cost > mana { return -2; }
      mana := Wrap8(mana - c.cost);
      var known := RunEffect(who, c);
      if !known { return -3; }
      CheckGameOver();
      return 0;
    }
  }

  /** The table that the state, the shared hand and the dealer make up together. */
  ghost function TableOf(st: State, hand: HandObj, dealer: Dealer): Table
    reads st, st.logs, hand, hand.ids, dealer
    requires st.Valid() && hand.Valid()
  {
    Table(st.View(), hand.View(), dealer.pos)
  }

  method PhaseDraw(st: State, hand: HandObj, dealer: Dealer)
    requires st.Valid() && hand.Valid()
    modifies st`mana, st`phase, st`logHead, st.logs, hand, hand.ids, dealer
    ensures hand.Valid()
    ensures TableOf(st, hand, dealer) == EnterTurnT(dealer.stream, old(TableOf(st, hand, dealer)), st.turn)
  {
    st.mana := st.maxMana;
    if st.turn.Player? {
      dealer.DealHand(hand);
      st.PushLog("P: DRAW PHASE");
    } else {
      dealer.DealHand(hand);
      st.PushLog("AI: DRAW PHASE");
    }
    st.phase := MainPhase;
  }

  method EnterTurn(st: State, hand: HandObj, dealer: Dealer, side: Seat)
    requires st.Valid() && hand.Valid()
    modifies st`turn, st`mana, st`phase, st`logHead, st.logs, hand, hand.ids, dealer
    ensures hand.Valid()
    ensures TableOf(st, hand, dealer) == EnterTurnT(dealer.stream, old(TableOf(st, hand, dealer)), side)
  {
    st.turn := side;
    st.phase := DrawPhase;
    PhaseDraw(st, hand, dealer);
  }

  method PhaseEnd(st: State, hand: HandObj, dealer: Dealer)
    requires st.Valid() && hand.Valid()
    modifies st, st.logs, hand, hand.ids, dealer
    ensures hand.Valid()
    ensures TableOf(st, hand, dealer) == EndTurnT(dealer.stream, old(TableOf(st, hand, dealer)))
  {
    st.phase := EndPhase;
    st.PushLog(Name(st.turn) + ": END PHASE");
    st.TickPoison();
    st.CheckGameOver();
    if st.gameOver { return; }
    EnterTurn(st, hand, dealer, if st.turn.Player? then Ai else Player);
  }

  /** `ai_eval_card`. */
  method AiEvalCard(st: State, c: CardDef) returns (score: int)
    ensures score == Score(st.Fields(), c)
  {
    score := 0;
    if st.aiHp < 10 && c.kind == HEAL { score := score + 100; }
    if st.pShield > 0 && c.kind == BUFF { score := score + 40; }
    if c.kind == ATK { score := score + c.value; }
    else if c.kind == POISON { if st.pPoison == 0 { score := score + 30; } }
    else if c.kind == SHIELD { if st.aiShield == 0 { score := score + 20; } }
    score := score - c.cost * 2;
  }

  lemma BestOneMore(offers: seq<Option<int>>, i: nat, offer: Option<int>)
    requires i < |offers| && offers[i] == offer
    ensures var b := Best(offers, i);
            Best(offers, i + 1) == if offer.Some? && offer.value > b.score then Pick(i, offer.value) else b
  {
  }

  /** The scan over the hand inside `process_ai_turn`. */
  method BestCard(st: State, hand: HandObj) returns (bestIdx: int)
    requires hand.Valid()
    ensures bestIdx == Choice(st.Fields(), hand.View())
  {
    ghost var g, h := st.Fields(), hand.View();
    ghost var offers := Offers(g, h);
    bestIdx := -1;
    var bestScore := WORST;
    for i := 0 to hand.n
      invariant Pick(bestIdx, bestScore) == Best(offers, i)
    {
      var cid := hand.ids[i];
      assert cid == h.ids[i];
      BestOneMore(offers, i, Offer(g, h, i));
      if cid == 0 { continue; }
      var found := GetCardDef(cid);
      if found.None? { continue; }
      if found.value.cost <= st.mana {
        var score := AiEvalCard(st, found.value);
        if score > bestScore {
          bestScore := score;
          bestIdx := i;
        }
      }
    }
  }

  method ProcessAiTurn(st: State, hand: HandObj, dealer: Dealer)
    requires st.Valid() && hand.Valid()
    modifies st, st.logs, hand, hand.ids, dealer
    ensures hand.Valid()
    ensures TableOf(st, hand, dealer) == AiTurn(dealer.stream, old(TableOf(st, hand, dealer)))
  {
    ghost var t0 := TableOf(st, hand, dealer);
    while st.phase == MainPhase && !st.gameOver
      invariant hand.Valid()
      invariant AiPlays(TableOf(st, hand, dealer)) == AiPlays(t0)
      decreases st.mana
    {
      ghost var t := TableOf(st, hand, dealer);
      var bestIdx := BestCard(st, hand);
      if bestIdx < 0 { break; }
      PlayCosts(t, bestIdx);
      var rc := st.HandlePlayCard(hand, Ai, bestIdx);
      hand.ids[bestIdx] := 0;
      assert TableOf(st, hand, dealer) == AiPlay(t, bestIdx);
    }
    if !st.gameOver { PhaseEnd(st, hand, dealer); }
  }
}
