/** Exactly when the server's narrow arithmetic is right: act by act, and for whole runs of any length. */
module Exactness {
  import opened Machine
  import opened Cards
  import opened Duel
  import opened Horizon

  predicate SoundSide(s: Side) {
    0 <= s.hp < 0x8000 && 0 <= s.shield < 0x8000 && 0 <= s.buff < 0x8000 && 0 <= s.poison < 0x100
  }

  /** A game that fits the fields of `state_t`, with no number below 0. */
  predicate Sound(g: Game) {
    SoundSide(g.p) && SoundSide(g.ai) && 0 <= g.mana < 0x100 && 0 <= g.maxMana < 0x100
  }

  /** The guard of the one cast that a card's effect can fail. */
  predicate CardFits(s: Side, e: Side, c: CardDef) {
    if c.kind == ATK then e.hp - (c.value + s.buff - Absorbed(e, c.value + s.buff)) >= -0x8000
    else if c.kind == HEAL then s.hp + c.value < 0x8000
    else if c.kind == SHIELD then s.shield + c.value < 0x8000
    else if c.kind == BUFF then s.buff + c.value < 0x8000
    else e.poison + c.value < 0x100
  }

  /** The same for an act: everything but the play of a known card that can be paid for is safe in any sound game. */
  predicate Fits(g: Game, a: Act) {
    g.over || a.End? || a.cid == 0 ||
    match GetCardDef(a.cid)
    case None => true
    case Some(c) => c.cost <= g.mana ==> CardFits(g.Of(g.turn), g.Of(g.turn.Other()), c)
  }

  lemma ActorFits(s: Side, e: Side, c: CardDef)
    requires SoundSide(s) && Rated(c)
    ensures Actor(Narrow, s, c) == Actor(Exact, s, c) <==> c.kind in {ATK, POISON} || CardFits(s, e, c)
    ensures c.kind in {ATK, POISON} || CardFits(s, e, c) ==> SoundSide(Actor(Exact, s, c))
  {
  }

  lemma TargetFits(s: Side, e: Side, c: CardDef)
    requires SoundSide(s) && SoundSide(e) && Rated(c)
    ensures Target(Narrow, e, c, s.buff) == Target(Exact, e, c, s.buff) <==> c.kind !in {ATK, POISON} || CardFits(s, e, c)
    ensures c.kind !in {ATK, POISON} || CardFits(s, e, c) ==> SoundSide(Target(Exact, e, c, s.buff))
  {
  }

  /** One play: the two arithmetics agree if and only if the guard holds, and then the game stays sound. */
  lemma PlayFits(g: Game, c: CardDef)
    requires Sound(g) && Rated(c) && c.cost <= g.mana
    ensures var s, e := g.Of(g.turn), g.Of(g.turn.Other());
            && (PlayDef(Narrow, g, g.turn, c) == PlayDef(Exact, g, g.turn, c) <==> CardFits(s, e, c))
            && (CardFits(s, e, c) ==> Sound(PlayDef(Exact, g, g.turn, c).g))
  {
    var s, e := g.Of(g.turn), g.Of(g.turn.Other());
    ActorFits(s, e, c);
    TargetFits(s, e, c);
    var paid := g.(mana := g.mana - c.cost);
    PlayIsVerdict(Narrow, g, c, paid);
    PlayIsVerdict(Exact, g, c, paid);
    VerdictIsSides(Effect(Narrow, paid, g.turn, c), Effect(Exact, paid, g.turn, c));
    EffectIsSides(paid, c);
  }

  lemma PlayIsVerdict(m: Arith, g: Game, c: CardDef, paid: Game)
    requires Rated(c) && c.cost <= g.mana < 0x100 && paid == g.(mana := g.mana - c.cost)
    ensures PlayDef(m, g, g.turn, c) == Played(0, CheckOver(Effect(m, paid, g.turn, c)))
  {
  }

  /** The verdict changes no side, so it cannot hide a difference. */
  lemma VerdictIsSides(g: Game, h: Game)
    requires g == h.(p := g.p, ai := g.ai)
    ensures CheckOver(g) == CheckOver(h) <==> g == h
  {
  }

  lemma EffectIsSides(g: Game, c: CardDef)
    ensures var n, x := Effect(Narrow, g, g.turn, c), Effect(Exact, g, g.turn, c);
            var s, e := g.Of(g.turn), g.Of(g.turn.Other());
            && n == x.(p := n.p, ai := n.ai)
            && (n == x <==> Actor(Narrow, s, c) == Actor(Exact, s, c) &&
                            Target(Narrow, e, c, s.buff) == Target(Exact, e, c, s.buff))
            && x.Of(g.turn) == Actor(Exact, s, c) && x.Of(g.turn.Other()) == Target(Exact, e, c, s.buff)
  {
  }

  lemma EndFits(g: Game)
    requires Sound(g)
    ensures EndTurn(Narrow, g) == EndTurn(Exact, g) && Sound(EndTurn(Exact, g))
  {
    assert TickSide(Narrow, g.p) == TickSide(Exact, g.p) && TickSide(Narrow, g.ai) == TickSide(Exact, g.ai);
  }

  /** One act of any sound game, in any round: the server computes what exact arithmetic would if and only if the guard
      of the cast involved holds. */
  lemma StepFits(g: Game, a: Act)
    requires Sound(g)
    ensures Step(Narrow, g, a) == Step(Exact, g, a) <==> Fits(g, a)
    ensures Fits(g, a) ==> Sound(Step(Exact, g, a))
  {
    if !g.over {
      if a.End? {
        EndFits(g);
      } else if a.cid != 0 && GetCardDef(a.cid).Some? {
        var c := GetCardDef(a.cid).value;
        TableIsRated(c);
        if c.cost <= g.mana {
          PlayFits(g, c);
        }
      }
    }
  }

  /** The guard holds at every act of the server's run. */
  predicate FitsThroughout(acts: seq<Act>) {
    forall k | 0 <= k < |acts| :: Fits(Run(Narrow, acts[..k]).g, acts[k])
  }

  predicate AgreesThroughout(acts: seq<Act>) {
    forall k | 0 <= k <= |acts| :: Run(Narrow, acts[..k]) == Run(Exact, acts[..k])
  }

  lemma RunOneMore(m: Arith, acts: seq<Act>, k: nat)
    requires k < |acts|
    ensures Run(m, acts[..k + 1]) == Next(m, Run(m, acts[..k]), acts[k])
  {
    assert acts[..k + 1][..k] == acts[..k];
  }

  lemma NextFits(t: Trail, a: Act)
    requires Sound(t.g)
    ensures Next(Narrow, t, a) == Next(Exact, t, a) <==> Fits(t.g, a)
    ensures Fits(t.g, a) ==> Sound(Next(Exact, t, a).g)
  {
    StepFits(t.g, a);
  }

  lemma {:induction false} FittingRunAgrees(acts: seq<Act>, k: nat)
    requires k <= |acts| && FitsThroughout(acts)
    ensures Run(Narrow, acts[..k]) == Run(Exact, acts[..k]) && Sound(Run(Narrow, acts[..k]).g)
  {
    if k > 0 {
      FittingRunAgrees(acts, k - 1);
      RunOneMore(Narrow, acts, k - 1);
      RunOneMore(Exact, acts, k - 1);
      NextFits(Run(Narrow, acts[..k - 1]), acts[k - 1]);
    }
  }

  lemma AgreeingActFits(acts: seq<Act>, k: nat)
    requires k < |acts| && AgreesThroughout(acts) && Sound(Run(Narrow, acts[..k]).g)
    ensures Fits(Run(Narrow, acts[..k]).g, acts[k]) && Sound(Run(Narrow, acts[..k + 1]).g)
  {
    assert Run(Narrow, acts[..k]) == Run(Exact, acts[..k]) && Run(Narrow, acts[..k + 1]) == Run(Exact, acts[..k + 1]);
    OneMoreFits(acts, k, Run(Narrow, acts[..k]), Run(Narrow, acts[..k + 1]));
  }

  lemma OneMoreFits(acts: seq<Act>, k: nat, t: Trail, t': Trail)
    requires k < |acts| && Run(Narrow, acts[..k]) == t == Run(Exact, acts[..k]) && Sound(t.g)
    requires Run(Narrow, acts[..k + 1]) == t' == Run(Exact, acts[..k + 1])
    ensures Fits(t.g, acts[k]) && Sound(t'.g)
  {
    RunOneMore(Narrow, acts, k);
    RunOneMore(Exact, acts, k);
    NextFits(t, acts[k]);
  }

  lemma {:induction false} AgreeingRunFits(acts: seq<Act>, k: nat)
    requires k <= |acts| && AgreesThroughout(acts)
    ensures Sound(Run(Narrow, acts[..k]).g)
    ensures k < |acts| ==> Fits(Run(Narrow, acts[..k]).g, acts[k])
  {
    if k > 0 {
      AgreeingRunFits(acts, k - 1);
      AgreeingActFits(acts, k - 1);
    }
    if k < |acts| {
      AgreeingActFits(acts, k);
    }
  }

  /** A run of any length: the server's arithmetic agrees with exact arithmetic at every point if and only if the guard
      holds at every act. */
  lemma RunsAgree(acts: seq<Act>)
    ensures AgreesThroughout(acts) <==> FitsThroughout(acts)
  {
    if FitsThroughout(acts) {
      forall k | 0 <= k <= |acts|
        ensures Run(Narrow, acts[..k]) == Run(Exact, acts[..k])
      {
        FittingRunAgrees(acts, k);
      }
    }
    if AgreesThroughout(acts) {
      forall k | 0 <= k < |acts|
        ensures Fits(Run(Narrow, acts[..k]).g, acts[k])
      {
        AgreeingRunFits(acts, k);
      }
    }
  }

  lemma {:induction false} TurnsOnlyGrow(acts: seq<Act>, k: nat)
    requires k <= |acts|
    ensures Run(Narrow, acts[..k]).pTurns <= Run(Narrow, acts).pTurns
    decreases |acts| - k
  {
    if k < |acts| {
      RunOneMore(Narrow, acts, k);
      TurnsOnlyGrow(acts, k + 1);
    } else {
      assert acts[..k] == acts;
    }
  }

  /** Up to round 253 no run has to look: the guard holds at every act. */
  lemma EarlyRunsFit(acts: seq<Act>)
    requires Run(Narrow, acts).pTurns <= LAST_SAFE_ROUND
    ensures FitsThroughout(acts)
  {
    forall k | 0 <= k <= |acts|
      ensures Run(Narrow, acts[..k]) == Run(Exact, acts[..k])
    {
      TurnsOnlyGrow(acts, k);
      NarrowIsExact(acts[..k]);
    }
    RunsAgree(acts);
  }

  /** Equal sides are enough: nothing else in a game depends on the arithmetic. */
  lemma SidesDecide(g: Game, a: Act)
    requires Sound(g)
    requires Step(Narrow, g, a).p == Step(Exact, g, a).p && Step(Narrow, g, a).ai == Step(Exact, g, a).ai
    ensures Step(Narrow, g, a) == Step(Exact, g, a)
  {
    if !g.over {
      if a.End? {
        EndFits(g);
      } else if a.cid != 0 && GetCardDef(a.cid).Some? {
        var c := GetCardDef(a.cid).value;
        TableIsRated(c);
        if c.cost <= g.mana {
          var paid := g.(mana := g.mana - c.cost);
          PlayIsVerdict(Narrow, g, c, paid);
          PlayIsVerdict(Exact, g, c, paid);
          EffectIsSides(paid, c);
        }
      }
    }
  }

  /* ---- What holds of every run of the server, casts or no casts ---- */

  predicate UprightSide(s: Side, over: bool) {
    (if over then -0x8000 else 1) <= s.hp < 0x8000 && -0x8000 <= s.shield < 0x8000 && -0x8000 <= s.buff < 0x8000 &&
    0 <= s.poison < 0x100
  }

  /** The game fits its fields, mana is in range, and unless it is over both sides stand and nobody has won. */
  predicate Upright(g: Game) {
    && UprightSide(g.p, g.over) && UprightSide(g.ai, g.over)
    && 0 <= g.mana <= MANA0 && g.maxMana == MANA0
    && (g.over || (g.phase == MainPhase && g.winner == Nobody))
  }

  lemma StepStaysUpright(g: Game, a: Act)
    requires Upright(g)
    ensures Upright(Step(Narrow, g, a))
  {
    if !g.over {
      if a.End? {
        EndStaysUpright(g);
      } else if a.cid != 0 && GetCardDef(a.cid).Some? {
        var c := GetCardDef(a.cid).value;
        TableIsRated(c);
        if c.cost <= g.mana {
          PlayStaysUpright(g, c);
        }
      }
    }
  }

  lemma EndStaysUpright(g: Game)
    requires Upright(g) && !g.over
    ensures Upright(EndTurn(Narrow, g))
  {
    VerdictIsUpright(Tick(Narrow, g.(phase := EndPhase)));
  }

  lemma PlayStaysUpright(g: Game, c: CardDef)
    requires Upright(g) && !g.over && Rated(c) && c.cost <= g.mana
    ensures Upright(PlayDef(Narrow, g, g.turn, c).g)
  {
    var paid := g.(mana := g.mana - c.cost);
    PlayIsVerdict(Narrow, g, c, paid);
    EffectFitsFields(paid, c);
    VerdictIsUpright(Effect(Narrow, paid, g.turn, c));
  }

  lemma EffectFitsFields(g: Game, c: CardDef)
    requires UprightSide(g.p, true) && UprightSide(g.ai, true) && Rated(c)
    ensures var g' := Effect(Narrow, g, g.turn, c);
            g' == g.(p := g'.p, ai := g'.ai) && UprightSide(g'.p, true) && UprightSide(g'.ai, true)
  {
    var s, e := g.Of(g.turn), g.Of(g.turn.Other());
    assert UprightSide(Actor(Narrow, s, c), true) && UprightSide(Target(Narrow, e, c, s.buff), true);
  }

  /** Whoever has no hit points left is found out by the verdict. */
  lemma VerdictIsUpright(g: Game)
    requires UprightSide(g.p, true) && UprightSide(g.ai, true) && !g.over && g.winner == Nobody
    ensures var g' := CheckOver(g);
            && g' == g.(over := g'.over, winner := g'.winner)
            && UprightSide(g'.p, g'.over) && UprightSide(g'.ai, g'.over) && (g'.over || g'.winner == Nobody)
  {
  }

  lemma {:induction false} RunIsUpright(acts: seq<Act>)
    ensures Upright(Run(Narrow, acts).g)
  {
    if acts != [] {
      RunIsUpright(acts[..|acts| - 1]);
      StepStaysUpright(Run(Narrow, acts[..|acts| - 1]).g, acts[|acts| - 1]);
    }
  }

  /** The guard of the one cast that matters to hit points: an affordable heal must fit. */
  predicate HealFits(g: Game, a: Act) {
    g.over || a.End? || a.cid == 0 ||
    match GetCardDef(a.cid)
    case None => true
    case Some(c) => c.kind == HEAL && c.cost <= g.mana ==> g.Of(g.turn).hp + c.value < 0x8000
  }

  /** Every heal of the run fits. */
  predicate HealsFit(acts: seq<Act>) {
    acts == [] ||
    (HealsFit(acts[..|acts| - 1]) && HealFits(Run(Narrow, acts[..|acts| - 1]).g, acts[|acts| - 1]))
  }

  lemma {:induction false} FittingHealsFit(acts: seq<Act>)
    requires FitsThroughout(acts)
    ensures HealsFit(acts)
  {
    if acts != [] {
      var before := acts[..|acts| - 1];
      FitsBefore(acts);
      FittingHealsFit(before);
      assert Fits(Run(Narrow, acts[..|before|]).g, acts[|before|]);
    }
  }

  lemma FitsBefore(acts: seq<Act>)
    requires acts != [] && FitsThroughout(acts)
    ensures FitsThroughout(acts[..|acts| - 1])
  {
    var before := acts[..|acts| - 1];
    forall k | 0 <= k < |before|
      ensures Fits(Run(Narrow, before[..k]).g, before[k])
    {
      assert before[..k] == acts[..k] && before[k] == acts[k];
    }
  }

  lemma EarlyHealsFit(acts: seq<Act>)
    requires Run(Narrow, acts).pTurns <= LAST_SAFE_ROUND
    ensures HealsFit(acts)
  {
    EarlyRunsFit(acts);
    FittingHealsFit(acts);
  }
}
