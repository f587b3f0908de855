/** How a duel ends: when it is over, who won, and that nothing moves afterwards. */
module Endgame {
  import opened Machine
  import opened Cards
  import opened Duel
  import opened Horizon
  import opened Exactness
  import opened Pressure

  /** The verdict the hit points call for. */
  function Judgement(g: Game): Verdict {
    if g.p.hp > 0 && g.ai.hp <= 0 then PlayerWon else if g.ai.hp > 0 && g.p.hp <= 0 then AiWon else Nobody
  }

  /** What holds between two acts: the game is over exactly when some side is at 0, and is judged by who is not. */
  predicate Judged(g: Game) {
    && 0 <= g.p.hp && 0 <= g.ai.hp
    && (g.over <==> g.p.hp == 0 || g.ai.hp == 0)
    && g.winner == Judgement(g)
    && (g.over || g.phase == MainPhase)
  }

  /** One act from a well judged game: the next is well judged if and only if the heal, if it is one, fits. */
  lemma StepIsJudged(g: Game, a: Act)
    requires Upright(g) && Judged(g)
    ensures Judged(Step(Narrow, g, a)) <==> HealFits(g, a)
  {
    if !g.over && a.Play? && a.cid != 0 && GetCardDef(a.cid).Some? {
      var c := GetCardDef(a.cid).value;
      TableIsRated(c);
      if c.cost <= g.mana {
        PlayIsJudged(g, c);
      }
    }
  }

  lemma PlayIsJudged(g: Game, c: CardDef)
    requires Upright(g) && !g.over && Judged(g) && Rated(c) && c.cost <= g.mana
    ensures Judged(PlayDef(Narrow, g, g.turn, c).g) <==> (c.kind == HEAL ==> g.Of(g.turn).hp + c.value < 0x8000)
  {
    var paid := g.(mana := g.mana - c.cost);
    var done := Effect(Narrow, paid, g.turn, c);
    PlayIsVerdict(Narrow, g, c, paid);
    EffectParts(paid, c, done);
    EffectFitsFields(paid, c);
    HitPointsAfter(g.Of(g.turn), g.Of(g.turn.Other()), c);
    VerdictIsJudged(done);
  }

  lemma HitPointsAfter(s: Side, e: Side, c: CardDef)
    requires Rated(c) && UprightSide(s, false) && UprightSide(e, false)
    ensures Target(Narrow, e, c, s.buff).hp >= 0
    ensures var hp := Actor(Narrow, s, c).hp;
            if c.kind == HEAL ==> s.hp + c.value < 0x8000 then hp > 0 else hp < 0
  {
  }

  lemma VerdictIsJudged(g: Game)
    requires !g.over && g.winner == Nobody && g.phase == MainPhase
    ensures Judged(CheckOver(g)) <==> 0 <= g.p.hp && 0 <= g.ai.hp && (g.p.hp > 0 || g.ai.hp > 0 || g.p.hp == g.ai.hp)
  {
  }

  /** Runs of any length: the server's game is rightly judged (hit points are not negative, the game is over exactly when
      some side has none, the winner is the side that still has some) if and only if every heal so far has fitted. */
  lemma {:induction false} RunIsJudged(acts: seq<Act>)
    ensures Judged(Run(Narrow, acts).g) <==> HealsFit(acts)
  {
    if acts != [] {
      var before := acts[..|acts| - 1];
      RunIsJudged(before);
      RunIsUpright(before);
      if Judged(Run(Narrow, before).g) {
        StepIsJudged(Run(Narrow, before).g, acts[|acts| - 1]);
      } else {
        MisjudgedIsOver(Run(Narrow, before).g);
      }
    }
  }

  /** A game is misjudged only by the act that ends it, so it stays so. */
  lemma MisjudgedIsOver(g: Game)
    requires Upright(g) && !Judged(g)
    ensures g.over
  {
  }

  /** Up to round 253 every run is rightly judged. */
  lemma EarlyRunIsJudged(acts: seq<Act>)
    requires Run(Narrow, acts).pTurns <= LAST_SAFE_ROUND
    ensures Judged(Run(Narrow, acts).g)
  {
    EarlyHealsFit(acts);
    RunIsJudged(acts);
  }

  /** A draw is called only at a turn end at which both sides take a poison tick. */
  lemma DrawNeedsTwoTicks(g: Game, a: Act)
    requires Upright(g) && !g.over
    ensures var g' := Step(Narrow, g, a);
            g'.over && g'.winner == Nobody ==> a == End && g.p.poison > 0 && g.ai.poison > 0
  {
    if a.Play? && a.cid != 0 && GetCardDef(a.cid).Some? {
      TableIsRated(GetCardDef(a.cid).value);
    }
  }

  /** The same for any run of the server, of any length, that has just ended in a draw. */
  lemma DrawInRun(acts: seq<Act>, a: Act)
    requires !Run(Narrow, acts).g.over
    requires Run(Narrow, acts + [a]).g.over && Run(Narrow, acts + [a]).g.winner == Nobody
    ensures a == End && Run(Narrow, acts).g.p.poison > 0 && Run(Narrow, acts).g.ai.poison > 0
  {
    assert (acts + [a])[..|acts|] == acts;
    RunIsUpright(acts);
    DrawNeedsTwoTicks(Run(Narrow, acts).g, a);
  }

  /** Whatever the deals, the requests and the AI's choices, no duel is over before the player's fourth turn. */
  lemma EarliestEnd(acts: seq<Act>)
    requires Run(Narrow, acts).g.over
    ensures Run(Narrow, acts).pTurns >= 4
  {
    var t := Run(Narrow, acts);
    if t.pTurns < 4 {
      EarlyHealsFit(acts);
      RunIsBoundedHere(acts);
      RunIsJudged(acts);
      DamageBound(acts, Player);
      DamageBound(acts, Ai);
    }
  }

  lemma RunIsBoundedHere(acts: seq<Act>)
    requires Run(Narrow, acts).pTurns <= LAST_SAFE_ROUND
    ensures Bounded(Run(Narrow, acts))
  {
    NarrowIsExact(acts);
    RunIsBounded(acts);
  }

  /* ---- A heal that does not fit ---- */

  /** A round in which the player drinks a Potion and nobody does anything else. */
  const POTION_ROUND: seq<Act> := [Play(201), End, End]

  function PotionRounds(k: nat): seq<Act> { if k == 0 then [] else PotionRounds(k - 1) + POTION_ROUND }

  function AfterPotions(k: nat): Trail {
    Trail(Game(Side(HP0 + 7 * k, 0, 0, 0), Side(HP0, 0, 0, 0), Player, MainPhase, false, Nobody, MANA0, MANA0), k + 1, k)
  }

  const LAST_POTION := 4676

  lemma OnePotionRound(m: Arith, k: nat)
    requires k < LAST_POTION
    ensures RunFrom(m, AfterPotions(k), POTION_ROUND) == AfterPotions(k + 1)
  {
    LookupIsExact(4);
    var t := AfterPotions(k);
    var t1 := Next(m, t, Play(201));
    assert t1 == t.(g := t.g.(mana := 0, p := Side(HP0 + 7 * k + 7, 0, 0, 0)));
    PotionEnds(m, t1, k);
    ThreeActs(m, t, POTION_ROUND);
  }

  lemma PotionEnds(m: Arith, t: Trail, k: nat)
    requires k < LAST_POTION
    requires t == AfterPotions(k).(g := AfterPotions(k).g.(mana := 0, p := Side(HP0 + 7 * k + 7, 0, 0, 0)))
    ensures Next(m, Next(m, t, End), End) == AfterPotions(k + 1)
  {
    assert Next(m, t, End) == Trail(t.g.(turn := Ai, mana := MANA0), k + 1, k + 1);
  }

  lemma ThreeActs(m: Arith, t: Trail, a: seq<Act>)
    requires |a| == 3
    ensures RunFrom(m, t, a) == Next(m, Next(m, Next(m, t, a[0]), a[1]), a[2])
  {
    assert a[..2][..1] == a[..1] && a[..1][..0] == [];
    assert RunFrom(m, t, a[..1]) == Next(m, t, a[0]);
  }

  lemma {:induction false} PotionRun(m: Arith, k: nat)
    requires k <= LAST_POTION
    ensures Run(m, PotionRounds(k)) == AfterPotions(k)
  {
    if k > 0 {
      PotionRun(m, k - 1);
      OnePotionRound(m, k - 1);
      RunOn(m, PotionRounds(k - 1), AfterPotions(k - 1), POTION_ROUND, AfterPotions(k));
    }
  }

  lemma PotionTooMuch(n: nat)
    requires n == LAST_POTION
    ensures var g := Next(Narrow, AfterPotions(n), Play(201)).g; g.over && g.winner == AiWon && g.p.hp == -32767
    ensures var g := Next(Exact, AfterPotions(n), Play(201)).g; !g.over && g.p.hp == 32769
  {
    LookupIsExact(4);
  }

  /** The condition does fail: the player drinks a Potion in each of 4677 rounds; the last one takes 32762 hit points to
      -32767, and the server declares the AI the winner. */
  lemma HealingLoses() returns (acts: seq<Act>)
    ensures Run(Narrow, acts).pTurns == LAST_POTION + 1 && Run(Narrow, acts).g.over && Run(Narrow, acts).g.winner == AiWon
    ensures !Run(Exact, acts).g.over && Run(Exact, acts).g.p.hp == 32769
  {
    acts := LastPotion(LAST_POTION);
  }

  lemma LastPotion(n: nat) returns (acts: seq<Act>)
    requires n == LAST_POTION
    ensures Run(Narrow, acts).pTurns == n + 1 && Run(Narrow, acts).g.over && Run(Narrow, acts).g.winner == AiWon
    ensures !Run(Exact, acts).g.over && Run(Exact, acts).g.p.hp == 32769
  {
    var before := PotionRounds(n);
    acts := before + [Play(201)];
    assert acts[..|before|] == before;
    PotionRun(Narrow, n);
    PotionRun(Exact, n);
    PotionTooMuch(n);
  }
}
