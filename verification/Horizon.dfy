/** How far the counters of a run can grow, and so for how long no narrowing cast changes a value. */
module Horizon {
  import opened Machine
  import opened Cards
  import opened Duel

  /** Mana the side can still spend in this turn. */
  function Spare(g: Game, who: Seat): int { if g.turn == who then g.mana else 0 }

  function Turns(t: Trail, who: Seat): nat { if who.Player? then t.pTurns else t.aiTurns }

  /** Bounds on one side after it has begun `own` turns and its enemy `foe`. The mana a side may still spend counts
      at the best rate of the card table, which makes the bounds inductive. */
  predicate SideBound(s: Side, own: int, foe: int, spare: int, foeSpare: int, foeOnTurn: bool) {
    && 0 <= s.hp && 3 * s.hp + 7 * spare <= 3 * HP0 + 21 * own
    && 0 <= s.shield && s.shield + 3 * spare <= 9 * own
    && 0 <= s.buff && s.buff + 2 * spare <= 6 * own
    && 0 <= s.poison && s.poison + foeSpare <= foe + (if foeOnTurn then 2 else 1)
  }

  predicate SeatBound(t: Trail, who: Seat) {
    var foe := who.Other();
    SideBound(t.g.Of(who), Turns(t, who), Turns(t, foe), Spare(t.g, who), Spare(t.g, foe), t.g.turn == foe)
  }

  /** The invariant of every run in exact arithmetic. */
  predicate Bounded(t: Trail) {
    && 0 <= t.g.mana <= MANA0 && t.g.maxMana == MANA0
    && t.pTurns == t.aiTurns + (if t.g.turn.Player? then 1 else 0)
    && SeatBound(t, Player) && SeatBound(t, Ai)
  }

  lemma ActorKeepsBound(s: Side, c: CardDef, own: int, foe: int, mana: int)
    requires SideBound(s, own, foe, mana, 0, false) && Rated(c) && c.cost <= mana
    ensures SideBound(Actor(Exact, s, c), own, foe, mana - c.cost, 0, false)
  {
  }

  lemma TargetKeepsBound(s: Side, c: CardDef, buff: int, own: int, foe: int, foeMana: int)
    requires SideBound(s, own, foe, 0, foeMana, true) && Rated(c) && c.cost <= foeMana && 0 <= buff
    ensures SideBound(Target(Exact, s, c, buff), own, foe, 0, foeMana - c.cost, true)
  {
  }

  lemma OverKeepsBounds(t: Trail)
    requires Bounded(t)
    ensures Bounded(t.(g := CheckOver(t.g)))
  {
  }

  lemma PlayIsOver(g: Game, c: CardDef, done: Game)
    requires Rated(c) && c.cost <= g.mana
    requires done == Effect(Exact, g.(mana := g.mana - c.cost), g.turn, c)
    ensures PlayDef(Exact, g, g.turn, c).g == CheckOver(done)
  {
  }

  lemma EffectKeepsBounds(t: Trail, c: CardDef, done: Game)
    requires Bounded(t) && Rated(c) && c.cost <= t.g.mana
    requires done == Effect(Exact, t.g.(mana := t.g.mana - c.cost), t.g.turn, c)
    ensures Bounded(t.(g := done))
  {
    var who := t.g.turn;
    var foe := who.Other();
    ActorKeepsBound(t.g.Of(who), c, Turns(t, who), Turns(t, foe), t.g.mana);
    TargetKeepsBound(t.g.Of(foe), c, t.g.Of(who).buff, Turns(t, foe), Turns(t, who), t.g.mana);
    SidesMakeBounds(t.(g := done), who);
  }

  lemma PlayKeepsBounds(t: Trail, c: CardDef)
    requires Bounded(t) && Rated(c)
    ensures Bounded(t.(g := PlayDef(Exact, t.g, t.g.turn, c).g))
  {
    if c.cost <= t.g.mana {
      var done := Effect(Exact, t.g.(mana := t.g.mana - c.cost), t.g.turn, c);
      EffectKeepsBounds(t, c, done);
      PlayIsOver(t.g, c, done);
      OverKeepsBounds(t.(g := done));
    }
  }

  lemma SidesMakeBounds(t: Trail, who: Seat)
    requires t.g.turn == who
    requires 0 <= t.g.mana <= MANA0 && t.g.maxMana == MANA0
    requires t.pTurns == t.aiTurns + (if who.Player? then 1 else 0)
    requires SideBound(t.g.Of(who), Turns(t, who), Turns(t, who.Other()), t.g.mana, 0, false)
    requires SideBound(t.g.Of(who.Other()), Turns(t, who.Other()), Turns(t, who), 0, t.g.mana, true)
    ensures Bounded(t)
  {
  }

  lemma EndKeepsBounds(t: Trail)
    requires Bounded(t) && !t.g.over
    ensures Bounded(Next(Exact, t, End))
  {
  }

  lemma StepKeepsBounds(t: Trail, a: Act)
    requires Bounded(t)
    ensures Bounded(Next(Exact, t, a))
  {
    if !t.g.over {
      match a
      case End => EndKeepsBounds(t);
      case Play(cid) =>
        if cid != 0 && GetCardDef(cid).Some? {
          TableIsRated(GetCardDef(cid).value);
          PlayKeepsBounds(t, GetCardDef(cid).value);
        }
    }
  }

  lemma {:induction false} RunIsBounded(acts: seq<Act>)
    ensures Bounded(Run(Exact, acts))
  {
    if acts != [] {
      RunIsBounded(acts[..|acts| - 1]);
      StepKeepsBounds(Run(Exact, acts[..|acts| - 1]), acts[|acts| - 1]);
    }
  }

  /** The last round in which every counter still fits: poison peaks at round + 2. */
  const LAST_SAFE_ROUND := 253

  lemma ActorIsExact(s: Side, c: CardDef, own: int, foe: int, mana: int)
    requires SideBound(s, own, foe, mana, 0, false) && Rated(c) && c.cost <= mana && own <= LAST_SAFE_ROUND
    ensures Actor(Narrow, s, c) == Actor(Exact, s, c)
  {
  }

  lemma TargetIsExact(s: Side, c: CardDef, buff: int, own: int, foe: int, foeMana: int)
    requires SideBound(s, own, foe, 0, foeMana, true) && Rated(c) && c.cost <= foeMana
    requires own <= LAST_SAFE_ROUND && foe <= LAST_SAFE_ROUND && 0 <= buff <= 6 * foe
    ensures Target(Narrow, s, c, buff) == Target(Exact, s, c, buff)
  {
  }

  lemma PlayIsExact(t: Trail, c: CardDef)
    requires Bounded(t) && Rated(c) && t.pTurns <= LAST_SAFE_ROUND
    ensures PlayDef(Narrow, t.g, t.g.turn, c) == PlayDef(Exact, t.g, t.g.turn, c)
  {
    if c.cost <= t.g.mana {
      var who := t.g.turn;
      var foe := who.Other();
      assert SeatBound(t, who) && SeatBound(t, foe);
      ActorIsExact(t.g.Of(who), c, Turns(t, who), Turns(t, foe), t.g.mana);
      TargetIsExact(t.g.Of(foe), c, t.g.Of(who).buff, Turns(t, foe), Turns(t, who), t.g.mana);
    }
  }

  lemma EndIsExact(t: Trail)
    requires Bounded(t) && t.pTurns <= LAST_SAFE_ROUND
    ensures EndTurn(Narrow, t.g) == EndTurn(Exact, t.g)
  {
    assert SeatBound(t, Player) && SeatBound(t, Ai);
    assert TickSide(Narrow, t.g.p) == TickSide(Exact, t.g.p);
    assert TickSide(Narrow, t.g.ai) == TickSide(Exact, t.g.ai);
  }

  lemma StepIsExact(t: Trail, a: Act)
    requires Bounded(t) && t.pTurns <= LAST_SAFE_ROUND
    ensures Step(Narrow, t.g, a) == Step(Exact, t.g, a)
  {
    if a.End? {
      EndIsExact(t);
    } else if a.cid != 0 && GetCardDef(a.cid).Some? {
      TableIsRated(GetCardDef(a.cid).value);
      PlayIsExact(t, GetCardDef(a.cid).value);
    }
  }

  /** The horizon: as long as a run has not passed round 253, the server's narrow arithmetic computes what exact
      arithmetic would, for all deals, requests and AI choices. */
  lemma {:induction false} NarrowIsExact(acts: seq<Act>)
    requires Run(Narrow, acts).pTurns <= LAST_SAFE_ROUND
    ensures Run(Narrow, acts) == Run(Exact, acts)
  {
    if acts != [] {
      var before := acts[..|acts| - 1];
      NarrowIsExact(before);
      RunIsBounded(before);
      StepIsExact(Run(Exact, before), acts[|acts| - 1]);
    }
  }

  /** The same in absolute numbers, for the narrow run in round k. */
  lemma RoundBounds(acts: seq<Act>)
    requires Run(Narrow, acts).pTurns <= LAST_SAFE_ROUND
    ensures var t := Run(Narrow, acts); var k := t.pTurns;
            forall s | s == t.g.p || s == t.g.ai ::
              0 <= s.hp <= HP0 + 7 * k && 0 <= s.shield <= 9 * k && 0 <= s.buff <= 6 * k && 0 <= s.poison <= k + 2
  {
    NarrowIsExact(acts);
    RunIsBounded(acts);
    var t := Run(Exact, acts);
    assert SeatBound(t, Player) && SeatBound(t, Ai);
  }

  /* ---- The horizon is exact ---- */

  /** A round in which the player plays Venom and the AI drinks a Potion. */
  const VENOM_ROUND: seq<Act> := [Play(501), End, Play(201), End]

  function VenomRounds(k: nat): seq<Act> {
    if k == 0 then [] else VenomRounds(k - 1) + VENOM_ROUND
  }

  /** The game after k such rounds: the AI gains 3 hit points and one turn of poison in each. */
  function AfterVenom(k: nat): Trail {
    Trail(Game(Side(HP0, 0, 0, 0), Side(HP0 + 3 * k, 0, 0, k), Player, MainPhase, false, Nobody, MANA0, MANA0), k + 1, k)
  }

  lemma VenomPlay(m: Arith, k: nat)
    requires k < LAST_SAFE_ROUND
    ensures Next(m, AfterVenom(k), Play(501)) ==
            AfterVenom(k).(g := AfterVenom(k).g.(mana := 0, ai := Side(HP0 + 3 * k, 0, 0, k + 3)))
  {
    LookupIsExact(10);
  }

  lemma PotionPlay(m: Arith, t: Trail)
    requires t.g.turn.Ai? && !t.g.over && t.g.mana == 3 && 0 <= t.g.ai.hp < 10000 && t.g.p.hp > 0
    ensures Next(m, t, Play(201)) == t.(g := t.g.(mana := 0, ai := t.g.ai.(hp := t.g.ai.hp + 7)))
  {
    LookupIsExact(4);
  }

  lemma VenomEnd(m: Arith, t: Trail, k: nat)
    requires k < LAST_SAFE_ROUND
    requires t == AfterVenom(k).(g := AfterVenom(k).g.(mana := 0, ai := Side(HP0 + 3 * k, 0, 0, k + 3)))
    ensures Next(m, t, End) == Trail(AfterVenom(k).g.(turn := Ai, ai := Side(HP0 + 3 * k - 2, 0, 0, k + 2)), k + 1, k + 1)
  {
  }

  lemma PotionEnd(m: Arith, t: Trail, k: nat)
    requires k < LAST_SAFE_ROUND
    requires t == Trail(AfterVenom(k).g.(turn := Ai, mana := 0, ai := Side(HP0 + 3 * k + 5, 0, 0, k + 2)), k + 1, k + 1)
    ensures Next(m, t, End) == AfterVenom(k + 1)
  {
  }

  lemma OneVenomRound(m: Arith, k: nat)
    requires k < LAST_SAFE_ROUND
    ensures RunFrom(m, AfterVenom(k), VENOM_ROUND) == AfterVenom(k + 1)
  {
    VenomPlay(m, k);
    var t1 := Next(m, AfterVenom(k), Play(501));
    VenomEnd(m, t1, k);
    var t2 := Next(m, t1, End);
    PotionPlay(m, t2);
    PotionEnd(m, Next(m, t2, Play(201)), k);
    FourActs(m, AfterVenom(k), VENOM_ROUND);
  }

  lemma FourActs(m: Arith, t: Trail, a: seq<Act>)
    requires |a| == 4
    ensures RunFrom(m, t, a) == Next(m, Next(m, Next(m, Next(m, t, a[0]), a[1]), a[2]), a[3])
  {
    assert a[..3][..2] == a[..2] && a[..2][..1] == a[..1] && a[..1][..0] == [];
    assert RunFrom(m, t, a[..1]) == Next(m, t, a[0]);
    assert RunFrom(m, t, a[..2]) == Next(m, Next(m, t, a[0]), a[1]);
  }

  lemma RunOn(m: Arith, a: seq<Act>, t: Trail, b: seq<Act>, u: Trail)
    requires Run(m, a) == t && RunFrom(m, t, b) == u
    ensures Run(m, a + b) == u
  {
    RunsConcatenate(m, START, a, b);
  }

  lemma VenomRunOn(m: Arith, a: seq<Act>, k: nat)
    requires k < LAST_SAFE_ROUND && Run(m, a) == AfterVenom(k)
    ensures Run(m, a + VENOM_ROUND) == AfterVenom(k + 1)
  {
    OneVenomRound(m, k);
    RunOn(m, a, AfterVenom(k), VENOM_ROUND, AfterVenom(k + 1));
  }

  lemma {:induction false} VenomRun(m: Arith, k: nat)
    requires k <= LAST_SAFE_ROUND
    ensures Run(m, VenomRounds(k)) == AfterVenom(k)
  {
    if k > 0 {
      VenomRun(m, k - 1);
      VenomRunOn(m, VenomRounds(k - 1), k - 1);
    }
  }

  /** One round later the bound fails: in round 254 the 256th turn of poison wraps the counter to 0. */
  lemma HorizonIsTight()
    ensures exists acts :: Run(Narrow, acts).pTurns == LAST_SAFE_ROUND + 1 &&
                           Run(Exact, acts).g.ai.poison == 256 && Run(Narrow, acts).g.ai.poison == 0
  {
    var a := VenomRounds(LAST_SAFE_ROUND);
    VenomRun(Narrow, LAST_SAFE_ROUND);
    VenomRun(Exact, LAST_SAFE_ROUND);
    RunsConcatenate(Narrow, START, a, [Play(501)]);
    RunsConcatenate(Exact, START, a, [Play(501)]);
    LookupIsExact(10);
    assert Run(Narrow, a + [Play(501)]).g.ai.poison == 0;
  }
}
