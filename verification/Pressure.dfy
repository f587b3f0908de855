/** The amortised damage bound: a side's attack potential pays for all the harm it can ever do, so no duel can end
    before the player's fourth turn. */
module Pressure {
  import opened Machine
  import opened Cards
  import opened Duel
  import opened Horizon
  import opened Exactness

  /** The enemy's hit points less everything the side has already bought but not yet dealt: its buff, two points for
      each turn of poison, and three points for each mana it can still spend this turn. A buff that has wrapped below 0
      is worth nothing. */
  function Potential(g: Game, who: Seat): int {
    g.Of(who.Other()).hp - Floor0(g.Of(who).buff) - 2 * g.Of(who.Other()).poison - 3 * Spare(g, who)
  }

  /** What a card costs, at three points for each mana, covers what it does or prepares, in the server's arithmetic; and a
      heal that fits never helps the enemy. */
  lemma PlayPays(s: Side, e: Side, c: CardDef)
    requires Rated(c) && UprightSide(s, false) && UprightSide(e, false)
    ensures var s' := Actor(Narrow, s, c); var e' := Target(Narrow, e, c, s.buff);
            e'.hp - 2 * e'.poison - Floor0(s'.buff) + 3 * c.cost >= e.hp - 2 * e.poison - Floor0(s.buff)
    ensures (c.kind == HEAL ==> s.hp + c.value < 0x8000) ==> Actor(Narrow, s, c).hp >= s.hp
    ensures Actor(Narrow, s, c).poison == s.poison && Target(Narrow, e, c, s.buff).buff == e.buff
  {
  }

  lemma PlayKeepsPotential(g: Game, c: CardDef, who: Seat)
    requires Upright(g) && !g.over && Rated(c) && c.cost <= g.mana
    requires c.kind == HEAL ==> g.Of(g.turn).hp + c.value < 0x8000
    ensures Potential(PlayDef(Narrow, g, g.turn, c).g, who) >= Potential(g, who)
  {
    var paid := g.(mana := g.mana - c.cost);
    var done := Effect(Narrow, paid, g.turn, c);
    PlayPays(g.Of(g.turn), g.Of(g.turn.Other()), c);
    EffectParts(paid, c, done);
    PlayIsVerdict(Narrow, g, c, paid);
    VerdictKeepsPotential(done, who);
  }

  lemma EffectParts(g: Game, c: CardDef, done: Game)
    requires done == Effect(Narrow, g, g.turn, c)
    ensures done.turn == g.turn && done.mana == g.mana
    ensures done.Of(g.turn) == Actor(Narrow, g.Of(g.turn), c)
    ensures done.Of(g.turn.Other()) == Target(Narrow, g.Of(g.turn.Other()), c, g.Of(g.turn).buff)
  {
  }

  lemma VerdictKeepsPotential(g: Game, who: Seat)
    ensures Potential(CheckOver(g), who) == Potential(g, who)
  {
  }

  lemma EndKeepsPotential(t: Trail, who: Seat)
    requires Upright(t.g)
    ensures var t' := Next(Narrow, t, End);
            Potential(t'.g, who) >= Potential(t.g, who) - 9 * (Turns(t', who) - Turns(t, who))
  {
  }

  /** In one act of the server a side's potential against its enemy never drops, except by 9 when the act begins that
      side's turn. Of all the casts only that of a heal could lower it. */
  lemma PotentialStep(t: Trail, a: Act, who: Seat)
    requires Upright(t.g) && HealFits(t.g, a)
    ensures var t' := Next(Narrow, t, a);
            Potential(t'.g, who) >= Potential(t.g, who) - 9 * (Turns(t', who) - Turns(t, who))
  {
    if a.End? {
      EndKeepsPotential(t, who);
    } else if !t.g.over && a.cid != 0 && GetCardDef(a.cid).Some? {
      var c := GetCardDef(a.cid).value;
      TableIsRated(c);
      if c.cost <= t.g.mana {
        PlayKeepsPotential(t.g, c, who);
      }
    }
  }

  lemma {:induction false} PotentialOverRun(acts: seq<Act>, who: Seat)
    requires HealsFit(acts)
    ensures Potential(Run(Narrow, acts).g, who) >= HP0 - 9 * Turns(Run(Narrow, acts), who)
  {
    if acts != [] {
      var before := acts[..|acts| - 1];
      PotentialOverRun(before, who);
      RunIsUpright(before);
      PotentialStep(Run(Narrow, before), acts[|acts| - 1], who);
    }
  }

  /** After k of a side's turns its enemy still has at least 30 - 9k hit points, in every run of the server whose heals fit. */
  lemma DamageBound(acts: seq<Act>, who: Seat)
    requires HealsFit(acts)
    ensures Run(Narrow, acts).g.Of(who.Other()).hp >= HP0 - 9 * Turns(Run(Narrow, acts), who)
  {
    RunIsUpright(acts);
    PotentialOverRun(acts, who);
  }
}
