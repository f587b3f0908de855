/** The rules treat the two sides alike: exchanging them commutes with every act, hence with every run. */
module Mirror {
  import opened Machine
  import opened Cards
  import opened Duel
  import opened Pressure

  function Swap(v: Verdict): Verdict {
    match v
    case Nobody => Nobody
    case PlayerWon => AiWon
    case AiWon => PlayerWon
  }

  function Reflect(g: Game): Game {
    g.(p := g.ai, ai := g.p, turn := g.turn.Other(), winner := Swap(g.winner))
  }

  lemma ReflectTwice(g: Game)
    ensures Reflect(Reflect(g)) == g
  {
  }

  lemma OverReflects(g: Game)
    ensures CheckOver(Reflect(g)) == Reflect(CheckOver(g))
  {
  }

  lemma EffectReflects(m: Arith, g: Game, who: Seat, c: CardDef)
    ensures Effect(m, Reflect(g), who.Other(), c) == Reflect(Effect(m, g, who, c))
  {
    var actor := Actor(m, g.Of(who), c);
    var target := Target(m, g.Of(who.Other()), c, g.Of(who).buff);
    assert Reflect(g).Of(who.Other()) == g.Of(who) && Reflect(g).Of(who) == g.Of(who.Other());
    assert Reflect(g).With(who.Other(), actor).With(who, target) == Reflect(g.With(who, actor).With(who.Other(), target));
  }

  lemma PlayDefReflects(m: Arith, g: Game, who: Seat, c: CardDef)
    ensures var a := PlayDef(m, g, who, c); var b := PlayDef(m, Reflect(g), who.Other(), c);
            b.rc == a.rc && b.g == Reflect(a.g)
  {
    if c.cost <= g.mana && ATK <= c.kind <= POISON {
      var paid := g.(mana := m.U8(g.mana - c.cost));
      assert Reflect(g).(mana := m.U8(g.mana - c.cost)) == Reflect(paid);
      EffectReflects(m, paid, who, c);
      OverReflects(Effect(m, paid, who, c));
    }
  }

  /** A play by either side, on turn or not, with the same return code. */
  lemma PlayReflects(m: Arith, g: Game, who: Seat, cid: int)
    ensures var a := PlayId(m, g, who, cid); var b := PlayId(m, Reflect(g), who.Other(), cid);
            b.rc == a.rc && b.g == Reflect(a.g)
  {
    if cid != 0 && GetCardDef(cid).Some? {
      PlayDefReflects(m, g, who, GetCardDef(cid).value);
    }
  }

  lemma EndReflects(m: Arith, g: Game)
    ensures Tick(m, Reflect(g)) == Reflect(Tick(m, g))
    ensures EndTurn(m, Reflect(g)) == Reflect(EndTurn(m, g))
  {
    OverReflects(Tick(m, g.(phase := EndPhase)));
  }

  lemma StepReflects(m: Arith, g: Game, a: Act)
    ensures Step(m, Reflect(g), a) == Reflect(Step(m, g, a))
  {
    if !g.over {
      match a
      case Play(cid) => PlayReflects(m, g, g.turn, cid);
      case End => EndReflects(m, g);
    }
  }

  function ReflectTrail(t: Trail): Trail { Trail(Reflect(t.g), t.aiTurns, t.pTurns) }

  /** Whole runs from any game reflect, in either arithmetic, and the sides' turn counts change places. */
  lemma {:induction false} RunReflects(m: Arith, t: Trail, acts: seq<Act>)
    ensures RunFrom(m, ReflectTrail(t), acts) == ReflectTrail(RunFrom(m, t, acts))
  {
    if acts != [] {
      RunReflects(m, t, acts[..|acts| - 1]);
      StepReflects(m, RunFrom(m, t, acts[..|acts| - 1]).g, acts[|acts| - 1]);
    }
  }

  /** Playing a run in the mirror and looking at its end in the mirror is playing the run. */
  lemma RunInMirror(m: Arith, t: Trail, acts: seq<Act>)
    ensures Reflect(RunFrom(m, ReflectTrail(t), acts).g) == RunFrom(m, t, acts).g
  {
    RunReflects(m, t, acts);
    ReflectTwice(RunFrom(m, t, acts).g);
  }

  /** The AI's potential is the player's potential in the mirror, so the two damage bounds are one theorem. */
  lemma PotentialReflects(g: Game, who: Seat)
    ensures Potential(Reflect(g), who) == Potential(g, who.Other())
  {
  }
}
