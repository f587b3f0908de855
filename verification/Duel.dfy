/** The rules of the duel as functions on values (src/server.c:64-103, 138-226): what one play and one turn end do to
    the game fields of `state_t`. The log ring, the hand and the objects that are updated in place are in LogRing,
    Table and Board. */
module Duel {
  import opened Machine
  import opened Cards

  /** 0 and 1 in the `turn` field, and the `is_player` flag. */
  datatype Seat = Player | Ai {
    function Other(): Seat { if Player? then Ai else Player }
  }

  datatype Phase = DrawPhase | MainPhase | EndPhase

  /** 0, 1 and 2 in the `winner` field; a draw is also 0. */
  datatype Verdict = Nobody | PlayerWon | AiWon

  datatype Side = Side(hp: int, shield: int, buff: int, poison: int)

  datatype Game = Game(p: Side, ai: Side, turn: Seat, phase: Phase, over: bool, winner: Verdict, mana: int, maxMana: int)
  {
    function Of(who: Seat): Side { if who.Player? then p else ai }

    function With(who: Seat, s: Side): Game { if who.Player? then this.(p := s) else this.(ai := s) }
  }

  /** The return code of `handle_play_card` and the game it leaves. */
  datatype Played = Played(rc: int, g: Game)

  function Floor0(x: int): int { if x < 0 then 0 else x }

  function Absorbed(s: Side, dmg: int): int {
    if dmg <= 0 || s.shield <= 0 then 0 else if dmg < s.shield then dmg else s.shield
  }

  /** `apply_damage`: the shield soaks first, what is left reaches the hit points, which stop at 0. */
  function Damage(m: Arith, s: Side, dmg: int): Side {
    if dmg <= 0 then s
    else
      var left := dmg - Absorbed(s, dmg);
      s.(shield := if s.shield > 0 then m.I16(s.shield - Absorbed(s, dmg)) else s.shield,
         hp := if left > 0 then Floor0(m.I16(s.hp - left)) else s.hp)
  }

  /** One side's half of `tick_poison`: poison ignores the shield. */
  function TickSide(m: Arith, s: Side): Side {
    if s.poison > 0 then s.(poison := m.U8(s.poison - 1), hp := Floor0(m.I16(s.hp - 2))) else s
  }

  function Tick(m: Arith, g: Game): Game { g.(p := TickSide(m, g.p), ai := TickSide(m, g.ai)) }

  predicate Down(g: Game) { g.p.hp <= 0 || g.ai.hp <= 0 }

  /** `check_game_over`. */
  function CheckOver(g: Game): Game {
    if g.over || !Down(g) then g
    else g.(over := true,
            winner := if g.p.hp > g.ai.hp then PlayerWon else if g.ai.hp > g.p.hp then AiWon else Nobody)
  }

  /** The `switch` of `handle_play_card`, what it writes through the `self_` pointers. */
  function Actor(m: Arith, s: Side, c: CardDef): Side {
    if c.kind == ATK then s.(buff := 0)
    else if c.kind == HEAL then s.(hp := m.I16(s.hp + c.value))
    else if c.kind == SHIELD then s.(shield := m.I16(s.shield + c.value))
    else if c.kind == BUFF then s.(buff := m.I16(s.buff + c.value))
    else s
  }

  /** The same `switch`, what it writes through the `enemy_` pointers; `buff` is the actor's before the play. */
  function Target(m: Arith, s: Side, c: CardDef, buff: int): Side {
    if c.kind == ATK then Damage(m, s, c.value + buff)
    else if c.kind == POISON then s.(poison := m.U8(s.poison + m.U8(c.value)))
    else s
  }

  /** The game after the `switch`; the two sides are different fields, so the order of the writes is immaterial. */
  function Effect(m: Arith, g: Game, who: Seat, c: CardDef): Game {
    g.With(who, Actor(m, g.Of(who), c)).With(who.Other(), Target(m, g.Of(who.Other()), c, g.Of(who).buff))
  }

  /** `handle_play_card` once the card definition is known: the mana is gone even if the card has no effect. */
  function PlayDef(m: Arith, g: Game, who: Seat, c: CardDef): Played {
    if c.cost > g.mana then Played(-2, g)
    else
      var paid := g.(mana := m.U8(g.mana - c.cost));
      if ATK <= c.kind <= POISON then Played(0, CheckOver(Effect(m, paid, who, c)))
      else Played(-3, paid)  // the default branch of the switch
  }

  /** `handle_play_card` once the hand slot has been read. */
  function PlayId(m: Arith, g: Game, who: Seat, cid: int): Played {
    if cid == 0 then Played(-3, g)
    else match GetCardDef(cid)
         case None => Played(-3, g)
         case Some(c) => PlayDef(m, g, who, c)
  }

  /** The game fields after `enter_turn`, which runs `phase_draw` to its end. */
  function EnterTurn(g: Game, who: Seat): Game { g.(turn := who, phase := MainPhase, mana := g.maxMana) }

  /** The game fields after `phase_end`. */
  function EndTurn(m: Arith, g: Game): Game {
    var ended := CheckOver(Tick(m, g.(phase := EndPhase)));
    if ended.over then ended else EnterTurn(ended, ended.turn.Other())
  }

  const HP0 := 30
  const MANA0 := 3

  const BLANK := Game(Side(0, 0, 0, 0), Side(0, 0, 0, 0), Player, DrawPhase, false, Nobody, 0, 0)

  /** What a login writes into a zeroed `state_t` before the first turn is entered (src/server.c:302-304). */
  function Seated(g: Game): Game {
    g.(p := g.p.(hp := HP0), ai := g.ai.(hp := HP0), maxMana := MANA0, over := false)
  }

  /* ---- Whole runs ---- */

  /** Something the side on turn does. A run is any sequence of these, whatever the deals, requests and AI choices. */
  datatype Act = Play(cid: int) | End

  /** The game with the number of turns each side has begun. */
  datatype Trail = Trail(g: Game, pTurns: nat, aiTurns: nat)

  /** One act. The server's two callers, the request loop and the AI loop, act only while the game is not over. */
  function Step(m: Arith, g: Game, a: Act): Game {
    if g.over then g
    else match a
         case Play(cid) => PlayId(m, g, g.turn, cid).g
         case End => EndTurn(m, g)
  }

  function Next(m: Arith, t: Trail, a: Act): Trail {
    var g := Step(m, t.g, a);
    if t.g.over || g.over || a.Play? then t.(g := g)
    else if g.turn.Player? then Trail(g, t.pTurns + 1, t.aiTurns)
    else Trail(g, t.pTurns, t.aiTurns + 1)
  }

  const START := Trail(EnterTurn(Seated(BLANK), Player), 1, 0)

  function RunFrom(m: Arith, t: Trail, acts: seq<Act>): Trail {
    if acts == [] then t
    else Next(m, RunFrom(m, t, acts[..|acts| - 1]), acts[|acts| - 1])
  }

  /** A whole run, from the start of the player's first turn. */
  function Run(m: Arith, acts: seq<Act>): Trail { RunFrom(m, START, acts) }

  lemma {:induction false} RunsConcatenate(m: Arith, t: Trail, a: seq<Act>, b: seq<Act>)
    ensures RunFrom(m, t, a + b) == RunFrom(m, RunFrom(m, t, a), b)
  {
    if b == [] {
      assert a + b == a;
    } else {
      RunsConcatenate(m, t, a, b[..|b| - 1]);
      assert (a + b)[..|a + b| - 1] == a + b[..|b| - 1];
    }
  }
}
