/** The server's working state as a value: `state_t` with its log, the shared hand, and how far the dealer's stream of
    random numbers has been read. These functions specify the in-place operations of module Board. */
module Table {
  import opened Machine
  import opened Cards
  import opened Duel
  import LogRing

  /** `state_t`. */
  datatype StateT = StateT(g: Game, log: LogRing.Ring)

  datatype RawHand = RawHand(n: Byte, ids: seq<Word16>)

  const HAND_SLOTS := 8

  /** `hand_t`; no code sets `n` above 8. */
  type Hand = h: RawHand | |h.ids| == HAND_SLOTS && h.n <= HAND_SLOTS witness RawHand(0, [0, 0, 0, 0, 0, 0, 0, 0])

  const NO_HAND: Hand := RawHand(0, [0, 0, 0, 0, 0, 0, 0, 0])

  datatype Table = Table(st: StateT, hand: Hand, pos: nat)

  /** The values `rand()` returns, one after another: any stream at all. */
  type Rand = nat -> nat

  /** `rand_card_id` at position `pos` of the stream. */
  function RandCard(r: Rand, pos: nat): (id: Word16)
    ensures id in POOL
  {
    POOL[r(pos) % |POOL|]
  }

  const DEALT := 3

  /** `deal_hand`. */
  function Deal(r: Rand, pos: nat): Hand {
    RawHand(DEALT, [RandCard(r, pos), RandCard(r, pos + 1), RandCard(r, pos + 2), 0, 0, 0, 0, 0])
  }

  lemma PickIs(r: Rand, pos: nat, n: nat, id: Word16)
    requires r(pos) == n < |POOL| && POOL[n] == id
    ensures RandCard(r, pos) == id
  {
  }

  /** Any three cards of the pool can be dealt, in any order. */
  lemma EveryHandCanBeDealt(pos: nat, a: nat, b: nat, c: nat)
    requires a < |POOL| && b < |POOL| && c < |POOL|
    ensures exists r: Rand :: Deal(r, pos) == RawHand(3, [POOL[a], POOL[b], POOL[c], 0, 0, 0, 0, 0])
  {
    var r: Rand := n => if n == pos then a else if n == pos + 1 then b else c;
    PickIs(r, pos, a, POOL[a]);
    PickIs(r, pos + 1, b, POOL[b]);
    PickIs(r, pos + 2, c, POOL[c]);
    assert Deal(r, pos) == RawHand(3, [POOL[a], POOL[b], POOL[c], 0, 0, 0, 0, 0]);
  }

  predicate FreshHand(h: Hand) {
    h.n == DEALT && h.ids[0] in POOL && h.ids[1] in POOL && h.ids[2] in POOL
  }

  /* ---- Log lines ---- */

  function Name(who: Seat): string { if who.Player? then "P" else "AI" }

  /** The line a successful play of `c` logs; `dmg` is the blow an attack strikes, `mana` what is left. */
  function PlayLine(who: Seat, c: CardDef, dmg: int, mana: int): string {
    Name(who) +
    (if c.kind == ATK then " ATK (" + LogRing.Text(dmg) + ")"
     else if c.kind == HEAL then " HEAL (+" + LogRing.Text(c.value) + ")"
     else if c.kind == SHIELD then " SHIELD (+" + LogRing.Text(c.value) + ")"
     else if c.kind == BUFF then " BUFF (+" + LogRing.Text(c.value) + " next)"
     else " POISON (+" + LogRing.Text(c.value) + " turns)") +
    " [mana " + LogRing.Text(mana) + "]"
  }

  function DrawLine(who: Seat): string { if who.Player? then "P: DRAW PHASE" else "AI: DRAW PHASE" }

  /* ---- Operations ---- */

  function CheckOverSt(s: StateT): StateT {
    StateT(CheckOver(s.g), LogRing.PushIf(s.log, !s.g.over && Down(s.g), "GAME OVER"))
  }

  function TickSt(s: StateT): StateT {
    var log := LogRing.PushIf(s.log, s.g.p.poison > 0, "P takes poison (-2)");
    StateT(Tick(Narrow, s.g), LogRing.PushIf(log, s.g.ai.poison > 0, "AI takes poison (-2)"))
  }

  /** The `switch` of `handle_play_card` with its log line. */
  function EffectSt(s: StateT, who: Seat, c: CardDef): StateT {
    StateT(Effect(Narrow, s.g, who, c), LogRing.Push(s.log, PlayLine(who, c, c.value + s.g.Of(who).buff, s.g.mana)))
  }

  /** The state after `handle_play_card` has found the card `c` to be affordable. */
  function PlayDefSt(s: StateT, who: Seat, c: CardDef): StateT {
    var paid := s.(g := s.g.(mana := Wrap8(s.g.mana - c.cost)));
    if ATK <= c.kind <= POISON then CheckOverSt(EffectSt(paid, who, c)) else paid
  }

  /** The return code of `handle_play_card`. */
  function PlayCode(g: Game, h: Hand, who: Seat, idx: Byte): int {
    if idx >= h.n then -1 else PlayId(Narrow, g, who, h.ids[idx]).rc
  }

  /** The state after `handle_play_card`; the hand is not touched. */
  function PlaySt(s: StateT, h: Hand, who: Seat, idx: Byte): (r: StateT)
    ensures r.g == if idx >= h.n then s.g else PlayId(Narrow, s.g, who, h.ids[idx]).g
  {
    if idx >= h.n || h.ids[idx] == 0 then s
    else match GetCardDef(h.ids[idx])
         case None => s
         case Some(c) => if c.cost > s.g.mana then s else PlayDefSt(s, who, c)
  }

  /** `enter_turn` with the `phase_draw` inside it. */
  function EnterTurnT(r: Rand, t: Table, who: Seat): Table {
    Table(StateT(EnterTurn(t.st.g, who), LogRing.Push(t.st.log, DrawLine(who))), Deal(r, t.pos), t.pos + DEALT)
  }

  /** The state in `phase_end` when it decides whether the game goes on. */
  function EndedSt(s: StateT): StateT {
    CheckOverSt(TickSt(StateT(s.g.(phase := EndPhase), LogRing.Push(s.log, Name(s.g.turn) + ": END PHASE"))))
  }

  /** `phase_end`. */
  function EndTurnT(r: Rand, t: Table): (u: Table)
    ensures u.st.g == EndTurn(Narrow, t.st.g)
  {
    var s := EndedSt(t.st);
    if s.g.over then t.(st := s) else EnterTurnT(r, t.(st := s), s.g.turn.Other())
  }

  const BLANK_STATE := StateT(BLANK, LogRing.EMPTY)

  /** The table a login sets up in zeroed memory (src/server.c:284-285, 302-305). */
  function LoginTable(r: Rand): Table {
    EnterTurnT(r, Table(StateT(Seated(BLANK), LogRing.EMPTY), NO_HAND, 0), Player)
  }

  lemma LoginStartsTheRun(r: Rand)
    ensures LoginTable(r).st.g == START.g && FreshHand(LoginTable(r).hand)
  {
  }
}
