/** The bounds are attained by real sessions against the greedy AI: a duel won in the player's fourth turn, and one whose
    poison counter wraps in round 254. */
module Witness {
  import opened Machine
  import opened Cards
  import opened Duel
  import opened Horizon
  import opened Table
  import opened AiPlayer
  import opened Session
  import opened SessionProofs
  import opened Duration

  const PLAY0 := Msg(OP_PLAY_CARD, [0])
  const ENDTURN := Msg(OP_END_TURN, [])

  /** A dealer that gives the player three cards of one kind and the AI three of another. */
  function Alternating(forPlayer: nat, forAi: nat): Rand { n => if (n / 3) % 2 == 0 then forPlayer else forAi }

  function Triple(id: Word16): Hand { RawHand(3, [id, id, id, 0, 0, 0, 0, 0]) }

  lemma AlternatingPick(a: nat, b: nat, k: nat, i: nat)
    requires i < 6
    ensures Alternating(a, b)(6 * k + i) == if i < 3 then a else b
  {
    Sixths(k, i);
  }

  lemma Sixths(k: nat, i: nat)
    requires i < 6
    ensures ((6 * k + i) / 3) % 2 == if i < 3 then 0 else 1
  {
    assert (6 * k + i) / 3 == 2 * k + i / 3;
  }

  lemma DealIs(r: Rand, pos: nat, id: Word16)
    requires RandCard(r, pos) == id && RandCard(r, pos + 1) == id && RandCard(r, pos + 2) == id
    ensures Deal(r, pos) == Triple(id)
  {
  }

  /** In round k the player is dealt three cards a, and the AI three cards b. */
  predicate DealtIn(r: Rand, a: Word16, b: Word16, k: nat) {
    Deal(r, 6 * k) == Triple(a) && Deal(r, 6 * k + 3) == Triple(b)
  }

  ghost predicate Deals(r: Rand, a: Word16, b: Word16) { forall k: nat :: DealtIn(r, a, b, k) }

  lemma DealsAround(r: Rand, a: Word16, b: Word16, k: nat)
    requires Deals(r, a, b)
    ensures Deal(r, 6 * k + 3) == Triple(b) && Deal(r, 6 * k + 6) == Triple(a)
  {
    assert DealtIn(r, a, b, k) && DealtIn(r, a, b, k + 1);
  }

  lemma AlternatingHalf(r: Rand, pos: nat, a: nat, b: nat, k: nat, i: nat, n: nat, id: Word16)
    requires r == Alternating(a, b) && pos == 6 * k + i
    requires i in {0, 3} && n == (if i == 0 then a else b) && n < |POOL| && POOL[n] == id
    ensures Deal(r, pos) == Triple(id)
  {
    AlternatingPick(a, b, k, i);
    AlternatingPick(a, b, k, i + 1);
    AlternatingPick(a, b, k, i + 2);
    ThreeAlike(r, pos, n, id);
  }

  lemma ThreeAlike(r: Rand, pos: nat, n: nat, id: Word16)
    requires r(pos) == r(pos + 1) == r(pos + 2) == n < |POOL| && POOL[n] == id
    ensures Deal(r, pos) == Triple(id)
  {
    PickIs(r, pos, n, id);
    PickIs(r, pos + 1, n, id);
    PickIs(r, pos + 2, n, id);
    DealIs(r, pos, id);
  }

  lemma AlternatingDeals(a: nat, b: nat, k: nat, id: Word16, id': Word16)
    requires a < |POOL| && b < |POOL| && POOL[a] == id && POOL[b] == id'
    ensures DealtIn(Alternating(a, b), id, id', k)
  {
    var r := Alternating(a, b);
    AlternatingHalf(r, 6 * k, a, b, k, 0, a, id);
    AlternatingHalf(r, 6 * k + 3, a, b, k, 3, b, id');
  }

  /** Among equal cards the AI takes the first it still has. */
  lemma FirstOfEquals(g: Game, h: Hand, id: Word16, i: nat)
    requires i < h.n && h.ids[i] == id && Offer(g, h, i).Some?
    requires forall j | 0 <= j < h.n :: h.ids[j] == id || h.ids[j] == 0
    requires forall j | 0 <= j < i :: h.ids[j] == 0
    ensures Choice(g, h) == i
  {
    var offers := Offers(g, h);
    forall j | 0 <= j < |offers| && offers[j].Some?
      ensures offers[j].value == offers[i].value && j >= i
    {
    }
    assert Greedy(offers, i);
    ChoiceIsGreedy(g, h, i);
  }

  lemma NoCardLeft(g: Game, h: Hand)
    requires g.mana == 0
    ensures Choice(g, h) == -1
  {
    forall j | 0 <= j < h.n
      ensures Offer(g, h, j).None?
    {
      if h.ids[j] != 0 && GetCardDef(h.ids[j]).Some? {
        TableIsRated(GetCardDef(h.ids[j]).value);
      }
    }
    ChoiceIsGreedy(g, h, 0);
  }

  predicate Standing(g: Game) { !g.over && g.phase == MainPhase && 0 < g.p.hp < 10000 && 0 < g.ai.hp < 10000 }

  /* ---- Repeating one round of messages ---- */

  /** What one message does to the table; a variable here, so that no proof about repetition looks inside Handle. */
  type Handler = (Table, Msg) -> Table

  ghost predicate HandlesAs(h: Handler, r: Rand) { forall t: Table, m: Msg :: h(t, m) == Handle(r, t, m).t }

  function Served(h: Handler, t: Table, msgs: seq<Msg>): Table
    decreases |msgs|
  {
    if msgs == [] then t else Served(h, h(t, msgs[0]), msgs[1..])
  }

  lemma ServedOne(h: Handler, t: Table, m: Msg)
    ensures Served(h, t, [m]) == h(t, m)
  {
  }

  lemma ServedTwo(h: Handler, t: Table, m: seq<Msg>)
    requires |m| == 2
    ensures Served(h, t, m) == h(h(t, m[0]), m[1])
  {
    assert m[1..][1..] == [];
    assert Served(h, h(t, m[0]), m[1..]) == Served(h, h(h(t, m[0]), m[1]), []);
  }

  lemma ServedFour(h: Handler, t: Table, m: seq<Msg>)
    requires |m| == 4
    ensures Served(h, t, m) == h(h(h(h(t, m[0]), m[1]), m[2]), m[3])
  {
    ServedTwo(h, h(h(t, m[0]), m[1]), m[2..]);
    assert m[1..][1..] == m[2..];
  }

  lemma {:induction false} ServedAppends(h: Handler, t: Table, a: seq<Msg>, b: seq<Msg>)
    ensures Served(h, t, a + b) == Served(h, Served(h, t, a), b)
    decreases |a|
  {
    if a == [] {
      assert a + b == b;
    } else {
      ServedAppends(h, h(t, a[0]), a[1..], b);
      assert (a + b)[1..] == a[1..] + b;
    }
  }

  function Repeat(round: seq<Msg>, k: nat): seq<Msg> { if k == 0 then [] else Repeat(round, k - 1) + round }

  lemma {:induction false} Iterate(h: Handler, holds: (Table, nat) -> bool, round: seq<Msg>, t: Table, n: nat)
    requires holds(t, 0)
    requires forall u: Table, k: nat | k < n && holds(u, k) :: holds(Served(h, u, round), k + 1)
    ensures holds(Served(h, t, Repeat(round, n)), n)
  {
    if n > 0 {
      Iterate(h, holds, round, t, n - 1);
      ServedAppends(h, t, Repeat(round, n - 1), round);
    }
  }

  lemma {:induction false} RoundsAppend(a: seq<Msg>, b: seq<Msg>)
    ensures Rounds(a + b) == Rounds(a) + Rounds(b) - 1
  {
    if a == [] {
      assert a + b == b;
    } else {
      RoundsAppend(a[1..], b);
      assert (a + b)[1..] == a[1..] + b;
    }
  }

  lemma RoundsOf(msgs: seq<Msg>)
    requires msgs == VENOMS || msgs == SLASHES || msgs == [PLAY0]
    ensures Rounds(msgs) == if msgs == [PLAY0] then 1 else 2
  {
    if msgs == SLASHES {
      assert msgs[1..][1..] == [PLAY0, ENDTURN];
    }
    if msgs != [PLAY0] {
      assert VENOMS[1..] == [ENDTURN];
      assert Rounds([ENDTURN]) == 2;
      assert Rounds(VENOMS) == 2;
    }
  }

  lemma {:induction false} RoundsOfRepeat(round: seq<Msg>, k: nat)
    ensures Rounds(Repeat(round, k)) == k * (Rounds(round) - 1) + 1
  {
    if k > 0 {
      RoundsOfRepeat(round, k - 1);
      RoundsAppend(Repeat(round, k - 1), round);
      OneMoreTime(k, Rounds(round) - 1);
    }
  }

  lemma OneMoreTime(k: nat, x: int)
    requires k > 0
    ensures (k - 1) * x + x == k * x
  {
  }

  lemma {:induction false} ServedIsServeAll(r: Rand, h: Handler, t: Table, msgs: seq<Msg>)
    requires HandlesAs(h, r)
    ensures ServeAll(r, t, msgs).t == Served(h, t, msgs)
    decreases |msgs|
  {
    if msgs != [] {
      ServedIsServeAll(r, h, h(t, msgs[0]), msgs[1..]);
    }
  }

  lemma LoginServes(r: Rand, h: Handler, msgs: seq<Msg>)
    requires HandlesAs(h, r)
    ensures MainLoop(r, LoginTable(r), msgs).t == Served(h, LoginTable(r), msgs)
  {
    LoginIsReady(r);
    LetAiPlayMakesReady(r, LoginTable(r));
    LoopIsServe(r, LoginTable(r), msgs);
    ServedIsServeAll(r, h, LoginTable(r), msgs);
  }

  /* ---- A win in the fourth turn ---- */

  lemma SlashPlay(r: Rand, t: Table)
    requires Standing(t.st.g) && t.st.g.turn == Player && t.hand == Triple(100) && 1 <= t.st.g.mana <= 3
    requires t.st.g.ai.shield == 0 && t.st.g.p.buff == 0 && t.st.g.ai.hp >= 3
    ensures var u := Handle(r, t, PLAY0).t; var g := t.st.g;
            && u.hand == t.hand && u.pos == t.pos
            && u.st.g == CheckOver(g.(mana := g.mana - 1, ai := g.ai.(hp := g.ai.hp - 3)))
  {
    LookupIsExact(0);
  }

  lemma SharpenPlay(t: Table, i: nat)
    requires i < 3 && t.hand.n == 3 && Standing(t.st.g) && 1 <= t.st.g.mana <= 3 && 0 <= t.st.g.ai.buff < 100
    requires forall j | 0 <= j < 3 :: t.hand.ids[j] == if j < i then 0 else 400
    ensures var g := t.st.g;
            && AiPlays(t) == AiPlays(AiPlay(t, i))
            && AiPlay(t, i).st.g == g.(mana := g.mana - 1, ai := g.ai.(buff := g.ai.buff + 2))
  {
    LookupIsExact(7);
    FirstOfEquals(t.st.g, t.hand, 400, i);
  }

  /** The AI with three Sharpens: it plays them all and harms nobody yet. */
  lemma SharpenTurn(r: Rand, t: Table) returns (u: Table)
    requires t.hand == Triple(400) && Standing(t.st.g) && t.st.g.mana == 3 && 0 <= t.st.g.ai.buff < 50
    ensures AiTurn(r, t) == EndTurnT(r, u) && u.pos == t.pos
    ensures u.st.g == t.st.g.(mana := 0, ai := t.st.g.ai.(buff := t.st.g.ai.buff + 6))
  {
    SharpenPlay(t, 0);
    var t1 := AiPlay(t, 0);
    SharpenPlay(t1, 1);
    var t2 := AiPlay(t1, 1);
    SharpenPlay(t2, 2);
    var t3 := AiPlay(t2, 2);
    NoCardLeft(t3.st.g, t3.hand);
    u := t3;
  }

  /** The table at the start of the player's turn after k rounds of three Slashes each. */
  predicate Slashed(t: Table, k: nat) {
    && t.st.g == Game(Side(HP0, 0, 0, 0), Side(HP0 - 9 * k, 0, 6 * k, 0), Player, MainPhase, false, Nobody, MANA0, MANA0)
    && t.hand == Triple(100) && t.pos == 6 * k + 3
  }

  /** The player's END_TURN hands over to a full AI turn. */
  lemma PlayerEnds(r: Rand, t: Table) returns (ended: Table)
    requires Standing(t.st.g) && t.st.g.turn == Player && t.st.g.p.poison == 0 && 0 <= t.st.g.ai.poison < 0x100
    requires t.st.g.ai.hp > 2 && t.st.g.maxMana == 3
    ensures ended.st.g == t.st.g.(turn := Ai, mana := 3, ai := TickSide(Exact, t.st.g.ai))
    ensures ended.hand == Deal(r, t.pos) && ended.pos == t.pos + 3
    ensures Handle(r, t, ENDTURN).t == AiTurn(r, ended)
  {
    ended := EndTurnT(r, t);
  }

  /** And the AI's turn end hands back to the player. */
  lemma AiEnds(r: Rand, u: Table)
    requires var g := u.st.g; Standing(g) && g.turn == Ai && g.maxMana == 3 && g.p.poison == 0 && 0 <= g.ai.poison < 0x100
    requires u.st.g.ai.hp > 2
    ensures var v := EndTurnT(r, u);
            && v.st.g == u.st.g.(turn := Player, mana := 3, ai := TickSide(Exact, u.st.g.ai))
            && v.hand == Deal(r, u.pos) && v.pos == u.pos + 3
  {
  }

  lemma SlashRoundEnds(g: Game, v: Table, k: nat)
    requires v.pos == 6 * k + 9 && k < 3 && v.hand == Triple(100)
    requires g == Game(Side(HP0, 0, 0, 0), Side(HP0 - 9 * (k + 1), 0, 6 * k + 6, 0), Ai, MainPhase, false, Nobody, 0, MANA0)
    requires v.st.g == g.(turn := Player, mana := 3, ai := TickSide(Exact, g.ai))
    ensures Slashed(v, k + 1)
  {
  }

  lemma EndOfSlashTurn(r: Rand, t: Table, k: nat)
    requires t.pos == 6 * k + 3 && k < 3 && Deal(r, 6 * k + 3) == Triple(400) && Deal(r, 6 * k + 6) == Triple(100)
    requires t.st.g == Game(Side(HP0, 0, 0, 0), Side(HP0 - 9 * (k + 1), 0, 6 * k, 0), Player, MainPhase, false, Nobody, 0, MANA0)
    ensures Slashed(Handle(r, t, ENDTURN).t, k + 1)
  {
    var ended := PlayerEnds(r, t);
    var u := SharpenTurn(r, ended);
    AiEnds(r, u);
    SlashRoundEnds(u.st.g, EndTurnT(r, u), k);
  }

  const SLASHES := [PLAY0, PLAY0, PLAY0, ENDTURN]

  lemma OneSlashRound(r: Rand, t: Table, k: nat)
    requires k < 3 && Slashed(t, k) && Deal(r, 6 * k + 3) == Triple(400) && Deal(r, 6 * k + 6) == Triple(100)
    ensures Slashed(Handle(r, Handle(r, Handle(r, Handle(r, t, PLAY0).t, PLAY0).t, PLAY0).t, ENDTURN).t, k + 1)
  {
    SlashPlay(r, t);
    var t1 := Handle(r, t, PLAY0).t;
    SlashPlay(r, t1);
    var t2 := Handle(r, t1, PLAY0).t;
    SlashPlay(r, t2);
    EndOfSlashTurn(r, Handle(r, t2, PLAY0).t, k);
  }

  lemma LastSlash(r: Rand, t: Table)
    requires Slashed(t, 3)
    ensures var g := Handle(r, t, PLAY0).t.st.g; g.over && g.winner == PlayerWon && g.ai.hp == 0
  {
    SlashPlay(r, t);
  }

  lemma LoginIsSlashed(r: Rand)
    requires DealtIn(r, 100, 400, 0)
    ensures Slashed(LoginTable(r), 0)
  {
  }

  lemma SlashesServed(r: Rand, h: Handler, u: Table) returns (v: Table)
    requires HandlesAs(h, r)
    ensures v == Served(h, u, SLASHES)
    ensures v == Handle(r, Handle(r, Handle(r, Handle(r, u, PLAY0).t, PLAY0).t, PLAY0).t, ENDTURN).t
  {
    v := Served(h, u, SLASHES);
    ServedFour(h, u, SLASHES);
    var u1 := h(u, PLAY0);
    var u2 := h(u1, PLAY0);
    var u3 := h(u2, PLAY0);
    assert v == h(u3, ENDTURN);
  }

  lemma SlashesStep(r: Rand, h: Handler, u: Table, k: nat)
    requires HandlesAs(h, r) && Deals(r, 100, 400) && k < 3 && Slashed(u, k)
    ensures Slashed(Served(h, u, SLASHES), k + 1)
  {
    DealsAround(r, 100, 400, k);
    OneSlashRound(r, u, k);
    var v := SlashesServed(r, h, u);
  }

  lemma SlashesRepeat(r: Rand, h: Handler, t: Table)
    requires HandlesAs(h, r) && Deals(r, 100, 400) && Slashed(t, 0)
    ensures Slashed(Served(h, t, Repeat(SLASHES, 3)), 3)
  {
    var holds := (u: Table, k: nat) => Slashed(u, k);
    forall u: Table, k: nat | k < 3 && holds(u, k)
      ensures holds(Served(h, u, SLASHES), k + 1)
    {
      SlashesStep(r, h, u, k);
    }
    Iterate(h, holds, SLASHES, t, 3);
  }

  lemma WinningRounds()
    ensures Rounds(Repeat(SLASHES, 3) + [PLAY0]) == 4
  {
    RoundsOfRepeat(SLASHES, 3);
    RoundsOf(SLASHES);
    RoundsOf([PLAY0]);
    RoundsAppend(Repeat(SLASHES, 3), [PLAY0]);
  }

  lemma WinningServes(r: Rand, h: Handler, t: Table)
    requires HandlesAs(h, r) && Deals(r, 100, 400) && Slashed(t, 0)
    ensures var g := Served(h, t, Repeat(SLASHES, 3) + [PLAY0]).st.g; g.over && g.winner == PlayerWon && g.ai.hp == 0
  {
    var first := Repeat(SLASHES, 3);
    SlashesRepeat(r, h, t);
    var u := Served(h, t, first);
    LastSlash(r, u);
    ServedAppends(h, t, first, [PLAY0]);
    ServedOne(h, u, PLAY0);
  }

  lemma AllDealt(a: nat, b: nat, id: Word16, id': Word16)
    requires a < |POOL| && b < |POOL| && POOL[a] == id && POOL[b] == id'
    ensures Deals(Alternating(a, b), id, id')
  {
    forall k: nat
      ensures DealtIn(Alternating(a, b), id, id', k)
    {
      AlternatingDeals(a, b, k, id, id');
    }
  }

  lemma Won(r: Rand) returns (msgs: seq<Msg>)
    requires Deals(r, 100, 400)
    ensures var g := MainLoop(r, LoginTable(r), msgs).t.st.g; g.over && g.winner == PlayerWon && g.ai.hp == 0
    ensures Rounds(msgs) == 4
  {
    var h: Handler := (t, m) => Handle(r, t, m).t;
    assert DealtIn(r, 100, 400, 0);
    LoginIsSlashed(r);
    WinningServes(r, h, LoginTable(r));
    msgs := Repeat(SLASHES, 3) + [PLAY0];
    LoginServes(r, h, msgs);
    WinningRounds();
  }

  /** The earliest end is attained: with these deals and requests the player wins in the fourth turn, the AI at 0. */
  lemma FourthTurnWin()
    ensures exists r: Rand, msgs: seq<Msg> ::
              var g := MainLoop(r, LoginTable(r), msgs).t.st.g;
              Rounds(msgs) == 4 && g.over && g.winner == PlayerWon && g.ai.hp == 0
  {
    var r := Alternating(0, 7);
    AllDealt(0, 7, 100, 400);
    var msgs := Won(r);
    assert MainLoop(r, LoginTable(r), msgs).t.st.g.winner == PlayerWon;
  }

  /* ---- Poison that wraps ---- */

  lemma VenomPlayed(r: Rand, t: Table, k: nat)
    requires k < LAST_SAFE_ROUND && t.st.g == AfterVenom(k).g && t.hand == Triple(501)
    ensures var u := Handle(r, t, PLAY0).t;
            && u.hand == t.hand && u.pos == t.pos
            && u.st.g == t.st.g.(mana := 0, ai := t.st.g.ai.(poison := k + 3))
  {
    LookupIsExact(10);
  }

  /** The AI with three Potions drinks one and has no mana left. */
  lemma PotionTurn(r: Rand, t: Table) returns (u: Table)
    requires t.hand == Triple(201) && Standing(t.st.g) && t.st.g.mana == 3
    ensures AiTurn(r, t) == EndTurnT(r, u) && u.pos == t.pos
    ensures u.st.g == t.st.g.(mana := 0, ai := t.st.g.ai.(hp := t.st.g.ai.hp + 7))
  {
    LookupIsExact(4);
    FirstOfEquals(t.st.g, t.hand, 201, 0);
    u := AiPlay(t, 0);
    NoCardLeft(u.st.g, u.hand);
    assert AiPlays(t) == AiPlays(u);
  }

  predicate Venomous(t: Table, k: nat) {
    t.st.g == AfterVenom(k).g && t.hand == Triple(501) && t.pos == 6 * k + 3
  }

  lemma VenomRoundEnds(g: Game, v: Table, k: nat)
    requires v.pos == 6 * k + 9 && k < LAST_SAFE_ROUND && v.hand == Triple(501)
    requires g == Game(Side(HP0, 0, 0, 0), Side(HP0 + 3 * k + 5, 0, 0, k + 2), Ai, MainPhase, false, Nobody, 0, MANA0)
    requires v.st.g == g.(turn := Player, mana := 3, ai := TickSide(Exact, g.ai))
    ensures Venomous(v, k + 1)
  {
  }

  lemma EndOfVenomTurn(r: Rand, t: Table, k: nat)
    requires k < LAST_SAFE_ROUND && t.pos == 6 * k + 3 && Deal(r, 6 * k + 3) == Triple(201) && Deal(r, 6 * k + 6) == Triple(501)
    requires t.st.g == Game(Side(HP0, 0, 0, 0), Side(HP0 + 3 * k, 0, 0, k + 3), Player, MainPhase, false, Nobody, 0, MANA0)
    ensures Venomous(Handle(r, t, ENDTURN).t, k + 1)
  {
    var ended := PlayerEnds(r, t);
    var u := PotionTurn(r, ended);
    AiEnds(r, u);
    VenomRoundEnds(u.st.g, EndTurnT(r, u), k);
  }

  const VENOMS := [PLAY0, ENDTURN]

  lemma OneVenomExchange(r: Rand, t: Table, k: nat)
    requires k < LAST_SAFE_ROUND && Venomous(t, k) && Deal(r, 6 * k + 3) == Triple(201) && Deal(r, 6 * k + 6) == Triple(501)
    ensures Venomous(Handle(r, Handle(r, t, PLAY0).t, ENDTURN).t, k + 1)
  {
    VenomPlayed(r, t, k);
    EndOfVenomTurn(r, Handle(r, t, PLAY0).t, k);
  }

  lemma VenomsStep(r: Rand, h: Handler, u: Table, k: nat)
    requires h(u, PLAY0) == Handle(r, u, PLAY0).t && h(h(u, PLAY0), ENDTURN) == Handle(r, h(u, PLAY0), ENDTURN).t
    requires Deal(r, 6 * k + 3) == Triple(201) && Deal(r, 6 * k + 6) == Triple(501) && k < LAST_SAFE_ROUND && Venomous(u, k)
    ensures Venomous(Served(h, u, VENOMS), k + 1)
  {
    OneVenomExchange(r, u, k);
    ServedTwo(h, u, VENOMS);
  }

  lemma VenomsAt(r: Rand, h: Handler, u: Table, k: nat)
    requires HandlesAs(h, r) && Deals(r, 501, 201) && k < LAST_SAFE_ROUND && Venomous(u, k)
    ensures Venomous(Served(h, u, VENOMS), k + 1)
  {
    DealsAround(r, 501, 201, k);
    VenomsStep(r, h, u, k);
  }

  lemma VenomsRepeat(r: Rand, h: Handler, t: Table, n: nat)
    requires HandlesAs(h, r) && Deals(r, 501, 201) && Venomous(t, 0) && n <= LAST_SAFE_ROUND
    ensures Venomous(Served(h, t, Repeat(VENOMS, n)), n)
  {
    var holds := (u: Table, k: nat) => Venomous(u, k);
    forall u: Table, k: nat | k < n && holds(u, k)
      ensures holds(Served(h, u, VENOMS), k + 1)
    {
      VenomsAt(r, h, u, k);
    }
    Iterate(h, holds, VENOMS, t, n);
  }

  lemma LastVenom(r: Rand, t: Table)
    requires Venomous(t, LAST_SAFE_ROUND)
    ensures t.st.g.ai.poison == 253 && Handle(r, t, PLAY0).t.st.g.ai.poison == 0
  {
    LookupIsExact(10);
  }

  lemma LoginIsVenomous(r: Rand)
    requires DealtIn(r, 501, 201, 0)
    ensures Venomous(LoginTable(r), 0)
  {
  }

  lemma VenomServes(r: Rand, h: Handler, t: Table, n: nat)
    requires HandlesAs(h, r) && Deals(r, 501, 201) && Venomous(t, 0) && n == LAST_SAFE_ROUND
    ensures var msgs := Repeat(VENOMS, n);
            Served(h, t, msgs).st.g.ai.poison == 253 && Served(h, t, msgs + [PLAY0]).st.g.ai.poison == 0
  {
    var msgs := Repeat(VENOMS, n);
    VenomsRepeat(r, h, t, n);
    var u := Served(h, t, msgs);
    LastVenom(r, u);
    ServedAppends(h, t, msgs, [PLAY0]);
    ServedOne(h, u, PLAY0);
  }

  lemma VenomRounds(msgs: seq<Msg>, k: nat)
    requires msgs == Repeat(VENOMS, k)
    ensures Rounds(msgs) == k + 1
  {
    RoundsOfRepeat(VENOMS, k);
    RoundsOf(VENOMS);
  }

  lemma Wrapped(r: Rand, n: nat) returns (msgs: seq<Msg>)
    requires Deals(r, 501, 201) && n == LAST_SAFE_ROUND
    ensures MainLoop(r, LoginTable(r), msgs).t.st.g.ai.poison == 253
    ensures MainLoop(r, LoginTable(r), msgs + [PLAY0]).t.st.g.ai.poison == 0
    ensures Rounds(msgs) == LAST_SAFE_ROUND + 1
  {
    var h: Handler := (t, m) => Handle(r, t, m).t;
    assert DealtIn(r, 501, 201, 0);
    LoginIsVenomous(r);
    VenomServes(r, h, LoginTable(r), n);
    msgs := Repeat(VENOMS, n);
    LoginServes(r, h, msgs);
    LoginServes(r, h, msgs + [PLAY0]);
    VenomRounds(msgs, n);
  }

  /** The horizon is attained by a session against the greedy AI: in round 254 the player's Venom takes the AI from 253
      turns of poison to none. */
  lemma PoisonWraps()
    ensures exists r: Rand, msgs: seq<Msg> ::
              && Rounds(msgs) == LAST_SAFE_ROUND + 1
              && MainLoop(r, LoginTable(r), msgs).t.st.g.ai.poison == 253
              && MainLoop(r, LoginTable(r), msgs + [PLAY0]).t.st.g.ai.poison == 0
  {
    var r := Alternating(10, 4);
    AllDealt(10, 4, 501, 201);
    var msgs := Wrapped(r, LAST_SAFE_ROUND);
    assert MainLoop(r, LoginTable(r), msgs).t.st.g.ai.poison == 253;
  }
}
