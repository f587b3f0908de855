/** The computer opponent (src/server.c:228-270): a greedy loop over the shared hand. */
module AiPlayer {
  import opened Machine
  import opened Cards
  import opened Duel
  import opened Table

  /** `ai_eval_card`. */
  function Score(g: Game, c: CardDef): int {
    (if g.ai.hp < 10 && c.kind == HEAL then 100 else 0) +
    (if g.p.shield > 0 && c.kind == BUFF then 40 else 0) +
    (if c.kind == ATK then c.value
     else if c.kind == POISON && g.p.poison == 0 then 30
     else if c.kind == SHIELD && g.ai.shield == 0 then 20
     else 0) -
    c.cost * 2
  }

  /** The score of slot i, if it holds a known card the side can pay for. */
  function Offer(g: Game, h: Hand, i: nat): Option<int>
    requires i < h.n
  {
    if h.ids[i] == 0 then None
    else match GetCardDef(h.ids[i])
         case None => None
         case Some(c) => if c.cost <= g.mana then Some(Score(g, c)) else None
  }

  function Offers(g: Game, h: Hand): (s: seq<Option<int>>)
    ensures |s| == h.n && forall i | 0 <= i < h.n :: s[i] == Offer(g, h, i)
  {
    seq(h.n, i requires 0 <= i < h.n => Offer(g, h, i))
  }

  /** `best_idx` and `best_score` in the scan of `process_ai_turn`. */
  datatype Pick = Pick(idx: int, score: int)

  const WORST := -9999

  /** The scan after it has passed the first n slots. */
  function Best(offers: seq<Option<int>>, n: nat): (b: Pick)
    requires n <= |offers|
    ensures -1 <= b.idx < n && (b.idx >= 0 ==> offers[b.idx] == Some(b.score))
  {
    if n == 0 then Pick(-1, WORST)
    else
      var b := Best(offers, n - 1);
      if offers[n - 1].Some? && offers[n - 1].value > b.score then Pick(n - 1, offers[n - 1].value) else b
  }

  function Choice(g: Game, h: Hand): (i: int)
    ensures -1 <= i < h.n && (i >= 0 ==> Offer(g, h, i).Some?)
  {
    Best(Offers(g, h), h.n).idx
  }

  /** The greedy rule: the lowest slot among those of maximal score that can be paid for. */
  predicate Greedy(offers: seq<Option<int>>, i: int) {
    && 0 <= i < |offers| && offers[i].Some?
    && (forall j | 0 <= j < |offers| && offers[j].Some? :: offers[j].value <= offers[i].value)
    && (forall j | 0 <= j < i && offers[j].Some? :: offers[j].value < offers[i].value)
  }

  /** The invariant of the scan: `score` bounds the slots passed and is attained first at `idx`. */
  lemma {:induction false} BestBounds(offers: seq<Option<int>>, n: nat)
    requires n <= |offers| && forall j | 0 <= j < |offers| && offers[j].Some? :: offers[j].value > WORST
    ensures var b := Best(offers, n);
            && b.score >= WORST && (b.idx < 0 ==> b.score == WORST)
            && (forall j | 0 <= j < n && offers[j].Some? :: b.idx >= 0 && offers[j].value <= b.score)
            && (forall j | 0 <= j < b.idx && offers[j].Some? :: offers[j].value < b.score)
  {
    if n > 0 {
      BestBounds(offers, n - 1);
    }
  }

  lemma OfferBeatsWorst(g: Game, h: Hand, i: nat)
    requires i < h.n && Offer(g, h, i).Some?
    ensures Offer(g, h, i).value > WORST
  {
    TableIsRated(GetCardDef(h.ids[i]).value);
  }

  /** The scan finds the greedy slot, and finds none exactly when nothing can be paid for: no score is as low as the
      value the scan starts from. */
  lemma ChoiceIsGreedy(g: Game, h: Hand, i: int)
    ensures Greedy(Offers(g, h), i) <==> i >= 0 && Choice(g, h) == i
    ensures Choice(g, h) == -1 <==> forall j | 0 <= j < h.n :: Offer(g, h, j).None?
  {
    var offers := Offers(g, h);
    forall j | 0 <= j < |offers| && offers[j].Some?
      ensures offers[j].value > WORST
    {
      OfferBeatsWorst(g, h, j);
    }
    BestBounds(offers, h.n);
  }

  function Blanked(h: Hand, i: int): Hand
    requires 0 <= i < h.n
  {
    h.(ids := h.ids[i := 0])
  }

  /** One round of the loop: play slot i, then blank it. */
  function AiPlay(t: Table, i: int): Table
    requires 0 <= i < t.hand.n
  {
    t.(st := PlaySt(t.st, t.hand, Ai, i), hand := Blanked(t.hand, i))
  }

  /** A play of an affordable slot costs mana, so the loop of `process_ai_turn` ends. */
  lemma PlayCosts(t: Table, i: int)
    requires 0 <= i < t.hand.n && Offer(t.st.g, t.hand, i).Some?
    ensures var g := AiPlay(t, i).st.g;
            g.mana <= t.st.g.mana - GetCardDef(t.hand.ids[i]).value.cost < t.st.g.mana && 0 <= g.mana
    ensures PlayId(Narrow, t.st.g, Ai, t.hand.ids[i]).rc == 0
  {
    TableIsRated(GetCardDef(t.hand.ids[i]).value);
  }

  predicate Acting(g: Game) { g.phase == MainPhase && !g.over }

  /** The slots the loop plays, in order. */
  function Choices(t: Table): seq<int>
    decreases t.st.g.mana
  {
    var i := Choice(t.st.g, t.hand);
    if !Acting(t.st.g) || i < 0 then []
    else
      PlayCosts(t, i);
      [i] + Choices(AiPlay(t, i))
  }

  /** The table when the loop of `process_ai_turn` is left. */
  function AiPlays(t: Table): Table
    decreases t.st.g.mana
  {
    var i := Choice(t.st.g, t.hand);
    if !Acting(t.st.g) || i < 0 then t
    else
      PlayCosts(t, i);
      AiPlays(AiPlay(t, i))
  }

  /** `process_ai_turn`. */
  function AiTurn(r: Rand, t: Table): Table {
    var u := AiPlays(t);
    if u.st.g.over then u else EndTurnT(r, u)
  }
}
