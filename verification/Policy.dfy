/** What the AI plays, said as a policy and without its scores: which kind of card it wants in which situation, and what
    becomes of the cards it plays. */
module Policy {
  import opened Machine
  import opened Cards
  import opened Duel
  import opened Table
  import opened AiPlayer
  import opened AiProofs

  /** What the AI wants most comes first: healing when it is low, a buff against a shield, poison for the unpoisoned,
      a shield when it has none, an attack; then anything else. */
  function Want(g: Game, c: CardDef): nat {
    if c.kind == HEAL && g.ai.hp < 10 then 0
    else if c.kind == BUFF && g.p.shield > 0 then 1
    else if c.kind == POISON && g.p.poison == 0 then 2
    else if c.kind == SHIELD && g.ai.shield == 0 then 3
    else if c.kind == ATK then 4
    else 5
  }

  /** Of two cards it wants equally it prefers the cheaper; but among attacks the one for 3 mana, the others being alike. */
  predicate Prefers(g: Game, c: CardDef, d: CardDef) {
    Want(g, c) < Want(g, d) ||
    (Want(g, c) == Want(g, d) && if c.kind == ATK then c.cost == 3 && d.cost < 3 else c.cost < d.cost)
  }

  lemma ScoreIsPreference(g: Game, c: CardDef, d: CardDef)
    requires c in TABLE && d in TABLE
    ensures Score(g, c) > Score(g, d) <==> Prefers(g, c, d)
  {
    CardsAre(c);
    CardsAre(d);
    AttackScores(g, c);
    AttackScores(g, d);
  }

  /** The card table, kind by kind. */
  lemma CardsAre(c: CardDef)
    requires c in TABLE
    ensures ATK <= c.kind <= POISON
    ensures c.kind == ATK ==> (c.cost == 1 && c.value == 3) || (c.cost == 2 && c.value == 5) || (c.cost == 3 && c.value == 8)
    ensures c.kind != ATK ==> 1 <= c.cost <= 3
  {
  }

  lemma AttackScores(g: Game, c: CardDef)
    requires c in TABLE
    ensures c.kind == ATK ==> Score(g, c) == if c.cost == 3 then 2 else 1
    ensures c.kind != ATK ==> Score(g, c) == [100, 40, 30, 20, 0, 0][Want(g, c)] - 2 * c.cost && Want(g, c) != 4
  {
    CardsAre(c);
  }

  /** Slot i holds a card the side on turn can pay for. */
  predicate Affordable(g: Game, h: Hand, i: int) {
    0 <= i < h.n && h.ids[i] != 0 && GetCardDef(h.ids[i]).Some? && GetCardDef(h.ids[i]).value.cost <= g.mana
  }

  function CardAt(h: Hand, i: int): CardDef
    requires 0 <= i < h.n && GetCardDef(h.ids[i]).Some?
  {
    GetCardDef(h.ids[i]).value
  }

  lemma OfferIsScore(g: Game, h: Hand, i: nat)
    requires i < h.n
    ensures Offer(g, h, i).Some? <==> Affordable(g, h, i)
    ensures Affordable(g, h, i) ==> CardAt(h, i) in TABLE && Offer(g, h, i).value == Score(g, CardAt(h, i))
  {
  }

  /** The slot the policy names: none affordable is preferred to it, and it is preferred to all affordable ones before it. */
  predicate Picks(g: Game, h: Hand, i: int) {
    && Affordable(g, h, i)
    && (forall j | 0 <= j < h.n && Affordable(g, h, j) :: !Prefers(g, CardAt(h, j), CardAt(h, i)))
    && (forall j | 0 <= j < i && Affordable(g, h, j) :: Prefers(g, CardAt(h, i), CardAt(h, j)))
  }

  lemma GreedyIsPolicy(g: Game, h: Hand, i: int)
    ensures Greedy(Offers(g, h), i) <==> Picks(g, h, i)
  {
    var offers := Offers(g, h);
    forall j | 0 <= j < h.n
      ensures offers[j].Some? <==> Affordable(g, h, j)
      ensures Affordable(g, h, j) ==> offers[j].value == Score(g, CardAt(h, j)) && CardAt(h, j) in TABLE
    {
      OfferIsScore(g, h, j);
    }
    if Affordable(g, h, i) {
      forall j | 0 <= j < h.n && Affordable(g, h, j)
        ensures offers[j].value > offers[i].value <==> Prefers(g, CardAt(h, j), CardAt(h, i))
        ensures offers[i].value > offers[j].value <==> Prefers(g, CardAt(h, i), CardAt(h, j))
      {
        ScoreIsPreference(g, CardAt(h, j), CardAt(h, i));
        ScoreIsPreference(g, CardAt(h, i), CardAt(h, j));
      }
    }
  }

  /** The AI chooses a slot if and only if the policy names it, and none if and only if nothing can be paid for. */
  lemma ChoiceIsPolicy(g: Game, h: Hand, i: int)
    ensures i >= 0 ==> (Choice(g, h) == i <==> Picks(g, h, i))
    ensures Choice(g, h) == -1 <==> forall j | 0 <= j < h.n :: !Affordable(g, h, j)
  {
    ChoiceIsGreedy(g, h, i);
    GreedyIsPolicy(g, h, i);
    forall j | 0 <= j < h.n
      ensures Offer(g, h, j).None? <==> !Affordable(g, h, j)
    {
      OfferIsScore(g, h, j);
    }
  }

  /** Some affordable card of that kind is in hand. */
  predicate Offered(g: Game, h: Hand, kind: int) {
    exists j | 0 <= j < h.n :: Affordable(g, h, j) && CardAt(h, j).kind == kind
  }

  /** The kind of the chosen card, as a decision list. */
  lemma DecisionList(g: Game, h: Hand)
    requires Choice(g, h) >= 0
    ensures Affordable(g, h, Choice(g, h))
    ensures var kind := CardAt(h, Choice(g, h)).kind;
            if g.ai.hp < 10 && Offered(g, h, HEAL) then kind == HEAL
            else if g.p.shield > 0 && Offered(g, h, BUFF) then kind == BUFF
            else if g.p.poison == 0 && Offered(g, h, POISON) then kind == POISON
            else if g.ai.shield == 0 && Offered(g, h, SHIELD) then kind == SHIELD
            else Offered(g, h, ATK) ==> kind == ATK
  {
    var i := Choice(g, h);
    ChoiceIsPolicy(g, h, i);
    CardsAre(CardAt(h, i));
    var wanted :=
      if g.ai.hp < 10 && Offered(g, h, HEAL) then HEAL
      else if g.p.shield > 0 && Offered(g, h, BUFF) then BUFF
      else if g.p.poison == 0 && Offered(g, h, POISON) then POISON
      else if g.ai.shield == 0 && Offered(g, h, SHIELD) then SHIELD
      else ATK;
    assert Offered(g, h, CardAt(h, i).kind);
    if Offered(g, h, wanted) {
      var j :| 0 <= j < h.n && Affordable(g, h, j) && CardAt(h, j).kind == wanted;
      assert !Prefers(g, CardAt(h, j), CardAt(h, i));
    }
  }

  /* ---- Cards are used up ---- */

  /** Different slots, each with a card in it. */
  predicate AreCards(h: Hand, slots: seq<int>) {
    && (forall k | 0 <= k < |slots| :: 0 <= slots[k] < h.n && h.ids[slots[k]] != 0)
    && (forall k, l | 0 <= k < l < |slots| :: slots[k] != slots[l])
  }

  /** Behind a card that is played and blanked come other cards. */
  lemma OneMoreCard(h: Hand, i: int, slots: seq<int>)
    requires 0 <= i < h.n && h.ids[i] != 0 && AreCards(Blanked(h, i), slots)
    ensures AreCards(h, [i] + slots)
  {
  }

  lemma {:induction false} ChoicesAreCards(t: Table)
    ensures AreCards(t.hand, Choices(t))
    decreases t.st.g.mana
  {
    var i := Choice(t.st.g, t.hand);
    if Acting(t.st.g) && i >= 0 {
      PlayCosts(t, i);
      ChoicesAreCards(AiPlay(t, i));
      OneMoreCard(t.hand, i, Choices(AiPlay(t, i)));
    }
  }

  /** Every card is played at most once, and exactly those played are gone from the hand. */
  lemma {:induction false} PlayedCardsAreGone(t: Table)
    ensures forall k, l | 0 <= k < l < |Choices(t)| :: Choices(t)[k] != Choices(t)[l]
    ensures AiPlays(t).hand.n == t.hand.n
    ensures forall j | 0 <= j < HAND_SLOTS :: AiPlays(t).hand.ids[j] == if j in Choices(t) then 0 else t.hand.ids[j]
    decreases t.st.g.mana
  {
    ChoicesAreCards(t);
    var i := Choice(t.st.g, t.hand);
    if Acting(t.st.g) && i >= 0 {
      PlayCosts(t, i);
      PlayedCardsAreGone(AiPlay(t, i));
    }
  }

  /** The cards played, as they lay in the hand before the turn. */
  function Played(t: Table): seq<Word16>
    decreases t.st.g.mana
  {
    var i := Choice(t.st.g, t.hand);
    if !Acting(t.st.g) || i < 0 then []
    else
      PlayCosts(t, i);
      [t.hand.ids[i]] + Played(AiPlay(t, i))
  }

  /** The cards in these slots. */
  predicate LieIn(h: Hand, slots: seq<int>, ids: seq<Word16>) {
    |ids| == |slots| && forall k | 0 <= k < |slots| :: 0 <= slots[k] < h.n && ids[k] == h.ids[slots[k]] != 0
  }

  lemma OneMoreLies(h: Hand, i: int, slots: seq<int>, ids: seq<Word16>)
    requires 0 <= i < h.n && h.ids[i] != 0 && LieIn(Blanked(h, i), slots, ids)
    ensures LieIn(h, [i] + slots, [h.ids[i]] + ids)
  {
  }

  lemma {:induction false} PlayedAreChoices(t: Table)
    ensures LieIn(t.hand, Choices(t), Played(t))
    decreases t.st.g.mana
  {
    var i := Choice(t.st.g, t.hand);
    if Acting(t.st.g) && i >= 0 {
      PlayCosts(t, i);
      PlayedAreChoices(AiPlay(t, i));
      OneMoreLies(t.hand, i, Choices(AiPlay(t, i)), Played(AiPlay(t, i)));
    }
  }

  lemma BlankCounts(ids: seq<Word16>, i: nat)
    requires i < |ids|
    ensures multiset(ids[i := 0]) + multiset{ids[i]} == multiset(ids) + multiset{0}
  {
    assert ids == ids[..i] + [ids[i]] + ids[i + 1..];
    assert ids[i := 0] == ids[..i] + [0] + ids[i + 1..];
  }

  /** The AI plays no card it was not dealt, and none more often. */
  lemma {:induction false} PlaysItsHand(t: Table)
    ensures multiset(Played(t)) <= multiset(t.hand.ids)
    decreases t.st.g.mana
  {
    PlayedAreChoices(t);
    var i := Choice(t.st.g, t.hand);
    if Acting(t.st.g) && i >= 0 {
      PlayCosts(t, i);
      PlaysItsHand(AiPlay(t, i));
      BlankCounts(t.hand.ids, i);
      OneMorePlayed(t.hand.ids, i, Played(AiPlay(t, i)), Played(t));
    }
  }

  lemma OneMorePlayed(ids: seq<Word16>, i: nat, later: seq<Word16>, all: seq<Word16>)
    requires i < |ids| && multiset(later) <= multiset(ids[i := 0]) && all == [ids[i]] + later
    requires forall k | 0 <= k < |all| :: all[k] != 0
    ensures multiset(all) <= multiset(ids)
  {
    BlankCounts(ids, i);
    assert 0 !in all;
    forall x: Word16
      ensures multiset(all)[x] <= multiset(ids)[x]
    {
      assert multiset(all)[x] == multiset{ids[i]}[x] + multiset(later)[x];
    }
  }

  function Plays(ids: seq<Word16>): seq<Act> { if ids == [] then [] else [Play(ids[0])] + Plays(ids[1..]) }

  /** They are the plays the duel sees. */
  lemma {:induction false} PlayedAreActs(t: Table)
    ensures AiActs(t) == Plays(Played(t))
    decreases t.st.g.mana
  {
    var i := Choice(t.st.g, t.hand);
    if Acting(t.st.g) && i >= 0 {
      PlayCosts(t, i);
      PlayedAreActs(AiPlay(t, i));
      PlaysOneMore(t.hand.ids[i], Played(AiPlay(t, i)));
    }
  }

  lemma PlaysOneMore(id: Word16, ids: seq<Word16>)
    ensures Plays([id] + ids) == [Play(id)] + Plays(ids)
  {
    assert ([id] + ids)[1..] == ids;
  }
}
