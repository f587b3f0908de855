/** Double-entry bookkeeping over whole runs: everything a side ever gained is either still there or was used up. */
module Ledger {
  import opened Machine
  import opened Cards
  import opened Duel
  import opened Horizon
  import opened Exactness

  /** Totals for one side. `struck` and `poisoned` are hit points really lost, so the floor at 0 is respected. */
  datatype Book = Book(healed: int, struck: int, poisoned: int, shielded: int, absorbed: int, sharpened: int,
                       spent: int, dosed: int, ticked: int)

  datatype Books = Books(p: Book, ai: Book) {
    function Of(who: Seat): Book { if who.Player? then p else ai }
  }

  const EMPTY := Book(0, 0, 0, 0, 0, 0, 0, 0, 0)

  function Least(x: int, y: int): int { if x < y then x else y }

  /** What the side that plays `c` gains or spends, read off the card. */
  function ActorEntry(b: Book, s: Side, c: CardDef): Book {
    if c.kind == ATK then b.(spent := b.spent + s.buff)
    else if c.kind == HEAL then b.(healed := b.healed + c.value)
    else if c.kind == SHIELD then b.(shielded := b.shielded + c.value)
    else if c.kind == BUFF then b.(sharpened := b.sharpened + c.value)
    else b
  }

  /** What the other side suffers: the blow is split between its shield and its hit points. */
  function TargetEntry(b: Book, s: Side, c: CardDef, buff: int): Book {
    if c.kind == ATK then
      var soaked := Least(s.shield, c.value + buff);
      b.(absorbed := b.absorbed + soaked, struck := b.struck + Least(s.hp, c.value + buff - soaked))
    else if c.kind == POISON then b.(dosed := b.dosed + c.value)
    else b
  }

  function TickEntry(b: Book, s: Side): Book {
    if s.poison > 0 then b.(ticked := b.ticked + 1, poisoned := b.poisoned + Least(s.hp, 2)) else b
  }

  /** The entries for one act, from the game before it. */
  function Post(k: Books, g: Game, a: Act): Books {
    if g.over then k
    else match a
         case End => Books(TickEntry(k.p, g.p), TickEntry(k.ai, g.ai))
         case Play(cid) =>
           match GetCardDef(cid)
           case None => k
           case Some(c) =>
             if cid == 0 || c.cost > g.mana then k
             else
               var actor := ActorEntry(k.Of(g.turn), g.Of(g.turn), c);
               var target := TargetEntry(k.Of(g.turn.Other()), g.Of(g.turn.Other()), c, g.Of(g.turn).buff);
               if g.turn.Player? then Books(actor, target) else Books(target, actor)
  }

  function KeepBooks(acts: seq<Act>): Books {
    if acts == [] then Books(EMPTY, EMPTY)
    else
      var before := acts[..|acts| - 1];
      Post(KeepBooks(before), Run(Narrow, before).g, acts[|acts| - 1])
  }

  predicate Balanced(b: Book, s: Side) {
    && HP0 + b.healed == s.hp + b.struck + b.poisoned
    && b.shielded == s.shield + b.absorbed
    && b.sharpened == s.buff + b.spent
    && b.dosed == s.poison + b.ticked
  }

  /** The entries leave no room: a book is balanced by one side only. */
  lemma BookDecidesSide(b: Book, s: Side, s': Side)
    requires Balanced(b, s) && Balanced(b, s')
    ensures s == s'
  {
  }

  lemma ActorBalances(b: Book, s: Side, c: CardDef)
    requires Balanced(b, s)
    ensures Balanced(ActorEntry(b, s, c), Actor(Exact, s, c))
  {
  }

  lemma TargetBalances(b: Book, s: Side, c: CardDef, buff: int)
    requires Balanced(b, s) && Rated(c) && 0 <= s.hp && 0 <= s.shield && 0 <= buff
    ensures Balanced(TargetEntry(b, s, c, buff), Target(Exact, s, c, buff))
  {
  }

  lemma TickBalances(b: Book, s: Side)
    requires Balanced(b, s) && 0 <= s.hp
    ensures Balanced(TickEntry(b, s), TickSide(Exact, s))
  {
  }

  predicate BothBalanced(k: Books, g: Game) { Balanced(k.p, g.p) && Balanced(k.ai, g.ai) }

  /** The entries for one act match its effects in exact arithmetic. */
  lemma PostBalances(k: Books, g: Game, a: Act)
    requires Sound(g) && BothBalanced(k, g)
    ensures BothBalanced(Post(k, g, a), Step(Exact, g, a))
  {
    if a.End? {
      TickBalances(k.p, g.p);
      TickBalances(k.ai, g.ai);
    } else if GetCardDef(a.cid).Some? {
      var c := GetCardDef(a.cid).value;
      TableIsRated(c);
      ActorBalances(k.Of(g.turn), g.Of(g.turn), c);
      TargetBalances(k.Of(g.turn.Other()), g.Of(g.turn.Other()), c, g.Of(g.turn).buff);
    }
  }

  /** In the server's arithmetic they match if and only if the guard of the cast involved holds. */
  lemma StepBalances(k: Books, g: Game, a: Act)
    requires Sound(g) && BothBalanced(k, g)
    ensures BothBalanced(Post(k, g, a), Step(Narrow, g, a)) <==> Fits(g, a)
  {
    var k', n, x := Post(k, g, a), Step(Narrow, g, a), Step(Exact, g, a);
    PostBalances(k, g, a);
    StepFits(g, a);
    if BothBalanced(k', n) {
      BookDecidesSide(k'.p, n.p, x.p);
      BookDecidesSide(k'.ai, n.ai, x.ai);
      SidesDecide(g, a);
    }
  }

  /* ---- Whole runs of the server ---- */

  predicate BooksBalance(acts: seq<Act>) { BothBalanced(KeepBooks(acts), Run(Narrow, acts).g) }

  predicate BalancesThroughout(acts: seq<Act>) { forall k | 0 <= k <= |acts| :: BooksBalance(acts[..k]) }

  lemma BooksOneMore(acts: seq<Act>, k: nat)
    requires k < |acts| && Sound(Run(Narrow, acts[..k]).g) && BooksBalance(acts[..k])
    ensures BooksBalance(acts[..k + 1]) <==> Fits(Run(Narrow, acts[..k]).g, acts[k])
    ensures Fits(Run(Narrow, acts[..k]).g, acts[k]) ==> Sound(Run(Narrow, acts[..k + 1]).g)
  {
    assert acts[..k + 1][..k] == acts[..k];
    StepBalances(KeepBooks(acts[..k]), Run(Narrow, acts[..k]).g, acts[k]);
    RunOneMore(Narrow, acts, k);
    StepFits(Run(Narrow, acts[..k]).g, acts[k]);
  }

  lemma {:induction false} FittingRunBalances(acts: seq<Act>, k: nat)
    requires k <= |acts| && FitsThroughout(acts)
    ensures BooksBalance(acts[..k])
  {
    if k == 0 {
      BooksOpen(acts[..0]);
    } else {
      FittingRunBalances(acts, k - 1);
      FittingRunAgrees(acts, k - 1);
      assert Fits(Run(Narrow, acts[..k - 1]).g, acts[k - 1]);
      BooksOneMore(acts, k - 1);
    }
  }

  lemma BooksOpen(acts: seq<Act>)
    requires acts == []
    ensures BooksBalance(acts) && Sound(Run(Narrow, acts).g)
  {
  }

  lemma BalancedActFits(acts: seq<Act>, k: nat)
    requires k < |acts| && BalancesThroughout(acts) && Sound(Run(Narrow, acts[..k]).g)
    ensures Fits(Run(Narrow, acts[..k]).g, acts[k]) && Sound(Run(Narrow, acts[..k + 1]).g)
  {
    assert BooksBalance(acts[..k]) && BooksBalance(acts[..k + 1]);
    BooksOneMore(acts, k);
  }

  lemma {:induction false} BalancedRunFits(acts: seq<Act>, k: nat)
    requires k <= |acts| && BalancesThroughout(acts)
    ensures Sound(Run(Narrow, acts[..k]).g)
    ensures k < |acts| ==> Fits(Run(Narrow, acts[..k]).g, acts[k])
  {
    if k == 0 {
      BooksOpen(acts[..0]);
    } else {
      BalancedRunFits(acts, k - 1);
      BalancedActFits(acts, k - 1);
    }
    if k < |acts| {
      BalancedActFits(acts, k);
    }
  }

  /** The whole-run ledger, for runs of any length: hit points, shields, buffs and poison of both sides all balance at every
      point if and only if the guard of the cast involved holds at every act. */
  lemma RunBalances(acts: seq<Act>)
    ensures BalancesThroughout(acts) <==> FitsThroughout(acts)
  {
    if FitsThroughout(acts) {
      forall k | 0 <= k <= |acts|
        ensures BooksBalance(acts[..k])
      {
        FittingRunBalances(acts, k);
      }
    }
    if BalancesThroughout(acts) {
      forall k | 0 <= k < |acts|
        ensures Fits(Run(Narrow, acts[..k]).g, acts[k])
      {
        BalancedRunFits(acts, k);
      }
    }
  }

  /** Up to round 253 they always balance. */
  lemma EarlyRunBalances(acts: seq<Act>)
    requires Run(Narrow, acts).pTurns <= LAST_SAFE_ROUND
    ensures BalancesThroughout(acts)
  {
    EarlyRunsFit(acts);
    RunBalances(acts);
  }

  /** In round 254 they need not: the wrapped poison counter breaks its book. */
  lemma BooksCanBreak()
    ensures exists acts :: Run(Narrow, acts).pTurns == LAST_SAFE_ROUND + 1 && !BalancesThroughout(acts)
  {
    HorizonIsTight();
    var acts :| Run(Narrow, acts).pTurns == LAST_SAFE_ROUND + 1 &&
                Run(Exact, acts).g.ai.poison == 256 && Run(Narrow, acts).g.ai.poison == 0;
    assert acts[..|acts|] == acts;
    RunsAgree(acts);
    RunBalances(acts);
  }

  /* ---- What a side's turns can pay for ---- */

  /** All the harm a side has done to its enemy, soaked by shields or not, and all it has bought and can still buy. */
  function Outlay(k: Books, g: Game, who: Seat): int {
    var b := k.Of(who.Other());
    b.struck + b.absorbed + b.poisoned + g.Of(who).buff + 2 * g.Of(who.Other()).poison + 3 * Spare(g, who)
  }

  lemma ActorOutlay(b: Book, s: Side, c: CardDef)
    requires Rated(c)
    ensures var b' := ActorEntry(b, s, c); b'.struck == b.struck && b'.absorbed == b.absorbed && b'.poisoned == b.poisoned
    ensures Actor(Exact, s, c).poison == s.poison
  {
  }

  lemma TargetOutlay(s: Side, b: Book, e: Side, c: CardDef)
    requires Rated(c) && SoundSide(s) && SoundSide(e)
    ensures var b' := TargetEntry(b, e, c, s.buff); var e' := Target(Exact, e, c, s.buff);
            && b'.struck + b'.absorbed + b'.poisoned + Actor(Exact, s, c).buff + 2 * e'.poison <=
               b.struck + b.absorbed + b.poisoned + s.buff + 2 * e.poison + 3 * c.cost
            && e'.buff == e.buff
  {
  }

  lemma PlayOutlay(k: Books, g: Game, c: CardDef, who: Seat)
    requires Sound(g) && !g.over && Rated(c) && c.cost <= g.mana
    ensures var actor := ActorEntry(k.Of(g.turn), g.Of(g.turn), c);
            var target := TargetEntry(k.Of(g.turn.Other()), g.Of(g.turn.Other()), c, g.Of(g.turn).buff);
            var k' := if g.turn.Player? then Books(actor, target) else Books(target, actor);
            Outlay(k', PlayDef(Exact, g, g.turn, c).g, who) <= Outlay(k, g, who)
  {
    ActorOutlay(k.Of(g.turn), g.Of(g.turn), c);
    TargetOutlay(g.Of(g.turn), k.Of(g.turn.Other()), g.Of(g.turn.Other()), c);
    var paid := g.(mana := g.mana - c.cost);
    PlayIsVerdict(Exact, g, c, paid);
    EffectIsSides(paid, c);
  }

  /** In one act a side's outlay does not grow, except by 9 when the act begins that side's turn. */
  lemma OutlayStep(k: Books, t: Trail, a: Act, who: Seat)
    requires Sound(t.g) && t.g.maxMana == MANA0
    ensures var t' := Next(Exact, t, a);
            Outlay(Post(k, t.g, a), t'.g, who) <= Outlay(k, t.g, who) + 9 * (Turns(t', who) - Turns(t, who))
  {
    if !t.g.over {
      if a.End? {
        EndOutlay(k, t, who);
      } else if a.cid != 0 && GetCardDef(a.cid).Some? {
        var c := GetCardDef(a.cid).value;
        TableIsRated(c);
        if c.cost <= t.g.mana {
          PlayOutlay(k, t.g, c, who);
        }
      }
    }
  }

  lemma EndOutlay(k: Books, t: Trail, who: Seat)
    requires Sound(t.g) && t.g.maxMana == MANA0 && !t.g.over
    ensures var t' := Next(Exact, t, End);
            Outlay(Post(k, t.g, End), t'.g, who) <= Outlay(k, t.g, who) + 9 * (Turns(t', who) - Turns(t, who))
  {
  }

  lemma {:induction false} OutlayOverRun(acts: seq<Act>, who: Seat)
    requires FitsThroughout(acts)
    ensures Outlay(KeepBooks(acts), Run(Narrow, acts).g, who) <= 9 * Turns(Run(Narrow, acts), who)
  {
    if acts != [] {
      var n := |acts| - 1;
      var before := acts[..n];
      FitsBefore(acts);
      OutlayOverRun(before, who);
      FittingRunAgrees(acts, n);
      RunIsUpright(before);
      assert Fits(Run(Narrow, acts[..n]).g, acts[n]);
      NextFits(Run(Narrow, before), acts[n]);
      OutlayStep(KeepBooks(before), Run(Narrow, before), acts[n], who);
    }
  }

  /** The damage bound for duels of any length: in k turns a side pays for at most 9k points of harm, shields included, so its
      enemy has at least 30 - 9k hit points more than its healing and what its shields soaked. */
  lemma HarmIsPaidFor(acts: seq<Act>, who: Seat)
    requires FitsThroughout(acts)
    ensures var t := Run(Narrow, acts); var b := KeepBooks(acts).Of(who.Other());
            && b.struck + b.absorbed + b.poisoned <= 9 * Turns(t, who)
            && t.g.Of(who.Other()).hp >= HP0 + b.healed + b.absorbed - 9 * Turns(t, who)
  {
    OutlayOverRun(acts, who);
    FittingRunBalances(acts, |acts|);
    FittingRunAgrees(acts, |acts|);
    assert acts[..|acts|] == acts;
  }
}
