/** Paying for cards within one player turn: mana is neither lost nor made, and a refused play changes nothing. */
module ManaTurn {
  import opened Machine
  import opened Cards
  import opened Duel
  import opened Table

  /** A refused play leaves the state as it was, for either side and any hand. It rests on every card of the table
      hitting a case of the switch: the default branch returns after the mana has been taken. */
  lemma RefusalChangesNothing(s: StateT, h: Hand, who: Seat, idx: Byte)
    requires PlayCode(s.g, h, who, idx) != 0
    ensures PlaySt(s, h, who, idx) == s
  {
    if idx < h.n && GetCardDef(h.ids[idx]).Some? {
      TableIsRated(GetCardDef(h.ids[idx]).value);
    }
  }

  /** The three reasons for a refusal, in the order the server looks for them. */
  lemma PlayCodes(g: Game, h: Hand, who: Seat, idx: Byte)
    ensures var rc := PlayCode(g, h, who, idx);
            var known := idx < h.n && h.ids[idx] != 0 && GetCardDef(h.ids[idx]).Some?;
            && (rc == -1 <==> idx >= h.n)
            && (rc == -3 <==> idx < h.n && !known)
            && (rc == -2 <==> known && GetCardDef(h.ids[idx]).value.cost > g.mana)
            && (rc == 0 <==> known && GetCardDef(h.ids[idx]).value.cost <= g.mana)
  {
    if idx < h.n && GetCardDef(h.ids[idx]).Some? {
      TableIsRated(GetCardDef(h.ids[idx]).value);
    }
  }

  /** The player's requests of one turn, in order. The server serves none after the game is over, and the hand stays. */
  function Serve(s: StateT, h: Hand, idxs: seq<Byte>): StateT {
    if idxs == [] then s
    else
      var before := Serve(s, h, idxs[..|idxs| - 1]);
      if before.g.over then before else PlaySt(before, h, Player, idxs[|idxs| - 1])
  }

  predicate Succeeds(s: StateT, h: Hand, idx: Byte) { !s.g.over && PlayCode(s.g, h, Player, idx) == 0 }

  function Price(h: Hand, idx: Byte): int {
    if idx < h.n && GetCardDef(h.ids[idx]).Some? then GetCardDef(h.ids[idx]).value.cost else 0
  }

  /** The total price of the plays that succeeded, and how many did. */
  function Spent(s: StateT, h: Hand, idxs: seq<Byte>): (int, nat) {
    if idxs == [] then (0, 0)
    else
      var idx := idxs[|idxs| - 1];
      var (price, count) := Spent(s, h, idxs[..|idxs| - 1]);
      if Succeeds(Serve(s, h, idxs[..|idxs| - 1]), h, idx) then (price + Price(h, idx), count + 1) else (price, count)
  }

  lemma PlayPays(s: StateT, h: Hand, idx: Byte)
    requires 0 <= s.g.mana <= MANA0
    ensures var g := PlaySt(s, h, Player, idx).g;
            if PlayCode(s.g, h, Player, idx) == 0 then g.mana + Price(h, idx) == s.g.mana && 1 <= Price(h, idx) <= s.g.mana
            else g == s.g
  {
    if idx < h.n && GetCardDef(h.ids[idx]).Some? {
      TableIsRated(GetCardDef(h.ids[idx]).value);
    }
  }

  /** From a turn's full mana, whatever is requested: prices paid and mana left add up to 3, and at most 3 plays succeed. */
  lemma {:induction false} ManaIsConserved(s: StateT, h: Hand, idxs: seq<Byte>)
    requires s.g.mana == MANA0
    ensures var (price, count) := Spent(s, h, idxs);
            && price + Serve(s, h, idxs).g.mana == MANA0
            && 0 <= Serve(s, h, idxs).g.mana && count <= price <= MANA0
  {
    if idxs != [] {
      var before := Serve(s, h, idxs[..|idxs| - 1]);
      ManaIsConserved(s, h, idxs[..|idxs| - 1]);
      PlayPays(before, h, idxs[|idxs| - 1]);
    }
  }
}
