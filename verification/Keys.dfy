/** What the keys of the terminal client (src/client_app.c:140-164) mean to the duel, through the server that serves them. */
module Keys {
  import opened Duel
  import opened Table
  import opened Session
  import opened SessionProofs
  import opened Crash
  import opened Client

  /** The number on a key, 0 for any other key. */
  function Digit(ch: char): nat { if ch == '1' then 1 else if ch == '2' then 2 else if ch == '3' then 3 else 0 }

  /** With the client in step with a waiting server: q always leaves; once the game is over nothing else does anything; a
      digit plays exactly the card in that place of the hand, if there is one; e ends the turn; no other key sends. */
  lemma KeysMean(l: Layout, r: Rand, t: Table, ch: char)
    requires Lawful(l) && Ready(t)
    ensures var deed := OnKey(l, l.state(t.st), l.hand(t.hand), ch);
            if ch == 'q' || ch == 'Q' then deed == Quit
            else if t.st.g.over then deed == Idle
            else if ch == 'e' || ch == 'E' then
              deed.Ask? && HandleActs(r, t, deed.m) != [] && HandleActs(r, t, deed.m)[0] == End
            else if 1 <= Digit(ch) <= t.hand.n then
              deed.Ask? && HandleActs(r, t, deed.m) == [Play(t.hand.ids[Digit(ch) - 1])]
            else deed == Idle
  {
    if !t.st.g.over && (ch == 'e' || ch == 'E') {
      EndActsBegin(r, t, OnKey(l, l.state(t.st), l.hand(t.hand), ch).m);
    }
  }

  lemma EndActsBegin(r: Rand, t: Table, m: Msg)
    requires !t.st.g.over && m.op == OP_END_TURN
    ensures HandleActs(r, t, m) != [] && HandleActs(r, t, m)[0] == End
  {
  }
}
