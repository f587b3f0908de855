/** The card table and its lookup (src/common/cards.c), and the pool the dealer draws from. */
module Cards {
  import opened Machine

  const ATK: Byte := 1
  const HEAL: Byte := 2
  const SHIELD: Byte := 3
  const BUFF: Byte := 4
  const POISON: Byte := 5

  /** `card_def_t`; the duration (always 0) and the display name play no part in the rules. */
  datatype CardDef = CardDef(id: Word16, kind: Byte, cost: Byte, value: Int16)

  const TABLE: seq<CardDef> := [
    CardDef(100, ATK, 1, 3), CardDef(101, ATK, 2, 5), CardDef(102, ATK, 3, 8),
    CardDef(200, HEAL, 2, 4), CardDef(201, HEAL, 3, 7),
    CardDef(300, SHIELD, 1, 3), CardDef(301, SHIELD, 2, 6),
    CardDef(400, BUFF, 1, 2), CardDef(401, BUFF, 2, 4),
    CardDef(500, POISON, 2, 2), CardDef(501, POISON, 3, 3)
  ]

  /** The pool of `rand_card_id`. */
  const POOL: seq<Word16> := [100, 101, 102, 200, 201, 300, 301, 400, 401, 500, 501]

  function Scan(table: seq<CardDef>, id: int): (r: Option<CardDef>)
    ensures r.Some? ==> r.value in table && r.value.id == id
    ensures r.None? ==> forall c | c in table :: c.id != id
  {
    if table == [] then None
    else if table[0].id == id then Some(table[0])
    else Scan(table[1..], id)
  }

  /** `get_card_def`: the first table entry with that id. */
  function GetCardDef(id: int): (r: Option<CardDef>)
    ensures r.Some? ==> r.value in TABLE && r.value.id == id
    ensures r.None? ==> forall c | c in TABLE :: c.id != id
  {
    Scan(TABLE, id)
  }

  /** What one mana buys: the rates every whole-run bound rests on. */
  predicate Rated(c: CardDef) {
    && 1 <= c.cost <= 3
    && ATK <= c.kind <= POISON
    && 0 < c.value
    && (c.kind == ATK ==> c.value <= 3 * c.cost)
    && (c.kind == HEAL ==> 3 * c.value <= 7 * c.cost)
    && (c.kind == SHIELD ==> c.value <= 3 * c.cost)
    && (c.kind == BUFF ==> c.value <= 2 * c.cost)
    && (c.kind == POISON ==> c.value <= c.cost)
  }

  lemma TableIsRated(c: CardDef)
    requires c in TABLE
    ensures Rated(c)
  {
    var i :| 0 <= i < |TABLE| && TABLE[i] == c;
    assert i == 0 || i == 1 || i == 2 || i == 3 || i == 4 || i == 5 || i == 6 || i == 7 || i == 8 || i == 9 || i == 10;
  }

  /** The table by rule: an id is its kind and its place, and kind and place give price and worth. */
  lemma TableByRule(c: CardDef)
    requires c in TABLE
    ensures c.id == 100 * c.kind + c.id % 100 && c.id % 100 <= if c.kind == ATK then 2 else 1
    ensures c.cost == c.id % 100 + if c.kind == HEAL || c.kind == POISON then 2 else 1
    ensures c.value == if c.kind == ATK then [3, 5, 8][c.id % 100]
                       else if c.kind == HEAL then 3 * c.cost - 2
                       else if c.kind == SHIELD then 3 * c.cost
                       else if c.kind == BUFF then 2 * c.cost
                       else c.cost
  {
  }

  /** Every id the dealer can draw names a card, and the card carries that id. */
  lemma PoolIsKnown(id: Word16)
    requires id in POOL
    ensures id != 0 && GetCardDef(id).Some?
  {
    var i :| 0 <= i < |POOL| && POOL[i] == id;
    assert i == 0 || i == 1 || i == 2 || i == 3 || i == 4 || i == 5 || i == 6 || i == 7 || i == 8 || i == 9 || i == 10;
    assert TABLE[i].id == id;
    assert TABLE[i] in TABLE;
  }

  /** Ids are unique, so the first match is the only one. */
  lemma LookupIsExact(i: nat)
    requires i < |TABLE|
    ensures GetCardDef(TABLE[i].id) == Some(TABLE[i])
  {
    var r := GetCardDef(TABLE[i].id);
    assert TABLE[i] in TABLE;
    var j :| 0 <= j < |TABLE| && TABLE[j] == r.value;
    IdsIncrease(i, j);
    IdsIncrease(j, i);
  }

  lemma {:induction false} IdsIncrease(i: nat, j: nat)
    ensures i < j < |TABLE| ==> TABLE[i].id < TABLE[j].id
    decreases j
  {
    if i < j < |TABLE| {
      IdsIncrease(i, j - 1);
      assert j == 1 || j == 2 || j == 3 || j == 4 || j == 5 || j == 6 || j == 7 || j == 8 || j == 9 || j == 10;
      assert TABLE[j - 1].id < TABLE[j].id;
    }
  }
}
