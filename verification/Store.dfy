/** The session store shared by the server's processes (src/common/ipc.c:64-120): 128 slots found by linear scan, proved
    to be a map from session id to saved entry. Each call is one atomic step here. */
module Store {
  import opened Machine
  import opened Table

  const MAX_SESSIONS := 128

  /** What one slot saves: copies of `state_t` and `hand_t`. */
  datatype Entry = Entry(st: StateT, hand: Hand)

  datatype Slot = Slot(valid: bool, sid: Word64, entry: Entry)

  const BLANK_ENTRY := Entry(BLANK_STATE, NO_HAND)

  function Zeroed(): seq<Slot> { seq(MAX_SESSIONS, _ => Slot(false, 0, BLANK_ENTRY)) }

  /* ---- The scans ---- */

  /** The first valid slot with that id, or |s|. */
  function Find(s: seq<Slot>, sid: Word64): (i: nat)
    ensures i <= |s| && (i < |s| ==> s[i].valid && s[i].sid == sid)
    ensures forall j | 0 <= j < i :: !(s[j].valid && s[j].sid == sid)
  {
    if s == [] || (s[0].valid && s[0].sid == sid) then 0 else 1 + Find(s[1..], sid)
  }

  /** The first slot not in use, or |s|. */
  function Free(s: seq<Slot>): (i: nat)
    ensures i <= |s| && (i < |s| ==> !s[i].valid)
    ensures forall j | 0 <= j < i :: s[j].valid
  {
    if s == [] || !s[0].valid then 0 else 1 + Free(s[1..])
  }

  /** The id an allocation hands out when its generator drew `draw`. */
  function Clean(draw: Word64): Word64 { if draw == 0 then 1 else draw }

  function AllocId(s: seq<Slot>, draw: Word64): Word64 { if Free(s) < |s| then Clean(draw) else 0 }

  function AfterAlloc(s: seq<Slot>, draw: Word64): seq<Slot> {
    var i := Free(s);
    if i < |s| then s[i := s[i].(valid := true, sid := Clean(draw))] else s
  }

  function AfterSave(s: seq<Slot>, sid: Word64, e: Entry): seq<Slot> {
    var i := Find(s, sid);
    if i < |s| then s[i := s[i].(entry := e)] else s
  }

  function Lookup(s: seq<Slot>, sid: Word64): Option<Entry> {
    if Find(s, sid) < |s| then Some(s[Find(s, sid)].entry) else None
  }

  /** 0 or -1, as save, load and touch return it. */
  function Code(s: seq<Slot>, sid: Word64): int { if Find(s, sid) < |s| then 0 else -1 }

  /* ---- The map ---- */

  function Ids(s: seq<Slot>): set<Word64> { set i | 0 <= i < |s| && s[i].valid :: s[i].sid }

  function View(s: seq<Slot>): map<Word64, Entry> {
    map sid | sid in Ids(s) :: s[Find(s, sid)].entry
  }

  /** The slots in use form a prefix, have nonzero ids, and the rest is still zeroed. */
  predicate WellFormed(s: seq<Slot>) {
    && (forall i, j | 0 <= i < j < |s| && s[j].valid :: s[i].valid)
    && (forall i | 0 <= i < |s| && s[i].valid :: s[i].sid != 0)
    && (forall i | 0 <= i < |s| && !s[i].valid :: s[i].entry == BLANK_ENTRY)
  }

  lemma FindIsMember(s: seq<Slot>, sid: Word64)
    ensures sid in Ids(s) <==> Find(s, sid) < |s|
    ensures sid in View(s) <==> Find(s, sid) < |s|
    ensures Lookup(s, sid) == if sid in View(s) then Some(View(s)[sid]) else None
  {
  }

  function Get(m: map<Word64, Entry>, sid: Word64): Option<Entry> { if sid in m then Some(m[sid]) else None }

  lemma LookupsAreView(s: seq<Slot>, m: map<Word64, Entry>)
    requires forall sid: Word64 :: Lookup(s, sid) == Get(m, sid)
    ensures View(s) == m
  {
    forall sid: Word64
      ensures Get(View(s), sid) == Get(m, sid)
    {
      FindIsMember(s, sid);
    }
    forall sid: Word64
      ensures sid in View(s) <==> sid in m
    {
      assert Get(View(s), sid) == Get(m, sid);
    }
    forall sid | sid in m
      ensures View(s)[sid] == m[sid]
    {
      assert Get(View(s), sid) == Get(m, sid);
    }
  }

  /** Two scans that agree slot by slot up to the hit agree on the hit. */
  lemma FindIs(s: seq<Slot>, sid: Word64, i: nat)
    requires i <= |s| && (i < |s| ==> s[i].valid && s[i].sid == sid)
    requires forall j | 0 <= j < i :: !(s[j].valid && s[j].sid == sid)
    ensures Find(s, sid) == i
  {
  }

  lemma SavePreserves(s: seq<Slot>, sid: Word64, e: Entry, other: Word64)
    ensures Find(AfterSave(s, sid, e), other) == Find(s, other)
    ensures Lookup(AfterSave(s, sid, e), other) ==
            if other == sid && Find(s, sid) < |s| then Some(e) else Lookup(s, other)
  {
    FindIs(AfterSave(s, sid, e), other, Find(s, other));
  }

  lemma AllocPreserves(s: seq<Slot>, draw: Word64, other: Word64)
    requires WellFormed(s) && Free(s) < |s|
    ensures var s' := AfterAlloc(s, draw);
            if Find(s, other) < |s| then Find(s', other) == Find(s, other) && Lookup(s', other) == Lookup(s, other)
            else if other == Clean(draw) then Lookup(s', other) == Some(BLANK_ENTRY)
            else Lookup(s', other) == None
  {
    var i := Free(s);
    var s' := AfterAlloc(s, draw);
    if Find(s, other) < |s| {
      assert Find(s, other) < i;
      FindIs(s', other, Find(s, other));
    } else if other == Clean(draw) {
      FindIs(s', other, i);
    } else {
      FindIs(s', other, |s'|);
    }
  }

  /** Where there is room the id allocated is the one drawn, so different draws make different sessions; 0, which stands for
      failure, becomes 1. */
  lemma IdIsDraw(s: seq<Slot>, draw: Word64)
    requires Free(s) < |s|
    ensures AllocId(s, draw) != 0 && AllocId(s, draw) == if draw == 0 then 1 else draw
    ensures AllocId(s, draw) != draw <==> draw == 0
  {
  }

  lemma DifferentDraws(s: seq<Slot>, s': seq<Slot>, draw: Word64, draw': Word64)
    requires Free(s) < |s| && Free(s') < |s'| && draw != draw' && draw != 0 && draw' != 0
    ensures AllocId(s, draw) != AllocId(s', draw')
  {
    IdIsDraw(s, draw);
    IdIsDraw(s', draw');
  }

  lemma SaveKeepsShape(s: seq<Slot>, sid: Word64, e: Entry)
    requires WellFormed(s)
    ensures WellFormed(AfterSave(s, sid, e)) && Free(AfterSave(s, sid, e)) == Free(s)
  {
    FreeIs(AfterSave(s, sid, e), Free(s));
  }

  /** The effect of a save on the map: it overwrites a known id and ignores an unknown one. */
  lemma SaveRefines(s: seq<Slot>, sid: Word64, e: Entry)
    requires WellFormed(s)
    ensures WellFormed(AfterSave(s, sid, e)) && Free(AfterSave(s, sid, e)) == Free(s)
    ensures Code(s, sid) == if sid in View(s) then 0 else -1
    ensures View(AfterSave(s, sid, e)) == if sid in View(s) then View(s)[sid := e] else View(s)
  {
    var s' := AfterSave(s, sid, e);
    FindIsMember(s, sid);
    SaveKeepsShape(s, sid, e);
    forall other: Word64
      ensures Lookup(s', other) == Get(if sid in View(s) then View(s)[sid := e] else View(s), other)
    {
      SavePreserves(s, sid, e, other);
      FindIsMember(s, other);
    }
    LookupsAreView(s', if sid in View(s) then View(s)[sid := e] else View(s));
  }

  lemma FreeIs(s: seq<Slot>, i: nat)
    requires i <= |s| && (i < |s| ==> !s[i].valid)
    requires forall j | 0 <= j < i :: s[j].valid
    ensures Free(s) == i
  {
  }

  lemma AllocLookup(s: seq<Slot>, draw: Word64, other: Word64, m: map<Word64, Entry>)
    requires WellFormed(s) && Free(s) < |s| && m == View(s)
    ensures Lookup(AfterAlloc(s, draw), other) ==
            Get(if Clean(draw) !in m then m[Clean(draw) := BLANK_ENTRY] else m, other)
  {
    AllocPreserves(s, draw, other);
    FindIsMember(s, Clean(draw));
    FindIsMember(s, other);
  }

  /** The effect of an allocation on the map. An id that is already known, should the generator repeat itself, stays as
      it was: the new slot is hidden behind the old one. */
  lemma {:induction false} AllocRefines(s: seq<Slot>, draw: Word64)
    requires WellFormed(s)
    ensures WellFormed(AfterAlloc(s, draw))
    ensures AllocId(s, draw) == 0 <==> Free(s) == |s|
    ensures Free(AfterAlloc(s, draw)) == if Free(s) < |s| then Free(s) + 1 else |s|
    ensures View(AfterAlloc(s, draw)) ==
            if Free(s) < |s| && Clean(draw) !in View(s) then View(s)[Clean(draw) := BLANK_ENTRY] else View(s)
  {
    if Free(s) < |s| {
      var s' := AfterAlloc(s, draw);
      FreeIs(s', Free(s) + 1);
      var want := if Clean(draw) !in View(s) then View(s)[Clean(draw) := BLANK_ENTRY] else View(s);
      forall other: Word64
        ensures Lookup(s', other) == Get(want, other)
      {
        AllocLookup(s, draw, other, View(s));
      }
      LookupsAreView(s', want);
    }
  }

  lemma ZeroedIsEmpty()
    ensures WellFormed(Zeroed()) && View(Zeroed()) == map[] && Free(Zeroed()) == 0
  {
  }

  /* ---- Whole call sequences ---- */

  datatype Call = ToAlloc(draw: Word64) | ToSave(sid: Word64, e: Entry) | ToLoad(sid: Word64) | ToTouch(sid: Word64)

  datatype Answer = Sid(sid: Word64) | Done(rc: int) | Loaded(e: Option<Entry>)

  function AnswerOf(s: seq<Slot>, c: Call): Answer {
    match c
    case ToAlloc(draw) => Sid(AllocId(s, draw))
    case ToSave(sid, _) => Done(Code(s, sid))
    case ToLoad(sid) => Loaded(Lookup(s, sid))
    case ToTouch(sid) => Done(Code(s, sid))
  }

  function After(s: seq<Slot>, c: Call): seq<Slot> {
    match c
    case ToAlloc(draw) => AfterAlloc(s, draw)
    case ToSave(sid, e) => AfterSave(s, sid, e)
    case ToLoad(_) => s
    case ToTouch(_) => s
  }

  function Answers(s: seq<Slot>, calls: seq<Call>): seq<Answer>
    decreases |calls|
  {
    if calls == [] then [] else [AnswerOf(s, calls[0])] + Answers(After(s, calls[0]), calls[1..])
  }

  /** The reference: a map and the number of slots used up. */
  datatype Book = Book(m: map<Word64, Entry>, used: nat)

  function BookAnswer(b: Book, c: Call): Answer {
    match c
    case ToAlloc(draw) => Sid(if b.used < MAX_SESSIONS then Clean(draw) else 0)
    case ToSave(sid, _) => Done(if sid in b.m then 0 else -1)
    case ToLoad(sid) => Loaded(if sid in b.m then Some(b.m[sid]) else None)
    case ToTouch(sid) => Done(if sid in b.m then 0 else -1)
  }

  function BookAfter(b: Book, c: Call): Book {
    match c
    case ToAlloc(draw) =>
      if b.used >= MAX_SESSIONS then b
      else Book(if Clean(draw) in b.m then b.m else b.m[Clean(draw) := BLANK_ENTRY], b.used + 1)
    case ToSave(sid, e) => if sid in b.m then b.(m := b.m[sid := e]) else b
    case ToLoad(_) => b
    case ToTouch(_) => b
  }

  function BookAnswers(b: Book, calls: seq<Call>): seq<Answer>
    decreases |calls|
  {
    if calls == [] then [] else [BookAnswer(b, calls[0])] + BookAnswers(BookAfter(b, calls[0]), calls[1..])
  }

  lemma CallRefines(s: seq<Slot>, c: Call)
    requires WellFormed(s) && |s| == MAX_SESSIONS
    ensures WellFormed(After(s, c)) && |After(s, c)| == MAX_SESSIONS
    ensures AnswerOf(s, c) == BookAnswer(Book(View(s), Free(s)), c)
    ensures Book(View(After(s, c)), Free(After(s, c))) == BookAfter(Book(View(s), Free(s)), c)
  {
    match c
    case ToAlloc(draw) => AllocRefines(s, draw);
    case ToSave(sid, e) => SaveRefines(s, sid, e); FindIsMember(s, sid);
    case ToLoad(sid) => FindIsMember(s, sid);
    case ToTouch(sid) => FindIsMember(s, sid);
  }

  /** Any sequence of calls, with any ids and even with colliding ones, is answered as the map would answer it. */
  lemma {:induction false} StoreRefinesMap(s: seq<Slot>, calls: seq<Call>)
    requires WellFormed(s) && |s| == MAX_SESSIONS
    ensures Answers(s, calls) == BookAnswers(Book(View(s), Free(s)), calls)
    decreases |calls|
  {
    if calls != [] {
      CallRefines(s, calls[0]);
      StoreRefinesMap(After(s, calls[0]), calls[1..]);
    }
  }

  /** From zeroed shared memory. */
  lemma StoreRefinesEmptyMap(calls: seq<Call>)
    ensures Answers(Zeroed(), calls) == BookAnswers(Book(map[], 0), calls)
  {
    ZeroedIsEmpty();
    StoreRefinesMap(Zeroed(), calls);
  }

  /* ---- The calls, in place ---- */

  class SharedStore {
    const slots: array<Slot>

    ghost predicate Valid() { slots.Length == MAX_SESSIONS }

    /** Freshly mapped, zeroed shared memory. */
    constructor ()
      ensures Valid() && fresh(slots) && slots[..] == Zeroed()
    {
      slots := new Slot[MAX_SESSIONS](_ => Slot(false, 0, BLANK_ENTRY));
    }

    /** `ipc_alloc_session`; `draw` is what its id formula yields. */
    method AllocSession(draw: Word64) returns (sid: Word64)
      requires Valid()
      modifies slots
      ensures sid == AllocId(old(slots[..]), draw) && slots[..] == AfterAlloc(old(slots[..]), draw)
    {
      for i := 0 to MAX_SESSIONS
        invariant slots[..] == old(slots[..]) && forall j | 0 <= j < i :: slots[j].valid
      {
        if !slots[i].valid {
          FreeIs(slots[..], i);
          sid := if draw == 0 then 1 else draw;
          slots[i] := slots[i].(valid := true, sid := sid);
          return sid;
        }
      }
      FreeIs(slots[..], MAX_SESSIONS);
      return 0;
    }

    /** The scan that save, load and touch begin with. */
    method Locate(sid: Word64) returns (i: nat)
      requires Valid()
      ensures i == Find(slots[..], sid)
    {
      i := 0;
      while i < MAX_SESSIONS && !(slots[i].valid && slots[i].sid == sid)
        invariant i <= MAX_SESSIONS
        invariant forall j | 0 <= j < i :: !(slots[j].valid && slots[j].sid == sid)
      {
        i := i + 1;
      }
      FindIs(slots[..], sid, i);
    }

    /** `ipc_save_session`. */
    method SaveSession(sid: Word64, st: StateT, hand: Hand) returns (rc: int)
      requires Valid()
      modifies slots
      ensures rc == Code(old(slots[..]), sid) && slots[..] == AfterSave(old(slots[..]), sid, Entry(st, hand))
    {
      var i := Locate(sid);
      if i == MAX_SESSIONS { return -1; }
      slots[i] := slots[i].(entry := Entry(st, hand));
      return 0;
    }

    /** `ipc_load_session`; on failure it leaves the caller's copies alone. */
    method LoadSession(sid: Word64, st: StateT, hand: Hand) returns (rc: int, st': StateT, hand': Hand)
      requires Valid()
      ensures rc == Code(slots[..], sid)
      ensures Entry(st', hand') == if rc == 0 then Lookup(slots[..], sid).value else Entry(st, hand)
    {
      var i := Locate(sid);
      if i == MAX_SESSIONS { return -1, st, hand; }
      return 0, slots[i].entry.st, slots[i].entry.hand;
    }

    /** `ipc_touch_session`, which only renews a time stamp. */
    method TouchSession(sid: Word64) returns (rc: int)
      requires Valid()
      ensures rc == Code(slots[..], sid)
    {
      var i := Locate(sid);
      return if i < MAX_SESSIONS then 0 else -1;
    }
  }
}
