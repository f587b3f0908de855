/** Many session processes over one store, interleaved in any order. A process performs its events one at a time, each
    store call is one atomic step, and any process may die between two steps. */
module Cluster {
  import opened Machine
  import opened Duel
  import opened Table
  import opened Store
  import opened Session
  import opened SessionProofs

  /** A process that has joined session `sid`, with the events it has still to perform. */
  datatype Proc = Proc(sid: Word64, r: Rand, t: Table, pending: seq<Event>)

  /** The shared slots, the live processes by process id, the ids some client has been told, and, for the statement of
      the theorems only, what was last saved under each id. */
  datatype Sys = Sys(slots: seq<Slot>, procs: map<nat, Proc>, announced: set<Word64>, last: map<Word64, Entry>)

  function Boot(): Sys { Sys(Zeroed(), map[], {}, map[]) }

  datatype Move =
    | Hello(pid: nat, r: Rand, draw: Word64, m: Msg)  // a handshake message to a process without a session
    | Settle(pid: nat)                                // the AI's pending turn at the top of the main loop
    | Receive(pid: nat, m: Msg)
    | Perform(pid: nat)                               // the next save or send
    | Die(pid: nat)

  predicate Owned(s: Sys, sid: Word64) { exists pid | pid in s.procs :: s.procs[pid].sid == sid }

  /** When a move can happen. For a login the drawn id must be fresh; a resume is for an announced id without a live
      process. These are the two assumptions of the isolation theorem; the server itself checks neither. */
  predicate Enabled(s: Sys, mv: Move) {
    match mv
    case Hello(pid, r, draw, m) =>
      && pid !in s.procs
      && (m.op == OP_LOGIN_REQ ==> Clean(draw) !in View(s.slots))
      && (m.op == OP_RESUME_REQ && Greet(r, s.slots, draw, m).Joined? ==>
            Greet(r, s.slots, draw, m).sid in s.announced && !Owned(s, Greet(r, s.slots, draw, m).sid))
    case Settle(pid) => pid in s.procs && s.procs[pid].pending == [] && AiPending(s.procs[pid].t.st.g)
    case Receive(pid, _) => pid in s.procs && s.procs[pid].pending == [] && !AiPending(s.procs[pid].t.st.g)
    case Perform(pid) => pid in s.procs && s.procs[pid].pending != []
    case Die(pid) => pid in s.procs
  }

  function Joining(s: Sys, pid: nat, r: Rand, draw: Word64, m: Msg): Sys {
    match Greet(r, s.slots, draw, m)
    case Joined(sid, t, events) =>
      s.(slots := if m.op == OP_LOGIN_REQ then AfterAlloc(s.slots, draw) else s.slots,
         procs := s.procs[pid := Proc(sid, r, t, events)])
    case _ => s
  }

  function Apply(s: Sys, mv: Move): Sys
    requires Enabled(s, mv)
  {
    match mv
    case Hello(pid, r, draw, m) => Joining(s, pid, r, draw, m)
    case Settle(pid) =>
      var p := s.procs[pid];
      var ai := LetAiPlay(p.r, p.t);
      s.(procs := s.procs[pid := p.(t := ai.t, pending := ai.events)])
    case Receive(pid, m) =>
      var p := s.procs[pid];
      var h := Handle(p.r, p.t, m);
      s.(procs := s.procs[pid := p.(t := h.t, pending := h.events)])
    case Perform(pid) =>
      var p := s.procs[pid];
      var after := s.(procs := s.procs[pid := p.(pending := p.pending[1..])]);
      (match p.pending[0]
       case Save(e) => after.(slots := AfterSave(s.slots, p.sid, e), last := s.last[p.sid := e])
       case Send(ResumeResp(true, sid)) => after.(announced := s.announced + {sid})
       case Send(_) => after)
    case Die(pid) => s.(procs := s.procs - {pid})
  }

  /* ---- The invariant ---- */

  /** A session is announced only after something was saved for it, and every save can be resumed. */
  predicate Orderly(sid: Word64, saved: bool, events: seq<Event>)
    decreases |events|
  {
    events == [] ||
    match events[0]
    case Save(e) => Resumable(e) && Orderly(sid, true, events[1..])
    case Send(ResumeResp(true, id)) => saved && id == sid && Orderly(sid, saved, events[1..])
    case Send(_) => Orderly(sid, saved, events[1..])
  }

  /** One process against the entry of its session. */
  predicate ProcOk(p: Proc, e: Entry, saved: bool) {
    && Faithful(e, p.pending)
    && Matches(Stored(e, p.pending), p.t)
    && Resumable(EntryOf(p.t))
    && Orderly(p.sid, saved, p.pending)
  }

  ghost predicate Inv(s: Sys) { WellFormed(s.slots) && InvOn(s, View(s.slots)) }

  ghost predicate InvOn(s: Sys, v: map<Word64, Entry>) {
    && ProcsOk(s.procs, v, s.last.Keys)
    && Distinct(s.procs)
    && LastOk(s.last, v)
    && s.announced <= s.last.Keys
  }

  ghost predicate LastOk(last: map<Word64, Entry>, v: map<Word64, Entry>) {
    forall sid | sid in last :: sid in v && v[sid] == last[sid] && Resumable(last[sid])
  }

  ghost predicate ProcsOk(procs: map<nat, Proc>, v: map<Word64, Entry>, saved: set<Word64>) {
    forall pid | pid in procs :: procs[pid].sid in v && ProcOk(procs[pid], v[procs[pid].sid], procs[pid].sid in saved)
  }

  /** At most one live process per session. */
  ghost predicate Distinct(procs: map<nat, Proc>) {
    forall a, b | a in procs && b in procs && a != b :: procs[a].sid != procs[b].sid
  }

  lemma {:induction false} OrderlyConcatenate(sid: Word64, saved: bool, a: seq<Event>, b: seq<Event>)
    requires Orderly(sid, saved, a) && Orderly(sid, saved, b)
    ensures Orderly(sid, saved, a + b)
    decreases |a|
  {
    if a == [] {
      assert a + b == b;
    } else {
      OrderlyWeakens(sid, saved, b);
      OrderlyConcatenate(sid, saved || a[0].Save?, a[1..], b);
      assert (a + b)[1..] == a[1..] + b;
    }
  }

  lemma {:induction false} OrderlyWeakens(sid: Word64, saved: bool, a: seq<Event>)
    requires Orderly(sid, saved, a)
    ensures Orderly(sid, true, a)
    decreases |a|
  {
    if a != [] {
      OrderlyWeakens(sid, saved || a[0].Save?, a[1..]);
    }
  }

  /** Events without an announcement whose saves can all be resumed. */
  predicate Plain(a: seq<Event>) {
    forall x | x in a :: (x.Save? ==> Resumable(x.e)) && (x.Send? ==> !x.reply.ResumeResp?)
  }

  lemma {:induction false} PlainIsOrderly(sid: Word64, saved: bool, a: seq<Event>)
    requires Plain(a)
    ensures Orderly(sid, saved, a)
    decreases |a|
  {
    if a != [] {
      PlainIsOrderly(sid, saved || a[0].Save?, a[1..]);
    }
  }

  lemma HandleIsOrderly(r: Rand, t: Table, m: Msg, sid: Word64, saved: bool)
    requires Ready(t)
    ensures Orderly(sid, saved, Handle(r, t, m).events)
  {
    if !t.st.g.over && m.op == OP_PLAY_CARD {
      PlayIsPlain(r, t, m);
    } else if !t.st.g.over && m.op == OP_END_TURN {
      EndIsPlain(r, t, m);
    }
    PlainIsOrderly(sid, saved, Handle(r, t, m).events);
  }

  lemma PlayIsPlain(r: Rand, t: Table, m: Msg)
    requires Ready(t) && !t.st.g.over && m.op == OP_PLAY_CARD
    ensures Plain(HandlePlay(t, m.payload).events)
  {
    HandleKeepsReady(r, t, m);
    var u := HandlePlay(t, m.payload).t;
    assert Plain([Save(EntryOf(u))]) && Plain(Show(u));
    if |m.payload| == PLAY_REQ_BYTES {
      assert Plain(PlayError(PlayCode(t.st.g, t.hand, Player, m.payload[0])));
    }
  }

  lemma EndIsPlain(r: Rand, t: Table, m: Msg)
    requires Ready(t) && !t.st.g.over && m.op == OP_END_TURN
    ensures Plain(HandleEnd(r, t).events)
  {
    HandleKeepsReady(r, t, m);
    EndIsResumable(r, t);
    var ended := EndTurnT(r, t);
    var ai := LetAiPlay(r, ended);
    assert Plain([Save(EntryOf(ended))]) && Plain(ai.events) && Plain(Show(ai.t));
  }

  lemma LoginIsOrderly(r: Rand, sid: Word64, saved: bool)
    ensures Orderly(sid, saved, [Save(EntryOf(LoginTable(r))), Send(LoginResp), Send(ResumeResp(true, sid))] + Show(LoginTable(r)))
  {
    var t := LoginTable(r);
    var head := [Save(EntryOf(t)), Send(LoginResp), Send(ResumeResp(true, sid))];
    LoginIsReady(r);
    assert head[1..][1..] == [Send(ResumeResp(true, sid))] && head[1..][1..][1..] == [];
    assert Orderly(sid, true, head[1..][1..]);
    PlainIsOrderly(sid, saved, Show(t));
    OrderlyConcatenate(sid, saved, head, Show(t));
  }

  lemma ResumeIsOrderly(sid: Word64, e: Entry)
    ensures Orderly(sid, true, [Send(ResumeResp(true, sid)), Send(StateMsg(e.st)), Send(HandMsg(e.hand))])
  {
    var events := [Send(ResumeResp(true, sid)), Send(StateMsg(e.st)), Send(HandMsg(e.hand))];
    PlainIsOrderly(sid, true, events[1..]);
  }

  /* ---- Every move keeps it ---- */

  lemma BootInv()
    ensures Inv(Boot())
  {
    ZeroedIsEmpty();
  }

  /** One process changes, and the map at most at its own id. */
  lemma ProcsStayOk(procs: map<nat, Proc>, v: map<Word64, Entry>, saved: set<Word64>, pid: nat, p: Proc,
                    v': map<Word64, Entry>, saved': set<Word64>)
    requires ProcsOk(procs, v, saved) && (forall q | q in procs && q != pid :: procs[q].sid != p.sid)
    requires forall sid | sid in v && sid != p.sid :: sid in v' && v'[sid] == v[sid] && (sid in saved <==> sid in saved')
    requires p.sid in v' && ProcOk(p, v'[p.sid], p.sid in saved')
    ensures ProcsOk(procs[pid := p], v', saved')
  {
    var procs' := procs[pid := p];
    forall q | q in procs'
      ensures procs'[q].sid in v' && ProcOk(procs'[q], v'[procs'[q].sid], procs'[q].sid in saved')
    {
      if q != pid {
        assert procs'[q] == procs[q];
      }
    }
  }

  lemma DistinctStays(procs: map<nat, Proc>, pid: nat, p: Proc)
    requires Distinct(procs) && (forall q | q in procs && q != pid :: procs[q].sid != p.sid)
    ensures Distinct(procs[pid := p])
  {
  }

  lemma DistinctOthers(procs: map<nat, Proc>, pid: nat)
    requires Distinct(procs) && pid in procs
    ensures forall q | q in procs && q != pid :: procs[q].sid != procs[pid].sid
  {
  }

  /** A process takes on new events without touching the store. */
  lemma LocalKeepsInv(s: Sys, pid: nat, p: Proc)
    requires Inv(s) && pid in s.procs && p.sid == s.procs[pid].sid
    requires ProcOk(p, View(s.slots)[p.sid], p.sid in s.last)
    ensures Inv(s.(procs := s.procs[pid := p]))
  {
    DistinctOthers(s.procs, pid);
    DistinctStays(s.procs, pid, p);
    ProcsStayOk(s.procs, View(s.slots), s.last.Keys, pid, p, View(s.slots), s.last.Keys);
  }

  lemma SettleKeepsInv(s: Sys, mv: Move)
    requires Inv(s) && mv.Settle? && Enabled(s, mv)
    ensures Inv(Apply(s, mv))
  {
    var p := s.procs[mv.pid];
    var ai := LetAiPlay(p.r, p.t);
    var e := View(s.slots)[p.sid];
    LetAiPlayMakesReady(p.r, p.t);
    AiIsFaithful(p.r, e, p.t);
    PlainIsOrderly(p.sid, p.sid in s.last, ai.events);
    LocalKeepsInv(s, mv.pid, p.(t := ai.t, pending := ai.events));
  }

  lemma ReceiveKeepsInv(s: Sys, mv: Move)
    requires Inv(s) && mv.Receive? && Enabled(s, mv)
    ensures Inv(Apply(s, mv))
  {
    var p := s.procs[mv.pid];
    var e := View(s.slots)[p.sid];
    HandleIsFaithful(p.r, p.t, e, mv.m);
    HandleKeepsReady(p.r, p.t, mv.m);
    HandleIsOrderly(p.r, p.t, mv.m, p.sid, p.sid in s.last);
    var h := Handle(p.r, p.t, mv.m);
    LocalKeepsInv(s, mv.pid, p.(t := h.t, pending := h.events));
  }

  lemma SendKeepsInv(s: Sys, mv: Move)
    requires Inv(s) && mv.Perform? && Enabled(s, mv) && s.procs[mv.pid].pending[0].Send?
    ensures Inv(Apply(s, mv))
  {
    var x := s.procs[mv.pid].pending[0].reply;
    SendKeepsProc(s, mv.pid);
    SendIs(s, mv);
    if x.ResumeResp? && x.ok {
      AnnouncedKeepsInv(s.(procs := AfterSend(s, mv.pid)), x.sid);
    }
  }

  /** The processes once this one has performed its next event. */
  function AfterSend(s: Sys, pid: nat): map<nat, Proc>
    requires pid in s.procs && s.procs[pid].pending != []
  {
    s.procs[pid := s.procs[pid].(pending := s.procs[pid].pending[1..])]
  }

  lemma SendKeepsProc(s: Sys, pid: nat)
    requires Inv(s) && pid in s.procs && s.procs[pid].pending != [] && s.procs[pid].pending[0].Send?
    ensures Inv(s.(procs := AfterSend(s, pid)))
    ensures var x := s.procs[pid].pending[0].reply; x.ResumeResp? && x.ok ==> x.sid in s.last
  {
    var p := s.procs[pid];
    ProcIsOk(s, pid);
    SentIsOk(p, View(s.slots)[p.sid], p.sid in s.last);
    LocalKeepsInv(s, pid, p.(pending := p.pending[1..]));
  }

  lemma ProcIsOk(s: Sys, pid: nat)
    requires Inv(s) && pid in s.procs
    ensures var p := s.procs[pid]; p.sid in View(s.slots) && ProcOk(p, View(s.slots)[p.sid], p.sid in s.last)
  {
  }

  lemma SentIsOk(p: Proc, e: Entry, saved: bool)
    requires ProcOk(p, e, saved) && p.pending != [] && p.pending[0].Send?
    ensures ProcOk(p.(pending := p.pending[1..]), e, saved)
    ensures var x := p.pending[0].reply; x.ResumeResp? && x.ok ==> saved && x.sid == p.sid
  {
  }

  lemma SendIs(s: Sys, mv: Move)
    requires mv.Perform? && Enabled(s, mv) && s.procs[mv.pid].pending[0].Send?
    ensures var x := s.procs[mv.pid].pending[0].reply; var after := s.(procs := AfterSend(s, mv.pid));
            Apply(s, mv) == if x.ResumeResp? && x.ok then after.(announced := s.announced + {x.sid}) else after
  {
  }

  lemma AnnouncedKeepsInv(s: Sys, sid: Word64)
    requires Inv(s) && sid in s.last
    ensures Inv(s.(announced := s.announced + {sid}))
  {
  }

  /** A save overwrites the process's own entry in the map. */
  lemma SaveOnMap(s: Sys, pid: nat, p: Proc, e: Entry, v: map<Word64, Entry>)
    requires InvOn(s, v) && pid in s.procs && p.sid == s.procs[pid].sid && Resumable(e) && ProcOk(p, e, true)
    ensures InvOn(s.(procs := s.procs[pid := p], last := s.last[p.sid := e]), v[p.sid := e])
  {
    DistinctOthers(s.procs, pid);
    DistinctStays(s.procs, pid, p);
    ProcsStayOk(s.procs, v, s.last.Keys, pid, p, v[p.sid := e], s.last[p.sid := e].Keys);
    assert LastOk(s.last[p.sid := e], v[p.sid := e]);
  }

  lemma SaveKeepsInv(s: Sys, mv: Move)
    requires Inv(s) && mv.Perform? && Enabled(s, mv) && s.procs[mv.pid].pending[0].Save?
    ensures Inv(Apply(s, mv))
  {
    var p := s.procs[mv.pid];
    var e := p.pending[0].e;
    SaveRefines(s.slots, p.sid, e);
    assert ProcOk(p, View(s.slots)[p.sid], p.sid in s.last);
    SaveOnMap(s, mv.pid, p.(pending := p.pending[1..]), e, View(s.slots));
  }

  lemma DieKeepsInv(s: Sys, mv: Move)
    requires Inv(s) && mv.Die? && Enabled(s, mv)
    ensures Inv(Apply(s, mv))
  {
  }

  lemma LoginKeepsInv(s: Sys, mv: Move)
    requires Inv(s) && mv.Hello? && mv.m.op == OP_LOGIN_REQ && Enabled(s, mv)
    ensures Inv(Apply(s, mv))
  {
    if Free(s.slots) < |s.slots| {
      var sid := Clean(mv.draw);
      var t := LoginTable(mv.r);
      AllocRefines(s.slots, mv.draw);
      LoginIsReady(mv.r);
      LoginIsFaithful(mv.r, sid);
      LoginIsOrderly(mv.r, sid, false);
      var s' := Apply(s, mv);
      var p := s'.procs[mv.pid];
      assert View(s'.slots) == View(s.slots)[sid := BLANK_ENTRY];
      assert ProcOk(p, BLANK_ENTRY, false);
      assert sid !in s.last;
      JoinKeepsInv(s, s', mv.pid, p);
    }
  }

  lemma ResumedProcIsOk(e: Entry, sid: Word64, r: Rand)
    requires Resumable(e)
    ensures ProcOk(Proc(sid, r, Resumed(e), [Send(ResumeResp(true, sid)), Send(StateMsg(e.st)), Send(HandMsg(e.hand))]), e, true)
  {
    ResumeIsFaithful(e, sid);
    ResumeIsOrderly(sid, e);
  }

  lemma ResumeKeepsInv(s: Sys, mv: Move)
    requires Inv(s) && mv.Hello? && mv.m.op != OP_LOGIN_REQ && Enabled(s, mv)
    ensures Inv(Apply(s, mv))
  {
    var j := Greet(mv.r, s.slots, mv.draw, mv.m);
    if j.Joined? {
      ResumeFinds(s, mv, j);
      ResumedProcIsOk(s.last[j.sid], j.sid, mv.r);
      JoinKeepsInv(s, Apply(s, mv), mv.pid, Proc(j.sid, mv.r, j.t, j.events));
    }
  }

  /** What a resume finds under an announced id is what was last saved there. */
  lemma ResumeFinds(s: Sys, mv: Move, j: Greeting)
    requires Inv(s) && mv.Hello? && mv.m.op != OP_LOGIN_REQ && Enabled(s, mv)
    requires j == Greet(mv.r, s.slots, mv.draw, mv.m) && j.Joined?
    ensures j.sid in s.last && j.sid in View(s.slots) && View(s.slots)[j.sid] == s.last[j.sid] && Resumable(s.last[j.sid])
    ensures j.t == Resumed(s.last[j.sid]) && !Owned(s, j.sid)
    ensures j.events == [Send(ResumeResp(true, j.sid)), Send(StateMsg(s.last[j.sid].st)), Send(HandMsg(s.last[j.sid].hand))]
    ensures Apply(s, mv) == s.(procs := s.procs[mv.pid := Proc(j.sid, mv.r, j.t, j.events)])
  {
    FindIsMember(s.slots, j.sid);
  }

  /** A new process enters; the map keeps every entry it had. */
  lemma JoinKeepsInv(s: Sys, s': Sys, pid: nat, p: Proc)
    requires Inv(s) && pid !in s.procs && s'.procs == s.procs[pid := p]
    requires s'.last == s.last && s'.announced == s.announced && WellFormed(s'.slots)
    requires forall sid | sid in View(s.slots) :: sid in View(s'.slots) && View(s'.slots)[sid] == View(s.slots)[sid]
    requires p.sid in View(s'.slots) && ProcOk(p, View(s'.slots)[p.sid], p.sid in s.last) && !Owned(s, p.sid)
    ensures Inv(s')
  {
    forall q | q in s.procs
      ensures s.procs[q].sid != p.sid
    {
    }
    DistinctStays(s.procs, pid, p);
    ProcsStayOk(s.procs, View(s.slots), s.last.Keys, pid, p, View(s'.slots), s'.last.Keys);
    assert LastOk(s'.last, View(s'.slots));
  }

  lemma MoveKeepsInv(s: Sys, mv: Move)
    requires Inv(s) && Enabled(s, mv)
    ensures Inv(Apply(s, mv))
  {
    match mv
    case Hello(_, _, _, m) => if m.op == OP_LOGIN_REQ { LoginKeepsInv(s, mv); } else { ResumeKeepsInv(s, mv); }
    case Settle(_) => SettleKeepsInv(s, mv);
    case Receive(_, _) => ReceiveKeepsInv(s, mv);
    case Perform(pid) => if s.procs[pid].pending[0].Save? { SaveKeepsInv(s, mv); } else { SendKeepsInv(s, mv); }
    case Die(_) => DieKeepsInv(s, mv);
  }

  /* ---- Interleavings ---- */

  /** The state after a sequence of moves; a move that is not enabled does not happen. */
  function Interleave(s: Sys, moves: seq<Move>): Sys
    decreases |moves|
  {
    if moves == [] then s
    else Interleave(if Enabled(s, moves[0]) then Apply(s, moves[0]) else s, moves[1..])
  }

  ghost predicate Reachable(s: Sys) { exists moves :: s == Interleave(Boot(), moves) }

  lemma {:induction false} InterleavingsKeepInv(s: Sys, moves: seq<Move>)
    requires Inv(s)
    ensures Inv(Interleave(s, moves))
    decreases |moves|
  {
    if moves != [] {
      if Enabled(s, moves[0]) {
        MoveKeepsInv(s, moves[0]);
      }
      InterleavingsKeepInv(if Enabled(s, moves[0]) then Apply(s, moves[0]) else s, moves[1..]);
    }
  }

  lemma ReachableInv(s: Sys)
    requires Reachable(s)
    ensures Inv(s)
  {
    var moves :| s == Interleave(Boot(), moves);
    BootInv();
    InterleavingsKeepInv(Boot(), moves);
  }

  /** In every interleaving: the entry of an announced session is the one last saved for it, and it can be resumed. */
  lemma EntryIsLastSaved(s: Sys, sid: Word64)
    requires Reachable(s) && sid in s.announced
    ensures sid in s.last && Lookup(s.slots, sid) == Some(s.last[sid]) && Resumable(s.last[sid])
  {
    ReachableInv(s);
    FindIsMember(s.slots, sid);
  }

  /** Every save a process performs finds its slot. */
  lemma SavesSucceed(s: Sys, pid: nat)
    requires Reachable(s) && pid in s.procs
    ensures Code(s.slots, s.procs[pid].sid) == 0
  {
    ReachableInv(s);
    FindIsMember(s.slots, s.procs[pid].sid);
  }

  /** Every STATE and HAND a process sends equals what is stored for its own session at that moment, the log apart. */
  lemma SendsMatchStore(s: Sys, pid: nat)
    requires Reachable(s) && pid in s.procs && s.procs[pid].pending != []
    ensures var p := s.procs[pid];
            match p.pending[0]
            case Send(StateMsg(st)) => Lookup(s.slots, p.sid).Some? && st.g == Lookup(s.slots, p.sid).value.st.g
            case Send(HandMsg(hand)) => Lookup(s.slots, p.sid).Some? && hand == Lookup(s.slots, p.sid).value.hand
            case _ => true
  {
    ReachableInv(s);
    FindIsMember(s.slots, s.procs[pid].sid);
    assert ProcOk(s.procs[pid], View(s.slots)[s.procs[pid].sid], s.procs[pid].sid in s.last);
  }

  /** Two live processes never share a session. */
  lemma SessionsAreExclusive(s: Sys, a: nat, b: nat)
    requires Reachable(s) && a in s.procs && b in s.procs && s.procs[a].sid == s.procs[b].sid
    ensures a == b
  {
    ReachableInv(s);
  }

  /** No step of another session, its logins included, changes a session's entry. */
  lemma OthersAreUntouched(s: Sys, mv: Move, sid: Word64)
    requires Reachable(s) && Enabled(s, mv) && sid in View(s.slots)
    requires mv.Perform? ==> s.procs[mv.pid].sid != sid
    ensures Lookup(Apply(s, mv).slots, sid) == Lookup(s.slots, sid)
  {
    ReachableInv(s);
    FindIsMember(s.slots, sid);
    if mv.Perform? && s.procs[mv.pid].pending[0].Save? {
      SavePreserves(s.slots, s.procs[mv.pid].sid, s.procs[mv.pid].pending[0].e, sid);
    } else if mv.Hello? && mv.m.op == OP_LOGIN_REQ && Free(s.slots) < |s.slots| {
      AllocPreserves(s.slots, mv.draw, sid);
    }
  }

  /** A client that resumes with an id it has been told is never refused, and is shown what was last saved. */
  lemma AnnouncedIdsResume(s: Sys, r: Rand, draw: Word64, m: Msg)
    requires Reachable(s) && m.op == OP_RESUME_REQ && |m.payload| >= RESUME_REQ_BYTES
    requires SessionId(m.payload) in s.announced
    ensures var sid := SessionId(m.payload);
            sid in s.last &&
            Greet(r, s.slots, draw, m) ==
            Joined(sid, Resumed(s.last[sid]),
                   [Send(ResumeResp(true, sid)), Send(StateMsg(s.last[sid].st)), Send(HandMsg(s.last[sid].hand))])
  {
    EntryIsLastSaved(s, SessionId(m.payload));
  }
}
