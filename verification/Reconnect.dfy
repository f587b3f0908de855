/** The session id a graphical client keeps (src/client_gui.c:149-161, 211-224): it opens every connection with it, learns it
    from a RESUME_RESP, and forgets it when it is refused. Among all the processes of the server it never is. */
module Reconnect {
  import opened Machine
  import opened Table
  import opened Store
  import opened Session
  import opened SessionProofs
  import opened Cluster

  /** The low n bytes of a number, as a little-endian host lays them out. */
  function Bytes(w: nat, n: nat): (b: seq<Byte>)
    ensures |b| == n
  {
    if n == 0 then [] else [w % 0x100] + Bytes(w / 0x100, n - 1)
  }

  function Power(n: nat): nat { if n == 0 then 1 else 0x100 * Power(n - 1) }

  lemma {:induction false} WordOfBytes(w: nat, n: nat)
    requires w < Power(n)
    ensures Word(Bytes(w, n)) == w
    decreases n
  {
    if n > 0 {
      WordOfBytes(w / 0x100, n - 1);
      assert Bytes(w, n)[1..] == Bytes(w / 0x100, n - 1);
    }
  }

  /** The first message of a connection: id 0 stands for none. */
  function Opening(sid: Word64): Msg {
    if sid != 0 then Msg(OP_RESUME_REQ, Bytes(sid, RESUME_REQ_BYTES)) else Msg(OP_LOGIN_REQ, [])
  }

  /** The server reads back the id the client wrote. */
  lemma OpeningNamesTheSession(sid: Word64)
    requires sid != 0
    ensures Opening(sid).op == OP_RESUME_REQ && |Opening(sid).payload| >= RESUME_REQ_BYTES && SessionId(Opening(sid).payload) == sid
  {
    assert Power(4) == 0x1_0000_0000 && Power(8) == 0x1_0000_0000_0000_0000;
    WordOfBytes(sid, 8);
    assert Bytes(sid, 8)[..8] == Bytes(sid, 8);
  }

  /** What the client keeps after a reply. */
  function Learn(sid: Word64, reply: Reply): Word64 {
    match reply
    case ResumeResp(true, id) => id
    case ResumeResp(false, _) => 0
    case _ => sid
  }

  /** The replies one move of the server sends. */
  function Told(s: Sys, mv: Cluster.Move): seq<Reply>
    requires Enabled(s, mv)
  {
    match mv
    case Perform(pid) => Said(s.procs[pid].pending[..1])
    case Hello(_, r, draw, m) =>
      (match Greet(r, s.slots, draw, m)
       case Joined(_, _, _) => []  // performed later, one by one
       case Waiting(events) => Said(events)
       case Closed(events) => Said(events))
    case _ => []
  }

  function Said(events: seq<Event>): seq<Reply> {
    if events == [] then [] else (if events[0].Send? then [events[0].reply] else []) + Said(events[1..])
  }

  function LearnAll(sid: Word64, replies: seq<Reply>): Word64
    decreases |replies|
  {
    if replies == [] then sid else LearnAll(Learn(sid, replies[0]), replies[1..])
  }

  /** One move of the server, and whether this client hears the replies it sends. */
  datatype Turn = Turn(mv: Cluster.Move, ours: bool)

  datatype Desk = Desk(s: Sys, sid: Word64)

  function After(d: Desk, turn: Turn): Desk {
    if !Enabled(d.s, turn.mv) then d
    else Desk(Apply(d.s, turn.mv), if turn.ours then LearnAll(d.sid, Told(d.s, turn.mv)) else d.sid)
  }

  function Watch(turns: seq<Turn>): Desk {
    if turns == [] then Desk(Boot(), 0) else After(Watch(turns[..|turns| - 1]), turns[|turns| - 1])
  }

  predicate Refusal(reply: Reply) { reply.ResumeResp? && !reply.ok }

  lemma {:induction false} LearnOneMore(sid: Word64, heard: seq<Reply>, reply: Reply)
    ensures LearnAll(sid, heard + [reply]) == Learn(LearnAll(sid, heard), reply)
    decreases |heard|
  {
    if heard == [] {
      assert (heard + [reply])[1..] == [];
    } else {
      LearnOneMore(Learn(sid, heard[0]), heard[1..], reply);
      assert (heard + [reply])[1..] == heard[1..] + [reply];
    }
  }

  /** The client's network thread: one id, kept from connection to connection. */
  class NetThread {
    var sessionId: Word64

    constructor ()
      ensures sessionId == 0
    {
      sessionId := 0;
    }

    method Open() returns (m: Msg)
      ensures m == Opening(sessionId)
    {
      if sessionId != 0 {
        m := Msg(OP_RESUME_REQ, Bytes(sessionId, RESUME_REQ_BYTES));
      } else {
        m := Msg(OP_LOGIN_REQ, []);
      }
    }

    /** The receive loop of one connection: it ends with the messages or at the first refusal, the rest unread. */
    method Listen(replies: seq<Reply>) returns (n: nat)
      modifies this
      ensures n <= |replies| && sessionId == LearnAll(old(sessionId), replies[..n])
      ensures forall i | 0 <= i < n - 1 :: !Refusal(replies[i])
      ensures n < |replies| ==> n > 0 && Refusal(replies[n - 1]) && sessionId == 0
    {
      n := 0;
      while n < |replies|
        invariant n <= |replies| && sessionId == LearnAll(old(sessionId), replies[..n])
        invariant forall i | 0 <= i < n :: !Refusal(replies[i])
      {
        var reply := replies[n];
        LearnOneMore(old(sessionId), replies[..n], reply);
        assert replies[..n + 1] == replies[..n] + [reply];
        n := n + 1;
        if reply.ResumeResp? {
          if reply.ok {
            sessionId := reply.sid;
          } else {
            sessionId := 0;
            return;
          }
        }
      }
    }
  }

  lemma {:induction false} InterleaveOneMore(s: Sys, moves: seq<Cluster.Move>, mv: Cluster.Move)
    ensures var u := Interleave(s, moves); Interleave(s, moves + [mv]) == if Enabled(u, mv) then Apply(u, mv) else u
    decreases |moves|
  {
    if moves == [] {
      assert (moves + [mv])[1..] == [];
    } else {
      InterleaveOneMore(if Enabled(s, moves[0]) then Apply(s, moves[0]) else s, moves[1..], mv);
      assert (moves + [mv])[1..] == moves[1..] + [mv];
    }
  }

  lemma AfterIsReachable(s: Sys, mv: Cluster.Move)
    requires Reachable(s) && Enabled(s, mv)
    ensures Reachable(Apply(s, mv))
  {
    var moves :| s == Interleave(Boot(), moves);
    InterleaveOneMore(Boot(), moves, mv);
    assert Apply(s, mv) == Interleave(Boot(), moves + [mv]);
  }

  predicate Known(s: Sys, sid: Word64) { sid == 0 || sid in s.announced }

  lemma SaidOne(sid: Word64, x: Event)
    ensures Said([x]) == if x.Send? then [x.reply] else []
    ensures LearnAll(sid, Said([x])) == if x.Send? then Learn(sid, x.reply) else sid
  {
    assert [x][1..] == [] && Said([]) == [];
    if x.Send? {
      assert [x.reply] + [] == [x.reply] && [x.reply][1..] == [];
    }
  }

  /** The only id a process can teach is one it announces by that very step. */
  lemma PerformAnnounces(s: Sys, mv: Cluster.Move)
    requires Enabled(s, mv) && mv.Perform?
    ensures var x := s.procs[mv.pid].pending[0];
            Apply(s, mv).announced ==
            if x.Send? && x.reply.ResumeResp? && x.reply.ok then s.announced + {x.reply.sid} else s.announced
  {
  }

  lemma LearnsKnown(s: Sys, sid: Word64, mv: Cluster.Move)
    requires Enabled(s, mv) && Known(s, sid)
    ensures Known(Apply(s, mv), LearnAll(sid, Told(s, mv)))
  {
    if mv.Perform? {
      var x := s.procs[mv.pid].pending[0];
      assert s.procs[mv.pid].pending[..1] == [x];
      SaidOne(sid, x);
      PerformAnnounces(s, mv);
    } else if mv.Hello? {
      GreetTeachesNothing(s, sid, mv);
    } else {
      assert Told(s, mv) == [] && LearnAll(sid, []) == sid;
    }
  }

  lemma GreetTeachesNothing(s: Sys, sid: Word64, mv: Cluster.Move)
    requires Enabled(s, mv) && mv.Hello?
    ensures LearnAll(sid, Told(s, mv)) in {0, sid} && s.announced == Apply(s, mv).announced
  {
    var g := Greet(mv.r, s.slots, mv.draw, mv.m);
    if !g.Joined? && g.events != [] {
      assert |g.events| == 1 && g.events[1..] == [] && g.events[0].Send?;
      assert Said(g.events) == [g.events[0].reply] && [g.events[0].reply][1..] == [];
    }
  }

  /** Whatever the server's processes do, a client holds no id or one that is announced. */
  lemma {:induction false} WatchedIdIsKnown(turns: seq<Turn>)
    ensures var d := Watch(turns); Reachable(d.s) && Known(d.s, d.sid)
  {
    if turns == [] {
      assert Boot() == Interleave(Boot(), []);
    } else {
      var d, turn := Watch(turns[..|turns| - 1]), turns[|turns| - 1];
      WatchedIdIsKnown(turns[..|turns| - 1]);
      if Enabled(d.s, turn.mv) {
        AfterIsReachable(d.s, turn.mv);
        LearnsKnown(d.s, d.sid, turn.mv);
        KnownStays(d.s, d.sid, turn.mv);
      }
    }
  }

  lemma KnownStays(s: Sys, sid: Word64, mv: Cluster.Move)
    requires Enabled(s, mv) && Known(s, sid)
    ensures Known(Apply(s, mv), sid)
  {
  }

  /** A client with an id is never refused: after any interleaving of all the processes, its next connection resumes the
      session it names, from what was last saved there. */
  lemma ClientIsNeverRefused(turns: seq<Turn>, r: Rand, draw: Word64)
    ensures var d := Watch(turns);
            d.sid != 0 ==>
              && d.sid in d.s.last
              && Greet(r, d.s.slots, draw, Opening(d.sid)).Joined?
              && Greet(r, d.s.slots, draw, Opening(d.sid)).sid == d.sid
              && Greet(r, d.s.slots, draw, Opening(d.sid)).t == Resumed(d.s.last[d.sid])
  {
    var d := Watch(turns);
    WatchedIdIsKnown(turns);
    if d.sid != 0 {
      OpeningNamesTheSession(d.sid);
      AnnouncedIdsResume(d.s, r, draw, Opening(d.sid));
    }
  }

  /* ---- What a client learns ---- */

  lemma {:induction false} LearnsNothing(sid: Word64, heard: seq<Reply>)
    requires forall x | x in heard :: !x.ResumeResp?
    ensures LearnAll(sid, heard) == sid
    decreases |heard|
  {
    if heard != [] {
      assert heard[0] in heard && forall x | x in heard[1..] :: x in heard;
      LearnsNothing(sid, heard[1..]);
    }
  }

  lemma {:induction false} LearnConcatenates(sid: Word64, a: seq<Reply>, b: seq<Reply>)
    ensures LearnAll(sid, a + b) == LearnAll(LearnAll(sid, a), b)
    decreases |a|
  {
    if a == [] {
      assert a + b == b;
    } else {
      LearnConcatenates(Learn(sid, a[0]), a[1..], b);
      assert (a + b)[1..] == a[1..] + b;
    }
  }

  /** The last RESUME_RESP heard decides: its id if it says ok, none if it does not; other replies teach nothing. */
  lemma LastWordCounts(sid: Word64, before: seq<Reply>, ok: bool, id: Word64, after: seq<Reply>)
    requires forall x | x in after :: !x.ResumeResp?
    ensures LearnAll(sid, (before + [ResumeResp(ok, id)]) + after) == if ok then id else 0
  {
    LearnConcatenates(sid, before + [ResumeResp(ok, id)], after);
    LearnOneMore(sid, before, ResumeResp(ok, id));
    LearnsNothing(if ok then id else 0, after);
  }

  /** A client without an id logs in, and if there is room it comes to know the session it has been given. */
  lemma {:induction false} LoginTeaches(r: Rand, slots: seq<Slot>, draw: Word64)
    requires Free(slots) < |slots|
    ensures var j := Greet(r, slots, draw, Opening(0));
            j.Joined? && j.sid != 0 && LearnAll(0, Replies(j.events)) == j.sid
  {
    var j := Greet(r, slots, draw, Opening(0));
    assert j.Joined? && j.sid != 0;
    LoginAnswers(r, slots, draw, Opening(0));
    AnswersTeach(j.sid, j.t);
  }

  lemma AnswersTeach(sid: Word64, t: Table)
    ensures LearnAll(0, ([LoginResp] + [ResumeResp(true, sid)]) + [StateMsg(t.st), HandMsg(t.hand)]) == sid
  {
    LastWordCounts(0, [LoginResp], true, sid, [StateMsg(t.st), HandMsg(t.hand)]);
  }

  lemma LoginAnswers(r: Rand, slots: seq<Slot>, draw: Word64, m: Msg)
    requires m.op == OP_LOGIN_REQ && Greet(r, slots, draw, m).Joined?
    ensures var j := Greet(r, slots, draw, m);
            Replies(j.events) == ([LoginResp] + [ResumeResp(true, j.sid)]) + [StateMsg(j.t.st), HandMsg(j.t.hand)]
  {
    var j := Greet(r, slots, draw, m);
    var head := [Save(EntryOf(j.t)), Send(LoginResp), Send(ResumeResp(true, j.sid))];
    assert head[1..][1..] == [Send(ResumeResp(true, j.sid))] && head[1..][1..][1..] == [];
    assert Replies(head[1..][1..]) == [ResumeResp(true, j.sid)];
    assert Replies(head[1..]) == [LoginResp] + [ResumeResp(true, j.sid)];
    ShowReplies(head, j.t);
  }
}
