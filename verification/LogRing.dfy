/** The six-line log ring inside `state_t`: written by `push_log` (src/server.c:51-60), read back by the graphical
    client (src/client_gui.c:498-504). */
module LogRing {
  import opened Machine

  const LINES := 6
  const LINE_CHARS := 63  // LOG_LEN less the terminating NUL

  datatype RawRing = RawRing(head: Byte, lines: seq<string>)

  type Ring = r: RawRing | |r.lines| == LINES witness RawRing(0, ["", "", "", "", "", ""])

  const EMPTY: Ring := RawRing(0, ["", "", "", "", "", ""])

  /** What `vsnprintf` keeps of a message. */
  function Clip(msg: string): string { if |msg| <= LINE_CHARS then msg else msg[..LINE_CHARS] }

  /** `push_log`. */
  function Push(r: Ring, msg: string): Ring {
    var idx := r.head % LINES;
    RawRing((r.head + 1) % LINES, r.lines[idx := Clip(msg)])
  }

  function PushIf(r: Ring, pushed: bool, msg: string): Ring { if pushed then Push(r, msg) else r }

  function PushAll(r: Ring, msgs: seq<string>): Ring {
    if msgs == [] then r else Push(PushAll(r, msgs[..|msgs| - 1]), msgs[|msgs| - 1])
  }

  /** The order in which the client shows the ring: from the write index round to just before it. */
  function Shown(r: Ring): (s: seq<string>)
    ensures |s| == LINES
  {
    seq(LINES, i requires 0 <= i < LINES => r.lines[(r.head + i) % LINES])
  }

  /** Every message ever pushed, clipped, behind six empty lines. */
  function History(msgs: seq<string>): (h: seq<string>)
    ensures |h| == LINES + |msgs|
  {
    if msgs == [] then ["", "", "", "", "", ""]
    else History(msgs[..|msgs| - 1]) + [Clip(msgs[|msgs| - 1])]
  }

  lemma RingIndex(head: nat, i: nat)
    requires head < LINES && i < LINES
    ensures ((head + 1) % LINES + i) % LINES == if i < LINES - 1 then (head + (i + 1)) % LINES else head
    ensures i < LINES - 1 ==> (head + (i + 1)) % LINES != head
  {
  }

  lemma PushShifts(r: Ring, msg: string)
    requires r.head < LINES
    ensures Shown(Push(r, msg)) == Shown(r)[1..] + [Clip(msg)]
  {
    var s := Shown(Push(r, msg));
    var want := Shown(r)[1..] + [Clip(msg)];
    forall i | 0 <= i < LINES
      ensures s[i] == want[i]
    {
      RingIndex(r.head, i);
      assert s[i] == r.lines[r.head := Clip(msg)][((r.head + 1) % LINES + i) % LINES];
    }
  }

  /** However many messages were pushed, the client shows exactly the last six of the history, oldest first. */
  lemma {:induction false} ShowsLastSix(msgs: seq<string>)
    ensures PushAll(EMPTY, msgs).head < LINES
    ensures Shown(PushAll(EMPTY, msgs)) == History(msgs)[|msgs|..]
  {
    if msgs == [] {
      assert Shown(EMPTY) == History([]);
    } else {
      var before := msgs[..|msgs| - 1];
      ShowsLastSix(before);
      PushShifts(PushAll(EMPTY, before), msgs[|msgs| - 1]);
      assert History(msgs)[|msgs|..] == History(before)[|before|..][1..] + [Clip(msgs[|msgs| - 1])];
    }
  }

  /** Index by index: line i of the display is entry |msgs| + i of the history, so a message is seen from the moment it
      is pushed until six more have been. */
  lemma {:induction false} ShownLine(msgs: seq<string>, i: nat)
    requires i < LINES
    ensures Shown(PushAll(EMPTY, msgs))[i] == if |msgs| + i < LINES then "" else Clip(msgs[|msgs| + i - LINES])
  {
    ShowsLastSix(msgs);
    HistoryAt(msgs, |msgs| + i);
    assert History(msgs)[|msgs|..][i] == History(msgs)[|msgs| + i];
  }

  /** A message of up to 63 characters is kept whole, a longer one up to there. */
  lemma ClipKeeps(msg: string)
    ensures Clip(msg) <= msg && |Clip(msg)| == if |msg| <= 63 then |msg| else 63
  {
  }

  lemma {:induction false} HistoryAt(msgs: seq<string>, k: nat)
    requires k < LINES + |msgs|
    ensures History(msgs)[k] == if k < LINES then "" else Clip(msgs[k - LINES])
  {
    if msgs != [] && k < LINES + |msgs| - 1 {
      HistoryAt(msgs[..|msgs| - 1], k);
    }
  }

  /** The log panel of the client, line by line. */
  method DrawLog(r: Ring) returns (panel: seq<string>)
    ensures |panel| == LINES && forall k | 0 <= k < LINES :: panel[k] == if Shown(r)[k] == "" then "-" else Shown(r)[k]
  {
    panel := [];
    for i := 0 to LINES
      invariant |panel| == i && forall k | 0 <= k < i :: panel[k] == if Shown(r)[k] == "" then "-" else Shown(r)[k]
    {
      var line := r.lines[(r.head + i) % LINES];
      if line == "" {
        line := "-";
      }
      panel := panel + [line];
    }
  }

  /** `%d` and `%u`. */
  function Text(n: int): string
    decreases if n < 0 then 1 - n else n
  {
    if n < 0 then "-" + Text(-n)
    else if n < 10 then ["0123456789"[n]]
    else Text(n / 10) + ["0123456789"[n % 10]]
  }

  /** Reading decimal digits. */
  function Digits(s: string): int {
    if s == [] then 0 else 10 * Digits(s[..|s| - 1]) + (s[|s| - 1] as int - '0' as int)
  }

  /** Reading a number back, as `strtol` would. */
  function Read(s: string): int { if s != [] && s[0] == '-' then -Digits(s[1..]) else Digits(s) }

  lemma DigitChar(d: nat)
    requires d < 10
    ensures "0123456789"[d] as int - '0' as int == d && '0' <= "0123456789"[d] <= '9'
  {
  }

  lemma {:induction false} DigitsOfText(n: nat)
    ensures Text(n) != [] && Digits(Text(n)) == n
    ensures forall i | 0 <= i < |Text(n)| :: '0' <= Text(n)[i] <= '9'
  {
    DigitChar(n % 10);
    if n >= 10 {
      var front := Text(n / 10);
      DigitsOfText(n / 10);
      assert Text(n) == front + ["0123456789"[n % 10]];
      assert Text(n)[..|Text(n)| - 1] == front;
    }
  }

  /** A number is printed so that it reads back. */
  lemma TextReadsBack(n: int)
    ensures Read(Text(n)) == n
  {
    if n < 0 {
      DigitsOfText(-n);
      assert Text(n)[1..] == Text(-n);
    } else {
      DigitsOfText(n);
    }
  }
}
