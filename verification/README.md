# A two-player card duel and its server, verified

A server deals a card game between a remote player and a built-in opponent ("the AI"). Each client connection is
served by its own process; the processes share a store of 128 session slots, so that a broken connection can be resumed.
Messages travel in checksummed, length-prefixed frames. This project models those four parts and proves what they promise.

**The duel** (`src/server.c`). `Board` holds `state_t`, `hand_t` and the dealer as objects changed in place, field by
field, with the casts to `int16_t` and `uint8_t` written out. Its methods are proved against value functions in `Duel`,
`Table` and `AiPlayer`. `Duel` is written once for two arithmetics: `Narrow` is what the server computes, `Exact` drops
the casts. The theorems about whole runs are:

- `Horizon`: for 253 rounds no cast changes a value, although healing is uncapped and a played card stays in the player's
  hand; in round 254 a poison counter really wraps. `Exactness`: for runs of any length, the server is exact if and only if
  the guard of one cast holds at every act.
- `Pressure`, `Endgame`: an amortised bound on all damage; no duel ends before the player's fourth turn; the end is judged
  rightly if and only if every heal fits; draws come only from two poison ticks.
- `Mirror`: exchanging the sides commutes with every run. `Ledger`: double-entry books balance throughout a run if and only
  if it is exact. `ManaTurn`: mana is conserved within a turn and a refused play changes nothing.
- `AiProofs`, `Policy`: the AI's turn terminates, is greedy at every play, leaves nothing affordable, and hands over properly;
  its scores amount to a stated policy, and it uses up each card it plays.
- `LogRing`: the client's display of the ring is the last six messages of the whole history. `Logs`: which lines a session
  writes, and that every STATE shows the last six of them.

**The session process** (`run_session`). `Session` is the process as a function from messages to saves and sends; `Server`
is the imperative process over `Board` and the store, proved equal to it. `SessionProofs` has the invariant of the waiting
process, the dead replies and the faithfulness of every STATE to the store; `Answers` has the reason behind every answer; `Crash` has crash and resume, down to which
requests survive; `Duration` reads the run theorems off sessions and off whole lives with crashes, and `Witness` shows by
concrete sessions that two of the bounds are attained.

**The store and its many processes** (`src/common/ipc.c`). `Store` shows the linear scans to be a map, over any call
sequence. `Cluster` interleaves any number of processes that may die at any step, under two assumptions that `Sharing` shows
to be needed. `Reconnect` adds the graphical client, which resumes with an id it has learned.

**The wire and the client** (`src/common/proto.c`, `src/common/net.c`, `src/client_app.c`). `Wire` has frames and
checksum as functions on bytes; `WireIo` has the read, write, send and receive loops over a transport with arbitrary
chunks, retries and failure. `Client` is the terminal client, `Keys` says what its keys mean to the duel, and `Lockstep` composes it
with the server over two pipes.

A dealer is an arbitrary stream of numbers, so every theorem is about all deals; client messages are arbitrary too.
Between two calls on the store a process works on private memory, so a crash is a prefix of its saves and sends.

Four promises of the code turned out false as general statements, and each has its exact condition:

- the narrow arithmetic is exact over a whole run if and only if a guard on each play holds (`Exactness.RunsAgree`);
- the books balance throughout a run if and only if the same guard holds (`Ledger.RunBalances`);
- a run is rightly judged if and only if every heal in it fits (`Endgame.RunIsJudged`);
- the checksum has its closed form on all inputs of a length if and only if the length is at most 16843009
  (`Wire.SafeLengthIsExact`).

The guards of the first three hold up to round 253, whatever is played. The first two can fail in round 254
(`Witness.PoisonWraps`, `Ledger.BooksCanBreak`), and a heal can fail in round 4677 (`Endgame.HealingLoses`). Frames are at
most 4096 bytes, well inside the length of the fourth.

## Model

| member | source | states |
|---|---|---|
| Cards.TableIsRated | src/common/cards.c:7-29 | every card hits a case of the switch and costs 1 to 3, and what it gives is bounded by its price: 3 damage, or 2 buff, per mana |
| Cards.TableByRule | src/common/cards.c:7-29 | the table by rule: an id is its kind and its place, and kind and place give price and worth |
| Cards.PoolIsKnown | src/server.c:107-118 | every id the dealer can pick is in the card table |
| Cards.LookupIsExact | src/common/cards.c:33-40 | looking up the id of row i finds row i, so no row hides another |
| Board.Dealer.RandCardId | src/server.c:107-118 | one pick from the pool, one step of the stream |
| Board.Dealer.DealHand | src/server.c:120-124 | the hand becomes the next three picks followed by zeros, whatever it held |
| Board.State.PushLog | src/server.c:51-60 | overwrites the oldest line with the clipped message and leaves every game field alone |
| Board.State.ApplyDamage | src/server.c:64-77 | one side's shield and hit points change as specified, casts included; no other field does |
| Board.State.TickPoison | src/server.c:79-92 | both sides tick, shields ignored, with their log lines |
| Board.State.CheckGameOver | src/server.c:94-103 | sets the verdict once, and logs it |
| Board.State.HandlePlayCard | src/server.c:138-193 | return code and new state for every hand, index and side; the hand is not written |
| Board.EnterTurn | src/server.c:200-216 | full mana, new cards in the shared hand, main phase |
| Board.PhaseEnd | src/server.c:218-226 | both poison ticks, the verdict, and only if the game goes on the other side's turn |
| Board.AiEvalCard | src/server.c:228-241 | the score used in the specification of the AI's choice |
| Board.BestCard | src/server.c:245-260 | the scan finds the specified choice |
| Board.ProcessAiTurn | src/server.c:243-270 | the loop of plays and blanked cards ends, and leaves the table the theorems of AiProofs speak of |
| AiPlayer.ChoiceIsGreedy | src/server.c:245-260 | a slot is chosen if and only if it is the first of those with the highest score among affordable known cards; -1 if and only if there is none |
| Policy.ScoreIsPreference | src/server.c:228-241 | the scores order all cards as a policy says that does not mention them: first a heal when the AI is below 10, then a buff against a shield, poison for the unpoisoned, a shield when it has none, an attack, then anything else; the cheaper first, but of attacks the one for 3 |
| Policy.ChoiceIsPolicy | src/server.c:228-260 | a slot is chosen if and only if no affordable card is preferred to its card, and its card is preferred to every affordable one before it |
| Policy.DecisionList | src/server.c:228-260 | the kind of the chosen card as a decision list over what is affordable in hand |
| AiPlayer.PlayCosts | src/server.c:253-264 | an AI play is accepted and costs mana, the measure on which the loop ends |
| AiProofs.LoopIsGreedy | src/server.c:243-268 | from any table, each card played is the greedy one at that moment, and the loop stops only at game over or with nothing affordable left |
| Policy.PlayedCardsAreGone | src/server.c:262-267 | the AI's slots are all different, exactly they are blank after its plays, and every other slot is as it was |
| Policy.PlaysItsHand | src/server.c:243-268 | the cards it plays are among those of its hand, none more often |
| Policy.PlayedAreActs | src/server.c:243-268 | and they are the plays the duel sees |
| AiProofs.AiTurnHandsOver | src/server.c:243-270 | a full AI turn makes 1 to 3 plays and ends with game over or with the player in the main phase with full mana and a fresh hand |
| AiProofs.AiTurnIgnoresDeals | src/server.c:243-270 | what the AI plays, and every game field after its turn, depends on game and hand only, never on the dealer or the log |
| AiProofs.EndHandsOver | src/server.c:218-226 | after a turn end the game is over with the hand untouched, or the other side begins a full turn with pool cards |
| AiProofs.PlaysAreActs | src/server.c:243-268 | the AI's turn is a piece of a run of the duel |
| Table.LoginStartsTheRun | src/server.c:302-305 | a login sets up the initial game of all run theorems |
| Table.EveryHandCanBeDealt | src/server.c:107-124 | any three cards of the pool can be dealt, in any order |
| Horizon.RunIsBounded | src/server.c:147-184 | invariant of every exact run: each number of each side is bounded by the turns begun and the mana spent so far |
| Horizon.NarrowIsExact | src/server.c:138-226 | up to round 253 the server's narrow arithmetic and exact arithmetic give the same run, for all deals, requests and AI choices |
| Horizon.RoundBounds | src/server.c:147-184 | in round k of the server's run: hit points at most 30+7k, shields 9k, buffs 6k, poison k+2, none negative |
| Horizon.HorizonIsTight | src/server.c:181-183 | a run whose poison counter reaches 256 exactly, and 0 in the server, in round 254 |
| Exactness.StepFits | src/server.c:147-184 | in any game that fits its fields, in any round: the server computes what exact arithmetic would if and only if the guard of the one cast involved holds, and then the game still fits |
| Exactness.RunsAgree | src/server.c:138-226 | a run of any length agrees with exact arithmetic at every point if and only if that guard holds at every act of the server's run |
| Exactness.EarlyRunsFit | src/server.c:138-226 | up to round 253 the guard holds at every act |
| Pressure.PotentialStep | src/server.c:138-226 | in one act of the server, wrapped counters or not: enemy hit points less buff, twice the poison and three times the mana never drop, except by 9 when that side's turn begins, as long as a heal fits |
| Pressure.DamageBound | src/server.c:64-92 | after k of a side's turns its enemy has at least 30-9k hit points, in every run of the server, of any length, whose heals all fit |
| Endgame.StepIsJudged | src/server.c:147-191 | one act from a rightly judged game leads to a rightly judged game if and only if the heal, if it is one, fits: no other cast matters |
| Endgame.RunIsJudged | src/server.c:94-103 | for runs of any length: hit points are not negative, the game is over exactly when some side is at 0 and the winner is the side that is not, if and only if every heal of the run has fitted |
| Endgame.EarlyRunIsJudged | src/server.c:94-103 | up to round 253 every run is rightly judged |
| Endgame.HealingLoses | src/server.c:165-167 | the condition can fail: a player who drinks a Potion in each of 4677 rounds is taken from 32762 hit points to -32767, and the AI is declared the winner |
| Endgame.DrawInRun | src/server.c:218-226 | any run, of any length, that ends in a draw ends at a turn end at which both sides were poisoned |
| Endgame.EarliestEnd | src/server.c:138-226 | no run, whatever its deals and requests, is over before the player's fourth turn |
| Mirror.PlayReflects | src/server.c:138-193 | exchanging the sides and flipping the actor gives the same return code and the exchanged game |
| Mirror.EndReflects | src/server.c:79-103 | poison ticks, verdict and turn change commute with exchanging the sides |
| Mirror.RunReflects | src/server.c:138-226 | so does every whole run from any game, in both arithmetics |
| Mirror.RunInMirror | src/server.c:138-226 | a run played in the mirror and looked at in the mirror is the run |
| Mirror.PotentialReflects | src/server.c:64-92 | the AI's damage potential is the player's in the mirror, so the bounds for the two sides are one theorem |
| Ledger.StepBalances | src/server.c:147-189 | one act's entries balance both sides' books if and only if the guard of the cast involved holds |
| Ledger.RunBalances | src/server.c:64-92 | for runs of any length, both sides' books (30 + healed = hit points + struck + lost to poison; shields gained = left + absorbed; buffs gained = left + spent; poison added = left + ticked) balance at every point if and only if the guard of the cast involved holds at every act |
| Ledger.EarlyRunBalances | src/server.c:64-92 | up to round 253 they always balance |
| Ledger.BooksCanBreak | src/server.c:181-183 | in round 254 they need not |
| Ledger.HarmIsPaidFor | src/server.c:64-92 | the damage bound for long duels: in k turns a side does at most 9k points of harm, shields included, so its enemy has at least 30 - 9k hit points more than its healing and what its shields soaked |
| ManaTurn.PlayCodes | src/server.c:139-148 | exactly when a play is answered 0, -1, -2 or -3 |
| ManaTurn.RefusalChangesNothing | src/server.c:138-193 | a refused play leaves state and log as they were, although the default branch returns after taking the mana |
| ManaTurn.ManaIsConserved | src/server.c:147-148 | over any requests of one turn, prices of successful plays and mana left add up to 3, and at most 3 plays succeed |
| LogRing.PushShifts | src/server.c:51-60 | one push drops the oldest shown line and appends the new one |
| LogRing.ShowsLastSix | src/client_gui.c:498-504 | after any pushes the write index is below 6 and the client shows exactly the last six of six blanks and the full history, each clipped to 63 characters, oldest first |
| LogRing.ShownLine | src/client_gui.c:498-504 | the same line by line: which message of the history stands in which line |
| LogRing.ClipKeeps | src/server.c:51-60 | a line keeps up to 63 characters of its message, from the front |
| LogRing.TextReadsBack | src/server.c:162-185 | a number is printed so that reading its digits gives it back |
| LogRing.DrawLog | src/client_gui.c:499-504 | the drawing loop produces those six lines, a dash for an empty one |
| Logs.HandleWrites | src/server.c:157-193 | what one request adds to the ring, line by line: plays, turn ends, poison, draws, the end of the game, and the AI's turn behind it; a refused play adds nothing |
| Logs.ClientSeesLastSix | src/server.c:313-418 | from a login, every STATE the main loop sends shows exactly the last six of all lines the session has written up to the request it answers |
| Logs.ResumeGoesOn | src/server.c:326-338 | a resumed process goes on with the history of the entry it found, with one line for the resume |
| Logs.AttackLine | src/server.c:162-163 | the line of an attack, letter for letter |
| Logs.HealLine | src/server.c:167-168 | the line of a heal, letter for letter |
| Logs.ShieldLine | src/server.c:172-173 | the line of a shield, letter for letter |
| Logs.BuffLine | src/server.c:178-179 | the line of a buff, letter for letter |
| Logs.PoisonLine | src/server.c:184-185 | the line of a poison, letter for letter |
| SessionProofs.WaitsReady | src/server.c:352-418 | whenever the main loop waits, after a login or a resume and any messages: game over, or the player's main phase, both standing, mana at most 3, three pool cards |
| SessionProofs.EndIsFinal | src/server.c:356-377 | once the game is over, whatever is still sent: the table stays the same, nothing is saved, and every game state sent is that table's |
| SessionProofs.ReadyPlayCodes | src/server.c:379-394 | in a waiting process a play is answered only 0, -1 or -2 |
| SessionProofs.SessionDeadReplies | src/server.c:380-393 | in no session are the errors -3, -11 and -12 ever sent, whatever the client does |
| SessionProofs.RequestIsAnswered | src/server.c:373-418 | every request a key produces is answered by at most one ERROR, then exactly one STATE and one HAND, both current |
| Answers.PlayRefusals | src/server.c:379-394 | exactly when each error answers a PLAY_CARD: -10 a payload that is not one byte, -1 a slot behind the hand, -2 a card dearer than the mana left, and no other |
| Answers.PlayIsPaidOrRefused | src/server.c:387-396 | no error is sent if and only if the play goes through and is paid for; otherwise the table is unchanged |
| Answers.StrayMessages | src/server.c:420-423 | a second LOGIN or RESUME is passed over and any other stray opcode answered with -99; neither changes anything |
| Answers.OverIsShown | src/server.c:373-377 | once the game is over every message but a ping is answered with the final STATE and HAND |
| Answers.PingsAreInvisible | src/server.c:368-371 | pings are answered one by one in any state, and without them the server reaches the same table by the same saves and sends |
| Answers.HandshakeOutcomes | src/server.c:290-349 | exactly which handshake messages join, close or leave it open, against the store as a map, and the answers |
| Answers.HandshakeGoesOn | src/server.c:338-348 | a message that leaves the handshake open, a refused resume above all, costs nothing but its answer: the rest of the connection goes as if it had not been sent |
| SessionProofs.SessionIsFaithful | src/server.c:313-418 | from its first event, every STATE and HAND a session sends equals what the store holds for it at that moment, logs apart |
| SessionProofs.LoopIsServe | src/server.c:352-424 | the AI check at the top of the loop does something only before the first message |
| Session.WordFits | src/server.c:328-331 | the eight bytes of a RESUME_REQ are a 64-bit id |
| Session.SessionIdBytes | src/server.c:328-331 | the id read from them byte for byte, the low byte first |
| Server.ServePlay | src/server.c:379-401 | in place: sends, table and store after a PLAY_CARD as specified, malformed payloads included |
| Server.ServeEnd | src/server.c:403-418 | in place: the two saves of an END_TURN, the AI's turn between them, and the sends |
| Server.RunMainLoop | src/server.c:351-424 | the loop over all messages performs exactly the saves and sends the session theorems are about |
| Server.GreetMessage | src/server.c:290-349 | the handshake: ping, login, full store, resume found and not found, short payload |
| Server.RunSession | src/server.c:272-427 | the whole process, from handshake to failed receive: its sends and the final store equal the specification |
| Crash.RequestIsAtomic | src/server.c:396-418 | a crash at any point of one request, then a resume with another dealer: the request is done or not done, never half, a crash between the two saves of END_TURN included, and the hand is the one of that point unless the AI has still to move; once its STATE has been sent, or all its events performed, it is done and the store holds the table it led to |
| Crash.AiTurnIsReplayed | src/server.c:356-360 | a crash between the two saves loses only the next deal: the resumed process plays the same cards for the AI and reaches the same game |
| Crash.CrashIsHarmless | src/server.c:313-418 | kill a process at any of its events: what it leaves can be resumed, and the game, and the hand unless the AI has still to move, goes on from where the process stood after j requests; every request whose STATE was sent or whose events were all performed is among them, and at most the one in progress besides |
| Crash.UncutProcessKeepsAll | src/server.c:352-427 | a process that dies only after its last event loses neither game nor hand |
| Crash.ServeIsRun | src/server.c:352-424 | whatever a client sends, the games its session goes through are those of one run |
| Crash.LifeIsRun | src/server.c:313-338 | any number of processes, each resuming what the one before left when it died, tell one growing run from the initial game: each process extends the run so far by exactly the acts of its first j requests, all acknowledged ones included, and the entry it leaves holds the end of that run |
| Duration.NoQuickEnd | src/server.c:403-418 | a session that is over has seen at least three END_TURN requests |
| Duration.NoQuickEndOfLife | src/server.c:403-418 | the same for a session with any number of crashes and resumes, counting the END_TURN requests of all its processes |
| Duration.SessionBounds | src/server.c:138-226 | all bounds and the correct verdict for a session against the greedy AI, from its count of END_TURN requests |
| Duration.LifeBounds | src/server.c:138-226 | the same bounds and verdict for a session with any number of crashes and resumes |
| Witness.FourthTurnWin | src/server.c:138-270 | a session the player wins in the fourth turn with the AI at 0, so the earliest end is attained |
| Witness.PoisonWraps | src/server.c:181-183 | a session against the greedy AI in which round 254 takes a poison counter from 253 to 0, so the horizon is attained |
| Store.SharedStore.AllocSession | src/common/ipc.c:64-86 | in place: the first free slot, its new id, or 0 and nothing changed |
| Store.SharedStore.SaveSession | src/common/ipc.c:88-98 | in place: the first valid slot with that id is overwritten, or -1 and nothing changed |
| Store.SharedStore.LoadSession | src/common/ipc.c:100-110 | the stored pair, or -1 and the caller's copies untouched |
| Store.SharedStore.TouchSession | src/common/ipc.c:112-120 | 0 exactly when a valid slot has that id |
| Store.AllocRefines | src/common/ipc.c:64-86 | allocation keeps valid slots a prefix without id 0, answers 0 exactly when all 128 are taken, and adds at most the new id to the map |
| Store.IdIsDraw | src/common/ipc.c:75-80 | where there is room the id is the one drawn, but 1 for 0 |
| Store.DifferentDraws | src/common/ipc.c:75-80 | different nonzero draws make different sessions |
| Store.SaveRefines | src/common/ipc.c:88-98 | saving is one update of the map, and keeps the shape of the slots |
| Store.StoreRefinesMap | src/common/ipc.c:64-120 | any sequence of calls, even with colliding ids, is answered as a map from id to (state, hand) and a slot counter would answer it |
| Store.StoreRefinesEmptyMap | src/common/ipc.c:56-60 | in particular from zeroed memory and the empty map |
| Cluster.MoveKeepsInv | src/server.c:289-424 | invariant of all processes together: every step of any process keeps it |
| Cluster.EntryIsLastSaved | src/common/ipc.c:88-110 | in every interleaving an announced id's entry is what was last saved for it, and can be resumed |
| Cluster.SavesSucceed | src/common/ipc.c:88-98 | in every interleaving each save of a live process returns 0 |
| Cluster.SendsMatchStore | src/server.c:396-418 | in every interleaving a STATE or HAND about to be sent equals the session's entry in the store, logs apart |
| Cluster.OthersAreUntouched | src/common/ipc.c:88-98 | no step of another session, logins included, changes a session's entry |
| Cluster.SessionsAreExclusive | src/server.c:307-338 | in every interleaving two live processes never work on the same session |
| Cluster.AnnouncedIdsResume | src/server.c:326-338 | a RESUME_REQ with an announced id always finds what was last saved |
| Sharing.TwoOwnersLoseAPlay | src/server.c:326-338 | the assumption of one live process per session is needed: two processes that resume the same id, and a play the first has answered is gone after a refusal by the second |
| Sharing.CollidingLoginOverwrites | src/common/ipc.c:71-80 | the assumption of fresh ids is needed: a login that draws an id in use is announced as that session and overwrites its entry |
| Reconnect.OpeningNamesTheSession | src/client_gui.c:149-161 | the server reads from a RESUME_REQ the very id the client wrote |
| Reconnect.NetThread.Open | src/client_gui.c:149-161 | resume with a known id, log in without one |
| Reconnect.NetThread.Listen | src/client_gui.c:211-224 | the id after a connection is what its replies taught, up to the first refusal, which clears it |
| Reconnect.LastWordCounts | src/client_gui.c:211-224 | the last RESUME_RESP heard decides the id, and nothing else does |
| Reconnect.LoginTeaches | src/client_gui.c:149-161 | a client without an id logs in and, if there is room, comes to know the session it has been given |
| Reconnect.ClientIsNeverRefused | src/client_gui.c:211-224 | after any interleaving of all server processes, a client that has learned an id is not refused: it resumes that session from what was last saved |
| Wire.ChecksumClosedForm | src/common/proto.c:6-12 | up to 16843009 bytes the sum fits 32 bits, the fold ends, and the result is 65535 - s with s = 0 for sum 0 and ((sum-1) mod 65535)+1 otherwise |
| Wire.SafeLengthIsExact | src/common/proto.c:6-12 | all inputs of a length have the closed form if and only if the length is at most 16843009 |
| Wire.ParseOfFrame | src/common/proto.c:14-75 | what is sent is received, whatever bytes follow |
| Wire.FrameOfParse | src/common/proto.c:41-75 | bytes that are accepted are exactly the frame of the returned opcode and payload |
| Wire.ParseReadsBytes | src/common/proto.c:41-75 | exactly which bytes are accepted, without reference to the encoder: length, opcode and checksum high byte first, the length within limits, and the checksum that of all other bytes |
| Wire.FrameBytes | src/common/proto.c:14-39 | the bytes of a frame in the same terms |
| Wire.ShortFrame | src/common/proto.c:14-39 | a frame of at most one payload byte, written out |
| Wire.ReceiveStream | src/common/proto.c:14-75 | repeated receives over the concatenated sends return exactly the messages, in order |
| Wire.StreamOfReceive | src/common/proto.c:41-75 | conversely, whatever repeated receives accept is the stream of what they returned |
| Wire.CorruptionIsDetected | src/common/proto.c:59-70 | changing any one byte of a frame but the four length bytes makes it rejected |
| Wire.RearrangementIsInvisible | src/common/proto.c:6-12 | rearranging the payload leaves the header, checksum included, the same |
| WireIo.Conn.ReadN | src/common/net.c:80-94 | over any chunks and retries: n means exactly the next n bytes moved; a short count means the stream ended and exactly that many, all there were, moved; a willing transport always delivers |
| WireIo.Conn.ConnReadN | src/common/net.c:36-55 | the same with TLS, where a short count is never returned: end of file is an error |
| WireIo.Conn.ConnWriteN | src/common/net.c:57-76 | success writes all n bytes in order, failure a prefix of them |
| WireIo.Checksum16 | src/common/proto.c:6-12 | the two loops compute the checksum of the first n bytes |
| WireIo.ProtoSend | src/common/proto.c:14-39 | success writes exactly one frame; what does not fit 4096 bytes writes nothing |
| WireIo.ProtoRecv | src/common/proto.c:41-75 | accepts exactly the frame ahead, however it is chopped up, with the same opcode, payload and remaining bytes; on a healthy connection it accepts whenever the bytes are acceptable |
| WireIo.ReceiveAll | src/common/proto.c:41-75 | n calls in a row return exactly the n messages the stream holds, and on a healthy connection they all succeed if the bytes are acceptable |
| Client.RecvUntil | src/client_app.c:13-35 | returns exactly when a STATE and a HAND have come, having copied the last of each and left the rest unread |
| Client.AbsorbsWholePackets | src/client_app.c:22-32 | a copy is overwritten by a packet of the right opcode and exactly the right length, and by nothing else |
| Client.RequestFrames | src/client_app.c:111-161 | the frames of the client's requests, byte for byte |
| Client.ReplyFrames | src/common/proto.h:10-27 | the two opcode bytes of each of the server's replies |
| Keys.KeysMean | src/client_app.c:140-164 | what each key means to the duel, with the client in step: q leaves, a digit plays exactly the card in that place of the hand if there is one, e ends the turn, any other key and any key after the game sends nothing |
| Client.RunKeys | src/client_app.c:137-165 | the loop sends and copies what the key loop's specification says, and reports a broken connection only if an answer is missing or the transport carries less than the requests and answers need |
| Lockstep.MoveKeepsInv | src/client_app.c:137-165 | invariant of client, server and both pipes under every step |
| Lockstep.ExchangeIsExact | src/client_app.c:148-164 | one request and its answer leave the client with the server's state and hand, and every later byte unread |
| Lockstep.KeysPlayOut | src/client_app.c:137-165 | over the concatenated answers of the server, for any keys: the key loop sends the requests the keys make, ends with the state and hand of the server after all of them, breaks nowhere, and leaves unread exactly what follows |
| Lockstep.BeginIsLogin | src/server.c:300-325 | the replies with which the composed system starts are those of the handshake |
| Lockstep.ClientIsInStep | src/client_app.c:122-165 | after a login, for all deals, keys, chunks and schedules: whenever the client waits for a key, its copies equal the server's and no byte is unread on either side; no frame is ever rejected |
| Lockstep.NeverStuck | src/client_app.c:19-20 | while the client is receiving, the network, the server or the client can move |
| Lockstep.MovesGetLighter | src/client_app.c:19-20 | every such move lowers the number of steps that can be left |
| Lockstep.ReceivingEnds | src/client_app.c:19-34 | `recv_until` ends: from any reachable state at most that many steps can be taken, in any order, and when they have been, or none is left, the client is at its keys and in step |

## Left out

- TLS, certificates, sockets, timeouts, `fork`, signals and `accept`: a connection is a FIFO of bytes with arbitrary chunks, finitely many retries, then failure.
- Creation and mapping of shared memory, the two statistics counters and `last_seen`: the store starts zeroed, and touching a session only looks it up.
- Atomicity of the store: each call is one step. The source admits at src/common/ipc.c:67-69 that allocation is not atomic; with a race inside it two logins can be given one slot.
- Cluster.MoveKeepsInv: assumes what the server itself does not check, that a login draws an id not in use and that a resume names an announced id without a live process; Sharing shows what is lost otherwise.
- The formula for session ids and the distribution of `rand`: an arbitrary 64-bit draw and an arbitrary stream.
- Log lines are C strings: stale bytes behind the terminating NUL are not modelled, and messages hold no NUL.
- The byte layout of `state_t` and `hand_t`: any layout of 405 and 17 bytes from which the client can read back `game_over` and `n`.
- Lockstep.ClientIsInStep: about the login path only; after a resume the first STATE may predate a pending AI turn.
- Client.RunKeys: for a finite sequence of keys; its ghost parameter names what `recv_until` does to the bytes ahead; it says nothing about the copies once the connection is broken.
- WireIo.ProtoSend: payloads shorter than 2^32 - 8 bytes. For the eight lengths above, the 32-bit sum wraps and the C code has no defined outcome to model. A NULL payload with a positive length is not modelled.
- WireIo.Conn.ConnWriteN: one method for the TLS and the plain loop, over a transport that never takes zero bytes.
- Server.RunSession: sends are recorded as events, since the server ignores their results; bytes and chunks are the subject of Wire and Lockstep. It has the store to itself; Cluster has the interleavings.
- Crash.CrashIsHarmless: about game and hand; which log lines survive depends on when the session was saved.
- Reconnect.ClientIsNeverRefused: only the session id of the network thread; drawing, pings and the command pipe are left out.
- Card names and the unused duration field, the drawing of either client, the duplicate TLS blocks of src/client_app.c (which redeclare two variables), the load generator src/client.c and src/monitor.c.
