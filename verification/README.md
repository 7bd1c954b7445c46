# A model of tabc

tabc is a message bus for agents on one machine: a ledger in SQLite, changed by a fixed set of
operations, and a notifier that polls the ledger and rings a terminal or a queue. This project
states that behaviour in Dafny and proves what it is for.

The ledger is a value, `Tables.Ledger`: nodes, removed nodes, messages, deliveries, routes, tacs,
members and three audit logs. Row ids are positions, because no statement deletes a delivery. Every
run starts from `Tables.EMPTY`, the ledger that `SCHEMA` creates.

| files | what they hold |
|---|---|
| `Tables`, `Identifiers`, `IsoTime`, `Trimming` | rows, spellings of ids, the timestamp format, stripping |
| `Deliveries`, `Registration`, `Sending`, `Admin`, `Tacs` | each operation as a function on the ledger, and what one call keeps |
| `BusRuns` | the bus as a state machine over all operations, its invariant, and its preservation |
| `SendRules` | in plain terms: whom a letter is for, when the gates let it through, how a repeated id is answered |
| `DeliveryLife`, `MailHistory`, `MailContents`, `NodeHistory`, `RouteHistory`, `TacHistory`, `AuditHistory` | what holds over whole runs of operations, each one step |
| `Races`, `Overlaps`, `OverlapHistory` | runs of overlapping calls, which read early and write late: what they always keep, and exactly when they keep the rest |
| `Claiming`, `InterleavedClaims` | claiming and reopening, split into a snapshot and one conditional update per row, alone and among other calls |
| `Scenes`, `Witnesses`, `BuriedMail` | small ledgers, and runs that lead where the code and the expectation part |
| `BusService` | the class whose methods update the tables in place, proved against those functions |
| `DoorbellPoll`, `PollRuns`, `Doorbell` | the notifier: scan, watermark, rounds beside overlapping calls of the bus, delivery, the daemon's loop |
| `CodexQueue` | the queue adapter: its class, and its protocol for many processes that may crash anywhere |
| `TacMigration` | converting tac ids in place, one row at a time |
| `Numerals`, `Base58` | numerals in two bases, the encoder and decoder, and the Java encoder |
| `SendRefusal`, `PrefixLookup` | Content-Length and message-id prefixes |

A digest, Unicode folding, stripping and the rules for a usable tac name are parameters
(`Tables.Env`). Fresh ids, clocks, query orders and the answers of terminals and queues are inputs.

Where the code and the expectation part, the model follows the code and says exactly when they agree:

- A letter to a tac whose only other active member is a node called `all` is sent to every active
  node. A letter reaches its tac's members exactly when the listing is not that single name, or that
  node is the only other active one (`Sending.TacReachesItsMembers`,
  `Witnesses.TacLeaksPastItsMembers`).
- A broadcast always reaches exactly the other active agents (`Sending.BroadcastReachesAgents`), but
  one whose only other agent is called `all` is refused as soon as some other active node is a
  program (`Sending.BroadcastRefusedForPrograms`, `Witnesses.AnnouncementIsRefused`).
- A resend is compared on seven columns and the recipients; the tac and the broadcast mark are not
  among them (`MailHistory.ResendIgnoresTac`). A message sent to one node and then, with its id, to a
  tac of that node is answered as stored and never sent (`Witnesses.ResendToATacIsSwallowed`).
- A purge leaves key rotations behind. Whatever follows, the chain of the name holds exactly when the
  first key a registration brings it, before its next rotation, is the last rotated one
  (`AuditHistory.ChainAfterPurge`), and a run of four calls breaks it
  (`AuditHistory.PurgeBreaksTheChain`).
- The stored proof mark follows the truth of `route_verified`, while every check asks for a literal
  true. Behind the daemon, which passes only a literal, the mark is proof
  (`RouteHistory.ProofIsCurrent`); a direct call with another truthy value marks without proof
  (`RouteHistory.MarkWithoutProof`, `Witnesses.UnprovenIsMarked`).
- The branch of a registration that reclaims a program's old route never finds one
  (`RouteHistory.RoutesAreExclusive`).
- LIKE ignores ASCII letter case, so an id that does not start with the typed text can still make it
  ambiguous (`PrefixLookup.CaseBlocksAPrefix`).
- For a limit that is not negative, the limit check inside `reopen_unread` never cuts a page short:
  the query's own limit already bounds it. A negative limit does not bound the query, and the check
  then stops at the first body shown (`Claiming.PageNeverCut`).
- Most operations read outside the transaction they later write in. Whatever overlaps, ids, rows,
  routes, tac names and keys stay right, the removals log tells who is removed, and stored messages
  keep their text and recipients (`Overlaps.EveryOverlapIsSound`, `Overlaps.EnvelopesStay`,
  `Overlaps.RecipientsStay`). Everything else the bus is meant to keep holds throughout a run exactly
  when each transaction still meets a stated condition where it writes (`Overlaps.GoodExactlyInTime`,
  `OverlapHistory.KeyChainExactly`, `OverlapHistory.NameChainExactly`), and for each there is a run
  that loses it: listening order, mutual blocking, closed tacs, programs without mail, the chain of
  keys, the chain of names, and removed names being nodes (`Witnesses.ListeningOrderBreaks`,
  `Witnesses.BothBlock`, `Witnesses.ClosedTacTakesMail`, `Witnesses.ProgramGetsMail`,
  `Witnesses.KeyChainBreaks`, `Witnesses.NameChainBreaks`, `Witnesses.RemovedIsNoNode`).
- The UPDATE of `bus_ack` does not name the state it read. A late one is a legal move exactly when
  the row has not gone past the target (`Races.LateAcknowledgement`). Otherwise it can undo PROCESSED
  or READ, or bring a quarantined row back (`Races.LateAcknowledgementUndoes`,
  `Races.LateAcknowledgementGoesBack`), and it can leave mail unread that no bell will ring for
  (`PollRuns.LateAcknowledgementBuries`, `BuriedMail.ReadMailIsBuried`).
- A plan of the tac conversion can pass and yet never be carried out: after a rollback, a tac that an
  older release gave a converted tac's old id. A passing plan converts exactly when the ledger is
  ready in four plain respects (`TacMigration.Migration.Convert`, `TacMigration.WasReady`,
  `TacMigration.PassingPlanCannotConvert`).

## Model

| member | source | states |
|---|---|---|
| BusRuns.EveryStateIsGood | tabus/bus.py:2014-2115 | With each call taken as one step (for overlapping calls see Overlaps.GoodExactlyInTime), in every state of every run over all operations: ids and (message, recipient) pairs are unique, program nodes own no delivery, whoever spoke in a tac had opened everything said there before, no two nodes hold unopened direct mail from each other, every row is sane, routes are exclusive, the removals log replays, tac ids and keys are right |
| BusRuns.StepMovesTable | tabus/bus.py:866-1137 | Whatever the operation, each delivery row makes one of the few allowed moves or none, and rows are only added, fresh |
| BusRuns.StepKeepsMail | tabus/bus.py:2014-2115 | One step of any operation keeps listening order, no mutual blocking, and programs without mail |
| Deliveries.RowStepFacts | tabus/bus.py:866-1009 | An allowed move keeps ACCEPTED below five attempts with no lease, never reopens a row, and uses up at least one of the state changes the row had left |
| Deliveries.StatementsAreTableSteps | tabus/bus.py:998-1048 | Every UPDATE of the delivery table, for all its arguments, is such a move on every row |
| Deliveries.ResetExactly | tabus/bus.py:998-1009 | A reset changes exactly this node's claims whose lease is before now, back to ACCEPTED or after five attempts to DEAD, and its ACCEPTED rows of five attempts |
| Deliveries.RowStatementsExactly | tabus/bus.py:1019-1048 | A claim or quarantine changes exactly the one row, if it is ACCEPTED |
| Deliveries.NodeStatementsExactly | tabus/bus.py:2215-2284 | Marking, injecting, acknowledging and catching up change exactly the listed rows of this node in the one state they start from, and no other node's rows |
| DeliveryLife.LifeIsBounded | tabus/bus.py:872-876 | In every run a delivery changes state at most twelve times |
| DeliveryLife.TwelveChangesHappen | tabus/bus.py:998-1048 | A run from the empty ledger in which one delivery changes state exactly twelve times |
| DeliveryLife.EndsAreFinal | tabus/bus.py:866-876 | READ leads only to PROCESSED; PROCESSED, QUARANTINED and DEAD rows never change; what is no longer unread never becomes unread |
| DeliveryLife.ClaimsAreExclusive | tabus/bus.py:998-1048 | Between two wins of one row, by any callers, its lease expired |
| DeliveryLife.ClaimNumbersAreUnique | tabus/bus.py:1040-1048 | Each attempt number up to the current one was taken by exactly one step, a caller's win or a mark, and there are never more than five |
| IsoTime.StringOrderIsTimeOrder | tabus/bus.py:439-440 | Comparing two rendered timestamps as strings is comparing the instants |
| IsoTime.ReadsBack | tabus/bus.py:439-440 | Every field of a timestamp can be read off its place, so nothing is lost in writing it |
| IsoTime.BeforeIsEarlier | tabus/bus.py:439-440 | Field order of two valid dates and times is the order of their seconds, over leap years and month lengths |
| Claiming.WonExactly | tabus/bus.py:1011-1053 | A claim hands out exactly the listed rows that validate and are still ACCEPTED at their own update |
| Claiming.WonIsClaimed | tabus/bus.py:1036-1053 | Each row handed out is afterwards CLAIMED by this caller, with its lease and one more attempt |
| Claiming.SealedExactly | tabus/bus.py:935-953 | Exactly the rows whose schema, expiry or digest is wrong are reported quarantined |
| Claiming.OpenedSafely | tabus/bus.py:1084-1125 | A reopened body comes from a valid envelope, and a row seen as ACCEPTED is shown only to the caller that won it |
| Claiming.WonIsOwnMail | tabus/bus.py:1011-1053 | Everything a claim hands out is this node's delivery with its own message, now claimed for this caller |
| Claiming.OpenedIsOwnMail | tabus/bus.py:1071-1125 | Every reopened entry is this node's delivery, and a body shown is its own message's |
| Claiming.SettleLeavesOthers | tabus/bus.py:1011-1053 | A claim or reopen changes no other node's rows |
| Claiming.PageNeverCut | tabus/bus.py:1071-1125 | For a limit that is not negative the loop's own limit check can only fire on the last row of the query; for a negative one it fires exactly at the first body shown |
| Claiming.SettleIsRun | tabus/bus.py:1011-1048 | An undisturbed claim or reopen call is one contiguous sequence of single steps of the bus; InterleavedClaims treats steps of other calls between its rows |
| Claiming.SettleKeepsInv | tabus/bus.py:1011-1048 | Hence an undisturbed call keeps the invariant |
| InterleavedClaims.EveryEntryIsHonest | tabus/bus.py:1011-1125 | With any steps of other calls between the rows of one call, every entry it shows is this node's own mail with its own message, bodies come from valid envelopes, and a row seen as ACCEPTED is shown exactly as the win of its own step, claimed for this caller |
| InterleavedClaims.OnlyTakenRowsAreMissing | tabus/bus.py:1011-1125 | And exactly those rows are missing that validate, were seen as ACCEPTED, and are not ACCEPTED any more at their own step |
| MailContents.ClaimedExactly | tabus/bus.py:935-1053 | A claim hands out exactly the listed ACCEPTED rows that are still so and whose message has the known schema, no expiry or one not before now, and the digest of its body; rows whose message has not are reported and quarantined, the others reported lost |
| MailContents.ShownExactly | tabus/bus.py:1084-1125 | Reopening shows a row with its body exactly when its message passes those three and a row seen as ACCEPTED is still so at its statement, and without it exactly when it does not pass |
| MailContents.SentMailPasses | tabus/bus.py:935-953 | In every run a stored message passes exactly until the expiry its letter named |
| MailContents.HandedOutUntilExpiry | tabus/bus.py:1011-1053 | In every run a row still ACCEPTED is handed out exactly until the expiry of the letter that some step stored for this node |
| MailContents.PageShowsUntilExpiry | tabus/bus.py:1084-1125 | However other calls write between its rows, a call shows a body exactly until the expiry of its letter, if a row seen as ACCEPTED is still so at its own statement |
| Registration.RegisterKeepsExclusive | tabus/bus.py:1318-1396 | From the checks alone, at most one active route per (host, target) |
| Registration.RegisterKeepsAgents | tabus/bus.py:1286-1289 | No agent with a route becomes a program, and every route row belongs to a known agent |
| Registration.OnlyConsentDisplaces | tabus/bus.py:1318-1335 | Another node's route changes exactly when it is on the taken pane, then only by being revoked, and only with a literal take_route |
| NodeHistory.AcceptedExactly | tabus/bus.py:1205-1335 | A registration is accepted if and only if name and flag pass, the node is not removed and not from a later instance, the arguments fit together, no agent becomes a program, a marked node elsewhere gives proof, and a taken pane comes with a literal take_route |
| NodeHistory.FirstReason | tabus/bus.py:1205-1335 | A refusal gives the first of the fourteen reasons, in the order of the code, that applies |
| NodeHistory.BootIsLastRegistration | tabus/bus.py:1337-1375 | In every run a known node has the boot time and the program mark of its last accepted registration since its last purge |
| NodeHistory.BootsNeverGoBack | tabus/bus.py:1228-1232 | While a node exists its boot time never goes back |
| NodeHistory.NewerInstanceExactly | tabus/bus.py:1228-1232 | In every run a registration is refused as an older instance if and only if its name and flag pass, the node is not removed, and it was accepted with a later time since its last purge |
| NodeHistory.RestartIsAccepted | tabus/bus.py:1182-1421 | A node that is not removed may register plainly again at its last time or later |
| NodeHistory.SnoozedAsAsked | tabus/bus.py:1788-1808 | In every run a node is snoozed until what the last call for it said since it came to be, or not at all |
| NodeHistory.AdministeredExactly | tabus/bus.py:1867-2417 | Removing, purging, restoring and re-keying succeed exactly when the node is known, without any message, delivery or route, removed, or given another key of 32 bytes |
| RouteHistory.MarkIsCurrent | tabus/bus.py:1290-1411 | In every reachable state a marked row names the place of the last registration that wrote the mark, whatever truthy value it passed |
| RouteHistory.MarkedExactly | tabus/bus.py:1398-1411 | In every reachable state a row is marked if and only if some accepted registration marked it |
| RouteHistory.ProofIsCurrent | tabus/bus.py:1290-1411 | If every registration passes a literal or nothing, as the daemon does, a marked row names the place last registered with proof |
| RouteHistory.MarkWithoutProof | tabus/bus.py:1398-1411 | A registration marks a place without proof exactly when it is accepted, complete, and passes a truthy value other than True |
| Witnesses.UnprovenIsMarked | tabus/bus.py:1398-1411 | From the empty ledger, a first registration with a truthy value marks its route verified |
| RouteHistory.ConsentStands | tabus/bus.py:1312-1432 | In every reachable state an active route with auto_enter had an explicit "on" for exactly this place, and nothing since moved, revoked or switched it off |
| RouteHistory.ConsentIsHeeded | tabus/bus.py:1312-1432 | And conversely an explicit "on" holds for its place until something moves, revokes or switches it off |
| RouteHistory.PlaceIsLastRoute | tabus/bus.py:1376-1411 | In every reachable state a route row names the place of the node's last registration with a whole route |
| RouteHistory.RoutedHasRow | tabus/bus.py:1376-1411 | And such a registration leaves a row for good |
| RouteHistory.RoutesAreExclusive | tabus/bus.py:1237-1421 | In every reachable state routes are exclusive, programs own none, and the branch reclaiming a program's route finds none |
| Sending.SendKeepsListening | tabus/bus.py:2014-2036 | The tac gate keeps listening order |
| Sending.SendKeepsNoMutualBlock | tabus/bus.py:2093-2115 | The direct gate, with programs refused as recipients, keeps two nodes from blocking each other |
| Sending.SendKeepsWellFormed | tabus/bus.py:2117-2202 | Ids stay unique and there stays one delivery per (message, recipient) |
| Sending.AllOrNothing | tabus/bus.py:2117-2202 | Either the message and one fresh row per active addressee appear together, or nothing changes; no other table is touched |
| MailContents.StoredIsTheLetter | tabus/bus.py:2117-2160 | A stored send adds one message that carries the caller's sender, subject, body, priority, expiry, answered message, tac and broadcast mark, the digest of that body, the protocol version, the id, and the thread named, inherited or its own |
| MailContents.EveryMessageWasSent | tabus/bus.py:2117-2160 | In every run each message is, column by column, the letter of one earlier send |
| MailContents.OneSending | tabus/bus.py:2117-2202 | And of only one |
| MailContents.ClaimedWasSent | tabus/bus.py:978-1053 | Whatever a claim hands out is the letter that an earlier step stored for this very node |
| MailContents.PageWasSent | tabus/bus.py:1056-1137 | However other calls write between its rows, every body a call shows is the body of a letter an earlier step stored for this node |
| SendRules.ReachesExactly | tabus/bus.py:1990-2062 | A stored letter reaches exactly the active nodes it is for: a tac's other members, the other agents for a broadcast, the names it lists, or everyone for the single name "all" |
| SendRules.PassesExactly | tabus/bus.py:1952-2115 | The gates let a letter through if and only if its payload, expiry and sender are sound, its tac takes it, it is for some active node and no program, and a direct sender that is no program has opened the direct mail of everyone it is for |
| SendRules.FirstReason | tabus/bus.py:1952-2115 | A refused letter is refused for the first of the thirteen reasons, in the order of the code, that applies |
| SendRules.NamesWhoIsOwed | tabus/bus.py:2093-2115 | And for unread mail with exactly the names whose direct mail the sender has to open first |
| SendRules.RepeatedId | tabus/bus.py:2176-2201 | A letter under a stored id is a resend if and only if sender, subject, body digest, priority, answered message, thread, expiry and recipients agree, else a conflict; nothing is stored |
| SendRules.OtherBodyConflicts | tabus/bus.py:2189-2201 | Under a digest that tells them apart another body is always a conflict |
| SendRules.NewIdIsStored | tabus/bus.py:2117-2176 | A letter with a new id is stored if and only if its priority is known, what it answers is stored or itself, and no active recipient is named twice |
| Sending.TacReachesItsMembers | tabus/bus.py:2037-2062 | A stored letter to a tac reaches exactly its active members if and only if the listing is not the single name "all" or that node is the only other active one; else it reaches every active node |
| Sending.BroadcastReachesAgents | tabus/bus.py:1829-1847 | A stored broadcast reaches every active agent but the sender and nobody else |
| Sending.BroadcastRefusedForPrograms | tabus/bus.py:2040-2068 | A broadcast is refused for a program if and only if the only other active agent is called "all" and some other active node is a program |
| Witnesses.AnnouncementIsRefused | tabus/bus.py:2040-2068 | A reachable ledger of agents a and all and program p refuses a's broadcast for the program |
| Witnesses.TacLeaksPastItsMembers | tabus/bus.py:2037-2048 | A reachable ledger, for any tac id and name, where a letter to a tac of one is delivered to a node outside it |
| MailHistory.EnvelopesAreForever | tabus/bus.py:2117-2202 | Stored envelopes are never rewritten, dropped or reordered |
| MailHistory.RecipientsAreForever | tabus/bus.py:2117-2202 | The recipients of a stored message never change |
| MailHistory.ResendIsHarmless | tabus/bus.py:2117-2202 | After any steps, the same call with its id, if it passes the gates with the same recipients, answers that id and changes nothing, the recomputed thread included |
| MailHistory.ResendIgnoresTac | tabus/bus.py:2178-2201 | A letter that differs from a recognised resend only in tac or broadcast is answered as already stored |
| Witnesses.ResendToATacIsSwallowed | tabus/bus.py:2178-2201 | A reachable ledger where a message was sent directly and the same call for a tac is answered as stored, with nothing stored |
| MailHistory.ClosingIsFinal | tabus/bus.py:2719-2734 | With each call as one step, once a tac is closed its time, summary, closer and messages are fixed for the rest of the run; Overlaps.EachCommitExactly says when an overtaken letter changes that |
| TacHistory.ClosedAsAsked | tabus/bus.py:2719-2734 | In every run a closed tac has the time, summary and closer of one call that closed it |
| TacHistory.ClosedOnce | tabus/bus.py:2719-2734 | And no other call did |
| TacHistory.MembersExactly | tabus/bus.py:2554-2604 | In every run a node is a member if and only if a call took it in, known and not removed, and none has dropped it since |
| AuditHistory.KeyChainHolds | tabus/bus.py:1902-1918 | With each call as one step, for a node never purged the rotations form an unbroken chain to its current key in every run; overlapping rotations are the subject of OverlapHistory.KeyChainExactly |
| AuditHistory.ChainAfterPurge | tabus/bus.py:2318-2388 | In any run after a purge, while the name exists again and is not purged again, its chain holds exactly when the first key a registration brought before its next rotation is the last rotated one |
| AuditHistory.PurgeBreaksTheChain | tabus/bus.py:2318-2388 | A four-step run after which the chain does not lead to the current key |
| AuditHistory.RemovalsTellWhoIsOut | tabus/bus.py:2318-2417 | With each call as one step, a node is removed exactly when its last removals entry is "soft", and removed names are nodes; Overlaps.RemovedStayNodes says when the second survives overlapping calls |
| AuditHistory.NameChainHolds | tabus/tac_store.py:128-153 | With each call as one step, a tac keeps its id, and its renames lead without a gap from the name it was created with to the name it has; overlapping renames are the subject of OverlapHistory.NameChainExactly |
| AuditHistory.TacIdentityHolds | tabus/tac_store.py:102-153 | Ids are canonical UUIDs, stored keys are the folded names, no two names fold alike |
| TacHistory.CreatedExactly | tabus/tac_store.py:102-125 | A tac is created, under the stripped name, its fold and the description given, if and only if the name is usable, no node's, and folds like no tac's |
| TacHistory.RenamedExactly | tabus/tac_store.py:128-153 | And renamed if and only if it exists and the name is usable, no node's and no other tac's |
| TacHistory.RepliesExactly | tabus/bus.py:2702-2734 | Closing answers that the tac was closed already, is missing, or is no id, each exactly when it is so; taking in and dropping members likewise |
| TacHistory.DescribedAsCreated | tabus/tac_store.py:128-153 | In every run a tac keeps the description its creation gave |
| Races.LateInsertAndListening | tabus/bus.py:2014-2202 | A send whose insert comes late keeps listening order exactly when the tac gate would still pass |
| Races.LateInsertAndBlocking | tabus/bus.py:2093-2202 | It keeps two nodes from blocking each other exactly when no addressee's direct mail lies unopened with the sender |
| Races.LateInsertAndClosing | tabus/bus.py:2004-2202 | It puts a message into a closed tac exactly when the tac was closed in between |
| Races.LateInsertAndPrograms | tabus/bus.py:2051-2202 | It gives a program mail exactly when an addressee became a program in between |
| Witnesses.ListeningOrderBreaks | tabus/bus.py:2014-2202 | Two members of a tac pass the gate at once, and the second to be stored has not opened the first |
| Witnesses.BothBlock | tabus/bus.py:2093-2202 | Two nodes write to each other at once, and each then blocks the other |
| Witnesses.ClosedTacTakesMail | tabus/bus.py:2004-2202 | A letter lands in a tac closed while it was on its way |
| Witnesses.ProgramGetsMail | tabus/bus.py:2051-2202 | An addressee is purged and registered as a program meanwhile, and gets the letter |
| Overlaps.PreparedIs | tabus/bus.py:1867-2417 | What a call that passed its checks goes on to commit carries what it read and meets what it makes sure of without the ledger |
| Overlaps.AtOnce | tabus/bus.py:1867-2417 | With nothing between reads and transaction, each of the operations is the step the atomic model takes |
| Overlaps.EveryOverlapIsSound | tabus/bus.py:1182-2417 | However calls overlap: ids and (message, recipient) pairs stay unique and known, rows sane, routes exclusive and with agents, a name is removed exactly when its last removals entry is "soft", tac ids and keys right |
| Overlaps.EnvelopesStay | tabus/bus.py:2117-2202 | However calls overlap, stored messages are never rewritten, dropped or reordered |
| Overlaps.RecipientsStay | tabus/bus.py:2117-2202 | However calls overlap, the recipients of a stored message never change |
| Overlaps.ListeningSurvives | tabus/bus.py:2014-2202 | In a run of overlapping calls listening order holds throughout if and only if at each insert the tac gate would still pass |
| Overlaps.UnblockedSurvives | tabus/bus.py:2093-2202 | Likewise no mutual blocking, if and only if at each direct insert no addressee's mail lies unopened with the sender |
| Overlaps.ProgramsStayOut | tabus/bus.py:2051-2202 | Likewise programs without mail, if and only if at each insert no addressee is a program |
| Overlaps.RemovedStayNodes | tabus/bus.py:2336-2388 | Likewise removed names being nodes, if and only if each soft removal still finds its node when it writes |
| Overlaps.GoodExactlyInTime | tabus/bus.py:1182-2417 | The whole invariant holds throughout a run of overlapping calls if and only if every transaction meets these four conditions |
| Overlaps.AtomicIsInTime | tabus/bus.py:1182-2417 | A call with nothing in between always meets them, and those for acknowledgements and closed tacs |
| Overlaps.EachCommitExactly | tabus/bus.py:2253-2284 | A transaction moves delivery rows only as a statement may if and only if an acknowledgement finds no row past its target, and leaves closed tacs without new messages if and only if an insert finds its tac open |
| OverlapHistory.KeyChainExactly | tabus/bus.py:1902-1918 | However rotations overlap, those of a node never purged form an unbroken chain to its current key if and only if each but the first read the key its predecessor had left |
| OverlapHistory.NameChainExactly | tabus/tac_store.py:139-153 | However renames overlap, from any moment on the log leads without a gap to the name the tac has if and only if each rename read the name it replaced, logged or not |
| OverlapHistory.CreationStarts | tabus/tac_store.py:102-125 | However calls overlap, a tac starts with the name it was created with and no renames |
| OverlapHistory.EndsStayInTime | tabus/bus.py:866-876 | While acknowledgements come in time, final states stay final, READ leads only to PROCESSED and nothing becomes unread again, however other calls overlap |
| Witnesses.KeyChainBreaks | tabus/bus.py:1902-1918 | Two rotations read the same key, and the log is no chain any more |
| Witnesses.NameChainBreaks | tabus/tac_store.py:139-153 | Two renames read the same name, and the log no longer leads to the name the tac has |
| Witnesses.RemovedIsNoNode | tabus/bus.py:2336-2388 | A purge commits between a soft removal's lookup and its insert, and a removed name is no node |
| Races.LateAcknowledgement | tabus/bus.py:2264-2283 | An acknowledgement written after other statements is an allowed move exactly when the row is not past the target; for PROCESSED always |
| Races.LateAcknowledgementUndoes | tabus/bus.py:2264-2283 | A late acknowledgement makes a row unread again exactly when it writes INJECTED over one that was not, changes a final row exactly when it writes INJECTED over it or READ over PROCESSED, and takes READ elsewhere than to PROCESSED exactly when it writes INJECTED |
| Races.LateAcknowledgementGoesBack | tabus/bus.py:2264-2283 | It can turn PROCESSED back into READ, READ back into INJECTED, and a quarantined row into INJECTED |
| BusService.Bus.Register | tabus/bus.py:1182-1471 | Refuses with the first failing check and changes nothing, or writes exactly the node row and routes of the specification |
| BusService.Bus.RotateKey | tabus/bus.py:1867-1920 | As one step: new key and log entry, or a refusal and no change; every unbroken chain of keys stays unbroken |
| BusService.Bus.RemoveNode | tabus/bus.py:2318-2388 | As one step: soft removal or purge with its log entry; a purge of a node with any history is refused; the log keeps replaying to the removed nodes |
| BusService.Bus.RestoreNode | tabus/bus.py:2391-2417 | As one step: restores a removed node with its log entry; the log keeps replaying to the removed nodes |
| BusService.Bus.CreateTac | tabus/tac_store.py:102-125 | As one step: stores the stripped name under a minted id, or refuses with the first failing check; ids and keys stay right |
| BusService.Bus.RenameTac | tabus/tac_store.py:128-153 | As one step: name, key and one log entry if the name changed, or a refusal and no change; ids and keys stay right and no id changes |
| BusService.Bus.CloseTac | tabus/bus.py:2702-2734 | Closes an open tac once |
| BusService.Bus.PassGates | tabus/bus.py:1952-2115 | Answers the first gate that refuses, or the resolved active recipients |
| BusService.Bus.Send | tabus/bus.py:1923-2212 | Ledger and answer after a send are those of the specification, rollback included |
| BusService.Bus.ResetLeases | tabus/bus.py:998-1009 | Expired leases go back to ACCEPTED and five-attempt rows to DEAD, in one commit |
| BusService.Bus.ClaimNew | tabus/bus.py:978-1053 | The loop over a possibly stale snapshot leaves the table and the three lists the specification says; what is handed out is the node's own mail, claimed for the caller, and no other node's row changes |
| BusService.Bus.ReopenUnread | tabus/bus.py:1056-1137 | The same for reopening, with exactly where the loop stops, for a table that no other call writes to meanwhile |
| BusService.Bus.MarkInjected | tabus/bus.py:2215-2229 | Every listed ACCEPTED row of the node, and no other, becomes INJECTED with one more attempt |
| BusService.Bus.InjectByDid | tabus/bus.py:2232-2250 | Every listed CLAIMED row of the node, and no other, becomes INJECTED, and the count is of changed rows |
| BusService.Bus.Acknowledge | tabus/bus.py:2253-2284 | Moves one row along the transition table, or says why not and changes nothing |
| BusService.Bus.MarkTacRead | tabus/bus.py:2627-2657 | Each unopened row of the node in that tac (and among the given ids) becomes INJECTED, every other row stays equal, and the count is of exactly those rows |
| DoorbellPoll.ScanUnread | tabus/doorbell_poll.py:130-207 | The dictionary built row by row holds exactly the recipients that are neither removed nor snoozed and have unread mail, each with its messages, highest id and announcement flag |
| DoorbellPoll.AwakeExactly | tabus/doorbell_poll.py:130-207 | A scan reports exactly the recipients that are not removed, whose snooze is over, and that have a delivery not yet read |
| DoorbellPoll.GroupFacts | tabus/doorbell_poll.py:186-207 | The highest id is an unread row of that recipient and every unread row is at or below it and listed |
| DoorbellPoll.DuplicatesDoNotMatter | tabus/doorbell_poll.py:319-356 | Skipping identical ring rows leaves every watermark as a full log would |
| DoorbellPoll.RecordedOnce | tabus/doorbell_poll.py:319-356 | However often an attempt is recorded, no line of the log is kept twice |
| DoorbellPoll.OnlySuccessMoves | tabus/doorbell_poll.py:210-230 | A ring moves a watermark exactly when it suppresses, is for that recipient and mode, and is higher |
| DoorbellPoll.ChosenExactly | tabus/doorbell_poll.py:283-312 | A recipient is chosen, once, exactly when it listens, is not cooling, and has unread mail above its watermark |
| DoorbellPoll.CandidateExactly | tabus/doorbell_poll.py:186-207 | A candidate says how many rows are unread, the id of the last, and whether any is of an announcement |
| DoorbellPoll.RungThisRound | tabus/doorbell_poll.py:283-312 | Exactly those are rung who are not removed, whose snooze is over, who have unread mail above every row already rung for in this mode, and whose last uncertain ring is thirty seconds back |
| DoorbellPoll.NothingWaitsUnseen | tabus/doorbell_poll.py:283-312 | An unread row above the watermark makes its recipient a candidate |
| DoorbellPoll.Poller.Decide | tabus/doorbell_poll.py:247-316 | One commit writes an observation for everything scanned, keeps first sightings, adds an OK round and returns the candidates |
| DoorbellPoll.Poller.RecordRing | tabus/doorbell_poll.py:319-356 | Remembers or forgets the uncertain attempt, also when the ledger then raises, and writes the ring unless an identical one exists |
| PollRuns.EveryPollStateIsGood | tabus/doorbell.py:459-505 | The notifier's invariant in every state of every run beside any transactions of overlapping calls whose acknowledgements are in time, failed rounds, exceptions and restarts in either mode |
| PollRuns.NothingIsBuried | tabus/doorbell_poll.py:247-316 | In those runs a still-unread delivery at or below its recipient's watermark, in any mode, was observed by a round that completed |
| PollRuns.LateAcknowledgementBuries | tabus/bus.py:2264-2283 | A late acknowledgement buries a row exactly when it writes INJECTED over one that had stopped being unread, at or below the watermark and never observed, and it buries no other |
| BuriedMail.ReadMailIsBuried | tabus/bus.py:2264-2283 | A run of nine steps from the start and an acknowledgement read in its middle that, written at its end, buries a delivery |
| PollRuns.RingsAreBounded | tabus/doorbell_poll.py:210-230 | High marks of successful rings strictly increase per recipient and mode, so they never outnumber its deliveries |
| PollRuns.RingsInEarnestExactly | tabus/doorbell.py:461-496 | A turn really rings if and only if the mode is not SHADOW or the mail holds an announcement; otherwise it starts nothing and is recorded as observed, up to the mark |
| PollRuns.UnknownIsGivenTime | tabus/doorbell_poll.py:289-326 | In one process an attempt follows an uncertain one for the same recipient by at least thirty seconds |
| Doorbell.LinesSplitTheInbox | tabus/bus.py:1536-1597 | The per-sender lines add up to the poller's unread count, none is empty, and there are none exactly when nothing is unread |
| Doorbell.OnePartPerConversation | tabus/doorbell.py:344-357 | The text has exactly one phrase per conversation, that of its newest line |
| Doorbell.PhrasesSay | tabus/doorbell.py:330-357 | Each phrase names who wrote last in its conversation, how many of that sender's deliveries are unread there, and the tac's present name or else its id |
| Doorbell.DeliverDoorbell | tabus/doorbell.py:310-387 | Outcome and command of a delivery; no command where the queue adapter starts none |
| Doorbell.OutcomeIsWhatHappened | tabus/doorbell.py:147-276 | A delivery to a terminal suppresses if and only if text was typed, is SUCCESS if and only if Enter went through as well, GONE if and only if there is nothing to type into, FAILED and UNKNOWN exactly where the terminal says so |
| Doorbell.TmuxTargetExactly | tabus/doorbell.py:230-236 | A target can be typed into by tmux if and only if it is a socket and a pane, both nonempty, with the only tab between them |
| Doorbell.OneSessionIsTyped | tabus/doorbell.py:147-204 | In iTerm text is typed if and only if exactly one session has the id |
| Doorbell.RungExactlyWhenTyped | tabus/doorbell.py:459-505 | After a delivery to a terminal the same mail is a candidate of the next round, once the recipient may be rung, if and only if nothing was typed |
| Doorbell.QueueOutcomeIs | tabus/codex_queue.py:142-194 | The queue adapter answers QUEUED, its only suppressing outcome, exactly for a receipt that says so or a command that proves it and was written down, DISABLED exactly where Enter is not allowed, else UNKNOWN |
| Doorbell.NoAdapterNeeded | tabus/doorbell.py:310-387 | STALE, NOT_MINE and UNSUPPORTED are answered exactly for an empty inbox, no active route, and an adapter of no known kind |
| Doorbell.Compose | tabus/doorbell.py:344-357 | The loop that remembers scopes keeps exactly the first line of each |
| Doorbell.ActsOnlyWhenItShould | tabus/doorbell.py:310-387 | It acts exactly when mail is unread and the adapter of the node's own active route takes it (the queue only with Enter allowed, sound arguments and no receipt), on that route; every suppressing outcome is one of having acted, now or by a call whose receipt says QUEUED |
| Doorbell.EnterNeedsConsent | tabus/doorbell.py:361-387 | If the route is read in any reachable state, pressing Enter or submitting has standing consent for exactly that place, and no other node has an active route there |
| Doorbell.NoBodyTravels | tabus/doorbell.py:319-360 | Two ledgers that differ only in what was written produce the same command and text |
| Doorbell.Round | tabus/doorbell.py:459-505 | One pass of the daemon's loop is a run of the notifier's steps, up to the first turn whose delivery or recording raises, that turn included |
| Doorbell.RoundKeeps | tabus/doorbell.py:459-505 | Hence it keeps the notifier's invariant, also when a turn raises |
| CodexQueue.QueuedExactly | tabus/codex_queue.py:167-185 | The outcome counts as queued under an id exactly when the exit code is 0, the stripped output is the one success line for that id, and the id is a canonical UUID |
| CodexQueue.ParseExactly | tabus/codex_queue.py:173-180 | The success line is recognised with a newline or any other white space around it |
| CodexQueue.QueueDelivery.Deliver | tabus/codex_queue.py:142-194 | Refusals and known receipts start nothing; otherwise one command is started and its receipt is what the output proves |
| CodexQueue.UndisturbedCall | tabus/codex_queue.py:142-194 | An undisturbed run of the protocol that finds no receipt is the call of the class |
| CodexQueue.KnownCall | tabus/codex_queue.py:153-162 | So is one that finds a receipt, and it starts nothing |
| CodexQueue.SubmittedAtMostOnce | tabus/codex_queue.py:142-194 | In every history of any number of processes crashing anywhere, each command is started at most once per (thread, notification) and answers agree with the table |
| CodexQueue.ReceiptComesFirst | tabus/codex_queue.py:153-178 | A step that starts a command finds its PENDING receipt already committed |
| CodexQueue.FinalForEver | tabus/codex_queue.py:186-194 | Receipts are never removed, and QUEUED or UNKNOWN is final |
| CodexQueue.ReceiptIsProven | tabus/codex_queue.py:153-194 | In every history each final receipt is what the outcome of one earlier start of its command proves |
| CodexQueue.QueuedIsProven | tabus/codex_queue.py:167-194 | So QUEUED is only ever said after a command for that key ended with code 0 and printed the success line of that submission |
| CodexQueue.RowsMoveForward | tabus/codex_queue.py:153-194 | A step only adds PENDING rows or moves a PENDING row to a final state |
| CodexQueue.OncePerWatermark | tabus/doorbell.py:477-478 | Different recipients or watermarks never share a receipt, and each is submitted at most once |
| Identifiers.NotificationIdInjective | tabus/nodekey.py:67-84 | "recipient:high" ids are injective over safe node ids |
| Identifiers.SafeExactly | tabus/nodekey.py:67-84 | A usable node name is one or more ASCII letters, digits, dashes and underscores, and nothing else |
| Identifiers.CanonicalExactly | tabus/tac_identity.py:31-42 | A string is a canonical id if and only if it is 32 lowercase hexadecimal digits written in groups of 8, 4, 4, 4 and 12 |
| TacMigration.Migration.Plan | tabus/tac_migration.py:85-136 | Blocks exactly when a name is unusable, two names fold alike, a stored key is stale, a reference dangles or a tac column is unknown; otherwise proposes for every unconverted row, and no other, the stripped rename passed for its old id or else the stripped old id, with its fold as key |
| TacMigration.PlannableExactly | tabus/tac_migration.py:98-131 | A ledger can be planned if and only if the names its tacs are to have (their own once converted, else the rename passed or the old id) are usable and fold apart, converted tacs have the key of their name, and no reference dangles |
| TacMigration.LabelsDecideNothing | tabus/tac_migration.py:103-105 | Ledgers that differ only in labels get the same verdict and are ready alike |
| TacMigration.LabelsAreNoNames | tabus/tac_migration.py:103-105 | And the same changes |
| TacMigration.Migration.Convert | tabus/tac_migration.py:158-200 | Success: every table is the original under one bijection of tac ids that is the identity exactly on converted rows, labels kept, each unconverted row named by the stripped rename of its old id or else the stripped old id, deliveries untouched; failure: nothing changed; a settled ledger converts to itself; a passing plan, with good ids to hand and names that stripping settles, converts exactly when the ledger is ready: no shared keys, no key of a later row in the way, no old id on record, every converted name settled |
| TacMigration.ProgressOneMore | tabus/tac_migration.py:171-184 | After each row the tables equal the originals with one injective renaming applied at once, even when a minted id is some earlier row's old id |
| TacMigration.QueriesKeepTheirAnswers | tabus/tac_migration.py:171-184 | Every tac keeps its members, links and messages row for row, and every node its count of deliveries in it, in any states |
| TacMigration.UnreadCountsStay | tabus/tac_migration.py:171-184 | The unread count of a node in a tac is the unread count in its new id |
| TacMigration.KeysStayUnique | tabus/tac_store.py:26 | The unique index on the keys holds after every change |
| TacMigration.SmoothGoesOn | tabus/tac_migration.py:171-184 | On a ready ledger no unique constraint or taken id stops the loop |
| TacMigration.WasReady | tabus/tac_migration.py:158-200 | A conversion that goes through was of a ready ledger |
| TacMigration.FirstTimeIsReady | tabus/tac_store.py:20-40 | A ledger from before the identity columns is ready |
| TacMigration.PassingPlanCannotConvert | tabus/tac_store.py:14-18 | A ledger after a rollback whose plan passes and that never converts |
| Base58.DecodeEncode | tabus/nodekey.py:87-105 | Decoding an encoding gives the bytes back, leading zeros included |
| Base58.EncodeDecode | tabus/nodekey.py:87-105 | A string decodes exactly when it is over the alphabet, and then it is the encoding of what it decodes to |
| Base58.MinimalBytes | tabus/nodekey.py:102-105 | The byte count from bit_length is always enough and never one too many |
| Base58.B58Encode | tabus/nodekey.py:87-94 | The prepending loop computes the encoding |
| Base58.B58Decode | tabus/nodekey.py:97-105 | The accumulating loop computes the decoding, and fails on any other character |
| Base58.JavaBase58Encode | clients/java/src/main/java/sh/tabc/TabcClient.java:255-269 | Append then reverse yields the same string for every input |
| Base58.AlphabetIs | tabus/nodekey.py:34-36 | The alphabet is the digits and ASCII letters without 0, O, I and l |
| SendRefusal.OneLengthMeans | tabus/send_refusal.py:162-176 | A value is valid exactly when it is blanks around digits, its size is that number up to 2^63-1, its digits stand for it; a size is only ever read from nineteen digits or fewer |
| SendRefusal.DeclaredLengthMeans | tabus/send_refusal.py:179-193 | A list of values is valid exactly when all write one number, and its size is that number when it fits |
| SendRefusal.RefusedExactly | tabus/send_refusal.py:196-227 | A request passes exactly when all values write one number up to 524288, is invalid exactly when they write no common number, and a refusal names the size it read |
| PrefixLookup.EscapeQuotesEach | tabus/bus.py:912-914 | The three replaces in sequence quote each special character exactly once |
| PrefixLookup.FoldsTogether | tabus/bus.py:914-919 | Two characters match exactly when equal or one ASCII letter in both cases |
| PrefixLookup.AcceptsExtensions | tabus/bus.py:914-919 | The pattern accepts exactly the ids that extend the typed text, ASCII letter case aside |
| PrefixLookup.AcceptsUpToNul | tabus/bus.py:914-919 | Typed text holding a NUL loses its wildcard: exactly the ids equal to it up to there, letter case aside |
| PrefixLookup.ResolvesExactly | tabus/bus.py:879-932 | An exact id is itself, otherwise the only accepted id of this mailbox; not found and ambiguous exactly when there is none or more than one |
| PrefixLookup.CountsFitting | tabus/bus.py:879-932 | A refusal as ambiguous gives the number of accepted ids, and there is more than one |
| PrefixLookup.ShortenedResolvesBack | tabus/bus.py:879-932 | A shortened id resolves back exactly when it is no other id and no other id of the mailbox extends it |
| PrefixLookup.CaseBlocksAPrefix | tabus/bus.py:912-931 | A mailbox where an id that does not start with the typed text blocks it |

## Left out

- HTTP, the command line, the MCP adapter, sockets and response shaping: plumbing over these operations.
- Ed25519, SHA-256, key files, Unicode normalization and UUID generation: parameters and inputs.
- AppleScript, tmux, process inspection and the language catalogue: their answers are inputs, and the notification text is the list of its phrases.
- Presence, sessions, teams, dashboards, listings, full-text search, tac links on the bus, and the steps that upgrade old schemas: easy or display only.
- The wording of refusals, timestamps other than leases, expiry, boot and closing times, and last_error: no decision reads them.
- The payload checks before a send are one input flag; the order of its gates is modelled.
- Ledgers written before the current schema: runs start from the empty ledger, except that the conversion of tac ids starts from any tables that meet their keys.
- A tac addressed with an empty string is no tac, as in the code; messages carrying it are outside the listening order.
- Whether a removed node may reopen or acknowledge: the code does not check, and nothing is claimed.
- The ORDER BY of a query is an input where it decides something (recipients, sender lines, sorted scans); the rows it lists are exactly the query's.
- PollRuns.EveryPollStateIsGood: one notifier process at a time, restarts included; two polling at once are not modelled.
- BusRuns.EveryStateIsGood: each operation is one step; the gaps between the reads of a call and its transaction are treated in `Overlaps`, where it holds exactly under stated conditions. So it is with AuditHistory, and with the methods of `Bus` named next.
- BusService.Bus.Register: one atomic step; the checks on removal and boot time come before BEGIN IMMEDIATE in the code, and `Overlaps` takes them so.
- BusService.Bus.RotateKey: one atomic step; the old key may be stale in the code, see OverlapHistory.KeyChainExactly.
- BusService.Bus.RemoveNode: one atomic step; the node may be gone when the code writes, see Overlaps.RemovedStayNodes.
- BusService.Bus.RestoreNode: one atomic step; a late one is harmless, as Overlaps.CommitAndInv shows.
- BusService.Bus.CreateTac: one atomic step; a late one meets the unique index and the primary key, see Overlaps.EveryOverlapIsSound. A node registered under the name meanwhile is not looked for.
- BusService.Bus.RenameTac: one atomic step; the old name may be stale in the code, see OverlapHistory.NameChainExactly.
- BusService.Bus.Send: one atomic step; the gap between its gates and its transaction is treated in `Races` and `Overlaps`.
- BusService.Bus.Acknowledge: one atomic step; the gap between its read and its write is treated in `Races` and `Overlaps`.
- BusService.Bus.ReopenUnread: an undisturbed table, although the code commits within its loop when it quarantines; other calls between its rows are treated in InterleavedClaims.
- DeliveryLife, RouteHistory, MailHistory.ResendIsHarmless, MailHistory.ClosingIsFinal: over runs in which each operation is one step.
- Adding a member to a tac and setting a snooze read before they write as well; no property stated here depends on what they read.
- TacMigration.Migration.Plan: says that it blocks, not which issues it lists; minted ids are an input list, and running out of them counts as a failure.
- PrefixLookup.AcceptsExtensions: SQLite's limit on the length of a pattern is not modelled; text with a NUL, where its matcher stops reading, is the subject of PrefixLookup.AcceptsUpToNul.
- IsoTime.StringOrderIsTimeOrder: years 1 to 9999 in UTC at whole seconds, which is all that now_iso renders.
