# TermSync in Dafny

TermSync is a terminal editor for several people on one text. A server orders all edits: an edit made
against an older version is transformed over every operation logged since (operational transformation),
applied, acknowledged to its author and broadcast to everybody else. Each client keeps a queue of edits and
has at most one of them in flight. This project models that protocol, the transformations under it, the
UTF-8 and JSON layers that carry it, and the process that saves the text, and proves how far the design
delivers what it is for:

- Everybody ends up with the same text, on every run in which no snapshot meets an operation in flight.
- On polite runs (see below), an edit sent in the event that typed it does to that text what its user meant on the
  screen. An edit that had to wait is sent as it was typed, bound to a later version, and may come to mean
  something else; when it keeps its meaning is stated exactly.
- No key stroke is lost, exactly as long as none is served outside the document's history.

The layers, and where they are:

| layer | modules |
|---|---|
| edits and their transformation | `Operations`, `Intention`, `Survivors`, `Permutations`, `Orders`, `OrderExact`, `Carrying` |
| the authoritative document | `Documents`, `Fidelity` |
| one client | `Clients`, `ClientRuns`, `Skips`, `Terminals` |
| the server's connection list, and names | `Servers`, `Registry`, `Naming` |
| the whole system | `Systems`, `Convergence`, `Replay`, `Settling`, `PoliteRuns`, `Divergence`, `Recovery` |
| lost key strokes | `Conservation`, `Losses` |
| what edits mean when they had to wait | `QueuedEdits`, `Rebasing`, `Histories`, `Meanings`, `Drift` |
| one editor only | `SoleEditor`, `SoleTerminal`, `TwoLists` |
| bytes | `Utf8`, `Decimals`, `Json`, `Protocol`, `StringBuilders`, `ProtocolLoops`, `Transports`, `WireFormat`, `Delivery` |
| saving | `Autosave`, `SaveProcess`, `SaveHistory` |

How to read it. Code that changes state is a class whose methods compute a specification function of the old
state (`Documents.Document`, `Clients.ClientState`, `Servers.Server`, `Transports.Transport`,
`Terminals.Terminal`, `SaveProcess.Process`, and the loops of `Utf8` and `ProtocolLoops`). The theorems are
about those functions. The document is the pair of an initial text and the full log of operations; the
bounded history array is proved to lose nothing by it. Characters carry identities in `Intention`, so that
"the character the user pointed at" can be stated. The system is a transition system over any number of
connections with one FIFO stream in each direction; `Servers` proves that the linked-list code takes exactly
its steps, and `Delivery` that protocol lines over arbitrarily cut reads are such streams.

A good run is one in which no DOC_STATE is taken while an operation is in flight. A polite run is one in which
nobody types before the first snapshot and no operation is served more than `limit` versions late; polite runs
are proved to be good.

Where the code does less than one may expect, it is modelled as it is, with a concrete input and the exact
condition:

- Two inserts into one gap do not commute; the server's order decides (`Operations.TransformationProperty`).
- A round of concurrent edits depends on the order it is served in, exactly when two inserts of different
  characters have only deleted characters between their gaps (`OrderExact.OrderFreeExactly`;
  `Fidelity.MixedRoundsDependOnOrder` is such a round with the inserts in different gaps).
- The base version of an edit is bound when it is sent (client_state.c:190-212), and a REMOTE_OP does not
  transform the queue (client_state.c:136-152), so an edit that had to wait can change its meaning: "ab" typed
  while somebody else's "q" is served becomes "qba", on a polite run (`Drift.QueuedEditDrifts`). An edit typed with
  nothing in flight is bound to the version on the screen (`Histories.SentOnTheScreen`). One that had to wait,
  whatever has become of those ahead of it, keeps its meaning, if it is a delete, iff it is the delete that follows
  the character it was typed for, and if it is an insert, iff each character still there is on the same side of its
  position as it was (`Meanings.WaitingExact` when it is sent, `Meanings.WaitingServed` when it is served). Where a
  character has gone is computed from the operations logged since, all of which the sender has received. Folding
  the edit itself decides only behind edits that kept their place (`Meanings.BehindOthersExact`,
  `Drift.DriftCancels`). What it was typed for is a place in the projected text, the version held with the pending
  edits applied; the terminal counts in it (client.c:314) but shows the version held.
- The design note promises that no key stroke is lost (plan.md:3). One is lost exactly when its operation is served
  outside the gate: the resynchronisation that follows drops it (client_state.c:172-178, document.c:229-252;
  `Conservation.KeyStrokesLostExactly`, `Losses.ResyncDropsAnEdit`).
- A snapshot forgets the operation in flight (client_state.c:65), whose ACK is then ignored. The edit is in the log
  all the same, but its author's client falls behind (`Divergence.EagerRunDiverges`,
  `Divergence.ForgottenFallsBehind`). If its user does not type again, it recovers exactly when somebody else's
  operation is served later (`Recovery.ForgottenRecoversExactly`). If another operation of its own is acknowledged
  next, it is at the server's version with a wrong text and nothing pending, without any race
  (`Divergence.TwoEagerEditsDiverge`, `Divergence.ForgottenThenAcknowledged`).
- `handle_ack` does not check versions either, and the lock is released before the sends, so an ACK can overtake a
  REMOTE_OP (`ClientRuns.OvertakingAckDiverges`, `ClientRuns.UnbalancedAckShowsNoVersion`, and exactly
  `Skips.SkippingAckExact`). The system model takes
  processing, ACK and broadcast as one step, and likewise choosing an id, registering and the join snapshot.
- `find_key` looks into nested objects, so an operation's reason hides the message's
  (`Protocol.MessageRoundTrip`).
- Positions above INT_MAX do not survive the wire (`Protocol.OperationRoundTrip`).
- The cursor can leave the projected text (`Terminals.CursorExact`).

The environment is a parameter: reads as a sequence of chunks, interruptions and failures, the answers of
select and of the clock as a sequence, the users and the scheduling as the steps of a run.

## Model

| member | source | states |
|---|---|---|
| `Operations.TransformationProperty` | document.c:92-116 | For two acceptable in-range edits on any text, the two orders (each transformed against the other) give the same text if and only if they are not inserts of different characters into one gap; in that case the first edit's character stands left, so the results differ by swapping two adjacent characters |
| `Operations.FoldKeepsRange` | document.c:255-262 | An edit in range of the text it was written against is in range after being folded over any number of later log entries, so the final normalization leaves it alone |
| `Operations.FoldKeepsKind` | document.c:92-116 | Folding never changes what an insert inserts; a delete stays a delete or becomes a Noop that says the character was already deleted |
| `Operations.NormalizeSameEffect` | document.c:121-141 | Normalization changes how an operation is recorded, never what it does to the text |
| `Operations.NoopsExplain` | document.c:108-141 | An operation that comes to nothing keeps its position and says why: the character was deleted already, the position is out of range, or the operation is invalid; normalization makes a Noop of nothing else |
| `Operations.LengthConserved` | document.c:255-270 | On every valid log the text length is the initial length plus logged inserts minus logged deletes |
| `Operations.OrderedKeepsLogValid` | document.c:254-280 | Whatever accepted operation comes, its recorded form fits the current text and keeps the log replayable, the new text being the replay |
| `Documents.ProcessKeepsValid` | document.c:204-321 | Every call, of whatever operation and base, leaves a valid document, appends exactly one entry exactly when the operation is acceptable and the gate accepts its base, and changes nothing otherwise |
| `Documents.ProcessKeepsPast` | document.c:204-321 | No call changes the text of any earlier version |
| `Documents.GateExact` | document.c:229-252 | The gate accepts a base version if and only if it is there at all (not the -1 of an absent field), is not in the future, and every later entry is still among the last `limit` ones |
| `Documents.InRangeIsOnlyFolded` | document.c:254-262 | An in-range operation is recorded as its fold, unclamped |
| `Documents.SnapshotDescribes` | document.c:75-84 | A snapshot names a version and carries its text, and the versions from its history start to its version are exactly those the gate accepts as a base |
| `Documents.ResyncDescribes` | document.c:229-252 | A resynchronisation names the operation; the versions from its history start to its server version are exactly those the gate accepts, as they are by the snapshot that follows; the reason is expired history if and only if the refused base is below every accepted one, and being ahead if and only if it is above |
| `Documents.RefusalExplains` | document.c:204-227 | A refusal names the operation and says which of the two things is wrong with it, exactly |
| `Documents.AnswersTellEntry` | document.c:283-321 | For a processed operation the newest entry, the ACK and the REMOTE_OP carry the submitted client id, operation id, base and original operation as far as each has the field, the recorded operation and its version; the snapshot for the save process is the text of that version |
| `Documents.Document.constructor` | document.c:42-52 | A new document is version 0 of the initial text with an empty history; a limit of 0 means 1000 |
| `Documents.Document.Snapshot` | document.c:75-84 | The snapshot carries the current version, history start and text |
| `Documents.Document.AppendHistory` | document.c:144-159 | After trimming and appending, the array holds exactly the last min(limit, version) entries of the full log, and history_start_version is the version minus their count |
| `Documents.Document.FoldHistory` | document.c:254-261 | Folding over the entries of the trimmed array gives the fold over the untrimmed log |
| `Documents.Document.ProcessOperation` | document.c:204-321 | On every state and input the bounded in-place document does what the unbounded log does, with the same messages, error, resynchronisation and text |
| `Intention.IdsNameCharacters` | document.c:255-270 | Character identities are faithful: at each place of each version stands the character its identity was born with |
| `Intention.IdsAtDistinct` | document.c:255-270 | No two characters of one version share an identity |
| `Intention.DeletedForever` | document.c:255-270 | A deleted character never comes back |
| `Intention.DeleteIntention` | document.c:92-116 | A delete folded over any history removes exactly the character it pointed at and is a Noop if and only if that character is already gone |
| `Intention.InsertIntention` | document.c:98-106 | An insert folded over any history separates the surviving characters as the user's gap did: those left stay left, those right stay right |
| `Intention.SameGapServerOrder` | document.c:98-106 | Of two inserts for one gap of one version, the one the server took first is left of where the other lands, however many operations come between |
| `Intention.OrderKept` | document.c:92-116 | Characters common to two versions stand in the same order in both |
| `Survivors.SurvivorsExact` | document.c:254-270 | However a round of concurrent edits is ordered, the old characters left are the base text minus the deleted positions, in order, and exactly as many deletes take effect as there are distinct deleted positions |
| `Survivors.SurvivorsOrderIndependent` | document.c:254-270 | Any two orders of the same concurrent edits leave the same subsequence of base characters and the same number of effective deletes |
| `OrderExact.OrderFreeExactly` | document.c:92-116 | All orders of a round of concurrent edits give one text if and only if, for any two inserts of different characters, some position between their gaps is deleted by no edit of the round |
| `OrderExact.DeletesOrderIndependent` | document.c:92-116 | When no edit of the round is an insert, the final text does not depend on their order |
| `Fidelity.ProcessedDelete` | document.c:229-280 | A delete the gate lets through removes exactly the character at its position in the version it was bound to when it was sent; it is recorded as a Noop, with the reason for a repeated delete, if and only if that character is already gone |
| `Fidelity.ProcessedInsert` | document.c:229-280 | An insert the gate lets through puts its character, under a fresh identity, into its gap of the version it was bound to when it was sent, among the survivors |
| `Fidelity.RoundTakenExactly` | document.c:229-280 | Of a round of operations on one version the document takes exactly the first limit + 1, in order: the log is what it would be had only those been submitted |
| `Fidelity.RoundSurvivors` | document.c:229-280 | The document's own answer to a round within the limit: any order leaves the same base characters and effective deletes, and the same text when the round has only deletes |
| `Fidelity.RoundOrderFreeExactly` | document.c:229-280 | The document's own answer: for a round of at most limit + 1 operations the text is the same in every order if and only if no two inserts of different characters have only deleted characters between their gaps |
| `Fidelity.MixedRoundsDependOnOrder` | document.c:98-106 | A round in which that fails with the inserts in different gaps: it gives ab in one order and ba in another |
| `Clients.ClientState.EnsureQueueCapacity` | client_state.c:41-54 | Growing the queue array leaves room for one more and the client unchanged |
| `Clients.ClientState.PopQueue` | client_state.c:93-102 | Removes exactly the oldest queued operation, keeping the others in order |
| `Clients.ClientState.StatePump` | client_state.c:190-212 | With nothing in flight, sends exactly the oldest queued operation bound to the current version; otherwise changes nothing |
| `Clients.ClientState.SetDocumentState` | client_state.c:59-68 | Replaces content and versions, forgets the operation in flight, keeps the queue, then pumps |
| `Clients.ClientState.Enqueue` | client_state.c:73-90 | Appends the edit under the next op id and pumps |
| `Clients.ClientState.HandleAckMessage` | client_state.c:121-131 | An ACK for anything but the operation in flight changes nothing; a matching one applies the server's operation, clears the flight and pumps |
| `Clients.ClientState.HandleRemoteMessage` | client_state.c:136-152 | Old versions are ignored, a gap asks for the document, the next version is applied |
| `Clients.ClientState.HandleMessage` | client_state.c:155-185 | Each message type has exactly the effect of the client specification |
| `ClientRuns.RequestsExact` | client_state.c:136-179 | On every sequence of keys and messages the document is asked for exactly once for each RESYNC_REQUIRED and each version gap |
| `ClientRuns.HistoryStartTaken` | client_state.c:157-163 | The history start is always that of the last snapshot taken, and 0 without one or when it names none |
| `ClientRuns.SnapshotShown` | client_state.c:157-163 | A client shows the snapshot it has taken, a missing text as empty and a missing version as 0 |
| `ClientRuns.IncompleteShowsNothing` | client_state.c:105-152 | An ACK or REMOTE_OP without an operation changes no text, and without operation or version no version; an ACK still frees the client |
| `Naming.WorksUnderItsId` | client_state.c:164-168 | On every run of the system: the first message to reach a client is its WELCOME, and from then on it works under the id the server has it by; what it sends carries that id, and the ids of the operations typed begin with its first 48 characters and a dash |
| `ClientRuns.QueueConservation` | client_state.c:73-102 | On every sequence of keys and messages, operations sent followed by operations queued are the operations typed, in order, each once |
| `ClientRuns.OpIdsDistinct` | client_state.c:73-90 | No two edits of a client share an op id, even if WELCOME renames it in between |
| `ClientRuns.ReactSends` | client_state.c:190-212 | At any event at most one operation is sent; it is bound to the version held at that moment and is then the one in flight |
| `ClientRuns.OneInFlight` | client_state.c:121-212 | On every run the number of sends is the number of matching ACKs, DOC_STATEs and RESYNC_REQUIREDs that freed the client plus the one in flight: two sends are always separated by such a message |
| `ClientRuns.AlwaysShowsAVersion` | client_state.c:59-152 | With messages lost, repeated and reordered at will, after the first DOC_STATE a client's content is the text of its version, which the server has reached, provided each matching ACK is contiguous |
| `ClientRuns.ReaderAlwaysShowsAVersion` | client_state.c:59-152 | A client that never edits shows a version of the document with no proviso about ACKs |
| `ClientRuns.UnbalancedAckShowsNoVersion` | client_state.c:121-131 | A matching ACK that skips versions leaves the client at its version with a text that is not that version's, whenever the skipped inserts and deletes do not balance (a deletion past the end counted as none) |
| `Skips.SkippingAckExact` | client_state.c:121-131 | A matching ACK that skips versions leaves the client, character by character, with the ACK's version if and only if nothing created in between is left but what the ACK's operation itself deletes, and what it deletes from the version held is what has gone in between or what it deletes in its turn; then that version is what the client shows |
| `ClientRuns.AckOverNoopsShows` | client_state.c:121-131 | A matching ACK that skips only Noops leaves the client showing a version |
| `ClientRuns.OvertakingAckDiverges` | server.c:177-186 | If the ACK of one insert overtakes the REMOTE_OP of another, the client ends at the server's version with a text no version ever had |
| `ClientRuns.RaceIsReal` | document.c:255-280 | The document of that counterexample is what processing the two inserts produces |
| `Systems.FreeNumber` | server.c:118-122 | The automatic numbering ends, at the first number from the counter on whose name is free |
| `Systems.ChooseId` | server.c:113-124 | The chosen id is never one in use and the counter never goes back |
| `Systems.NoNumberSkipped` | server.c:113-124 | The counter passes over nothing but names in use and the name given, and stands still when the requested name is given |
| `Systems.FirstNames` | server.c:113-124 | The first two who ask for no name are u1 and u2 |
| `Systems.StartsEmpty` | document.c:42-52 | At the start nobody is connected, the document is version 0 of the initial text, and a limit of 0 is 1000 |
| `Servers.Server.ClientIdExists` | server.c:100-108 | Walking the list finds an id exactly when some connection has it |
| `Servers.Server.ChooseClientId` | server.c:113-124 | The loop returns the requested id when free, else the first free automatic one, and leaves the counter behind it |
| `Servers.Server.RegisterClient` | server.c:127-133 | The connection becomes the head of an otherwise unchanged list |
| `Servers.Server.UnregisterClient` | server.c:136-148 | Exactly the leaver is unlinked; the others keep their order |
| `Servers.Server.BroadcastMessage` | server.c:151-161 | Every connection but those named like the excluded one gets the message once |
| `Servers.Server.SendReplies` | server.c:181-192 | The submitter gets exactly the ACK, or the rejection messages, and on success every other connection exactly the REMOTE_OP |
| `Servers.Server.DispatchMessage` | server.c:166-212 | Dispatching a message on the linked list is the Serve step of the system model, for every represented state |
| `Servers.Server.Join` | server.c:246-258 | Choose, register, WELCOME and snapshot are the Join step of the system model, with a name nobody else has |
| `Servers.Server.Leave` | server.c:136-148 | Unregistering is the Leave step of the system model |
| `Registry.RunIdsDistinct` | server.c:113-148 | On every run, over all joins and leaves, no two connections share an id |
| `Registry.BroadcastSkipsSubmitter` | server.c:151-161 | With distinct ids a broadcast leaves out exactly the submitter |
| `Registry.LeaverFreesItsId` | server.c:136-148 | Once a connection has gone its id is free and is given to the next one that requests it |
| `Registry.NumberedOnce` | server.c:113-124 | On every run two automatic names are different, even when the connection that had the first has gone |
| `Convergence.StepKeeps` | server.c:166-258 | The inductive invariant: from any state in which every client is exactly its downlink away from the server, every step that does not forget an operation in flight leads to such a state |
| `Convergence.GoodRunKeeps` | server.c:166-258 | Every state of every good run with any number of clients satisfies the invariant |
| `Convergence.AckInTurn` | client_state.c:121-131 | In a good run no ACK is stale: it answers the operation in flight and carries the next version |
| `Convergence.RemoteInTurn` | client_state.c:136-152 | In a good run no client ever sees a version gap |
| `Replay.DrainExact` | client_state.c:105-185 | In every state of a good run, replaying a client's pending downlink through its handlers ends at the server's text and version, unless a snapshot stands in front of the ACK of the operation in flight, and then it falls short of the version |
| `PoliteRuns.PoliteRunsAreGood` | client_state.c:59-68 | If nobody types before the first snapshot and no operation is served more than the history limit late, no client ever forgets an operation in flight |
| `PoliteRuns.PoliteRunsConverge` | server.c:166-258 | On every such run, at every moment, every pending downlink replays to exactly the server's text and version, each version since joining reaches each client exactly once as ACK or REMOTE_OP, and quiescent states have converged |
| `Settling.SettlingStep` | server.c:166-212 | From any state whatever, every Serve, Deliver or Leave step lowers the measure: 3N + 6 for each operation queued or on an uplink, and 1 to 3 for each other message |
| `Settling.SettlingEnds` | server.c:166-212 | Once typing and joining stop, every run ends within that many steps |
| `Settling.QuietMeansConverged` | client_state.c:121-212 | When nothing is left to serve or deliver, every client has the server's text and version and has received each version since it joined exactly once; only an operation no document accepts can still be waiting |
| `Settling.GoodRunsConverge` | client_state.c:121-212 | Every good run that cannot go on without a user has converged |
| `Divergence.EagerRunDiverges` | client_state.c:59-68 | The hypothesis is needed: when a user types before the join snapshot, the snapshot makes the client forget its edit, the ACK is ignored, and a quiet system shows different texts |
| `Divergence.ForgottenFallsBehind` | client_state.c:121-152 | Whenever a snapshot stands in front of the ACK of the operation in flight and nothing is queued, replaying the downlink ends short of the server's version, with the document asked for once for each REMOTE_OP behind that ACK |
| `Recovery.ForgottenRecoversExactly` | client_state.c:121-152 | From such a state of any good run, however it goes on as long as that user does not type and the connection stays: once nothing is pending for it, the client has the server's text and version if and only if an operation has been logged after the forgotten one, and an older version otherwise |
| `Divergence.ForgottenThenAcknowledged` | client_state.c:121-131 | When the ACK ignored for a forgotten operation is followed by one for the next version that is taken, the client is at that version, and shows it if and only if the forgotten operation was a Noop, or an insert whose character the next one pushes out at the end through nothing but equal characters |
| `Divergence.TwoEagerEditsDiverge` | client_state.c:59-68 | Two edits typed before the join snapshot, everything in order: the quiet client is at the server's version 2 with nothing pending and shows y where the server has xy |
| `Conservation.KeyStrokesLostExactly` | document.c:229-252 | On every run whatever, the log since joining, then the uplink, then the queue of a connection are everything acceptable typed there, in order and each once, if and only if none of its operations was served outside the gate; the edits missing are as many as those operations |
| `Conservation.QuietLogIsEverything` | server.c:166-186 | When nothing is pending, everything acceptable typed into a connection is in the log if and only if none of its operations was served outside the gate |
| `Conservation.NoKeyStrokeLost` | server.c:166-186 | On every polite run none is ever late: the log, uplink and queue hold exactly what was typed, and when all is quiet it is all in the log |
| `Losses.ResyncDropsAnEdit` | client_state.c:172-178 | A run with a history of one entry in which a resynchronisation drops the only edit of a connection: it is neither in the log nor on the uplink nor queued |
| `Carrying.CarryCommutes` | document.c:92-116 | A foreign operation carried over a pending edit and the edit transformed against it do the same, in either order, to any sequence, two inserts into one gap included |
| `Carrying.RebaseCommutes` | document.c:92-116 | The same for a foreign operation and any number of pending edits |
| `QueuedEdits.FollowsCharacter` | document.c:92-116 | The delete of a character, from where it stood or was typed, folded over what was logged since, points at it in the current version, and is a Noop if and only if it is gone |
| `QueuedEdits.QueuedDeleteExact` | client_state.c:190-212 | Sent as it was typed, behind whatever edits and whatever became of them, a delete removes the projected character it was typed for, and nothing else, if and only if it is the delete that follows that character |
| `QueuedEdits.QueuedInsertExact` | client_state.c:190-212 | Sent as it was typed, behind whatever edits and whatever became of them, an insert lands in the gap of the projected text it was typed for if and only if every character of that text that is still there is on the same side of its position as it was |
| `Rebasing.FoldingKeepsMeaning` | client_state.c:73-102 | An edit typed behind others that were all logged where folding them expects it, folded in its turn over the foreign operations served before it is sent, still points at the character, or into the gap, it was typed for |
| `Rebasing.FoldedDeleteExact` | client_state.c:190-212 | Behind edits logged where expected, a delete sent as typed keeps its meaning if and only if that fold leaves it as it is |
| `Rebasing.FoldedInsertExact` | client_state.c:190-212 | Behind edits logged where expected, an insert sent as typed lands where its fold does if and only if the fold leaves it as it is, and keeps its gap if and only if no character of the projected text stands between the two places |
| `Histories.SentOnTheScreen` | client_state.c:190-212 | On every polite run an operation is sent in the event that typed it exactly when nothing was in flight, and then as typed, bound to the version whose text is on the screen |
| `Histories.SeenDeleteServed` | document.c:229-280 | On every polite run, serving a delete typed with nothing in flight removes exactly the character its user had on the screen at that position, and nothing if that is gone |
| `Histories.SeenInsertServed` | document.c:229-280 | On every polite run, serving an insert typed with nothing in flight puts its character between the survivors of the two sides of the gap its user had on the screen |
| `Histories.SentBehindPending` | client_state.c:190-212 | On every polite run, whatever was pending when an operation was typed: it is sent as typed, bound to a version no earlier than the one on the screen, and between the two the log has exactly the operations that were pending |
| `Meanings.WaitingExact` | client_state.c:190-212 | On every polite run and for every operation sent, whatever was pending when it was typed: bound to the version it is sent on, a delete keeps its meaning if and only if it is the delete that follows its character, and an insert if and only if each projected character still there is on its old side |
| `Meanings.WaitingServed` | document.c:229-280 | The same at the moment of serving, on every polite run: the recorded delete removes exactly the character meant if and only if it is the one that follows it, the recorded insert is in the gap meant if and only if each character still there is on its old side, and both hold if the edit kept its meaning when it was sent |
| `Meanings.BehindOthersExact` | client_state.c:190-212 | The corollary, on every polite run, for an operation all of whose predecessors were logged in place: a delete keeps its meaning if and only if its own fold over the foreign operations leaves it as it is, an insert if and only if nothing of the projected text stands between where it lands and its fold |
| `Drift.QueuedEditDrifts` | client_state.c:190-212 | A polite run in which one user types a, then b behind it, and another's q is served first: b is sent as typed on version 2 and the text becomes qba |
| `Drift.DriftLosesTheGap` | client_state.c:136-152 | In that run the fold would have moved b, and as sent it leaves the gap it was typed for |
| `Drift.DriftCancels` | client_state.c:136-152 | Behind an edit that has drifted its own fold does not decide: a delete of the drifted b, sent as typed, still deletes it though its fold differs, and following the b says so |
| `Drift.MovedInTheSameGap` | client_state.c:136-152 | An insert its fold would move can still land in the gap it was typed for |
| `SoleEditor.CurrentIsNotTransformed` | document.c:254-270 | An operation based on the current version is applied as typed |
| `SoleEditor.SoleIsPolite` | document.c:229-252 | With one editor no operation is ever late, so such runs are polite with nothing assumed of snapshots or history |
| `SoleEditor.SoleEditorSequential` | client_state.c:190-212 | With one editor, who does not type before the snapshot, and any history limit, the server's text followed by what is still to come is always what was typed, applied in order, and every quiescent text is exactly that, at every client |
| `SoleEditor.WriterIsNeverDisturbed` | server.c:151-161 | The only editor is never sent a remote operation, a resynchronisation or an error |
| `Terminals.Terminal.ProjectedContentLength` | client.c:314-324 | The loop over the pending operations computes the projected length, cut off at zero |
| `Terminals.Terminal.DrainMessages` | client.c:336-344 | Every message that has arrived is handled in order, the cursor being clamped after each |
| `Terminals.Terminal.HandleKey` | client.c:370-415 | Each editing key has exactly the effect of the editor specification on cursor and queue |
| `TwoLists.KeyEdits` | client.c:347-415 | With everything pending fitting and the cursor inside, a key does to the text to come and the cursor what it does to an editor of two lists: a character joins the list before the cursor, a Backspace drops its last, and an arrow carries one character over |
| `TwoLists.KeyEffects` | client.c:347-415 | The same spelled out on the text: T becomes T[..c] + ch + T[c..] or T[..c-1] + T[c..], the cursor moves by one, and the arrows leave the text alone and stay inside it |
| `TwoLists.TakesEverything` | client.c:336-344 | Draining the messages at hand is replaying them through the client, each once and in order; the cursor stays unless the projected text got shorter than it on the way, and then ends where that was shortest |
| `Terminals.TakingClamps` | client.c:327-344 | After taking messages the cursor is within the projected text, whatever it was before |
| `Terminals.CursorExact` | client.c:347-415 | A key keeps the cursor within the projected text if and only if it is not a character typed while more deletions are pending than there are characters |
| `Terminals.CursorEscapesFromStart` | client.c:347-353 | That exception occurs from a fresh client: a remote deletion of the same character, then a key, leaves the cursor beyond the projected text |
| `SoleTerminal.SoleCursorStaysInside` | client.c:302-403 | With one editor, who does not type before the snapshot, on every run: the text on show followed by everything pending is what was typed, the projected length is its length, and the cursor never leaves it |
| `TwoLists.SoleEditorIsTwoLists` | client.c:302-415 | With one editor, who does not type before the snapshot, on every run: the text on show with everything pending applied is the two lists that the keys make of the initial text, and the cursor stands between them |
| `Utf8.CountLeadsExact` | util.c:147-159 | Counting non-continuation bytes counts the characters of any well-formed byte string |
| `Utf8.ByteOffsetExact` | util.c:184-203 | The byte offset of a character position is the encoded length of the characters before it |
| `Utf8.ApplyBytesRefines` | util.c:206-247 | The byte edit of an encoded text is the encoding of the character edit, for every text and operation |
| `Utf8.RunsStayWellFormed` | util.c:206-247 | Replaying any log on bytes gives the encoding of the replay on characters, so well-formedness is kept over any run |
| `Utf8.EncodeInjective` | util.c:206-247 | No two texts have the same encoding (section 3 of RFC 3629) |
| `Utf8.DecodeEncode` | util.c:147-203 | Reading the bytes of an encoded text character by character gives the text (section 3 of RFC 3629) |
| `Utf8.Utf8CharCount` | util.c:147-159 | The loop counts the bytes that start a character |
| `Utf8.Utf8ByteOffset` | util.c:184-203 | The loop reaches the byte offset of the character position |
| `Utf8.ApplyOperationToText` | util.c:206-247 | The returned buffer is the NUL-terminated encoding of the edited text |
| `Json.StringRoundTrip` | protocol.c:256-320 | Parsing undoes escaping for every NUL-free string, whatever follows the closing quote (strings as in section 7 of RFC 8259) |
| `Json.FindInFields` | protocol.c:223-236 | In any printed object, whatever its strings contain, the strstr search stops at the value of the first field of that name in reading order, nested objects included, or passes over it all |
| `Json.ObjectCutExactly` | protocol.c:374-415 | Brace matching cuts out exactly the printed object, whatever braces and quotes its strings contain |
| `Protocol.OperationRoundTrip` | protocol.c:418-445 | An operation that fits its other fields survives the wire if and only if its position fits an int |
| `Protocol.MessageRoundTrip` | protocol.c:448-488 | Decoding an encoded well-formed message gives it back with the first reason in the line, so the trip is faithful if and only if no operation carries a different reason |
| `Protocol.OneLine` | protocol.c:181-209 | Every encoded message is one line: its only newline is the last byte and it holds no NUL |
| `WireFormat.LineIsMembers` | protocol.c:111-209 | Every line is its members between braces, under their names and in their order, with commas between them; empty strings and negative versions are left out, an operation has its kind, position, the character of an insert and its reason |
| `WireFormat.EscapesExactly` | protocol.c:73-109 | Five characters have an escape of their own, other control characters are written in four hexadecimal digits, lower case, and everything else stands for itself |
| `WireFormat.CutToFit` | protocol.c:323-336 | A string field is found and read exactly when the search finds a string; one too long for its field is cut to what fits with a terminator, and to no less |
| `WireFormat.OperationReadExactly` | protocol.c:418-445 | An operation is read exactly when nothing is wrong with it, and otherwise the first thing wrong is named; a position that is missing or negative is 0 |
| `WireFormat.LineReadExactly` | protocol.c:448-488 | A line is read exactly when it is an object with a type whose operation, if it has one, can be read, and otherwise the first thing wrong is named; an original operation that cannot be read is passed over |
| `WireFormat.LineCutExactly` | protocol.c:528-565 | The receiver takes the bytes before the first newline when that is within the buffer size, complains when that many bytes hold none, and otherwise waits |
| `WireFormat.ReceiptExactly` | protocol.c:528-565 | What a receive reports: the line it cut, up to its first NUL, decoded; that the line is too long; or that there is none |
| `WireFormat.SignedRead` | protocol.c:354-370 | A numeral with a sign is read exactly when it fits a long |
| `WireFormat.IntKeepsLowBits` | protocol.c:354-370 | A number that does not fit an int keeps its low 32 bits |
| `WireFormat.FramesLookLike` | autosave.c:195-240 | An event on the save pipe is its name, version and payload length on one line, then the payload |
| `StringBuilders.StringBuilder.Append` | protocol.c:37-47 | The text is appended to the contents, growing the buffer as needed |
| `ProtocolLoops.JsonEscape` | protocol.c:73-109 | The loop computes the escaped string |
| `ProtocolLoops.EncodeMessageText` | protocol.c:181-209 | The builder calls write the fields in the order and under the conditions of the encoding specification |
| `ProtocolLoops.FindKeyAt` | protocol.c:223-236 | The search loop finds what the recursive specification finds, as an index into the line |
| `ProtocolLoops.ParseJsonString` | protocol.c:256-320 | The cursor loop parses exactly what the specification parses, or fails with it |
| `ProtocolLoops.MatchBraces` | protocol.c:374-415 | The scan finds the same end of the object as the specification |
| `ProtocolLoops.ParseOperationObject` | protocol.c:418-445 | Decoding an operation object, with each error |
| `ProtocolLoops.DecodeMessageText` | protocol.c:448-488 | Decoding a line, with each error |
| `Transports.Transport.ReceiveLine` | protocol.c:528-565 | However the bytes are cut into reads and whatever is buffered, a receive yields the next line of the pending bytes (buffered plus unread), or the overlong or end-of-file outcome, and leaves exactly the bytes after it |
| `Transports.Transport.Receive` | protocol.c:528-565 | A receive decodes exactly that line |
| `Transports.LinesInOrder` | protocol.c:528-565 | For lines that fit the buffer, the n-th receive hands over the n-th line and nothing is left over |
| `Transports.MessagesInOrder` | protocol.c:512-565 | The n-th receive yields the n-th message sent, up to the reason rule |
| `Delivery.DownlinkIsFifo` | client_state.c:155-185 | Whatever the reads, the n-th receive, read by its type and fields as the client reads it, is the n-th message the server sent and could have been sent as no other; handling its fields, with the handler's defaults, does to any client what that message does |
| `Delivery.UplinkIsFifo` | server.c:166-212 | Whatever the reads, the n-th receive, read by its type and fields as the server's dispatch reads it, is the n-th message the client sent and could have been sent as no other |
| `Delivery.AcceptedOperationFits` | protocol.c:144-159 | An accepted operation whose position and reason fit their fields is well formed on the wire |
| `Delivery.SnapshotFits` | document.c:75-84 | The snapshot of a text without NUL is well formed on the wire |
| `Autosave.EventRoundTrip` | autosave.c:140-240 | A written event is read back whatever its payload looks like, and nothing after it is consumed |
| `SaveProcess.LoopHearsEvents` | autosave.c:245-319 | For any timer and pipe behaviour, the loop on the bytes written is the loop on the events sent, in order and each once |
| `SaveProcess.DocumentIsLastSave` | autosave.c:102-115 | Whatever snapshots, log entries and timers come between, the document file holds the last SAVE_NOW payload and the .bak file what the document held just before it |
| `SaveProcess.SavedFilesExact` | autosave.c:245-319 | The same, on the bytes of the pipe |
| `SaveProcess.StopSavesLatest` | autosave.c:270-276 | A stopped process leaves its latest content in the .autosave file |
| `SaveHistory.AutosaveExact` | autosave.c:245-319 | For any events, answers of select and times at which the timer is due: the autosave file holds what was latest when the timer was last due or a STOP came (what was there before, when there was no such time or nothing to save), and the log has grown by one line for each log event, each save and each autosave, in order |
| `SaveHistory.AutosavedFilesExact` | autosave.c:245-319 | The same, on the bytes of the pipe |
| `SaveHistory.OnlyItsOwnFiles` | autosave.c:78-115 | No file but the document, its backup, the autosave file and the log is left changed or created |
| `SaveHistory.OddRounds` | autosave.c:278-287 | An unreadable header is passed over and the timer with it, an unknown event is passed over with its payload, and a payload cut short ends the process with nothing written |
| `SaveHistory.NoHeaderEnds` | autosave.c:140-163 | A header of 127 bytes or more, or one cut short by the end of the pipe, ends the process with nothing written |
| `SaveProcess.Process.ReadLineFd` | autosave.c:140-163 | The byte loop reads the line of the specification |
| `SaveProcess.Process.ReadExactAlloc` | autosave.c:166-190 | Reads of any size give exactly the next bytes of the pipe, or fail when there are too few |
| `SaveProcess.Process.AtomicWriteText` | autosave.c:78-99 | Only the target changes and the temporary file is gone |
| `SaveProcess.Process.WriteFileWithBackup` | autosave.c:102-115 | The old content, if any, is in .bak and the new one in the target |
| `SaveProcess.Process.AutosaveLoop` | autosave.c:245-319 | For any answers of select and the clock, the loop computes the specification |

## Left out

- Integer width of versions, positions and op numbers in memory: unbounded here; widths appear where decimal text is read back (`Json.StrToL`, `Json.ToInt`).
- Failure of malloc, realloc and file writes; a NULL send function; negative `--history` values.
- Truncation of ids when they are copied into fixed-size fields; on the wire the sizes are modelled (`Protocol.FitsIn`, `Protocol.Truncate`).
- Real interleaving of threads inside one dispatch; its effect is shown by `ClientRuns.OvertakingAckDiverges`.
- Malformed UTF-8 in texts and JSON that neither program prints: the decoder functions are total on them, but no theorem is about them.
- Documents whose encoded snapshot exceeds TS_MAX_LINE_BYTES: outside the stream theorems; a receive reports the line as too long.
- Which events the server sends the save process: the process is proved for any.
- SAVE, PING, SAVE_QUEUED and the JOIN message itself on the server: no effect on the document.
- Status strings, events.c and the operation log text: display only.
- Sockets, fork, signals, ncurses rendering, key codes and wide characters, command-line parsing.
- Interrupted reads of the save pipe, which are only retried, and the directory creation before a write.
- Header lines on the save pipe with signed numerals, which the sender never writes, are taken as unreadable.
- ClientRuns.UnbalancedAckShowsNoVersion: one way only; `Skips.SkippingAckExact` is exact for character identities, and equal characters can still make a wrong text look right.
- Autosave.EventRoundTrip: each event is one write; two server threads writing at once could interleave header and payload, which this does not model.

Nothing was executed; every statement rests on the verifier.
