# A verified model of Shelly's session handoff

Shelly keeps a terminal session alive in a daemon and hands it between clients. This project models
the parts of it whose correctness spans several threads or programs and proves what they promise:

- **Handoff and replay** (`Ring`, `Session`, `Handoff`, `Delivery`). The PTY thread pushes chunks into a bounded
  ring and a terminal projection, and broadcasts them later; connections subscribe, read the ring,
  forward live chunks and reattach after a lag. `Ring` and `Session` are classes over a circular
  array and mutable fields; `Handoff` is the protocol as a state machine over every interleaving;
  `Delivery` proves what it brings about: forwarders go on, and clients catch up.
- **The snapshot printer** (`Terminal`, `Sgr`, `Snapshot`, `Decimal`). The printer's loops are
  methods; `Terminal` is an independent interpreter for the sequences that they emit, after ECMA-48
  sections 8.3.21, 8.3.39, 8.3.117 and 5.4.2 and ITU-T T.416 section 13.1.8.
- **Pairing and revocation** (`Pairing`, `CodeLife`, `PairingCode`, `Ceremony`, `Revocation`,
  `Serving`). The code and approval manager, the ceremony between phone, daemon and desktop, and the
  revocation watchers; every mutex or map-entry section is one step, and dropping a watcher is two.
  `CodeLife` and `Serving` prove that the right code is accepted and a paired device served.
- **The session registry** (`Names`, `Registry`, `Lifecycle`, `Durable`, `Publish`, `Retention`).
  Names, live and restored sessions with a cap, stored rows and restarts, coalesced list publishing,
  and pruning. `Lifecycle` reads the tables off the history of operations.
- **Framing and signing** (`BigEndian`, `Framing`, `Utf8`, `Signing`). Length-prefixed frames under
  short writes and chunked reads, and the canonical request layouts, with lossy UTF-8 decoding
  (RFC 3629, and section 3.9 of the Unicode standard for broken sequences).
- **The client** (`Detach`, `AttachLoop`, `Attaching`). The detach key, the attach loop that batches
  output, and what it draws, remembers and says.

`Common` holds options and sequence helpers. `dafny verify dfyconfig.toml` checks the whole project.
Clocks, random draws, readiness of sockets, failures of the terminal library, of process calls and of
writes are parameters or steps, so each theorem covers all of them.

Some promises do not hold without a condition. For each the project has a run that fails and the
exact condition:

- An exit reported straight after an attach reply may reach a client that misses the last bytes
  (`Handoff.ReportedExitMayTruncate`); in every run it is complete exactly when the end of the ring
  had not moved since the reply was drawn (`Handoff.ReportedExitCompleteIff`). So may one reported
  from a row that was loaded at a start (`Handoff.RestoredExitMayTruncate`), which is complete exactly
  when the row was captured after the last byte (`Handoff.RestoredExitCompleteIff`).
- Names stay unique while the daemon runs (`Registry.RunKeeps`), but not across restarts: a
  kill frees a name even if deleting the stored row fails, another session may take it, and the next
  start restores both rows (`Durable.DuplicateNames`). Over any number of starts the registry is
  consistent exactly as long as no start finds such an orphan row that shares its name with another
  row (`Durable.ConsistentIffClean`). No deletion needs to fail for that: a session that ended by itself
  has no mark that stops its threads, so one of them may write the row after the restored entry was
  killed and its row deleted (`Durable.LateWriteDuplicates`). Two habits prevent it: deletions that
  work and come when no thread can write the row any more (`Durable.PromptRunsStayConsistent`), or
  reserving no name that is stored or that such a thread may yet store
  (`Durable.GuardedRunsStayConsistent`).
- The published session list may be out of date although nothing is pending: after a start with
  stored sessions (`Publish.LoadedStart`), after output that changes a summary but not the state
  (`Publish.SilentChangeIsMissed`), and when of two overlapping publishes the older list is put up
  last (`Publish.OvertakenRun`). For every run that has become quiet these are the only reasons:
  the list includes every change exactly when no older list was put up last over a newer one, and
  the summaries were taken for some list after the last change that nobody announced
  (`Publish.FreshIff`).
- A v1 canonical text stands for one request exactly when no field has a newline in it and the body's
  text has no U+FFFD, the character that lossy decoding puts for bytes it cannot decode
  (`Signing.UnambiguousIff`, `Signing.LossyBodiesCollide`); its own documentation says that it is not
  injective.

SGR printing and the snapshot are theorems on a domain, the attributes and screens that a terminal
can hold; `Sgr.SgrRoundTrip` shows that for attributes the domain is the largest possible.

## Model

| member | source | states |
|---|---|---|
| Ring.RingRefinesStream | crates/daemon/src/ring.rs:24-52 | however a stream is cut into pushes, the ring shows its last min(capacity, total) bytes, and once the 64-bit offset would overflow it is empty at u64::MAX for ever |
| Ring.PushedExtendsStream | crates/daemon/src/ring.rs:24-52 | one push turns the window of a stream into the window of the longer stream, overflow and poisoned state included |
| Ring.ReplayMeaning | crates/daemon/src/ring.rs:54-69 | replay hits exactly the offsets still in the window and returns every later byte; after the overflow only u64::MAX hits, with nothing |
| Ring.PtyRingBuffer.constructor | crates/daemon/src/ring.rs:15-22 | a new ring is the window of the empty stream |
| Ring.PtyRingBuffer.Push | crates/daemon/src/ring.rs:24-52 | the circular array, drained and extended across its physical end, shows what the abstract push says; returns the offset before the chunk |
| Ring.PtyRingBuffer.DrainFront | crates/daemon/src/ring.rs:46-49 | draining forgets exactly the oldest bytes |
| Ring.PtyRingBuffer.Extend | crates/daemon/src/ring.rs:50 | extending appends the bytes behind the newest one, across the wrap if need be |
| Ring.PtyRingBuffer.AsSlices | crates/daemon/src/ring.rs:54-69 | the pieces before and after the physical wrap make up the contents |
| Ring.PtyRingBuffer.ReplayFrom | crates/daemon/src/ring.rs:54-69 | a replay, even one that starts beyond the wrap, is the tail of the contents from that offset, and exists exactly inside the window |
| Ring.PtyRingBuffer.Snapshot | crates/daemon/src/ring.rs:71-77 | the start offset and all bytes held, as one window |
| Session.FeedingExtends | crates/daemon/src/terminal_model.rs:200-210 | feeding a chunk extends the fold over everything fed before, and its bytes extend the bytes fed |
| Session.ResizingExtends | crates/daemon/src/terminal_model.rs:240-255 | a resize extends the fold and feeds no bytes |
| Session.TerminalProjection.Ingest | crates/daemon/src/terminal_model.rs:200-210 | the model advances by the chunk, or is gone after a panic and then stays unavailable |
| Session.TerminalProjection.Resize | crates/daemon/src/terminal_model.rs:240-255 | the size is remembered even when the model is lost |
| Session.TerminalProjection.Snapshot | crates/daemon/src/terminal_model.rs:257-265 | a failed inspection keeps the model; any other failure means that it is gone |
| Session.TerminalProjection.Rebuild | crates/daemon/src/terminal_model.rs:267-290 | a rebuilt model has the history of a new terminal of the remembered size that was fed the scrollback and nothing else |
| Session.Session.RecordLocked | crates/daemon/src/session.rs:565-576 | when the locks are released, ring and projection have seen the same bytes; the offset is that after the chunk |
| Session.Session.RecordOutput | crates/daemon/src/session.rs:565-623 | the ring, the broadcast chunk and its offset do not depend on whether the projection failed; a failed projection is rebuilt from all the ring holds, this chunk included, whatever else happens to it before |
| Session.Session.RebuildTerminalFromRing | crates/daemon/src/session.rs:640-660 | two sections: the projection becomes a terminal of the then present size that was fed what the ring held when it was read, the whole stream up to that moment if nothing had been dropped; output in between is in the ring and not in the projection |
| Session.Session.ResizeLocked | crates/daemon/src/session.rs:336-341 | the section on the terminal: the resize enters the projection's history between the bytes before and after it |
| Session.Session.Resize | crates/daemon/src/session.rs:323-346 | a failed resize is followed by a rebuild from the ring as it was after the failure, at the new size unless it is resized again |
| Session.Session.AttachSection | crates/daemon/src/session.rs:241-256 | under the ring lock: exactly the missing bytes inside the window, else offset and screen of one instant, else the raw window and the reason |
| Session.Session.AttachBytes | crates/daemon/src/session.rs:240-276 | inside the window, exactly the missing bytes; otherwise offset and screen describe one instant; under every failure, and whatever output, resizes and rebuilds come between its sections, one of the replies of the handoff protocol, and which bytes |
| Session.RedrawnShows | crates/daemon/src/session.rs:258-270 | a screen drawn again after the model was lost shows the raw window and then the output up to the second drawing, so it may be ahead of the offset returned with it |
| Session.Session.Interfere | crates/daemon/src/session.rs:565-660 | any sections of other threads while the locks are free extend the stream, take the projection where they say, and keep what holds when the locks are free |
| Handoff.ExactlyOnce | crates/daemon/src/forward.rs:11-29 | in every interleaving, restarts of the daemon included, with fewer than 2^64 bytes produced, what a client received since its last cold base is the PTY stream from that base to the offset it remembers |
| Handoff.ForwardKeeps | crates/daemon/src/transport_iroh.rs:690-722 | every forwarded chunk is wholly covered by the attach reply or starts where the client stands; a receiver that fell behind sends one Lag and stops |
| Handoff.AttachReplyFits | crates/daemon/src/session.rs:240-276 | a replay, snapshot or scrollback reply ends at the end of the stream and continues what the client has or starts afresh |
| Handoff.EndIsBoundary | crates/daemon/src/ipc.rs:761-771 | the end of the ring, at which a reply is drawn, never cuts a chunk that will be broadcast |
| Handoff.BoundaryKeeps | crates/daemon/src/session.rs:565-623 | an offset that cut no chunk still cuts none after any step of the session |
| Handoff.LogKeeps | crates/daemon/src/session.rs:565-623 | the broadcast log and the chunk pushed but not yet broadcast carry the stream gapless and in order |
| Handoff.DeliverKeeps | crates/cli/src/attach_loop.rs:140-193 | each frame that the client handles extends its bytes contiguously or starts a new cold base |
| Handoff.RelayedExitIsComplete | crates/daemon/src/session.rs:710-741 | a client told of the exit by its forwarder, or from a session that this daemon evicted, has every byte |
| Handoff.ReportedExitMayTruncate | crates/daemon/src/ipc.rs:785-795 | a concrete run in which the exit reported straight after the attach reply hides the session's only byte |
| Handoff.ReportedExitCompleteIff | crates/daemon/src/ipc.rs:773-795 | in every run, a client told of the exit straight after an attach reply has every byte exactly when the ring's end had not moved since that reply was drawn, and always when the session had exited by then |
| Handoff.RestoredExitCompleteIff | crates/daemon/src/ipc.rs:717-739 | in every run, a client told of the exit from a row loaded at a start has what the row held, and every byte exactly when the row was captured after the last one |
| Handoff.RestoredExitMayTruncate | crates/daemon/src/session.rs:758-762 | a concrete run in which the daemon is started again on a row captured before the session's only byte |
| Handoff.RestartKeeps | crates/daemon/src/ipc.rs:182-191 | what was written to clients before a restart stays right for the stream, and the stored window is the window of what the row had seen |
| Delivery.LagMeansBehind | crates/daemon/src/forward.rs:15-24 | in every run, a `Lag` on a client's wire comes from a turn of its forwarder that found the receiver more than 1024 events behind |
| Delivery.TurnWrites | crates/daemon/src/transport_iroh.rs:700-722 | every other turn writes the next event, a chunk only if the attach reply did not hold it, and stays |
| Delivery.ForwarderStays | crates/daemon/src/transport_iroh.rs:690-722 | in every run, a reply that started a forwarder keeps it running, and the client on the base that it gave, until a reconnect, a restart, or a turn that found itself behind |
| Delivery.ForwardedAll | crates/daemon/src/transport_iroh.rs:690-722 | once such a forwarder has forwarded all that was broadcast and the client has handled it, the client has the whole stream from that base |
| Delivery.CatchesUp | crates/cli/src/attach_loop.rs:117-194 | from every reachable state with no chunk on its way to the channel, a client gets everything by the steps of its own connection, after a lag by attaching again; it is told of the exit exactly if the session has ended |
| Delivery.ReplaysIff | crates/daemon/src/session.rs:240-256 | in every run, an attach is answered with a replay exactly if the client missed no more than the ring holds, else with a screen, or with the window if none could be drawn |
| Delivery.StepLogs | crates/daemon/src/session.rs:565-623 | each chunk, state change and exit goes on the channel once |
| Delivery.TellsOfRow | crates/daemon/src/ipc.rs:717-739 | after a restart, a client that connects again gets the row's scrollback and is told of the exit |
| Decimal.ParseText | crates/daemon/src/terminal_model.rs:644-657 | decimal text parses back to its number |
| Decimal.TextInjective | crates/daemon/src/ipc.rs:1355-1368 | different suffixes have different texts |
| Terminal.ReadNumber | crates/daemon/src/terminal_model.rs:622-657 | the interpreter reads a printed number as that number |
| Terminal.ReadParams | crates/daemon/src/terminal_model.rs:622-642 | it reads a printed list of parameters with sub-parameters as that list |
| Terminal.RunCsi | crates/daemon/src/terminal_model.rs:377-417 | a whole printed control sequence does what its parameters and final byte say |
| Terminal.RunTitle | crates/daemon/src/terminal_model.rs:512-520 | a title sequence sets the title to its text |
| Sgr.PushU16 | crates/daemon/src/terminal_model.rs:644-657 | five digit slots are never underrun; what is appended is the decimal text of the value |
| Sgr.PushJoined | crates/daemon/src/terminal_model.rs:631-642 | sub-parameters are joined by colons |
| Sgr.SgrWriter.PushUnderline | crates/daemon/src/terminal_model.rs:558-568 | one underline parameter at most, in the printer's order of preference |
| Sgr.SgrWriter.PushColor | crates/daemon/src/terminal_model.rs:588-620 | a colour adds the parameters of its form, a default or role colour none |
| Sgr.PushSgr | crates/daemon/src/terminal_model.rs:546-586 | the printed text is one SGR sequence of the list that `SgrRoundTrip` and `SgrParams` are about |
| Sgr.SgrParams | crates/daemon/src/terminal_model.rs:546-586 | between 1 and 23 parameters, the first of which resets the pen |
| Sgr.SgrShows | crates/daemon/src/terminal_model.rs:546-620 | whatever the pen was, the printed parameters leave the same attributes |
| Sgr.StyledIsExact | crates/daemon/src/terminal_model.rs:558-568 | style flags survive exactly when at most one is an underline style |
| Sgr.SgrRoundTrip | crates/daemon/src/terminal_model.rs:546-620 | for any prior pen, the parameters yield exactly the attributes if and only if these are ones that a terminal can hold |
| Snapshot.OccupiedColumns | crates/daemon/src/terminal_model.rs:522-527 | one past the last cell that is not empty |
| Snapshot.PushTitle | crates/daemon/src/terminal_model.rs:512-520 | the title sequence carries the title without the two characters that would end it |
| Snapshot.TitleOfOne | crates/daemon/src/terminal_model.rs:512-520 | of a single character, escape and bell are dropped and any other is kept |
| Snapshot.TitleInParts | crates/daemon/src/terminal_model.rs:512-520 | a title is filtered character by character |
| Snapshot.PrintCell | crates/daemon/src/terminal_model.rs:529-544 | printing a cell puts its glyph and marks in its columns, leaves all others, and moves the cursor past it |
| Snapshot.SetPen | crates/daemon/src/terminal_model.rs:400-404 | after printed attributes the terminal's pen equals the printer's `current_attrs` |
| Snapshot.SkipCell | crates/daemon/src/terminal_model.rs:393-398 | a spacer needs no output: its column is taken already, or stays blank |
| Snapshot.EndRow | crates/daemon/src/terminal_model.rs:407-409 | a finished row shows its occupied cells and blanks beyond, with the pen reset |
| Snapshot.RenderCell | crates/daemon/src/terminal_model.rs:392-406 | one turn of the cell loop extends the row drawn so far and keeps the pen equal to `current_attrs` |
| Snapshot.RenderRow | crates/daemon/src/terminal_model.rs:387-410 | one turn of the row loop adds a complete row |
| Snapshot.RenderSnapshot | crates/daemon/src/terminal_model.rs:377-417 | for every screen in the domain, interpreting the text on a fresh terminal restores mode, title, cursor and every cell below each row's occupied columns, with blanks elsewhere |
| Pairing.PairingManager.BeginPairing | crates/daemon/src/pairing.rs:74-97 | the steps prune and issue of the interleaving machine: the new code is the only one, with a fresh miss budget, and the manager stays in order |
| Pairing.PairingManager.TakeCode | crates/daemon/src/pairing.rs:107-129 | the machine's take step: a known code is used up; an unknown one charges every live code and drops those expired or out of budget |
| Pairing.PairingManager.RegisterRequest | crates/daemon/src/pairing.rs:131-164 | the machine's register step: an unexpired code becomes a request with a waiter, an expired one nothing |
| Pairing.PairingManager.BeginApproval | crates/daemon/src/pairing.rs:99-164 | its steps in a row: a request is left exactly when its code was live, unexpired and its desktop prompt open |
| Pairing.PairingManager.Approve | crates/daemon/src/pairing.rs:183-192 | the steps approve and send: a pending request is answered once, an unknown one refused |
| Pairing.PairingManager.FinishWait | crates/daemon/src/pairing.rs:40-51 | the steps conclude and drop: true only for a request that consumed a code in time and was then approved |
| Pairing.PairingManager.DropWaiter | crates/daemon/src/pairing.rs:53-64 | the machine's drop step, after which the approvals are again exactly the unanswered requests with a live waiter |
| Pairing.OneCodeFewMisses | crates/daemon/src/pairing.rs:74-129 | in every interleaving at most one code is live, has absorbed at most four misses and is gone at the fifth, and no code is consumed twice |
| CodeLife.LiveIff | crates/daemon/src/pairing.rs:74-129 | in every run, the code issued last is live exactly if it was not taken, there were fewer than five misses since, and no prune or miss came after its five minutes; then it has its expiry and its desktop, and no other code is live |
| CodeLife.RightCodeIsTaken | crates/daemon/src/pairing.rs:99-164 | so after up to four misses the right code is taken and used up, with its expiry and its desktop |
| CodeLife.RightCodeMakesRequest | crates/daemon/src/pairing.rs:99-164 | and then it makes a request with a waiter exactly if it has not expired by then |
| CodeLife.OtherCodeMisses | crates/daemon/src/pairing.rs:117-129 | any other code, and the right one when it is live no more, is a miss |
| Pairing.ApprovalsExact | crates/daemon/src/pairing.rs:40-64 | the approvals are exactly the requests with a live waiter that no approve has answered, and wait returns true only for a backed request |
| CodeLife.WaitReturnsAnswer | crates/daemon/src/pairing.rs:40-51 | in every run, `wait` returns true exactly if the desktop answered yes and the answer had been sent |
| Pairing.BackedInOrder | crates/daemon/src/pairing.rs:130-192 | backed means: a code consumed, then this request registered from it with time left, then approved with true |
| PairingCode.NormalizeTwice | crates/protocol/src/code.rs:20-30 | normalizing a code twice is normalizing it once, so both ends may do it |
| PairingCode.NormalizeOne | crates/protocol/src/code.rs:20-32 | dashes and white space go, letters become capitals, I and L become 1 and O becomes 0 |
| PairingCode.NormalizeInParts | crates/protocol/src/code.rs:20-32 | codes are normalized character by character |
| PairingCode.ValidCodesAre | crates/protocol/src/code.rs:34-40 | valid codes are seven characters of Crockford's base 32 |
| PairingCode.AlphabetIsNormal | crates/protocol/src/code.rs:10-30 | codes drawn from the alphabet are left alone by normalization |
| Ceremony.PendingPairingGate.Confirm | crates/mobile-core/src/lib.rs:262-275 | refused after a cancellation or completion |
| Ceremony.PendingPairingGate.RecordDaemonCompleted | crates/mobile-core/src/lib.rs:277-284 | a cancelled attempt cannot complete |
| Ceremony.PendingPairingGate.MarkPersisted | crates/mobile-core/src/lib.rs:286-294 | needs the user's and the daemon's confirmation and no cancellation |
| Ceremony.PendingPairingGate.Persist | crates/mobile-core/src/lib.rs:897-901 | the section of confirm passes exactly when the user confirmed and did not cancel |
| Ceremony.PendingPairingGate.Cancel | crates/mobile-core/src/lib.rs:296-304 | a persisted attempt cannot be cancelled |
| Ceremony.EndToEnd | crates/mobile-core/src/lib.rs:848-922 | in every run, a phone that stored the daemon was confirmed and never cancelled, and before that, in order, a code was consumed, became a request with time left and the very SAS that the phone checked, was approved, and this phone's authenticated id was saved |
| Ceremony.CanPairIff | crates/mobile-core/src/lib.rs:733-787 | the ceremony can succeed for a ticket exactly when its normalized code is well formed, so the end-to-end property is not empty |
| Ceremony.ReadChecksIdentity | crates/daemon/src/transport_iroh.rs:257-310 | a request that names another identity than the transport proved is refused and costs the code nothing; any other is a try of its normalized code |
| Ceremony.PhoneCompares | crates/mobile-core/src/lib.rs:757-784 | the phone goes on exactly if it is told its own SAS, and completes exactly if it is told of completion by the daemon it dialled |
| Ceremony.CancelWorks | crates/mobile-core/src/lib.rs:907-921 | an attempt that has not passed its gate can be cancelled, and then the phone never stores the daemon, whatever follows |
| Ceremony.SasBinds | crates/protocol/src/pairing_security.rs:29-50 | if digests do not collide, equal SAS mean the same normalized code, daemon and phone |
| Ceremony.SavedInOrder | crates/daemon/src/transport_iroh.rs:264-305 | a saved device had its request consumed, registered and approved before, in that order |
| Ceremony.DaemonTellsTruth | crates/daemon/src/transport_iroh.rs:248-320 | an honest phone is told only its own SAS, and completion only after its id was saved |
| Ceremony.PhoneReadingKeeps | crates/mobile-core/src/lib.rs:757-784 | past the first reply, the SAS that the daemon derived is the one that the phone computed |
| Ceremony.StoredNeeds | crates/mobile-core/src/lib.rs:852-903 | every time the phone stored the daemon, confirmation and saving had come before |
| Revocation.NoLostRevocation | crates/daemon/src/ipc.rs:385-440 | in every run, once a removal is announced, a forwarder that ran for the device when its record went has stopped or has an unseen revocation waiting, at every later moment |
| Revocation.RemovedIsRevoked | crates/daemon/src/transport_iroh.rs:663-737 | at every moment, a running forwarder of a device without record has a revocation waiting, unless its removal is still under way |
| Revocation.ServedOnlyIfPaired | crates/daemon/src/transport_iroh.rs:230-240 | every request that needs a pairing is served only after a check, made since it was read, found the device paired |
| Serving.ClosesIff | crates/daemon/src/transport_iroh.rs:225-240 | in every run, a check before the loop or after a read closes the connection exactly if it is paired and its device was not saved, or was removed since |
| Serving.ServedWhilePaired | crates/daemon/src/transport_iroh.rs:230-240 | in every run, a request read on a paired connection whose device is on record when it is checked is found paired and then served, and a stream leaves a forwarder for the device |
| Serving.UnpairedIsNotServed | crates/daemon/src/transport_iroh.rs:377-379 | a request of an unpaired connection that needs a pairing is not served and leaves no forwarder |
| Serving.NothingBlocks | crates/daemon/src/transport_iroh.rs:229-240 | in every run, whatever phase a connection is in, its next move is possible |
| Serving.RecordIff | crates/daemon/src/ipc.rs:373-440 | in every run, a device is on record exactly if the last step that saved or removed it saved it |
| Serving.ConnectsPairedIff | crates/daemon/src/transport_iroh.rs:216-218 | a connection starts paired exactly if its device is on record |
| Serving.PairingPairs | crates/daemon/src/transport_iroh.rs:288-310 | an approved pairing leaves the device on record and the connection paired, with earlier revocations counted as seen |
| Serving.UnpairingUnpairs | crates/daemon/src/transport_iroh.rs:322-330 | a device that unpairs itself loses its record, its pairing and its watcher, and its forwarders are to be told |
| Serving.ForwarderRuns | crates/daemon/src/transport_iroh.rs:456-472 | a run in which a known device gets a running forwarder |
| Serving.ForwarderIsTold | crates/daemon/src/ipc.rs:404-440 | that run, with the device removed: the forwarder has a revocation waiting |
| Serving.OnlyTheRemovedAreTold | crates/daemon/src/ipc.rs:404-409 | in every run, a revocation waits only for watchers of devices whose removal was announced |
| Serving.StartsWithNothingWaiting | crates/daemon/src/ipc.rs:113-118 | a new watcher, and one just marked, has nothing waiting for it |
| Serving.NothingLeaks | crates/daemon/src/ipc.rs:121-132 | in every run, an entry of the registry has a watcher or one whose drop will look after it |
| Revocation.PairedHasWatcher | crates/daemon/src/transport_iroh.rs:732-737 | a paired connection always holds the watcher that a new forwarder clones |
| Revocation.AnnounceReaches | crates/daemon/src/ipc.rs:404-409 | an announcement reaches every watcher of the device |
| Revocation.RemoveIfKeeps | crates/daemon/src/ipc.rs:121-132 | the second half of a drop never deletes an entry that somebody watches |
| Revocation.SubscribeKeeps | crates/daemon/src/ipc.rs:385-404 | a new watcher is on the one channel that the registry holds for its device |
| Revocation.CoveredKeeps | crates/daemon/src/ipc.rs:89-104 | a watcher, cloned ones included, stays covered by the record, a removal under way or a waiting revocation |
| Names.Trim | crates/daemon/src/ipc.rs:1371-1377 | the name without surrounding white space |
| Names.TrimUnique | crates/daemon/src/ipc.rs:1371-1377 | no other cut gives another name |
| Names.Pigeonhole | crates/daemon/src/ipc.rs:1355-1368 | if all suffixes below n are taken there are at least n - 2 reserved names |
| Names.SuffixExists | crates/daemon/src/ipc.rs:1355-1368 | the suffix search finds a free name for every finite set of names, after at most one more try than there are names |
| Names.AutomaticUnique | crates/daemon/src/ipc.rs:1345-1368 | the rule for automatic names picks one name, and a free one |
| Names.Rotation | crates/daemon/src/ipc.rs:1345-1368 | the search takes the eighteen names in their order, starting anywhere, and numbers the first of them |
| Names.RotationMeetsAll | crates/daemon/src/ipc.rs:1345-1347 | it comes to each of them within eighteen tries |
| Names.AutomaticIsClean | crates/daemon/src/ipc.rs:1345-1368 | an automatic name is not empty and holds no control character |
| Names.NameSet.ReserveNewSessionName | crates/daemon/src/ipc.rs:1329-1377 | however the white space around it is cut off: a name with a control character is refused, a blank one replaced by the automatic name, any other reserved as it is if free; on an error nothing is reserved, and no name returned is empty or holds a control character |
| Names.NameSet.ReserveNumbered | crates/daemon/src/ipc.rs:1355-1368 | the unbounded loop ends, with the least free suffix |
| Registry.OpKeeps | crates/daemon/src/ipc.rs:1098-1211 | every operation, also between reserving a name and starting its session, keeps the reserved names exactly those of live, restored and starting sessions, all different |
| Registry.OpKeepsCap | crates/daemon/src/ipc.rs:295-319 | every operation keeps the restored sessions within 256 |
| Registry.RunKeeps | crates/daemon/src/ipc.rs:1098-1302 | so does every history of operations |
| Lifecycle.TablesTellHistory | crates/daemon/src/ipc.rs:1098-1302 | after every history, each session is alive, ended or gone, with the name, mark and activity that the operations on it gave it, and a name is reserved exactly if a session has it or is being spawned with it |
| Lifecycle.MarkedIsNotRestored | crates/daemon/src/ipc.rs:1287-1290 | a session that a kill has marked stays alive or goes for good |
| Registry.KillTwice | crates/daemon/src/ipc.rs:1178-1211 | killing again changes nothing; the name can be reserved anew and nobody else's is freed |
| Registry.CapIsReached | crates/daemon/src/ipc.rs:298 | the cap removes something only from a full table, which stays full |
| Registry.CapMayRemoveTheSession | crates/daemon/src/ipc.rs:1280-1302 | if the cap removes the session that just ended, its name is free and nothing else changes; otherwise that session keeps its name |
| Registry.OldestOf | crates/daemon/src/ipc.rs:299-303 | finds an entry that was active no later than any other |
| Registry.VictimIsOldest | crates/daemon/src/ipc.rs:298-304 | the cap removes something exactly from more than 256 entries, and nothing that was active after another |
| Registry.Registry.Open | crates/daemon/src/ipc.rs:161-221 | the start prunes the stored rows and restores what is left, within the cap; consistent exactly when the names left differ |
| Registry.LoadExact | crates/daemon/src/ipc.rs:182-191 | loading compares no names, so a loaded registry is consistent if and only if the rows' names differ |
| Registry.LoadedKeepsRows | crates/daemon/src/ipc.rs:182-191 | loading restores exactly the readable rows as they were stored and reserves their names |
| Registry.PrunedFits | crates/daemon/src/ipc.rs:173-181 | what pruning leaves is readable and within the cap |
| Registry.Registry.PersistSession | crates/daemon/src/session.rs:743-756 | a live session's row is written, but not that of one that a kill has marked |
| Registry.Registry.CreateSession | crates/daemon/src/ipc.rs:1098-1157 | on success one session with the reserved name, which is as requested but for white space around it, and no other change; on failure, spawning included, no change at all |
| Registry.Registry.KillSession | crates/daemon/src/ipc.rs:1181-1211 | session, restored entry and name go together, or nothing does but the mark of the attempt; the row goes unless deleting it fails; acknowledged only if process and row are gone |
| Registry.Registry.InsertRestoredSession | crates/daemon/src/ipc.rs:295-319 | a full table loses an entry that was active no later than any other, with its row, and its name unless a live session still answers to its id |
| Registry.Registry.EvictNaturallyExited | crates/daemon/src/ipc.rs:1280-1302 | the ended session becomes a restored one with its name, or is the one that the cap removes; a killed or unknown one changes nothing |
| Durable.DuplicateNames | crates/daemon/src/ipc.rs:1189-1203 | a run in which a failed deletion and a new session of the same name make the next start restore two sessions with one name |
| Durable.LateWriteDuplicates | crates/daemon/src/session.rs:743-762 | a run in which every deletion works with no write under way, and no stored name is reserved, ends the same way, for a thread of a session that ended by itself writes its row last |
| Durable.ConsistentIffClean | crates/daemon/src/ipc.rs:182-191 | in every run over any number of starts, late writes included, names are exact and distinct exactly as long as no start finds an orphan row that shares its name with another row |
| Durable.CleanRunsKeep | crates/daemon/src/ipc.rs:295-319 | then also the cap holds throughout, and what is or may be stored of a session that exists carries its name |
| Durable.RestartConsistentIff | crates/daemon/src/ipc.rs:182-191 | one start, after pruning, is within the cap, and consistent exactly when no orphan row among those kept shares its name |
| Durable.StoredTrueKeeps | crates/daemon/src/session.rs:743-773 | rows, rows about to be written, and rows that threads of a session which left the live table may yet write, carry the name of their session as long as it exists |
| Durable.WritesWhatWasCaptured | crates/daemon/src/session.rs:743-773 | a write stores the name and last activity that the session had when its row was captured |
| Durable.PromptRunsStayConsistent | crates/daemon/src/ipc.rs:1199-1203 | if deleting the row of a session that goes works, and comes when no thread can write that row any more, and no spawning fails late, there are no orphans and every start is consistent |
| Durable.GuardedRunsStayConsistent | crates/daemon/src/ipc.rs:1329-1368 | if no name is reserved that something has which is stored or which a thread may yet store, every start is consistent, however many deletions fail and however late rows are written |
| Publish.FreshIff | crates/daemon/src/ipc.rs:257-278 | in every run that has become quiet, however publishes overlapped, the list includes every change exactly when no older list was put up last over a newer one and summaries were taken after the last unannounced change; announced changes are never lost otherwise |
| Publish.StepKeeps | crates/daemon/src/ipc.rs:261-278 | the pending flag is up exactly while its one task is coming; the last announced change is put up, in a publisher's hand, or has its pass coming |
| Publish.Settles | crates/daemon/src/ipc.rs:257-278 | left alone, publishers finish: every run becomes quiet by their own steps |
| Publish.NoOverlapNoOvertaking | crates/daemon/src/ipc.rs:257-259 | without overlapping publishes no older list is ever put up over a newer one |
| Publish.LoadedStart | crates/daemon/src/ipc.rs:182-212 | a daemon that loaded stored sessions is quiet and shows an empty list |
| Publish.SilentChangeIsMissed | crates/daemon/src/session.rs:586-616 | a summary that changes in an unchanged state stays out of the list, with nothing pending |
| Publish.OvertakenRun | crates/daemon/src/ipc.rs:257-259 | two overlapping publishes, the older list put up last, leave a stale list |
| Publish.OverlapMayBeHarmless | crates/daemon/src/ipc.rs:257-259 | the same overlap in the other order loses nothing, so overlap alone is not the condition |
| Retention.KeptCount | crates/daemon/src/persistence.rs:246-288 | exactly min(limit, unexpired readable rows) stay |
| Retention.UnexpiredIffWithinWeek | crates/daemon/src/persistence.rs:250 | a readable row is unexpired exactly for seven days after the session was last active |
| Retention.NewestStay | crates/daemon/src/persistence.rs:266-279 | no session that stays was last active before one that is dropped unexpired |
| Retention.PrunedUnique | crates/daemon/src/persistence.rs:266-279 | unless unexpired rows are equally recent, only one result meets the promise |
| Retention.PruneTwice | crates/daemon/src/persistence.rs:246-288 | pruning again drops nothing |
| Retention.Choose | crates/daemon/src/persistence.rs:268-279 | the loop retains the longest prefix of the sorted rows that is unexpired and within the limit |
| Retention.ReadSorted | crates/daemon/src/persistence.rs:253-266 | every row once, newest first, unreadable rows last |
| Retention.Persistence.PruneSessionsWithLimit | crates/daemon/src/persistence.rs:246-288 | drops every expired or unreadable row and no unexpired one that is newer than a row kept; returns the number removed |
| Retention.Persistence.PruneSessions | crates/daemon/src/persistence.rs:242-244 | the same with the limit of 256 |
| BigEndian.ValueOfBytes | crates/protocol/src/framing.rs:174-188 | a number that fits its width is read back from its big-endian bytes |
| BigEndian.MostSignificantFirst | crates/protocol/src/framing.rs:174-188 | the first byte counts most |
| Framing.WriteFramed | crates/protocol/src/framing.rs:208-255 | for every schedule of short writes the bytes sent are a prefix of the frame, all of it exactly on success; a failure is one of the length exactly when fewer than 4 bytes went out; if every write takes something it succeeds |
| Framing.WriteAll | crates/protocol/src/framing.rs:224-255 | the loop ends and sends the frame's bytes in order, whatever each write takes |
| Framing.WriteRest | crates/protocol/src/framing.rs:226-232 | the buffers of one write are what is left of the frame |
| Framing.ReadFramed | crates/protocol/src/framing.rs:174-205 | the chunked reader consumes exactly what the frame grammar says and decodes its buffer, which grew by one chunk at a time and only after all chunks before had arrived |
| Framing.NeverMoreThanAChunkAhead | crates/protocol/src/framing.rs:190-199 | so the buffer is never more than one chunk longer than what has arrived, whatever length was declared |
| Framing.ReadPayloadInto | crates/protocol/src/framing.rs:190-199 | the loop fills the buffer with exactly the payload, or stops at the first chunk that does not arrive |
| Framing.ReadsGiveMessages | crates/protocol/src/framing.rs:174-205 | reading concatenated frames returns the messages in order and leaves what follows |
| Framing.ParseCutFrame | crates/protocol/src/framing.rs:180-202 | a frame cut short is never a message; the cut says whether length or payload fails |
| Framing.ParseWholeFrame | crates/protocol/src/framing.rs:174-205 | any whole frame is read to its end, whether its payload decodes or not |
| Framing.CapIsExact | crates/protocol/src/framing.rs:186-188 | a declared length above one mebibyte, and no other, is refused as too large, with nothing after it read |
| Framing.CutWriteIsCutRead | crates/protocol/src/framing.rs:174-255 | what a failed write left behind fails its reader in the same class |
| Framing.DecodeEncoded | crates/protocol/src/framing.rs:258-285 | an encoded frame decodes to its message whatever follows it, and every shorter prefix is incomplete |
| Signing.LayoutInjective | crates/protocol/src/signing.rs:62-66 | the length-prefixed layout determines the fields and their number |
| Signing.CanonicalV2Injective | crates/protocol/src/signing.rs:38-67 | equal v2 bytes mean equal audience, method, path, digest, nonce and timestamp, for encoded lengths below 2^64 |
| Signing.WriteFields | crates/protocol/src/signing.rs:62-66 | the loop builds the layout of any fields |
| Signing.CanonicalRequestV2 | crates/protocol/src/signing.rs:38-67 | the bytes are the layout of the seven fields, text in UTF-8 and the body as its digest |
| Signing.RequestReadsBack | crates/protocol/src/signing.rs:38-67 | the canonical bytes are read back as domain, audience, method, path, digest, nonce and timestamp, in this order |
| Utf8.DecodeEncoded | crates/protocol/src/signing.rs:24-29 | lossy decoding undoes encoding |
| Utf8.RecoverableIff | crates/protocol/src/signing.rs:24-29 | bytes are the only ones with their lossy text exactly when that text has no U+FFFD |
| Utf8.MaximalPart | crates/protocol/src/signing.rs:24-29 | what one U+FFFD stands for is the longest part that a character could start with, and at least one byte |
| Signing.UnambiguousIff | crates/protocol/src/signing.rs:24-29 | a v1 text stands for one request, with its raw body, exactly when no field has a newline and the body's lossy text has no U+FFFD |
| Signing.LossyBodiesCollide | crates/protocol/src/signing.rs:19-29 | two pushes without a newline in any field, with different bodies and the same v1 text |
| Signing.LossyExample | crates/protocol/src/signing.rs:24-29 | the lines of one v1 text, in order, with a body of two undecodable bytes |
| Signing.CanonicalV1Injective | crates/protocol/src/signing.rs:24-29 | v1 is injective on requests with one-line methods, paths and nonces, whatever their bodies, as long as these show no U+FFFD |
| Signing.SplitOfHeader | crates/protocol/src/signing.rs:75-101 | splitting a formatted header gives back version and signature, for both versions and every signature |
| Signing.SplitExactly | crates/protocol/src/signing.rs:75-101 | `v1=` and `v2=` declare their versions, other versions are refused, and what declares none is a bare v1 signature |
| Signing.RefusedIffForeign | crates/protocol/src/signing.rs:88-107 | a header is refused exactly when it declares a version other than 1 and 2 |
| Signing.AcceptedMeans | crates/protocol/src/signing.rs:88-101 | what is accepted is a formatted header or a bare v1 signature; what is refused is no formatted header |
| Detach.ScanMeans | crates/cli/src/attach_loop.rs:79-102 | without a detach, forwarded bytes and held prefix are the input; with one, the forwarded bytes are the input before the first armed prefix that a detach key follows |
| Detach.DetachesIff | crates/cli/src/attach_loop.rs:79-102 | the user leaves exactly when a prefix after an even run of prefixes is followed by a detach key |
| Detach.PrefixThenKey | crates/cli/src/attach_loop.rs:79-102 | after plain text, the prefix and `d` or `D` detach; with any other byte both are forwarded |
| Detach.ChunkingIsIrrelevant | crates/cli/src/attach_loop.rs:79-102 | every chunking of the input forwards the same bytes and decides the same |
| Detach.DetachState.Consume | crates/cli/src/attach_loop.rs:79-102 | one call is the scan of its input from the held state |
| AttachLoop.Attachment.RunAttachedLoop | crates/cli/src/attach_loop.rs:197-323 | for every readiness schedule, the batched loop does to terminal, daemon and client what handling one event at a time does, with nothing buffered when it returns |
| AttachLoop.Attachment.Poll | crates/cli/src/attach_loop.rs:223-249 | while a batch is open, a ready message joins it; a return flushes it first |
| AttachLoop.Attachment.Wait | crates/cli/src/attach_loop.rs:255-322 | with nothing buffered, events are handled one by one until a message, a return, or nothing more |
| AttachLoop.Attachment.Select | crates/cli/src/attach_loop.rs:257-320 | each branch of the wait does what the event alone does; only a message leaves output buffered |
| AttachLoop.Attachment.HandleServerMessage | crates/cli/src/attach_loop.rs:326-360 | rendered output joins the buffer and opens a batch |
| AttachLoop.Attachment.HandleKeys | crates/cli/src/attach_loop.rs:276-296 | forwards what the detach key lets through, then says farewell |
| AttachLoop.Attachment.HandleResize | crates/cli/src/attach_loop.rs:304-319 | draws and reports the new size |
| AttachLoop.Attachment.RunAttachSession | crates/cli/src/attach_loop.rs:117-194 | after each lag the client asks again from the position it has seen, on the same terminal and input state |
| AttachLoop.IdleIsIrrelevant | crates/cli/src/attach_loop.rs:223-254 | where the reader had nothing ready, and so how output was batched, leaves no trace |
| AttachLoop.TypedIsForwarded | crates/cli/src/attach_loop.rs:276-303 | unless a write fails, the daemon gets what the detach key lets through of everything typed, and the client leaves only when that says so or the input ends |
| AttachLoop.NothingTypedIsLost | crates/cli/src/attach_loop.rs:276-296 | while the client stays, what it sent and what it holds back are what was typed |
| Attaching.EndsAtFirst | crates/cli/src/attach_loop.rs:223-322 | the loop takes events in order and ends at the first that must end it, with the outcome of that one, unless typed input or a failed write ended it before |
| Attaching.OutcomeIff | crates/cli/src/attach_loop.rs:344-358 | it ends with a lag, an exit, an error or a lost connection exactly if the event taken last says so, and with its code or text |
| Attaching.PositionIsLastEnd | crates/cli/src/attach_loop.rs:335-343 | the position remembered is the end of the last output taken |
| Attaching.TakenIsDrawn | crates/cli/src/attach_loop.rs:304-343 | the terminal shows the renderer's frames of the outputs and sizes taken, in order, and the daemon was told those sizes |
| Attaching.DetachingIsSaid | crates/cli/src/attach_loop.rs:290-299 | a client that detaches says so once, and no other does |
| Attaching.AsksFromLastEnd | crates/cli/src/attach_loop.rs:140-193 | each request after a lag names the end of the last attach reply or output before it |
| Attaching.RoundShows | crates/cli/src/attach_loop.rs:155-193 | a round draws the reply's bytes, whole the first time, and then what it takes |
| Attaching.RefusedEnds | crates/cli/src/attach_loop.rs:151-165 | a reply that is no attach reply of the session ends it with nothing drawn |
| Attaching.SessionGoesOn | crates/cli/src/attach_loop.rs:140-193 | as long as rounds end with a lag, the session goes on with the next |
| Attaching.SessionTypedIsForwarded | crates/cli/src/attach_loop.rs:140-193 | however often the client attaches again, the daemon gets what the detach key lets through of everything typed |

## Left out

- Sockets, QUIC, the async runtime, file permissions, keychain, process control, HTTP and push providers: their outcomes are parameters of the model.
- SHA-256, SAS hex formatting, encryption, bincode, MessagePack and the database: functions with stated laws or parameters.
- The alacritty and vt100 parsers: the projection is an abstract fold, and `Terminal` interprets only the sequences that the printer emits; wrapping keeps no more state than they need.
- UTF-8 outside of signing: snapshot text, titles and names are sequences of characters.
- Cells holding control characters such as tab, and two underline styles at once: outside the domain of the snapshot theorem. Which cells the emulator calls empty is a field of the cell.
- Snapshot.RenderSnapshot: does not restore a pending wrap or the parser's unfinished input, which the printer does not print.
- Growth of the ring's backing store: the array has its full capacity from the start.
- The cached last line, agent states and push notifications of a session: presentation.
- Handoff.ExactlyOnce: assumes fewer than 2^64 bytes, beyond which offsets saturate.
- Closing of a session's channel and aborting a forwarder in the middle of a frame: a lost transport is a `Reconnect` step.
- Checks of a client's size and the shell-only command of mobile clients, made before a session is created.
- Protocol versions, device names, push tokens, last-seen times and the replies to other requests on an iroh connection: they do not touch pairing or watchers.
- The random draw of a pairing code, and expiry of a wait by its timer as a duration: a wait may end at any moment.
- Randomness of request and prompt numbers: counters stand for them.
- Registry.Registry.CreateSession: takes the new session's identifier as fresh, as random identifiers are; `Durable` takes it as fresh among the stored rows, too.
- A kill that lands inside an eviction, after the check for its mark, which brings the killed session back as a restored one; and the summaries of a list read entry by entry: each is one step here.
- Failure to commit the pruning at a start, after which the daemon does not start.
- The order in which equally old rows are pruned or evicted: any of them may go.
- Reading the terminal's keys and size, and rendering of frames: the renderer is a parameter.
