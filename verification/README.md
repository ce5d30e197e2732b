# PwrAgent federation and navigation cores: a Dafny model

PwrAgent instances form a federation: they push files to each other, open remote shells, and show
each other's threads. This project models the state machines and algorithms underneath and proves
what they promise.

| modules | what they model |
|---|---|
| `ResumableBlob`, `BlobSafety`, `BlobResults`, `BlobTorn`, `BlobAnswers`, `BlobDelivery`, `BlobReceiver`, `BlobSender` | resumable file push: receiver memory, receiver disk, sender, and a link that drops |
| `PtyAdmission`, `PtyProgress`, `PtyService` | admission of remote shells against worktree removal, one step per stretch between two awaits |
| `AttentionOrder`, `AttentionTable`, `AttentionConvergence`, `AttentionReducer`, `StableSort` | the Attention order under boundaries and listings that arrive in any order |
| `Noise`, `NoisePattern`, `NoiseObjects`, `NoiseLink`, `FrameCodec` | the Noise IK handshake, the transport after it, and the two framing layers |
| `QueryPages`, `QueryStore`, `QueryEviction`, `QuerySafety`, `QueryResults`, `QueryAnswers`, `QueryStoreObject` | cursor pagination and the bounded cache of query generations |
| `GroupMembers`, `ThreadAncestry` | the graph walks of the navigation projection |
| `ShardFitter`, `ShardOptimum` | fitting test groups to four weighted lanes |
| `PtyResize`, `ControlTail`, `ControlSequences`, `TerminalReplay` | resize pacing, control-sequence resumption, bounded output replay |
| `Wire`, `ReplacementReceiver` | newline-delimited JSON, and paged snapshots |

`Prelude` holds the types that all of them share.

Code that changes things step by step is a class or a method with loops, proved against a
specification function; the theorems are lemmas over that function and over runs of it. Clocks,
random identifiers, file-system calls and callbacks are parameters. What a computation outside the
model provides enters as a hypothesis that a reader can see: `Lawful` (key agreement commutes,
opening inverts sealing), `Faithful` (parsing inverts printing, inflating inverts deflating),
`Serializes` (`true` is no longer than `false`), `Reflexive` (a path lies inside itself),
`InjectiveHash`, `DistinctNames` (different contents are published under different names), and
`Unforged` (an injected frame does not authenticate).

The blob receiver is described by traces: an operation is the sequence of worlds it passes through,
one for each effect a crash or a failing call can follow. A crash keeps the synced bytes of the
partial file, the last renamed sidecar, and any tail no longer than what was ever written.

Run `dafny verify dfyconfig.toml` in this directory to check everything.

## Where the code and its comments differ

- A receiver's cancellation removes a folder recursively. Cut short, it can leave a sidecar without
  its data. `TornExactly` says when, in both directions, `TornRun` is a run that shows it,
  `DurablePrefix` holds exactly otherwise, and `TornIsRefused` says why it does no harm.
- The tail of an unfinished control sequence does not always consume the remainder as control data:
  a string introducer that overflows the 256-unit prefix leaves a bare escape. `Resumes` gives the
  exact condition and `LossyRuns` the inputs.
- The budget of 32 levels for thread groups counts from the first root that reaches a thread. A
  deeper path through something an earlier root has listed already is not refused: `SelectGroup`
  says exactly which paths are, and `RootOrderMatters` gives the inputs.
- The lens root is not the oldest ancestor for chains of more than 32 levels or on cycles, so a
  split lens can then part a thread from its parent. `SharesRoot` gives the exact condition.
- Complete listings do not always converge. `ConvergesExactly` says when they do: unless some
  boundary seen before both still waits after the newer one, which either lists the thread in
  disagreement while the older takes it out, or does not list it while the older settles it.
  `StartedTurnDiverges` and `EndedTurnDiverges` are inputs of both kinds.
- Pagination relies on measuring a page as incomplete before it is closed as complete. That is
  safe because the closed page is no longer; the lemma is `ClosingAssertionHolds`.

## Model

| member | source | states |
|---|---|---|
| BlobReceiver.FederationResumableBlobReceiver.Begin | packages/federation/src/federation-resumable-blob.ts:82-139 | passes through exactly the worlds of the specified begin: identity, room, sidecar and owner checks, other transfers of the content closed, tail dropped, sidecar persisted, transfer opened at the committed offset |
| BlobReceiver.FederationResumableBlobReceiver.Open | packages/federation/src/federation-resumable-blob.ts:125-134 | truncates to the committed offset, persists the sidecar and opens the transfer, in that order |
| BlobReceiver.FederationResumableBlobReceiver.Chunk | packages/federation/src/federation-resumable-blob.ts:141-168 | accepts exactly the chunk expected next, appends it, commits when a window or the file is complete, and marks the transfer on any other chunk |
| BlobReceiver.FederationResumableBlobReceiver.AppendBytes | packages/federation/src/federation-resumable-blob.ts:153-158 | the write loop leaves the file as one write of the whole chunk at its offset would, however many bytes each call takes |
| BlobReceiver.FederationResumableBlobReceiver.Commit | packages/federation/src/federation-resumable-blob.ts:260-264 | sync, then the offset in memory, then the persisted sidecar, each a world of its own |
| BlobReceiver.FederationResumableBlobReceiver.Checkpoint | packages/federation/src/federation-resumable-blob.ts:170-173 | answers received and committed offsets, to the owning peer of a transfer that has not failed and to nobody else |
| BlobReceiver.FederationResumableBlobReceiver.Finish | packages/federation/src/federation-resumable-blob.ts:175-213 | returns a recorded result whose file still exists, otherwise commits, checks the hash and publishes; passes through exactly the specified worlds |
| BlobReceiver.FederationResumableBlobReceiver.Publish | packages/federation/src/federation-resumable-blob.ts:182-211 | links without overwriting, records the result, persists it, closes |
| BlobReceiver.FederationResumableBlobReceiver.Cancel | packages/federation/src/federation-resumable-blob.ts:215-232 | another owner's cancellation changes nothing; otherwise transfers are closed and the folder is removed, entry by entry |
| BlobReceiver.FederationResumableBlobReceiver.Disconnect | packages/federation/src/federation-resumable-blob.ts:234-251 | persists and closes this peer's transfers and no others; once the order in which they close covers them, the peer has none open and the state of each is on disk |
| BlobSafety.DisconnectCloses | packages/federation/src/federation-resumable-blob.ts:239-251 | a disconnect that runs to its end leaves the peer no open transfer, each with its state stored, and the other peers' transfers as they were |
| BlobSafety.TraceKept | packages/federation/src/federation-resumable-blob.ts:82-277 | every world any operation passes through keeps the receiver invariant (committed bytes synced, and a prefix of the source) |
| BlobSafety.AppendPair | packages/federation/src/federation-resumable-blob.ts:141-162 | an accepted chunk keeps a transfer good, and four whole chunks reach exactly the 1 MiB commit boundary |
| BlobSafety.FaultKept | packages/federation/src/federation-resumable-blob.ts:153-167 | an operation that stops at a failing call, with any part of a chunk written, leaves a good receiver |
| BlobSafety.CrashKept | packages/federation/src/federation-resumable-blob.ts:260-277 | a crash at any point, keeping the synced bytes, the last sidecar and any tail, leaves a good receiver |
| BlobSafety.NextKept | packages/federation/src/federation-resumable-blob.ts:82-277 | one step of the receiver, undisturbed, failing or cut short, keeps the invariant |
| BlobSafety.RunKept | packages/federation/src/federation-resumable-blob.ts:51-277 | the invariant holds in every reachable world |
| BlobResults.StepAdvances | packages/federation/src/federation-resumable-blob.ts:82-277 | no step but a cancellation makes a durable committed offset fall back or lose its name |
| BlobResults.RunAdvances | packages/federation/src/federation-resumable-blob.ts:82-277 | the same over any stretch of a run |
| BlobResults.ReceiptFacts | packages/federation/src/federation-resumable-blob.ts:175-213 | after a receipt the named file is published and has the announced size and hash |
| BlobResults.ReceiptIsSource | packages/federation/src/federation-resumable-blob.ts:182-206 | with an injective hash, a published file is the announced source, whatever disturbed the receiver before |
| BlobResults.RepeatedFinish | packages/federation/src/federation-resumable-blob.ts:184-186 | a repeated finish, after lost replies or restarts, gives the same path, size and digest |
| BlobResults.TransferLimit | packages/federation/src/federation-resumable-blob.ts:97-99 | at most four transfers are open in any reachable world |
| BlobAnswers.BeginAnswers | packages/federation/src/federation-resumable-blob.ts:85-121 | a begin is admitted if and only if its identity and owner are well formed, there is room or a transfer of the content to replace, and the folder is new, this owner's or finished, with its committed bytes in place |
| BlobAnswers.BeginChanges | packages/federation/src/federation-resumable-blob.ts:110-134 | an admitted begin opens the transfer at the offset on disk, cuts the partial file there, records its owner, closes every other transfer of the content, and changes nothing else |
| BlobAnswers.ChunkAnswers | packages/federation/src/federation-resumable-blob.ts:141-152 | a chunk is accepted if and only if it is the next 256 KiB, or the rest of the file, of an unfinished transfer, with the announced sizes, count and hash |
| BlobAnswers.ChunkAppends | packages/federation/src/federation-resumable-blob.ts:153-163 | an accepted chunk is appended; at the end of a window or of the file everything is synced and recorded, otherwise nothing is |
| BlobAnswers.ChunkMarks | packages/federation/src/federation-resumable-blob.ts:164-168 | any other chunk marks the transfer and changes nothing else; a chunk for a transfer that is not the peer's, or marked, changes nothing |
| BlobAnswers.FinishPublishes | packages/federation/src/federation-resumable-blob.ts:175-213 | a first finish is answered with a receipt if and only if all bytes are there, have the announced hash, and the publication name is free or holds that file already; then the file is there, the result on disk and the transfer closed, otherwise nothing is published |
| BlobAnswers.FinishRepeats | packages/federation/src/federation-resumable-blob.ts:178-213 | a finish whose recorded file still exists is answered with the same receipt and publishes nothing |
| BlobAnswers.CancelAnswers | packages/federation/src/federation-resumable-blob.ts:215-232 | a cancellation by the owner leaves neither transfer nor folder of the content; anybody else's changes nothing |
| BlobDelivery.StepClear | packages/federation/src/federation-resumable-blob.ts:182-207 | nothing the receiver does, undisturbed, failing or cut short, puts anything else under a publication name of the content |
| BlobDelivery.FinishDelivers | packages/federation/src/federation-resumable-blob.ts:175-213 | with nothing in the way, a finish of the whole file is answered with a receipt |
| BlobTorn.DurablePrefix | packages/federation/src/federation-resumable-blob.ts:49-50 | in every reachable world the durable committed offset is aligned and at most the size; it lies within the synced bytes, and those bytes are the same prefix of the source, exactly unless a cancellation by the owner stopped between removing the data and removing the sidecar, and none has got further since |
| BlobTorn.StepTears | packages/federation/src/federation-resumable-blob.ts:215-232 | the one step that tears a folder and the one that ends it, if and only if: a cancellation by its owner that fails or crashes after the data went and before the sidecar, with something committed |
| BlobTorn.TornExactly | packages/federation/src/federation-resumable-blob.ts:215-232 | at any moment of any run a folder is torn exactly when such a step happened and no later cancellation has removed the sidecar |
| BlobTorn.TornRun | packages/federation/src/federation-resumable-blob.ts:232-232 | a run of three steps that ends torn: one byte is pushed and committed, its owner cancels, and the receiver fails after the data went |
| BlobTorn.TornIsRefused | packages/federation/src/federation-resumable-blob.ts:126-128 | a torn folder is refused at begin, so the exception is never mistaken for data |
| BlobSender.BeginEffect | packages/federation/src/federation-blob-sender.ts:64-75 | a begin opens the transfer at the receiver's durable offset, which is aligned and at most the size |
| BlobSender.ChunkEffect | packages/federation/src/federation-blob-sender.ts:79-93 | a frame sent at the receiver's offset is always accepted, and committed exactly when it ends a window or the file |
| BlobSender.FinishEffect | packages/federation/src/federation-blob-sender.ts:110-115 | a receipt has the announced digest and size and names a file equal to the source |
| BlobSender.OthersKept | packages/federation/src/federation-blob-sender.ts:26-27 | whatever other peers, contents and transfers do in between leaves the sender's transfer untouched |
| BlobSender.SendWindow | packages/federation/src/federation-blob-sender.ts:78-93 | a window is four chunks, or fewer at the end; a window that completes is durable to its end, unless a call failed at the receiver during one of its chunks, and then the receiver refuses everything further for the transfer |
| BlobSender.PerformKept | packages/federation/src/federation-resumable-blob.ts:165-167 | an exchange that fails part-way at the receiver keeps the receiver good and loses nothing durable |
| BlobSender.Barrier | packages/federation/src/federation-blob-sender.ts:95-97 | the checkpoint answers the transfer's offsets unless a chunk failed before it, and never lets the durable offset fall |
| BlobSender.SendFrom | packages/federation/src/federation-blob-sender.ts:77-105 | each acknowledgement has committed = received = the sender's offset, aligned and strictly larger than the one before; the checks on it never fire, and it is refused only after a failing call |
| BlobSender.PushResumableBlob | packages/federation/src/federation-blob-sender.ts:54-124 | over any schedule of drops, failing calls, crashes and restarts that keep the sidecar: the sender's checks never fire, a barrier is refused only after a failing call, acknowledgements strictly grow and their number is bounded by the bytes committed, what was acknowledged stays durable, and a delivered file equals the source. Once the link stays up for one begin, every chunk left, a barrier per window and a finish, the push no longer waits: with nothing in the way of the publication it is delivered, also after drops, unless a begin was not to be admitted |
| BlobSender.FinishPush | packages/federation/src/federation-blob-sender.ts:106-123 | the last exchange delivers the source, always if it arrives with nothing in the way of the publication, or is rejected, or lost its link with everything still durable |
| BlobSender.BeginPush | packages/federation/src/federation-blob-sender.ts:64-75 | the first exchange opens the transfer at the durable offset if and only if it arrives and the begin is to be admitted |
| PtyService.FederationPtyService.SessionCountForPeer | packages/federation/src/federation-pty-service.ts:604-610 | counts exactly the live sessions of the peer |
| PtyService.FederationPtyService.WorktreeAvailable | packages/federation/src/federation-pty-service.ts:646-650 | a directory passes exactly when it lies in no worktree being removed |
| PtyService.FederationPtyService.OpenCalled | packages/federation/src/federation-pty-service.ts:401-413 | a pending open is on record before the opener first yields |
| PtyService.FederationPtyService.Admit | packages/federation/src/federation-pty-service.ts:420-446 | the segment between the first two awaits: refused at the cap, otherwise counted as a spawn in flight with the peer's epoch |
| PtyService.FederationPtyService.CwdResolved | packages/federation/src/federation-pty-service.ts:453-460 | the segment from the resolved directory to the spawn: removal guard and spawn are one step |
| PtyService.FederationPtyService.Land | packages/federation/src/federation-pty-service.ts:461-468 | one spawn fewer in flight, and no counter entry at zero |
| PtyService.FederationPtyService.Spawned | packages/federation/src/federation-pty-service.ts:461-541 | the segment from the spawned shell to registration: killed when disposed, disallowed, of an older epoch or resumed twice |
| PtyService.FederationPtyService.NotifyPeerDisconnected | packages/federation/src/federation-pty-service.ts:612-619 | advances the peer's epoch |
| PtyService.FederationPtyService.RemovalCalled | packages/federation/src/federation-pty-service.ts:661-670 | refused inside a worktree already going; otherwise waits for exactly the opens already resolved inside it |
| PtyService.FederationPtyService.OpensSettled | packages/federation/src/federation-pty-service.ts:671-677 | deletes every session inside the worktree in one segment, or fails the removal when one is spared |
| PtyService.FederationPtyService.EndRemoval | packages/federation/src/federation-pty-service.ts:679-681 | the worktree is available again |
| PtyAdmission.RunKept | packages/federation/src/federation-pty-service.ts:401-682 | over all interleavings at await points: no admitted spawn can slip into a worktree past a removal that does not wait for it |
| PtyAdmission.ExclusiveRemoval | packages/federation/src/federation-pty-service.ts:661-682 | while the work of a removal runs, no registered session is inside the worktree, no spawn in flight can become one, and no other removal works on the same path |
| PtyAdmission.RunCapped | packages/federation/src/federation-pty-service.ts:435-468 | the spawn counter equals the spawns in flight, and sessions plus spawns of a peer stay within 16 |
| PtyAdmission.SessionCap | packages/federation/src/federation-pty-service.ts:435-446 | concurrent opens never exceed 16 sessions and spawns per peer in any reachable state |
| PtyAdmission.RunRegistered | packages/federation/src/federation-pty-service.ts:487-541 | every registered session comes from an open that completed |
| PtyAdmission.LostForever | packages/federation/src/federation-pty-service.ts:469-481 | an open lost to a disconnect stays lost in every continuation |
| PtyAdmission.DisconnectedNeverRegisters | packages/federation/src/federation-pty-service.ts:469-481 | a spawn whose peer disconnected while it was in flight never registers, whatever follows |
| PtyProgress.AdmitsExactly | packages/federation/src/federation-pty-service.ts:418-446 | in every reachable state a waiting open is admitted if and only if shells are allowed, the service is running, and the peer's sessions and spawns in flight are fewer than 16 |
| PtyProgress.SpawnsExactly | packages/federation/src/federation-pty-service.ts:447-462 | a resolved open goes on to spawn if and only if its directory lies in no worktree being removed and shells are still allowed |
| PtyProgress.RegistersExactly | packages/federation/src/federation-pty-service.ts:469-491 | a finished spawn registers its session if and only if the service runs, shells are allowed, the peer has not disconnected since admission, and no session has taken a resumed id |
| PtyProgress.RegistersInTheEnd | packages/federation/src/federation-pty-service.ts:418-541 | over a run: an open below the cap registers its session in the directory it resolved to, whatever else happens, if no removal is under way there when it resolves, its peer stays, the service runs and nobody resumes the same history |
| PtyProgress.RemovalStarts | packages/federation/src/federation-pty-service.ts:660-669 | a removal starts if and only if its path lies in no worktree being removed, and waits for exactly the opens resolved inside |
| PtyProgress.RemovalCloses | packages/federation/src/federation-pty-service.ts:670-676 | then exactly the sessions inside are deleted, except spared ones, with which the removal ends and frees its worktree |
| PtyProgress.DisconnectStales | packages/federation/src/federation-pty-service.ts:612-614 | a disconnect makes every spawn of the peer in flight stale, and no other peer's |
| AttentionReducer.ReconcileNavigationAttentionOrder | packages/owner-core/src/navigation-attention-order.ts:115-185 | the loops over local maps and the rank counter compute the specified reconcile |
| AttentionOrder.ObserveKept | packages/owner-core/src/navigation-attention-order.ts:33-65 | a boundary keeps ranks distinct and below the counter, and members apart from removed keys |
| AttentionOrder.RemoveKept | packages/owner-core/src/navigation-attention-order.ts:68-78 | so does a removal, and the key is no member afterwards |
| AttentionOrder.ReconcileKept | packages/owner-core/src/navigation-attention-order.ts:115-185 | so does a listing, whose counter never goes back |
| AttentionOrder.RunKept | packages/owner-core/src/navigation-attention-order.ts:33-185 | after every sequence of boundaries, removals and listings |
| AttentionOrder.ReplayChangesNothing | packages/owner-core/src/navigation-attention-order.ts:44-45 | a boundary that arrives twice changes nothing the second time |
| AttentionOrder.OldEndIsIgnored | packages/owner-core/src/navigation-attention-order.ts:46-48 | the end of an older turn cannot finish a newer live one |
| AttentionOrder.LateReplayIsIgnored | packages/owner-core/src/navigation-attention-order.ts:7-10 | after any events through which a thread stays a member, a replayed boundary of any earlier turn changes nothing |
| AttentionTable.BoundaryRanks | packages/owner-core/src/navigation-attention-order.ts:42-64 | exactly when a boundary puts its thread above every other: it is new, a turn starts in it while idle or after a known one, a running turn ends and that promotes, or an end arrives of a turn never seen running; otherwise the rank stays, and other members always do |
| AttentionTable.BoundaryMember | packages/owner-core/src/navigation-attention-order.ts:42-64 | exactly when a boundary says something new, and the member it then leaves; otherwise it changes nothing |
| AttentionTable.RemovalTakesOut | packages/owner-core/src/navigation-attention-order.ts:68-78 | a removal takes out its member, remembers when, and changes nothing else |
| AttentionTable.ListedThread | packages/owner-core/src/navigation-attention-order.ts:134-178 | what a listing makes of a listed thread, case by case: left alone when something newer is known, placed when it calls for attention, raised exactly when a turn started or ended in it, kept when a running turn still waits to be listed, and otherwise out |
| AttentionTable.UnlistedThread | packages/owner-core/src/navigation-attention-order.ts:122-129 | a member that a complete listing does not have goes out, unless something newer is known or it awaits its baseline |
| AttentionTable.ListingRecords | packages/owner-core/src/navigation-attention-order.ts:130-184 | which removals a listing leaves on record, and when it counts as the newest |
| AttentionTable.LaterUpdateEndsHigher | packages/owner-core/src/navigation-attention-order.ts:147-164 | of two listed threads that end above every rank there was, the one updated later ends higher; at the same time, the one whose identity comes first |
| AttentionOrder.Membership | packages/owner-core/src/navigation-attention-order.ts:136-175 | exactly who is a member after a listing |
| AttentionOrder.NewerMemberUntouched | packages/owner-core/src/navigation-attention-order.ts:112-113 | a member observed after a listing began passes through it unchanged |
| AttentionOrder.NewerRemovalUntouched | packages/owner-core/src/navigation-attention-order.ts:20-25 | a removal observed after a listing began passes through it unchanged |
| AttentionConvergence.CompleteDecides | packages/owner-core/src/navigation-attention-order.ts:182-184 | after a complete listing everything in the order is at least as new as it |
| AttentionConvergence.OlderListingIsIdle | packages/owner-core/src/navigation-attention-order.ts:123-139 | a listing older than everything in the order changes nothing, ranks and counters included |
| AttentionConvergence.StaleAfterFresh | packages/owner-core/src/navigation-attention-order.ts:115-185 | applying the older of two listings after the newer changes nothing at all |
| AttentionConvergence.AfterListing | packages/owner-core/src/navigation-attention-order.ts:140-178 | what becomes of one key in a listing: placed by the last of its candidates, or kept as it was, or not a member |
| AttentionConvergence.AwaitingStep | packages/owner-core/src/navigation-attention-order.ts:140-167 | a complete listing settles a member that awaits its baseline, takes it out, or leaves the same boundary waiting |
| AttentionConvergence.ArrivalOrderMatters | packages/owner-core/src/navigation-attention-order.ts:115-185 | the arrival order of two complete listings decides whether a key is a member if and only if the key is contested: its boundary was seen before both began, and either the newer disagrees with it while the older takes it out, or the newer does not list it while the older settles it |
| AttentionConvergence.ConvergesExactly | packages/owner-core/src/navigation-attention-order.ts:115-185 | two complete listings give the same member set in either order of arrival if and only if no key is contested between them |
| AttentionConvergence.EitherOrder | packages/owner-core/src/navigation-attention-order.ts:115-185 | so they do when no member awaits its baseline, or only for a boundary seen since the older listing began |
| AttentionConvergence.NewestListingDecides | packages/owner-core/src/navigation-attention-order.ts:26-30 | the same for any number of complete listings in any order: the newest decides |
| AttentionConvergence.StartedTurnDiverges | packages/owner-core/src/navigation-attention-order.ts:165-167 | a contested key after one boundary from the empty order: a turn that started, and two listings whose arrival order matters |
| AttentionConvergence.EndedTurnDiverges | packages/owner-core/src/navigation-attention-order.ts:140-145 | the other family, likewise reachable: a turn that ended, taken out by the older listing only if it arrives last |
| NoiseObjects.CipherState.EncryptWithAd | packages/federation/src/federation-noise.ts:172-185 | seals and advances the nonce, or fails at the last nonce with the state unchanged |
| NoiseObjects.CipherState.DecryptWithAd | packages/federation/src/federation-noise.ts:187-212 | opens and advances the nonce; a failed decrypt leaves the state unchanged |
| NoiseObjects.SymmetricState.Seal | packages/federation/src/federation-noise.ts:241-245 | encrypts under the hash and mixes the ciphertext in |
| NoiseObjects.SymmetricState.Unseal | packages/federation/src/federation-noise.ts:247-251 | decrypts under the hash and mixes the ciphertext in, or changes nothing |
| NoiseObjects.NoiseIKHandshake.SendMessage1 | packages/federation/src/federation-noise.ts:303-313 | writes e, es, s, ss and the payload, with the state the specification leaves at each failure |
| NoiseObjects.NoiseIKHandshake.ReceiveMessage1 | packages/federation/src/federation-noise.ts:316-328 | reads message 1 and learns the initiator's static key |
| NoiseObjects.NoiseIKHandshake.SendMessage2 | packages/federation/src/federation-noise.ts:331-342 | writes e, ee, se and the payload |
| NoiseObjects.NoiseIKHandshake.ReceiveMessage2 | packages/federation/src/federation-noise.ts:345-355 | reads message 2 |
| NoiseObjects.NoiseIKHandshake.Finalize | packages/federation/src/federation-noise.ts:363-375 | splits into a sending and a receiving cipher by role, with the handshake hash |
| Noise.SealOpen | packages/federation/src/federation-noise.ts:241-251 | what one side seals under a shared symmetric state the other opens, and both end in the same state |
| Noise.Message1Agrees | packages/federation/src/federation-noise.ts:302-328 | message 1 read by the pinned responder gives the payload, the initiator's key and the initiator's symmetric state |
| Noise.Message2Agrees | packages/federation/src/federation-noise.ts:330-355 | message 2 gives the payload and leaves both sides in the same symmetric state |
| Noise.Agreement | packages/federation/src/federation-noise.ts:273-375 | a whole handshake: both payloads arrive, the responder learns the initiator's static key, the handshake hashes are equal and the transport keys are crossed |
| NoisePattern.StartsAsIK | packages/federation/src/federation-noise.ts:215-302 | both parties start from the protocol name, the prologue and the responder's static key |
| NoisePattern.Message1Written | packages/federation/src/federation-noise.ts:303-315 | writing the first message is what token-by-token processing of "e, es, s, ss" does: same bytes, same state, same failures |
| NoisePattern.Message1Read | packages/federation/src/federation-noise.ts:316-330 | reading it is what processing the same tokens does |
| NoisePattern.Message2Written | packages/federation/src/federation-noise.ts:331-344 | writing the second message is what processing "e, ee, se" does |
| NoisePattern.Message2Read | packages/federation/src/federation-noise.ts:345-356 | and so is reading it |
| NoisePattern.SplitsAsSpecified | packages/federation/src/federation-noise.ts:362-375 | the transport keys come from the final chaining key alone, and the initiator sends with the first |
| NoiseLink.InOrderDelivery | packages/federation/src/federation-noise.ts:172-212 | any run of sends delivered in order, with failing frames in between, reads exactly what was sent; no nonce is used twice under the direction's key |
| NoiseLink.NoncesAcrossDirections | packages/federation/src/federation-noise.ts:253-260 | across directions a nonce repeats under one key exactly when both directions were given the same key |
| NoiseLink.WireSize | packages/federation/src/federation-noise.ts:371-372 | the announced size of a frame is its sealed size |
| FrameCodec.U32RoundTrip | packages/federation/src/federation-frame-codec.ts:67-70 | a four-byte big-endian length reads back as written |
| FrameCodec.NeverLooksCompressed | packages/federation/src/federation-frame-codec.ts:37-38 | no encoded socket payload begins like a compressed frame |
| FrameCodec.PayloadRoundTrip | packages/federation/src/federation-transport.ts:1811-1921 | decoding inverts encoding for JSON and binary envelopes within the header limit |
| FrameCodec.FrameRoundTrip | packages/federation/src/federation-frame-codec.ts:40-127 | decoding inverts encoding for every frame, compressed, too small to compress, or not worth it |
| FrameCodec.WireRoundTrip | packages/federation/src/federation-transport.ts:1600-1659 | through both layers and the optional cipher the receiver recovers the same envelope; whatever is sent, a receiver with the same limits does not reject |
| FrameCodec.FrameNeverGrows | packages/federation/src/federation-frame-codec.ts:62-65 | a frame is never larger than its payload |
| FrameCodec.UnnegotiatedIsRefused | packages/federation/src/federation-frame-codec.ts:100-104 | a compressed frame is refused where compression was not negotiated |
| FrameCodec.PayloadLayout | packages/federation/src/federation-transport.ts:1811-1832 | the bytes of a binary envelope, which is refused exactly for a header of more than 64 KiB |
| FrameCodec.CompressesExactly | packages/federation/src/federation-frame-codec.ts:40-71 | exactly what is compressed: 4 KiB or more, not known to be dense from its last 4 KiB, and smaller for it; and the bytes of the frame |
| FrameCodec.SendsExactly | packages/federation/src/federation-transport.ts:1600-1659 | a message is sent if and only if its payload, its frame with the tag and the nonce are within their limits; chunks are never compressed |
| FrameCodec.RefusesExactly | packages/federation/src/federation-frame-codec.ts:84-127 | what a receiver makes of every frame, and why it refuses one |
| FrameCodec.DecodesExactly | packages/federation/src/federation-transport.ts:1840-1921 | what a receiver makes of every payload |
| QueryPages.BuildPage | packages/owner-core/src/navigation-query-store.ts:547-628 | the page loop equals the specified greedy page, with each of its refusals |
| QueryPages.ServedPage | packages/owner-core/src/navigation-query-store.ts:547-628 | a served page is a run of the collection within the row and byte limits, stops early only before a row that does not fit, is nonempty unless final, and says complete exactly at the end |
| QueryPages.ClosingAssertionHolds | packages/owner-core/src/navigation-query-store.ts:593-626 | exactly when each error occurs: after one accepted row the closing budget assertion cannot fail |
| QueryPages.WalkReadsOnce | packages/owner-core/src/navigation-query-store.ts:547-628 | following cursors from any start, with any page sizes, reads every row once and in order |
| QueryPages.WalkProceeds | packages/owner-core/src/navigation-query-store.ts:593-603 | each further read serves at least one row or fails on a row too large by itself, so a walk ends |
| QueryEviction.MakesRoom | packages/owner-core/src/navigation-query-store.ts:630-661 | eviction makes room, takes a prefix of its order, and one victim fewer would not have been enough |
| QueryEviction.EvictsOldestSuperseded | packages/owner-core/src/navigation-query-store.ts:642-647 | no current generation goes while a superseded one stays, and none goes while one of its kind accessed earlier stays |
| QuerySafety.StepKeeps | packages/owner-core/src/navigation-query-store.ts:295-445 | each await-free segment keeps the store invariant, with reads split at the index load |
| QuerySafety.RunKept | packages/owner-core/src/navigation-query-store.ts:295-679 | every reachable state retains at most 8 generations and 32 MiB, names only retained generations as current, and keeps nothing of a closed view |
| QueryResults.CompleteServes | packages/owner-core/src/navigation-query-store.ts:353-444 | a page served after its index loaded is an exact cut of its generation, and its cursor names a retained one |
| QueryResults.CursorServes | packages/owner-core/src/navigation-query-store.ts:319-347 | a page served by cursor is an exact cut, at the cursor's offset, of the generation the cursor names |
| QueryResults.CursorAnswered | packages/owner-core/src/navigation-query-store.ts:319-347 | an issued cursor presented by its requester for its query is answered with its page as long as its generation is retained; it expires exactly with the generation, and its page fails only on a row too large by itself |
| QueryResults.ServedPagesHold | packages/owner-core/src/navigation-query-store.ts:295-445 | both, at any moment of any run |
| QueryResults.ChainAddsUp | packages/owner-core/src/navigation-query-store.ts:319-347 | pages read by following cursors through a run of overlapping reads add up to one collection, each row once and in order |
| QueryResults.ClosedViewIsRefused | packages/owner-core/src/navigation-query-store.ts:351-351 | a read in flight when its view closes is refused however its index turns out, and leaves the store as it was |
| QueryAnswers.ReadShowsLoaded | packages/owner-core/src/navigation-query-store.ts:350-445 | a served read shows the index it loaded: its generation has the loaded revision and, when minted by it, the loaded content; it says "same" if and only if the viewer has that revision; otherwise it confirms the held range, or starts at the first row the anchor matches, or at the first row, and holds as many rows as were asked for and fit; a cursor makes its generation the current one |
| QueryAnswers.RunShowsLoaded | packages/owner-core/src/navigation-query-store.ts:350-445 | the same at any moment of any run |
| QueryAnswers.ConfirmsRevision | packages/owner-core/src/navigation-query-store.ts:381-395 | a viewer that has the loaded revision is told so, as long as that page is within the limit |
| QueryAnswers.ConfirmsRange | packages/owner-core/src/navigation-query-store.ts:398-420 | a viewer that holds a range of it has the range confirmed, with a cursor behind it, as long as the page without rows is within the limit |
| QueryAnswers.LoadedRefusals | packages/owner-core/src/navigation-query-store.ts:350-375 | exactly when a loaded read is refused before its page is built |
| QueryAnswers.PageRefusals | packages/owner-core/src/navigation-query-store.ts:398-430 | an anchor is missing if and only if no row matches, a range is invalid if and only if it is not all there |
| QueryAnswers.ReadStarts | packages/owner-core/src/navigation-query-store.ts:295-317 | the first segment: validation, expiry, admission of the view, then cursor or index |
| QueryAnswers.AdmitsViews | packages/owner-core/src/navigation-query-store.ts:304-315 | a view not known yet is admitted as long as there are fewer than 256 lifetimes within their byte budget |
| QueryAnswers.RewrittenCursor | packages/owner-core/src/navigation-query-store.ts:338-343 | a cursor that names a generation of another requester or query is refused, whatever it says of itself |
| QueryAnswers.ExpiresExactly | packages/owner-core/src/navigation-query-store.ts:664-679 | expiry drops exactly what was idle for more than a minute |
| QueryAnswers.ReleasesExactly | packages/owner-core/src/navigation-query-store.ts:448-457 | closing a view drops exactly its own generations and closes its lifetime |
| QueryAnswers.EvictsOnlyWhenFull | packages/owner-core/src/navigation-query-store.ts:630-662 | a new generation evicts none while there are fewer than eight and they fit 32 MiB together; only entries of evicted ones go |
| QueryStoreObject.NavigationQueryStore.ExpireIdle | packages/owner-core/src/navigation-query-store.ts:664-679 | drops lifetimes and generations idle for more than a minute, and the entries that named them |
| QueryStoreObject.NavigationQueryStore.ReleaseAttentionView | packages/owner-core/src/navigation-query-store.ts:448-457 | closes the lifetime and drops the generations of exactly that view |
| QueryStoreObject.NavigationQueryStore.RetainGeneration | packages/owner-core/src/navigation-query-store.ts:630-662 | the eviction loop with its running byte total equals the specified eviction |
| QueryStoreObject.NavigationQueryStore.ReadStart | packages/owner-core/src/navigation-query-store.ts:295-349 | the segment up to the index load: expiry, lifetime admission, and a page by cursor or a pending read |
| QueryStoreObject.NavigationQueryStore.ReadCursor | packages/owner-core/src/navigation-query-store.ts:319-347 | a cursor is checked against requester, query and the retained generation before it is served |
| QueryStoreObject.NavigationQueryStore.ReadFinish | packages/owner-core/src/navigation-query-store.ts:350-445 | the segment after the index load, with unchanged, retained-range, anchor and page answers |
| GroupMembers.GroupWalk.Visit | packages/owner-core/src/navigation-query-projection.ts:817-828 | visits a key and everything below it once, children first, or ends at a path that is too deep or closes a cycle |
| GroupMembers.SelectGroup | packages/owner-core/src/navigation-query-projection.ts:803-831 | lists a group in finishing order, or throws; it throws only on a path of more than 32 levels through nothing an earlier root reaches, and with one parent per thread exactly on those |
| GroupMembers.RootOrderMatters | packages/owner-core/src/navigation-query-projection.ts:815-831 | a chain of 34 threads is listed when its last thread is the first root and refused when its first thread is, although both times it lies below a root |
| GroupMembers.GroupRows | packages/owner-core/src/navigation-query-projection.ts:803-831 | the rows are exactly the ordinary threads reachable from the roots, each once and after all its children |
| GroupMembers.CycleIsRefused | packages/owner-core/src/navigation-query-projection.ts:820-820 | a reachable cycle cannot be listed |
| GroupMembers.OneParentEach | packages/owner-core/src/navigation-query-projection.ts:806-813 | unique identities give every thread one parent |
| GroupMembers.KidsInOrder | packages/owner-core/src/navigation-query-projection.ts:806-813 | the children of a thread are its ordinary threads in inventory order |
| ThreadAncestry.LensRoots.RootOf | packages/owner-core/src/navigation-query-projection.ts:139-159 | the walk of at most 32 levels with its visited set and its memory of roots finds the specified root |
| ThreadAncestry.SharesRoot | packages/owner-core/src/navigation-query-projection.ts:134-138 | exactly when a thread and its parent have one root: it is its own parent, or it is on no cycle and has at most 32 distinct ancestors |
| ThreadAncestry.SubtreeStaysWhole | packages/owner-core/src/navigation-query-projection.ts:757-768 | the pinned and the unpinned half hold every eligible thread once, and within 32 acyclic levels a child is in the same half as its parent |
| ThreadAncestry.TwoCycleIsTorn | packages/owner-core/src/navigation-query-projection.ts:147-155 | in a cycle of two, each thread is filed under the other |
| ThreadAncestry.RootIs | packages/owner-core/src/navigation-query-projection.ts:139-159 | on an acyclic chain the root is its top, or the ancestor 32 levels up |
| ThreadAncestry.AncestryWalk.Add | packages/owner-core/src/navigation-query-projection.ts:856-867 | adds a thread after its ancestors and nothing else; it ends on any parent relation |
| ThreadAncestry.SelectExact | packages/owner-core/src/navigation-query-projection.ts:849-872 | exactly the requested threads and, with ancestry, their ancestors, each once; a parent comes first unless its child is on a cycle |
| ShardFitter.Remainder | scripts/ci/fit-desktop-e2e-shards.py:12-14 | rounding down loses less than one test per lane, so the remainder never runs out of lanes |
| ShardFitter.SizesAddUp | scripts/ci/fit-desktop-e2e-shards.py:11-15 | the lane sizes add up to the test count |
| ShardFitter.SizesAre | scripts/ci/fit-desktop-e2e-shards.py:11-14 | each size is the lane's share rounded down, one more in the first lanes |
| ShardFitter.GroupsByPosition | scripts/ci/fit-desktop-e2e-shards.py:15-22 | a lane holds, in order, exactly the groups whose first test falls into its stretch |
| ShardFitter.Allocate | scripts/ci/fit-desktop-e2e-shards.py:10-22 | allocation equals consecutive groups between the weights' boundaries |
| ShardFitter.Distribute | scripts/ci/fit-desktop-e2e-shards.py:15-22 | each group goes to the first lane whose boundary it starts before, and such a lane exists |
| ShardOptimum.AllocationIsCut | scripts/ci/fit-desktop-e2e-shards.py:39-40 | every allocation by four weights is a partition at three group boundaries, lanes possibly empty |
| ShardOptimum.CountsReproduce | scripts/ci/fit-desktop-e2e-shards.py:40-40 | allocating by the counts of a partition gives back exactly that partition |
| ShardOptimum.RefinedNoWorse | scripts/ci/fit-desktop-e2e-shards.py:48-56 | using all four lanes never costs anything |
| ShardOptimum.FitIsOptimal | scripts/ci/fit-desktop-e2e-shards.py:38-59 | no four weights, including those that leave lanes empty, give a shorter sum of longest lanes than the counts of the best partition |
| ShardOptimum.ScoreIs | scripts/ci/fit-desktop-e2e-shards.py:49-54 | the score is the sum over the platforms of what the longest lane takes, added up from the measured times |
| ShardOptimum.Accumulate | scripts/ci/fit-desktop-e2e-shards.py:41-46 | the prefix lists hold the running counts and durations |
| ShardOptimum.ScoreOf | scripts/ci/fit-desktop-e2e-shards.py:49-54 | the score from prefix differences is the sum of the platforms' longest lanes |
| ShardOptimum.Fit | scripts/ci/fit-desktop-e2e-shards.py:38-59 | fails exactly below four groups; otherwise returns the counts of the first best partition, which reproduce it and are optimal over all weights |
| PtyResize.ClampSettles | packages/federation/src/pty-resize.ts:35-51 | clamped sizes are within bounds and clamping is idempotent, for every number |
| PtyResize.ClampsToNearest | packages/federation/src/pty-resize.ts:35-51 | every dimension becomes the nearest whole number within its bounds, halves going up; the least below them, the greatest above them, and the default for no number |
| PtyResize.RequestDoes | packages/federation/src/pty-resize.ts:149-177 | what a request does in every state: nothing, drop the queued size, queue, apply at once after a quiet interval, or arm a timer for exactly the rest of it |
| PtyResize.FireDoes | packages/federation/src/pty-resize.ts:223-241 | the timer applies the queued size unless there is none or it is in place |
| PtyResize.PtyResizeCoalescer.Request | packages/federation/src/pty-resize.ts:149-177 | one request: dropped, queued, applied or armed |
| PtyResize.PtyResizeCoalescer.TimerFires | packages/federation/src/pty-resize.ts:223-232 | the timer applies what is queued, unless the PTY has it already |
| PtyResize.PtyResizeCoalescer.Forget | packages/federation/src/pty-resize.ts:197-201 | withdraws a recorded size and leaves a newer one alone |
| PtyResize.AlwaysBounded | packages/federation/src/pty-resize.ts:211-222 | however the clock moves, an armed wait is within the interval and a size is queued only behind a timer |
| PtyResize.NothingAfterDispose | packages/federation/src/pty-resize.ts:180-187 | nothing is applied after dispose |
| PtyResize.Spaced | packages/federation/src/pty-resize.ts:169-174 | with a clock that never goes back and timers that never fire early, any two sizes that took effect are at least one interval apart |
| PtyResize.ConsecutiveDiffer | packages/federation/src/pty-resize.ts:203-209 | consecutive applied sizes differ, unless the first was withdrawn |
| PtyResize.HeadsForLast | packages/federation/src/pty-resize.ts:95-98 | while applies succeed, the last size asked for is in place or queued |
| PtyResize.SettlesOnLast | packages/federation/src/pty-resize.ts:95-98 | while applies succeed and nothing is withdrawn or disposed, whenever no timer is armed the applied size is the clamp of the last request |
| ControlTail.TerminalControlTail.Append | packages/federation/src/terminal-control-tail.ts:9-36 | the character loop computes the specified state and the carried tail |
| ControlTail.ChunksDoNotMatter | packages/federation/src/terminal-control-tail.ts:9-10 | the result does not depend on how code points are cut into chunks |
| ControlTail.CarriedIsShort | packages/federation/src/terminal-control-tail.ts:33-35 | the carried tail is at most 257 units, after any input |
| ControlTail.Resumes | packages/federation/src/terminal-control-tail.ts:1-4 | the tail fed to a fresh parser reaches the same mode and prefix exactly when the state is not a string cut at the cap |
| ControlTail.AgreeFromThenOn | packages/federation/src/terminal-control-tail.ts:1-4 | then both agree on all later data |
| ControlTail.LossyDiverges | packages/federation/src/terminal-control-tail.ts:33-33 | and where a string was cut at the cap, they disagree after one more letter |
| ControlTail.LosesAtTheCap | packages/federation/src/terminal-control-tail.ts:25-33 | a string is cut exactly by an introducer after an escape prefix of 256 units |
| ControlTail.LossyRuns | packages/federation/src/terminal-control-tail.ts:21-33 | for an escape and k intermediates before the introducer that is exactly k mod 256 = 255 |
| ControlSequences.SequenceEnds | packages/federation/src/terminal-control-tail.ts:17-32 | an escape sequence ends with its final character and a control sequence with its own; nothing is carried of it |
| ControlSequences.StringEnds | packages/federation/src/terminal-control-tail.ts:12-16 | a string ends with a bell, with ST, or with an escape and a backslash |
| ControlSequences.Cancels | packages/federation/src/terminal-control-tail.ts:18-23 | CAN and SUB cancel a sequence, an escape restarts it, and neither CAN nor SUB ends a string |
| ControlSequences.UnfinishedIsCarried | packages/federation/src/terminal-control-tail.ts:33-35 | of an unfinished sequence within the cap all is carried, of a string only its opening and the escape that might end it |
| TerminalReplay.RawReplay.Append | packages/federation/src/terminal-replay.ts:64-78 | appends, or forgets everything before an oversized write, and drops whole frames to the specified window |
| TerminalReplay.RawReplay.ReadFrom | packages/federation/src/terminal-replay.ts:136-160 | the read loop equals the specified reply for every cursor and limit |
| TerminalReplay.AppendKeeps | packages/federation/src/terminal-replay.ts:64-78 | retained frames are consecutive and end at the latest number, or none, with an exact total within both bounds; no more are dropped than the bounds demand |
| TerminalReplay.ReadFacts | packages/federation/src/terminal-replay.ts:136-160 | a read returns retained frames in order within its limit, advances while there is more, says truncated exactly when it passes a number it does not return, and fails exactly on an invalid cursor |
| TerminalReplay.TruncatedMeansMissing | packages/federation/src/terminal-replay.ts:149-152 | truncated exactly when some passed number is missing from the reply |
| TerminalReplay.AppendedAre | packages/federation/src/terminal-replay.ts:64-78 | the frames after an append, in numbers: the last ones that fit 262144 characters and 4096 frames, as many as possible, and none after a larger write |
| TerminalReplay.LimitIs | packages/federation/src/terminal-replay.ts:139-139 | how much a read may return, for every number asked for |
| TerminalReplay.ReadsAsMuchAsFits | packages/federation/src/terminal-replay.ts:142-158 | a read stops only before a frame that does not fit any more, passes only over one that does not fit by itself, or has nothing left |
| TerminalReplay.ReaderMissesNothingSilently | packages/federation/src/terminal-replay.ts:135-160 | with appends interleaved, every number a reader passes is returned exactly once with its data, or lies in a read flagged as truncated |
| Wire.MessageReader.Data | packages/pwragent/src/wire.js:5-26 | one chunk does what splitting the buffered bytes on newlines says |
| Wire.MessageReader.End | packages/pwragent/src/wire.js:27-29 | the end complains exactly about a buffered partial message of a stream that has not failed |
| Wire.WholeInTwo | packages/pwragent/src/wire.js:8-21 | reading a stream in two parts adds up to reading it whole |
| Wire.ChunksDoNotMatter | packages/pwragent/src/wire.js:2-30 | for every cutting the messages and the failure are those of the whole stream; between chunks the buffer has no newline and is within the limit |
| Wire.SameStreamSameMessages | packages/pwragent/src/wire.js:2-30 | two cuttings of one stream read the same |
| Wire.GoodLinesAreRead | packages/pwragent/src/wire.js:8-21 | lines within the limit that are messages are read as those messages, in order, blank lines as nothing, and the rest as if it were alone |
| Wire.StopsExactly | packages/pwragent/src/wire.js:9-22 | reading stops at a line or an end longer than the limit, or a line that is no message, and at nothing else |
| ReplacementReceiver.FederationReplacementReceiver.Accept | packages/federation/src/federation-replacement-receiver.ts:29-69 | accepts one page as specified, checks in the source's order |
| ReplacementReceiver.FederationReplacementReceiver.Clear | packages/federation/src/federation-replacement-receiver.ts:24-27 | forgets staging and the completed generation |
| ReplacementReceiver.RunKept | packages/federation/src/federation-replacement-receiver.ts:29-69 | what is staged is always the first pages of one generation since its page 0, within the byte budget |
| ReplacementReceiver.SnapshotsAreWhole | packages/federation/src/federation-replacement-receiver.ts:60-68 | a snapshot is the in-order concatenation of pages 0 to total - 1 of one generation as first accepted since its staging began, within 16 MiB and ten seconds |
| ReplacementReceiver.NotTwice | packages/federation/src/federation-replacement-receiver.ts:39-39 | the same generation is not returned again until another completes or clear is called |
| ReplacementReceiver.WholeSetIsReturned | packages/federation/src/federation-replacement-receiver.ts:39-68 | a whole set of pages in order, within the byte budget and ten seconds, is returned as its snapshot with the last page and not before |
| ReplacementReceiver.OtherPages | packages/federation/src/federation-replacement-receiver.ts:30-58 | every other page: what it is answered and what it leaves staged |

## Left out

- BlobSender.PushResumableBlob: chunk frames are handled in the order sent and before the barrier that follows them; frames lost with the link are the schedule's steps between connections. The cancellation sent after a failed push, abort signals, progress reports, the check that the source file did not change on disk, and the shape of transfer ids are not modelled.
- BlobReceiver.FederationResumableBlobReceiver.Begin: the 24-hour expiry, a directory option that changes between calls, file permissions and symbolic-link flags are not modelled; a content key is the triple it hashes.
- BlobReceiver.FederationResumableBlobReceiver.Finish: the copy that replaces a hard link where links are not supported, and the completion callback, are not modelled; a publication is durable once it returns.
- BlobReceiver.FederationResumableBlobReceiver.Cancel: a removal is durable once it returns.
- PtyService.FederationPtyService.Spawned: a spawn is taken to start in the directory it was given. Whether an open is allowed, has a thread id and may resume a saved history is one parameter.
- Remote shells: input, output, flow control, reaping timers, saved history and audit records; a session that ends for any reason is one event.
- AttentionOrder.Membership: which listing fields make a thread live or an inbox item is given per thread; byte budgets of an order are not modelled.
- Noise: the primitives themselves, and any claim of secrecy or of authenticity beyond the `Unforged` hypothesis.
- FrameCodec.WireRoundTrip: JSON text, Brotli and the parsing of each control message are abstract; socket state, backpressure, logging and traffic records are not modelled.
- QueryStoreObject.NavigationQueryStore.ReadStart: request validation covers page size, range and anchor; the other field checks, cursor text encoding, and the exact byte weight of lifetime keys are given. A view lifetime is identified by a number where the source holds an object.
- QueryStoreObject.NavigationQueryStore.ReadFinish: reconciling the view's order, projecting the index and hashing the result are one given outcome, which may fail; an anchor is looked up in the collection the page is cut from.
- GroupMembers.SelectGroup: parent references are taken as resolved; recovery of legacy handoff parents is not modelled.
- ThreadAncestry.SubtreeStaysWhole: which threads a lens admits is given; the sorting of the halves is not modelled. Threads are identified by their identity keys, taken to be unique.
- ShardOptimum.Fit: durations are exact; rounding of floating-point sums is not modelled. The command line and the report are left out.
- PtyResize.SettlesOnLast: assumes that applies succeed and nothing is withdrawn, as the property itself does.
- TerminalReplay.RawReplay.ReadFrom: cursors are integers; a cursor that is no safe integer is refused by the source and not modelled. The headless screen, snapshots and plain reads are left out.
- Wire.MessageReader.Data: a callback that throws from inside a message is not modelled.
- ReplacementReceiver.FederationReplacementReceiver.Accept: the serialized size of a page is given.
- The rest of the projection (row fields, directory labels, filters, search), enrollment, policy and capability tables, worktree and Git handling, the desktop application and its scripts: wide record copying or foreign calls that would add only easy members.
