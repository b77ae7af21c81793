# Verification of the TikTok Live OBS plugin

This project models the stateful core of the plugin in Dafny and proves properties of it that span
whole runs. Code that works by changing fields is a class whose methods are proved to compute
specification functions; the main results are lemmas about those functions. `dafny verify
dfyconfig.toml` checks everything.

| part | files | what it is about |
|---|---|---|
| Signing session | `SeiCodec`, `AnnexB`, `Cadence`, `SignatureCache`, `StreamModel`, `SignatureAge`, `SignedSession` | Metadata messages are framed as SEI NAL units (H.264 sections 7.3.1, 7.3.2.3.1 and 7.4.1, H.265 sections 7.3.1.1 and 7.3.5), put in front of Annex B packets on a periodic schedule, and signed from a bounded cache of prefetched signatures. |
| Signing manager | `SigningModel`, `SigningInvariant`, `SigningRuns`, `NoLapse`, `Lapse`, `SigningManager` | Sessions wait for a first batch, are attached to OBS outputs, pass packets, are refreshed by a timer, rebound and detached, while fetches are in flight. |
| Token store | `CredentialChunks`, `StoreModel`, `EntryNames`, `TokenStore` | A login is committed to a keyring whose single writes can fail: cookie chunks go to the set not in use, and one metadata write switches over. |
| Aitum bridge | `BridgeModel`, `BridgeOutcome`, `AitumBridge` | A polled transaction drives another plugin's dialogs, which may do anything at any time. |
| LIVE creation | `LiveModel`, `LiveCreation` | A room is looked up, created over several hosts with lost replies, and prepared. |
| Device envelope | `Substitution`, `DeviceEnvelope` | A compressed registration is padded, substituted and masked in blocks of 16 bytes. |

`Common` holds shared types. Input, clocks, randomness and replies of other programs are parameters:
a cache and a wall clock come with each packet, an interface with each timer shot, a script of replies
with each request, and every keyring write may fail.

## Where the code does less than it promises

Each of these is proved as a lemma, together with the exact condition, on the input, under which the
code does keep its promise.

- A cookie jar beyond 262,144 bytes is refused, but the chunk count is cast to 32 bits first: a jar of
  more than 2048 * (2^31 - 1) bytes can count 0 chunks or a negative number of them, is accepted, and is
  loaded back cut short; at 2^43 bytes it is loaded back empty (`WrappedJarLoadsEmpty`). The jar is loaded
  back if and only if it is within the limit (`SavedAccountLoads`).
- An update that is requested while `finish` closes the settings dialog replaces the completion that
  `finish` is about to call: the finished update is never completed and the new one is completed in its
  place (`RequestWhileClosingLosesCompletion`). The first update ever requested can be lost so, at its
  second timer shot (`LossIsReachable`). On a run, every request but the one in progress is
  completed exactly once if and only if no timer shot ends an update, closes the dialog and gets a
  request while doing so (`EveryRequestCompletesOnceIff`).
- The comment in `wait_after_save` promises that an editor that stays open is accepted directly after a
  short grace period. The poll count is shared with `find_editor`, so this happens if and only if the
  editor was found within its first eight failed polls (`ForcedIffFoundEarly`).
- `start_live_sync` can create a second room (`MissedLookupCreatesSecondRoom`). It creates at most one if
  and only if its first lookup ends it, or no two of the create requests it makes take effect; after one
  that takes effect it makes another exactly when the reply is lost or rejected without asking for a
  login, and the lookup that follows neither finds a room nor asks for a login (`AtMostOneRoomIff`).
- `start_live_sync` asks for the second stream URL of a dual layout only in rooms it has created. A
  dual-layout call succeeds without one if and only if an otherwise usable room without one was found at
  the start (`DualSucceedsWithoutSecondUrlIff`).
- A stream time below -30,000 ms makes the next selection time negative, which the session takes for
  "not set": a signature can then be used for longer than 40,015 ms (`SomeEpochGoesStale`). Whether it
  is can be told from the packet times alone: every message is signed recently if and only if no packet
  with a signed-current slot due comes 40,015 ms or more into its epoch before 30,000 ms have passed since
  the first such packet of the epoch at or after -30,000 ms (`RecentIffNeverTooOld`). None does when all
  times are at least -30,000 ms (`SignaturesStayRecent`); in an epoch that stays below, every such packet
  that late does (`RecentBelowLimitIff`).
- A packet that fails for want of a signature uses up its due slots without giving out their indices.
  Index and slot stay in step over a packet if and only if no message is due on it, or a signature is
  cached within a second of its wall clock, or none has to be selected (`InStepIffSigned`).
- After two saves that were cut off, one successful save may leave a cookie entry that nothing names
  (`TwoCutSavesLeaveStray` is such a run). It leaves some exactly if the set it does not write held chunks
  beyond those the metadata names (`OneSaveCleansIff`). After a single save that was cut off it leaves none
  (`OneCutSaveIsCleaned`), and a second successful save removes all that any run has left
  (`TwoSavesClean`).
- No packet fails for want of a signature, on any run, if and only if the session and the packet read
  clocks at most 1 s apart, at most 62 s less that difference pass from one tick to the next and on to the
  delivery of a fetch started there, and at most 91 s less the difference if the time a batch at hand waits
  to be handled is added (`NoneFailsIff`). The 30 s timer so leaves 32 s for a fetch, or 31 s when clocks
  are a second apart (`FetchTime`).

## Model

| member | source | states |
|---|---|---|
| `SeiCodec.SeiSizeBytes` | src/sei_metadata.cpp:28-37 | The loop produces the ff_byte coding of the size, which `ReadFfSizeBytes` decodes. |
| `SeiCodec.EscapeRbsp` | src/sei_metadata.cpp:39-54 | The loop produces the emulation-prevented bytes, which `UnescapeEscape` restores and `EscapeIsFree` finds free of start codes. |
| `SeiCodec.BuildH264Sei` | src/sei_metadata.cpp:108-112 | The H.264 builder yields the NAL unit that `SeiRoundTrip` and `NalIsDelimitable` are about. |
| `SeiCodec.BuildHevcSei` | src/sei_metadata.cpp:114-118 | The same for H.265 with its two-byte header. |
| `SeiCodec.UnescapeEscape` | src/sei_metadata.cpp:39-54 | Dropping emulation prevention bytes restores every byte string. |
| `SeiCodec.ReadFfSizeBytes` | src/sei_metadata.cpp:28-37 | A decoder reads every size back and stops exactly behind it. |
| `SeiCodec.SeiRoundTrip` | src/sei_metadata.cpp:108-118 | A decoder that checks the NAL unit type (6 in H.264, 39 in H.265), the payload type and the stop bit recovers every payload, for either codec. |
| `SeiCodec.EscapeIsFree` | src/sei_metadata.cpp:39-54 | After escaping, two zero bytes are never followed by a byte below 3, at any position and after any number of preceding zeros. |
| `SeiCodec.NalIsDelimitable` | src/sei_metadata.cpp:108-118 | No built NAL unit contains 00 00 00, 00 00 01 or 00 00 02, and each ends in the stop byte. |
| `AnnexB.AnnexBNal` | src/sei_metadata.cpp:62-68 | A unit is a four-byte start code and the NAL unit of its codec. |
| `AnnexB.NalsOfUnit` | src/sei_metadata.cpp:62-68 | A byte-stream parser reads a prefixed unit back as exactly that NAL unit, whatever byte stream follows. |
| `AnnexB.PrependPreservesNals` | src/sei_metadata.cpp:276-301 | Units put in front of a packet parse as those units in order, followed by exactly the NAL units of the packet. |
| `AnnexB.InjectionPreservesNals` | src/sei_metadata.cpp:276-301 | A receiver of a replacement packet decodes every injected payload in order from SEI units and then the units of the packet, whose bytes are at the end unchanged. |
| `Cadence.DueIffTargetReached` | src/sei_metadata.cpp:166-181 | The closed-form count of due slots agrees with the targets: a slot is counted exactly when its target time has been reached. |
| `Cadence.EveryTwoSeconds` | src/sei_metadata.cpp:149-181 | Every two seconds of an epoch have the same five messages, 0, 0, 16, 700 and 1000 ms in: reuse, delay, current, reuse and current, with a startup in place of the very first. |
| `Cadence.SlotsPerMaximumGap` | src/sei_metadata.cpp:16-20 | The longest gap that does not restart the schedule spans exactly 25 slots. |
| `SignatureCache.LargestSize` | src/sei_metadata.cpp:85-86 | Eviction keeps at most the limit of keys, and all keys when there are no more. |
| `SignatureCache.DropSmallest` | src/sei_metadata.cpp:85-86 | Erasing the smallest key of an overfull cache does not change which keys are the newest. |
| `SignatureCache.EvictionCommutes` | src/sei_metadata.cpp:79-87 | Evicting between two insertions and evicting only after both keep the same keys. |
| `SignatureCache.CacheRefinesHistory` | src/sei_metadata.cpp:79-87 | After any sequence of merges the cache is the unbounded history, latest valid signature per second, restricted to its 1200 largest seconds. |
| `SignatureCache.MergeIsMonotone` | src/sei_metadata.cpp:79-93 | A merge adds only valid new entries, alters no other entry it keeps, and never lowers the last timestamp. |
| `SignatureCache.NearIsNearest` | src/sei_metadata.cpp:185-202 | The chosen second minimises the distance over the whole cache, the earlier one on ties, and there is none exactly when all are more than a second away. |
| `SignatureCache.LastOf` | src/sei_metadata.cpp:89-93 | The last timestamp is 0 for an empty cache and its greatest key otherwise. |
| `StreamModel.CatchUpBound` | src/sei_metadata.cpp:149-183 | A packet emits at most 25 messages, and the first packet of an epoch exactly Startup and Delay. |
| `StreamModel.NextSelectAfter` | src/sei_metadata.cpp:227-228 | The next selection is the previous one plus whole intervals, and lies within the 30,000 ms after the packet. |
| `StreamModel.RefreshMovesOn` | src/sei_metadata.cpp:219-238 | A refresh leaves the next selection ahead of the packet, by whole intervals, even when no signature is found. |
| `StreamModel.EmitStops` | src/sei_metadata.cpp:277-297 | The first message that cannot be built ends the packet, and later ones change nothing. |
| `StreamModel.EmitNumbers` | src/sei_metadata.cpp:240-243 | The messages of a packet carry consecutive indices and the kinds that were due. |
| `StreamModel.TransformKeepsCoupled` | src/sei_metadata.cpp:245-302 | Every packet, accepted or not and failing or not, leaves exactly the slots counted that were due at the last packet. |
| `StreamModel.InStepIffSigned` | src/sei_metadata.cpp:270-297 | Index and slot stay in step over a packet if and only if it is not unsigned, which its times and the cache tell beforehand. |
| `StreamModel.FailsIffUnsigned` | src/sei_metadata.cpp:204-238 | A packet fails for want of a signature if and only if a message is due on it, none is cached within a second of its wall clock, and one is needed: none is in use, or a signed-current message is due and so is the next selection. It reports an expired cache if and only if one was in use. |
| `StreamModel.EmitFailsIff` | src/sei_metadata.cpp:277-297 | Building the messages of a packet fails exactly if a selection is due among them and nothing can be selected; otherwise the first signed-current message decides the selection for all. |
| `StreamModel.EpochEmitsSchedule` | src/sei_metadata.cpp:149-183 | In every error-free epoch the messages emitted are exactly the ideal schedule up to the time elapsed: none skipped or repeated, message k with index k and the kind of slot k (so one Startup, first), each on the first packet that reaches its slot. |
| `StreamModel.MessagesDescribeTheirPackets` | src/sei_metadata.cpp:278-295 | On every run each message is of the form its kind calls for, and tells the width, the height and the wall clock of the very packet it travels on; a reusing message tells that clock if its selection has none. |
| `StreamModel.AcceptedIff` | src/sei_metadata.cpp:252-270 | Exactly the packets with a start code and positive dimensions join the schedule of a configured session; others leave it alone, with the error that the first failing check calls for. |
| `SignatureAge.RecentIffNeverTooOld` | src/sei_metadata.cpp:219-238 | On every error-free run, across all epoch restarts and for all stream times, every signed-current message carries a signature selected less than 40,015 ms of stream time earlier (30,000 ms once re-selected), with the next selection at most 30,000 ms ahead, if and only if no packet is too old by the packet times alone. |
| `SignatureAge.SignaturesStayRecent` | src/sei_metadata.cpp:219-238 | So it is on every error-free run whose stream times are at least -30,000 ms. |
| `SignatureAge.OnlyCachedSignaturesAreSent` | src/sei_metadata.cpp:204-238 | On every run, failing or not, each message carries a signature that was cached within a second of the wall clock at some packet of the run, and a reusing message the time of that selection. |
| `SignatureAge.NeverReselectsBelowLimit` | src/sei_metadata.cpp:221-224 | While stream times stay below -30,000 ms every message of an epoch uses the signature chosen at its first packet. |
| `SignatureAge.StaleBelowLimit` | src/sei_metadata.cpp:221-224 | An epoch below -30,000 ms that lasts 40,016 ms sends a message with a signature too old: the one of slot 102. |
| `SignatureAge.RecentBelowLimitIff` | src/sei_metadata.cpp:221-224 | An error-free epoch below -30,000 ms keeps its signatures recent if and only if no packet 40,015 ms or more into it has a signed-current slot due. |
| `SignatureAge.SomeEpochGoesStale` | src/sei_metadata.cpp:221-224 | Six concrete packets, 10 s apart from -100 s on and with a signature cached for each, pass without an error and send a signature too old. |
| `SignedSession.SignedSeiSession.constructor` | src/sei_metadata.cpp:77 | A new session is in the reset state with an empty cache. |
| `SignedSession.SignedSeiSession.MergeSignatures` | src/sei_metadata.cpp:79-87 | The cache is the newest 1200 of everything valid ever merged into this session. |
| `SignedSession.SignedSeiSession.InsertValid` | src/sei_metadata.cpp:82-84 | The loop adds exactly the valid signatures of a batch, replacing older ones. |
| `SignedSession.SignedSeiSession.EvictOldest` | src/sei_metadata.cpp:85-86 | The loop keeps exactly the 1200 largest seconds. |
| `SignedSession.SignedSeiSession.CacheLastTimestamp` | src/sei_metadata.cpp:89-93 | Reports the last timestamp of the cache. |
| `SignedSession.SignedSeiSession.SignatureNear` | src/sei_metadata.cpp:185-202 | The two-sided search of the ordered map finds the key that `NearIsNearest` proves nearest. |
| `SignedSession.SignedSeiSession.ResetStream` | src/sei_metadata.cpp:95-106 | Resets every stream field and leaves the cache alone. |
| `SignedSession.SignedSeiSession.JoinEpoch` | src/sei_metadata.cpp:158-165 | A backward time or a gap over 10 s restarts the epoch at the packet, any other packet extends it. |
| `SignedSession.SignedSeiSession.DuePayloads` | src/sei_metadata.cpp:149-183 | The loop ends for every time and returns exactly the slots that became due, counted in closed form. |
| `SignedSession.SignedSeiSession.EnsureSignature` | src/sei_metadata.cpp:204-217 | A signature in use is kept; otherwise one near the wall clock is selected, or nothing changes and an error is reported. |
| `SignedSession.SignedSeiSession.RefreshSignatureIfDue` | src/sei_metadata.cpp:219-238 | The next selection moves on past the packet even when no signature is found, and then an error is reported. |
| `SignedSession.SignedSeiSession.NextIndex` | src/sei_metadata.cpp:240-243 | Each call gives out the next index and changes nothing else. |
| `SignedSession.SignedSeiSession.EmitKind` | src/sei_metadata.cpp:278-295 | Builds the message of one due slot with the signature, dimensions, index and timestamp its kind calls for. |
| `SignedSession.SignedSeiSession.Inject` | src/sei_metadata.cpp:276-297 | The loop produces the units of all due messages in order, or stops at the first that fails. |
| `SignedSession.SignedSeiSession.TransformPacket` | src/sei_metadata.cpp:245-302 | Exactly when messages are emitted a replacement is returned, from which a receiver decodes their texts in order and then the packet; the messages describe that packet. Otherwise none is, with an error exactly for a failure. |
| `SigningInvariant.StepKeepsInv` | src/output_signing_manager.cpp:241-520 | Every handler, every delivery and every packet keeps the manager's invariant, whatever its inputs. |
| `SigningInvariant.EveryRunIsSound` | src/output_signing_manager.cpp:241-520 | On every interleaving of handlers, deliveries and packets, references and callbacks are exactly one per attached session on its own output, no name is both attached and pending, a session is refreshing exactly while it is in one fetch, and no session holds a signature issued for another signer. |
| `SigningInvariant.NothingHeldWhenIdle` | src/output_signing_manager.cpp:371-387 | With nothing attached, no reference and no callback is held. |
| `SigningInvariant.SupersededNeverAttaches` | src/output_signing_manager.cpp:328-355 | Once cancelled, a session is neither attached nor pending at the end of any further run, whatever its fetch delivers. |
| `SigningInvariant.DetachSupersedes` | src/output_signing_manager.cpp:296-299 | Detaching a name, or preparing it again, cancels what was attached or pending under it. |
| `SigningInvariant.PrepareOpens` | src/output_signing_manager.cpp:296-309 | An admitted request with a delivery to come leaves a session that did not exist before waiting under its name. |
| `SigningInvariant.PrepareOpensIff` | src/output_signing_manager.cpp:260-326 | A request opens a session under its name, a blank one standing for the main stream, if and only if the service, OBS and all three ids are there, the output is found, and a fresh batch is at hand or a worker starts; without the former nothing changes at all. |
| `SigningInvariant.PendingUntil` | src/output_signing_manager.cpp:331-364 | A waiting session stops waiting if and only if its first batch arrives or something supersedes its name. |
| `SigningInvariant.UnsupersededAttaches` | src/output_signing_manager.cpp:328-355 | Whatever happens in between, a waiting session that nothing supersedes is attached to the output OBS finds when its valid first batch arrives. |
| `SigningInvariant.AttachedUntil` | src/output_signing_manager.cpp:260-388 | An attached session stays attached exactly until it is detached or an admissible request prepares its name again. |
| `SigningInvariant.DetachAllSupersedes` | src/output_signing_manager.cpp:380-388 | Detaching everything cancels exactly the sessions that were attached or pending, and leaves nothing attached, pending or held. |
| `SigningInvariant.RebindFollowsOutput` | src/output_signing_manager.cpp:241-258 | When streaming starts, the main session has one reference and one callback on the output that OBS reports, or on its own one, and none elsewhere, and starts its schedule afresh. |
| `SigningRuns.SessionsPlayTheirPackets` | src/output_signing_manager.cpp:395-453 | On every run each session carries its stream from packet to packet, whatever handlers come in between: until the first failure, what OBS sends is what the stream model emits for exactly the packets that reached the session since it was opened or restarted; the failure is remembered, and nothing is sent from it on. |
| `SigningRuns.SentIsSchedule` | src/output_signing_manager.cpp:395-453 | So an output that has not failed is sent the ideal schedule of its epoch, slot by slot. |
| `SigningRuns.SharedIsLastSupply` | src/output_signing_manager.cpp:328-355 | On every run the batch at hand for a signer is the last valid one that was delivered for it, as a refresh or to a session that still waited for it. |
| `SigningRuns.OnlyAttachedAreSupplied` | src/output_signing_manager.cpp:467-520 | No step touches the signatures of a session but to merge the batch then at hand for its signer, and only if the session is attached. |
| `NoLapse.MergeCovers` | src/sei_metadata.cpp:79-87 | Merging a complete five-minute batch leaves every second from now to the end of the cache in it: eviction never drops a second still needed. |
| `NoLapse.NextKeepsTimedInv` | src/output_signing_manager.cpp:467-520 | Every handler, every delivery and every second that passes keep each attached session supplied until its next tick or delivery. |
| `NoLapse.FetchTime` | src/output_signing_manager.cpp:211-213 | The 30 s timer keeps a sufficient pace exactly with clocks at most a second apart and 32 s for a fetch, less that difference. |
| `NoLapse.SelectionNeverFails` | src/output_signing_manager.cpp:467-520 | At every sufficient pace, with complete batches for whoever waits for them, every attached session can select a signature at every second of every run, by any clock within the skew; if clocks may be a second apart it has the current second itself cached. |
| `NoLapse.PacketsAreAlwaysSigned` | src/output_signing_manager.cpp:395-442 | So no packet that could pass a session on such a run, by a clock within the skew, fails for want of a signature, whatever packets, rebinds and refreshes came before and however late fetches are that nobody waits for any more. |
| `NoLapse.AnyRequestCanAttach` | src/output_signing_manager.cpp:260-355 | The timing assumptions exclude nobody: at any time and pace any admissible request is attached by some run that meets them. |
| `Lapse.InsufficientPaceFails` | src/output_signing_manager.cpp:467-520 | At every pace that is not sufficient, some run from an idle manager reaches a second at which some packet that passes an attached session fails for want of a signature. |
| `Lapse.NoneFailsIff` | src/output_signing_manager.cpp:467-520 | The sufficient paces are exactly those at which no packet of any run fails for want of a signature. |
| `SigningManager.OutputSigningManager.constructor` | src/output_signing_manager.cpp:209-216 | A new manager holds nothing and its timer is off. |
| `SigningManager.OutputSigningManager.PrepareAndAttach` | src/output_signing_manager.cpp:260-326 | An admissible request supersedes the name and leaves one pending session with one delivery to come; the completion is called at once, negatively, exactly when there is none. |
| `SigningManager.OutputSigningManager.Admit` | src/output_signing_manager.cpp:263-295 | The checks admit exactly the admissible requests, and the probing reference is given back. |
| `SigningManager.OutputSigningManager.Supersede` | src/output_signing_manager.cpp:296-325 | What the name stood for is detached before the new session is opened under it. |
| `SigningManager.OutputSigningManager.OpenSession` | src/output_signing_manager.cpp:297-325 | A fresh shared batch is scheduled for delivery, else a fetch is launched, else the new session is gone again. |
| `SigningManager.OutputSigningManager.BatchIsFresh` | src/output_signing_manager.cpp:174-177 | A batch is fresh exactly when it is valid and its last second is at least 90 s ahead. |
| `SigningManager.OutputSigningManager.FinishInitialPrepare` | src/output_signing_manager.cpp:328-355 | A delivery attaches its session only if it is still the pending one, valid and its output exists; the completion is called exactly for the pending one and says whether it was attached. |
| `SigningManager.OutputSigningManager.Attach` | src/output_signing_manager.cpp:348-353 | The session is supplied, registered and entered, and the timer is on. |
| `SigningManager.OutputSigningManager.CancelPending` | src/output_signing_manager.cpp:359-364 | A session pending under the name is cancelled and forgotten. |
| `SigningManager.OutputSigningManager.DetachSession` | src/output_signing_manager.cpp:365-377 | An attached session is cancelled, its callback and reference are given back, and the last one stops the timer. |
| `SigningManager.OutputSigningManager.Detach` | src/output_signing_manager.cpp:357-378 | Nothing is attached or pending under the normalised name any more. |
| `SigningManager.OutputSigningManager.DetachAll` | src/output_signing_manager.cpp:380-388 | The loops cancel every session, and no reference or callback is left. |
| `SigningManager.OutputSigningManager.CancelAllPending` | src/output_signing_manager.cpp:382-384 | The loop cancels exactly the pending sessions, and none is pending afterwards. |
| `SigningManager.OutputSigningManager.VisitSession` | src/output_signing_manager.cpp:472-483 | A session with more than 60 s left or in a fetch is skipped; a due one is served from a fresh shared batch or marked as waiting. |
| `SigningManager.OutputSigningManager.VisitSessions` | src/output_signing_manager.cpp:470-484 | The loop groups exactly the waiting sessions, by signer. |
| `SigningManager.OutputSigningManager.LaunchGroups` | src/output_signing_manager.cpp:485-519 | One fetch is launched for each waiting signer whose worker starts; the sessions of the others stop waiting. |
| `SigningManager.OutputSigningManager.RefreshDueSessions` | src/output_signing_manager.cpp:467-520 | One tick serves or launches for every due session, in one step of the state machine. |
| `SigningManager.OutputSigningManager.FinishRefreshJob` | src/output_signing_manager.cpp:502-514 | A delivered refresh is shared if valid, ends the waiting of all its sessions, and supplies those still attached. |
| `SigningManager.OutputSigningManager.RebindMainOutput` | src/output_signing_manager.cpp:241-258 | The stream of the main session starts afresh, and the session moves its reference and its callback to the output OBS reports, or keeps both. |
| `SigningManager.OutputSigningManager.SwitchOutput` | src/output_signing_manager.cpp:250-257 | With one reference just acquired, exactly one is given back, also when the output is the same. |
| `SigningManager.OutputSigningManager.PacketCallback` | src/output_signing_manager.cpp:395-453 | A packet gets a replacement exactly when its session has not failed before, its codec is known, OBS has room and messages are due and can be built; what is sent then is what `SessionsPlayTheirPackets` is about, and nothing else of the manager changes. |
| `CredentialChunks.ChunksRoundTrip` | src/credential_chunks.hpp:14-26 | A jar of storable size is cut into non-empty chunks of at most 2048 bytes that join to the jar, at most 128 exactly when it is within 262,144 bytes. |
| `CredentialChunks.CountIsExactUpToLimit` | src/credential_chunks.hpp:18-21 | The 32-bit count is the true count exactly up to 2048 * (2^31 - 1) bytes. |
| `CredentialChunks.CountWraps` | src/credential_chunks.hpp:18-21 | A jar of 2^43 bytes counts 0 chunks. |
| `CredentialChunks.CountedChunksRestore` | src/credential_chunks.hpp:18-26 | Of all jars whose count passes the limit of 128, the counted chunks restore exactly those within the size limit. |
| `EntryNames.NamesAreDistinct` | src/token_store.cpp:16-48 | Within the storage scope of an installation no two secrets of any kind, cookie chunks included, share a keyring name, whatever the profile and account ids contain. |
| `StoreModel.WrappedJarLoadsEmpty` | src/token_store.cpp:165-182 | Any save of a jar of 2^43 bytes that succeeds loads back an empty jar. |
| `StoreModel.FailedSaveLoadsSame` | src/token_store.cpp:151-213 | A save that returns false changes nothing that any account loads. |
| `StoreModel.SavedAccountLoads` | src/token_store.cpp:215-254 | After a successful save the key, the names and the quota load as given, the URL and the version without white space at the ends or as the default, the device as the one registered before if there was one, and the jar if and only if it is within the size limit. |
| `StoreModel.MissingChunkEmptiesJar` | src/token_store.cpp:244-252 | A missing, damaged or empty chunk among those the metadata names empties the jar. |
| `StoreModel.NoMetadataLoadsDefaults` | src/token_store.cpp:215-243 | Without readable metadata a login loads as one that was never saved. |
| `StoreModel.RemovedAccountIsGone` | src/token_store.cpp:256-267 | Where removals work, a removed account loads as one that was never saved, and every other account as before. |
| `StoreModel.SaveKeepsDevice` | src/tiktok_studio_account.hpp:62-70 | No save, whatever it stores and however it ends, changes a registered device. |
| `StoreModel.NoOrphans` | src/token_store.cpp:165-212 | From an empty store, where removals work, no run of completed saves (successful or not) and removes leaves a cookie entry other than those the metadata names. |
| `StoreModel.AlwaysBounded` | src/token_store.cpp:174-182 | Over any run, whatever fails or is cut off and whether or not removals work, cookie entries lie only where removing the account looks for them. |
| `StoreModel.OneSaveCleansIff` | src/token_store.cpp:208-211 | A successful save whose removals work leaves no stray cookie entry if and only if the set it does not write held only chunks that the old metadata names. |
| `StoreModel.OneCutSaveIsCleaned` | src/token_store.cpp:174-211 | A single save that was cut off anywhere, or whose removals failed, is cleaned up after by the next successful save whose removals work. |
| `StoreModel.TwoCutSavesLeaveStray` | src/token_store.cpp:174-211 | After two saves that were cut off it may not be: a concrete run from an empty store, on which every removal works, ends with a stray cookie entry. |
| `StoreModel.TwoSavesClean` | src/token_store.cpp:208-211 | After any run from an empty store, crashes and failed removals included, two successful saves whose removals work leave no stray cookie entry. |
| `StoreModel.DeviceIsSticky` | src/token_store.cpp:158-164 | Once stored, a registered device is what every later load returns, over any saves of any credentials, failing or cut off anywhere, until the account is removed. |
| `TokenStore.TokenStore.constructor` | src/token_store.cpp:71-74 | The run starts from an empty keyring. |
| `TokenStore.TokenStore.SaveCredential` | src/token_store.cpp:50-57 | A keyring write happens as a whole or not at all, and says which. |
| `TokenStore.TokenStore.RemoveCredential` | src/token_store.cpp:64-67 | A removal removes one entry, or possibly nothing where removals are unreliable. |
| `TokenStore.TokenStore.WriteChunks` | src/token_store.cpp:174-182 | At every point only the target set has been touched; on success it holds the jar, on failure nothing new where removals work. |
| `TokenStore.TokenStore.Commit` | src/token_store.cpp:174-206 | Until its last write nothing that can be loaded has changed; on failure nothing has at all. |
| `TokenStore.TokenStore.DropOld` | src/token_store.cpp:208-211 | Cleaning up changes nothing that can be loaded, at any point. |
| `TokenStore.TokenStore.SaveAccount` | src/token_store.cpp:151-213 | A save succeeds if and only if the account has an id, its chunks and its metadata fit, and no keyring write fails. However writes fail and wherever it is cut off, every account loads as before or as after, complete; a false result loads as before, and each state in between is one of the cut-off saves of the store runs. |
| `TokenStore.TokenStore.LoadAccount` | src/token_store.cpp:215-254 | The loop joins the chunks the metadata names; one missing chunk empties the jar rather than cutting it short. |
| `TokenStore.TokenStore.RemoveAccount` | src/token_store.cpp:256-267 | Where removals work, every possible entry of the account is gone; in any case, at every point, nothing is added and no other account is touched. |
| `BridgeModel.FinishedKeepsOnceIff` | src/aitum_bridge.cpp:403-420 | Finishing keeps "every other request completed exactly once" if and only if closing the settings dialog requests no update. |
| `BridgeModel.RequestWhileClosingLosesCompletion` | src/aitum_bridge.cpp:403-420 | If closing the dialog does request an update, the finished one is never completed. |
| `BridgeModel.LossIsReachable` | src/aitum_bridge.cpp:221-289 | On a new bridge a request and two timer shots lead to such a loss. |
| `BridgeModel.ShotMakesProgress` | src/aitum_bridge.cpp:210-401 | Unless it loses a completion, a timer shot completes the update in progress, or leaves it with fewer shots to go and a timer pending, whatever the interface does. |
| `BridgeModel.ShotLoses` | src/aitum_bridge.cpp:210-420 | A timer shot that ends an update while closing the settings dialog requests another loses the completion of the one that ends. |
| `BridgeModel.ShotKeepsLost` | src/aitum_bridge.cpp:186-420 | A lost completion is never called by anything that happens later. |
| `BridgeModel.EveryRequestCompletesOnceIff` | src/aitum_bridge.cpp:186-420 | On every run with requests at any time, also from completions and while dialogs close, each request but the one in progress has been completed exactly once if and only if no shot has lost a completion; then success means that the fields were set and the Save queued. |
| `BridgeModel.UpdateCompletesInTime` | src/aitum_bridge.cpp:292-401 | On every run that loses no completion, an update is completed within its remaining timer shots, at most 604 from its start; the search for the editor and the wait after saving share one budget. |
| `BridgeModel.ForcedIffFoundEarly` | src/aitum_bridge.cpp:375-394 | An editor that stays open is accepted directly if and only if it was found within its first eight failed polls and stays open past the eighth. |
| `BridgeModel.ShotShape` | src/aitum_bridge.cpp:210-401 | A timer shot either finishes the update with the verdict for what it finds, leaving a stray timer exactly if opening the settings has failed, or only moves the update on with a timer pending. |
| `BridgeOutcome.RequestIsBusyIff` | src/aitum_bridge.cpp:186-203 | A request is refused as busy if and only if an update is in progress; otherwise it is the one in progress, with no settings opened and no polls used. |
| `BridgeOutcome.ShotDecides` | src/aitum_bridge.cpp:210-420 | An update ends exactly at a shot that ends it, and its completion is called with the verdict of that shot, or lost. |
| `BridgeOutcome.SucceedsIff` | src/aitum_bridge.cpp:186-420 | An update is completed with success if and only if its timer shots find, in order and within 200 polls each: the settings closed and then opened by it, the output, an editor whose fields take their values and whose Save can be clicked, and that editor gone, with no request made while the settings close; whatever requests and updates come in between or after. |
| `AitumBridge.AitumBridge.constructor` | src/aitum_bridge.cpp:181-184 | A new bridge is idle. |
| `AitumBridge.AitumBridge.UpdateAsync` | src/aitum_bridge.cpp:186-203 | A request is refused as busy at once, or becomes the one in progress with a timer pending; "exactly once" is kept. |
| `AitumBridge.AitumBridge.Finish` | src/aitum_bridge.cpp:403-420 | The stored completion is taken out and called with the given result after the dialog has been closed: exactly once if closing it requests no update, and otherwise the update that ends is lost. |
| `AitumBridge.AitumBridge.FindSettingsDialog` | src/aitum_bridge.cpp:221-246 | A dialog the user has open is never touched; the settings are opened once, on the first poll, and at most 200 polls wait for them. A timer stays pending even when opening them fails and ends the update. Run by a shot in its phase, it makes progress. |
| `AitumBridge.AitumBridge.StartSettings` | src/aitum_bridge.cpp:248-261 | The settings are noted as opened by this update exactly when the click was queued. Run by the first poll and followed by its timer, it makes progress, unless a completion is lost. |
| `AitumBridge.AitumBridge.OpenTargetEditor` | src/aitum_bridge.cpp:263-289 | Moves on with a new poll budget exactly when there is one output tab. Run by a shot that finds the settings dialog, it makes progress, unless a completion is lost. |
| `AitumBridge.AitumBridge.FindTarget` | src/aitum_bridge.cpp:292-317 | At most 200 polls wait for the output to appear, and a vanished settings dialog ends the update. Run by a shot in its phase, it makes progress. |
| `AitumBridge.AitumBridge.FindEditor` | src/aitum_bridge.cpp:319-373 | Only an editor with three fields, both of which took their values, is saved; the polls used up so far are kept for the wait that follows. Run by a shot in its phase, it makes progress. |
| `AitumBridge.AitumBridge.WaitForSave` | src/aitum_bridge.cpp:375-401 | Success exactly when the editor is gone; otherwise it is accepted directly on the ninth poll of the shared budget, and given up when the budget is used up. Run by a shot in its phase, it makes progress. |
| `AitumBridge.AitumBridge.Advance` | src/aitum_bridge.cpp:210-219 | A timer shot takes the step of the current phase: it keeps "exactly once" and makes progress, or loses the completion exactly where the model says so; an update ends with the verdict of the shot. |
| `LiveModel.LookupIsComplete` | src/tiktok_studio_client.cpp:1070-1120 | A lookup finds a room exactly when a host it reaches answers with one, and reports "none" without an error exactly when it gets through all hosts and one denies it. |
| `LiveModel.LookupIsExact` | src/tiktok_studio_client.cpp:1070-1120 | Which room a lookup finds and which failure it reports, from the replies alone: the first room it reaches; a login request that ends it, or the last failure if no host has denied the room. |
| `LiveModel.AtMostOneRoomIff` | src/tiktok_studio_client.cpp:1203-1264 | A call creates no room, or at most one, exactly under a condition on the script: whether its first lookup ends it, and which of the create requests it gets to make take effect. |
| `LiveModel.AtMostOneRoom` | src/tiktok_studio_client.cpp:1203-1264 | For every script of replies, lost ones included, a call creates at most one room more than its lookups missed; with lookups that see what exists at most one, and none if one existed. |
| `LiveModel.CallMissesNoneIff` | src/tiktok_studio_client.cpp:1203-1264 | No lookup of a call misses a room if and only if each lookup that is made while a room exists finds one. |
| `LiveModel.MissedLookupCreatesSecondRoom` | src/tiktok_studio_client.cpp:1251-1259 | The bound is met: a lost reply and a failed recovery lead to a second room. |
| `LiveModel.CallEndsAs` | src/tiktok_studio_client.cpp:1203-1264 | The script alone determines which room a call gets, from which host and whether it counts as new, or which failure it ends with. |
| `LiveModel.LoginStopsCreation` | src/tiktok_studio_client.cpp:1211-1259 | A reply that asks for a login ends creation at its host, and before the first create if the lookup gets it. |
| `LiveModel.SplitRejoins` | src/tiktok_studio_client.cpp:972-980 | An accepted push URL is server, slash and key, neither empty and no slash in the key. |
| `LiveModel.SplitAcceptsIff` | src/tiktok_studio_client.cpp:972-980 | A push URL is accepted exactly when it does not end in a slash and has one behind its first "://" (without one, behind its first two characters). |
| `LiveModel.UsableIffAcceptable` | src/tiktok_studio_client.cpp:1122-1186 | A room can be used if and only if its URLs split, both ids are there, a second URL with non-blank parts is there where needed, the room, the account or some host names an owner, and a heartbeat that is sent is answered; the reason otherwise is the first check that fails, and the owner is the first one named. |
| `LiveModel.SucceedsIff` | src/tiktok_studio_client.cpp:1203-1264 | A call succeeds if and only if its script gets it a room that is acceptable so; it reports a login request or a last failure exactly when the script ends with that. |
| `LiveModel.DualSucceedsWithoutSecondUrlIff` | src/tiktok_studio_client.cpp:1208-1256 | A dual-layout call succeeds without a second stream URL exactly in an otherwise usable room found at its start. |
| `LiveCreation.ContinuableRoom` | src/tiktok_studio_client.cpp:1070-1120 | The host loop finds a room exactly when a host it reaches answers with one. |
| `LiveCreation.StartLive` | src/tiktok_studio_client.cpp:1203-1264 | The create loop ends with the room, login request or last error of the script, and creates no more rooms than its lookups missed, plus one if there was none. |
| `LiveCreation.SplitStreamUrl` | src/tiktok_studio_client.cpp:972-980 | Server and key are non-empty and make up the URL. |
| `LiveCreation.SearchOwner` | src/tiktok_studio_client.cpp:1163-1174 | The owner is the first non-empty one among the hosts that answer. |
| `LiveCreation.PrepareLiveRoom` | src/tiktok_studio_client.cpp:1122-1186 | There is no error if and only if the room is acceptable by its fields and replies. Then ids and owner are known, server and key make up the push URL, and a required second URL is there; the error is the first defect in the order of the checks. |
| `LiveCreation.StartLiveSync` | src/tiktok_studio_client.cpp:1203-1264 | The whole call: it succeeds if and only if its script gets it an acceptable room, then with a usable LIVE, and the bound on created rooms holds in every case. |
| `Substitution.SboxesInvert` | src/tiktok_studio_device.cpp:13-49 | The second table undoes the first on every byte. |
| `DeviceEnvelope.WordsRoundTrip` | src/tiktok_studio_device.cpp:153-163 | The rotations and masks of a block can be undone under every key. |
| `DeviceEnvelope.BlockRoundTrip` | src/tiktok_studio_device.cpp:58-70 | So can a whole block of bytes, read and written in big-endian order. |
| `DeviceEnvelope.BlocksRoundTrip` | src/tiktok_studio_device.cpp:153-163 | So can every sequence of blocks. |
| `DeviceEnvelope.EnvelopeRoundTrip` | src/tiktok_studio_device.cpp:130-165 | Every non-empty compressed registration, of any length, multiples of 16 included, is recovered from its envelope by a receiver that checks the fixed bytes of the header and that every padding byte says how many they are. |
| `DeviceEnvelope.EnvelopeIsInjective` | src/tiktok_studio_device.cpp:130-165 | No two compressed registrations share an envelope. |
| `DeviceEnvelope.Pad` | src/tiktok_studio_device.cpp:136-140 | The padded length is a multiple of 16, with nothing added to one that is already. |
| `DeviceEnvelope.SubstituteInPlace` | src/tiktok_studio_device.cpp:141-142 | The loop substitutes every byte of the buffer, which `SboxesInvert` undoes. |
| `DeviceEnvelope.EncryptPadded` | src/tiktok_studio_device.cpp:153-163 | The loop encrypts every block of the buffer in order. |
| `DeviceEnvelope.Encrypt` | src/tiktok_studio_device.cpp:130-165 | The routine produces the envelope that `EnvelopeRoundTrip` opens. |

## Left out

Contracts stated for fewer cases than one might wish:

- StreamModel.EpochEmitsSchedule: error-free epochs; `AcceptedIff` and `FailsIffUnsigned` say which packets fail, and after the first failure nothing is sent (`SessionsPlayTheirPackets`).
- StoreModel.NoOrphans: keyrings whose removals work, since `SecureStorage::remove` does not report failures to the store; atomicity, stickiness and `AlwaysBounded` hold without that.
- EntryNames.NamesAreDistinct: one storage scope, which an installation sets once; scopes that contain slashes could share names with each other.
- NoLapse.SelectionNeverFails: assumes that workers start, that a fetch some session waits for delivers every second of five minutes, and that the clock does not jump; a fetch nobody waits for may be late or fail, but a refresh that is valid is complete.
- LiveModel.AtMostOneRoom: rooms that other programs create or end during the call are not modelled.
- BridgeModel.UpdateCompletesInTime: runs that lose no completion, as `EveryRequestCompletesOnceIff` describes them; a lost update is never completed.

Modelled as values or parameters:

- Sessions of the signing manager are records in a table, found by identity, rather than heap objects; the signing session inside is its cache and its stream state, and passes packets by the functions that `SignedSession` is proved to compute; what OBS sends is told as messages, and `SignedSession` says what bytes they make.
- GUI-thread handlers and packets are atomic steps, and a fetch is a job delivered by a later step; the mutex around the cache and the thread that runs packet callbacks are not modelled.
- The SHA-256 batch key is represented by the values it is computed from, so hash collisions are left out.
- The output that OBS finds for a name, exactly or ignoring case, is a parameter of each step.
- The JSON text of messages is an arbitrary function of their content, and the JSON text of the account metadata is a record, damaged or whole, with a flag for whether it fits an entry.
- Which error texts mean a stale room or a missing login are flags of a failed reply.
- What each handler of the bridge finds in another plugin's widgets is a parameter; requests from nested event loops are modelled where a dialog is closed and where a completion is called; timer shots inside the event loop that closing a dialog may run are not modelled.
- The compressed registration is an arbitrary byte string, and the key of its envelope an arbitrary key.
- White space is that of ASCII.

Not modelled:

- Quota callbacks, stopping a failed output (`finish_fatal`), the memory layout of packet buffers, and packets of other kinds than the first video track.
- Completions of the signing manager that call back into it.
- HTTP, cookies, the list of hosts, room fields in JSON, the heartbeat loop and `fetch_game_tags`.
- gzip framing, deflate and the CRC; the derivation of the registration key.
- Streamlabs tokens, LIVE credentials and frame-signing credentials beyond their names: single entries without a protocol.
- Docks, dialogs, localisation, provider registry and status polling.
