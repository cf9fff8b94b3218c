# A verified model of the FocotServices cores

The repository is a set of small services around live rooms: a center and agents that collect
chat messages (io-bilive-damaku), a recorder's metrics exporter (io-bilive-recorder), a TCP probe
(io-net-check), a rate-limited request proxy (client-http-proxy) and a converter of recorded chat
(io-bilive-damaku/cmd). Each of them has one stateful core. This project models those cores and
proves what they keep over every run.

| file | what it models |
|---|---|
| Base.dfy | option type and integer widths |
| Sequences.dfy | subsequences, enumerations of sets, sorted strings |
| Keys.dfy | decimal numbers, `strings.Split`, cache keys and their injectivity |
| Rooms.dfy | one reconciliation pass of the center and the agent's side of it |
| RoomProtocol.dfy | reconciliation as a protocol with lost, late and interleaved steps |
| UserMeta.dfy | user records in the agent's cache and in the controller's |
| UserTiers.dfy | both tiers together, with lost messages, expiries and failed writes |
| Medals.dfy | medal records through both caches, with expiries at either |
| AgentMasks.dfy | agent masks, entries made of masks, hit counters |
| Dedup.dfy | duplicate filter, expiry and hit accounting over whole runs |
| Custody.dfy | who holds the pooled message objects |
| Aggregation.dfy | the worker's effect, message by message and over whole histories |
| Controller.dfy | the controller's worker and recycler, on every path |
| Exporter.dfy | one message through the metrics exporter |
| ExporterRuns.dfy | the exporter over whole histories of messages |
| RatioWindow.dfy | the success ratio that every scrape resets |
| ProbeChecker.dfy | rounds, semaphore, wait group and counters of the probe as interleaved steps |
| Scheduler.dfy | task queue, ticker and drain as interleaved steps |
| WashHeader.dfy | the washer's input and the meta data its header elements fill |
| Wash.dfy | the fold of a recording into messages, users and medals |

Code that updates objects in place is modelled by classes whose methods are proved equal to
specification functions; whole runs are then sequences of steps over those functions. Goroutines
are steps that interleave freely.

## Readings of unfinished code

The damaku center is unfinished. Where the code cannot be meant as it stands the model says which
reading it follows:

- io-bilive-damaku/controller.go:393 tests `err == nil` around branches that handle `err != nil`.
  Both readings are modelled (`Dedup.Reading`). `Dedup.ExactlyOnce` shows that as written the first
  report of a key goes back to its pool and every later one is sent; the accounting results use
  the meant test.
- io-bilive-damaku/agent.go:102: the nil test is read as `m.master == nil`, so "" while there is no
  master.
- io-bilive-damaku/agent.go:251 unlocks the manager's lock; read as unlocking the status.
- io-bilive-damaku/agent.go:277 assigns `^AgentReady`; read as clearing that one bit.
- io-bilive-damaku/agent.go:311 and 330 return from the loop; read as continuing with the next message.
- io-bilive-damaku/agent.go:177 and 182 read a status that may not have arrived; the model starts
  with an empty report.
- `roomProvide` and `roomRevoke` (io-bilive-damaku/agent.go:23-24) have no reader; the environment
  changes the desired set.
- io-bilive-recorder/metrics.go:114-198: messages come only from configured nodes, as in
  io-bilive-recorder/metrics.go:97-100.

## Findings

Each condition is exact; where a run or history is named, it shows a failure.

- Reconciliation: while the desired set is fixed, a step can make a right room wrong, namely by
  applying a control that is outdated (`RoomProtocol.StepGrowsIff`). No run makes more rooms wrong
  than there are exactly when every outdated control, travelling or planned, concerns a room that is
  wrong already (`RoomProtocol.DriftNeverGrowsIff`), and a converged agent stays converged exactly
  when there is no outdated control (`RoomProtocol.StaysConvergedIff`). Failing run:
  `RoomProtocol.LateControlBreaks`.
- A pass without losses converges exactly when the report hides no wrong room
  (`Rooms.FullPassConvergesIff`). Failing run: `RoomProtocol.OutdatedReportMisleads`.
- The optimistic update at the end of a pass lists a room twice exactly when a status that arrived
  during the pass lists a room the pass has just added (`Rooms.InterruptedUpdateDupFreeIff`).
  Failing run: `RoomProtocol.ReportListsTwice`.
- User records: the second cache passes changed messages on untouched exactly when no message drops a
  field its stored predecessor had (`UserMeta.TransparentIff`). An agent that does not forget
  guarantees this whatever is lost or expires behind it (`UserTiers.TwoTiersTransparent`); one whose
  entries expire does not (`UserTiers.AgentExpiryBreaks`).
- A failed cache write at the controller loses a change exactly when the record then comes back to
  the stored one (`UserTiers.NoChangeLostIff`). Failing history: `UserTiers.FailedWriteLoses`.
- The first record of a user is published on subject `userInfo`, which the controller does not take
  up, so a user is never an event until an observation differs (`UserTiers.FinalRecordIff`). Failing
  history: `UserTiers.FirstRecordSilent`.
- Medals: the second tier passes everything on exactly when no record repeats the stored one
  (`Medals.SecondTierIff`); with an expiry at the agent it may not (`Medals.ExpiryRepeats`).
- Masks tell agents apart exactly up to 65536 registrations (`Dedup.MasksDistinctIff`).
- As written, the duplicate filter sends exactly the reports that are not the first
  (`Dedup.ExactlyOnce`).
- Objects have one owner throughout a run exactly when every recycled event was held by the consumer
  (`Custody.OwnerOverRun`). Failing run: `Custody.RecycledTwiceBreaks`.
- A room's info series is exported exactly when its labels were renewed after the node's last empty
  message (`ExporterRuns.InfoShownIff`). Failing history: `ExporterRuns.InfoStaysHidden`.
- A family mirrors a node's last message exactly when no room that left it carries the same stamp
  (`ExporterRuns.SnapshotIff`), which increasing times exclude (`ExporterRuns.SnapshotMirror`).
  Failing history: `ExporterRuns.SameStampKeeps`.
- With a positive limit a probe round can always end (`ProbeChecker.RoundCanEnd`); with limit zero one
  that has an address to probe ends only by cancellation (`ProbeChecker.ZeroLimitBlocks`).
- The scheduler can reach Stop exactly in limited mode (`Scheduler.StopReachableIff`).
- Washing merges a record without loss exactly when it has at most one optional field
  (`Wash.SwitchMergesIff`); so a user's level is never listed (`Wash.LevelNeverListed`), and a wealth
  level only from a gift without a face (`Wash.WealthListedIff`).

## Model

| member | source | states |
|---|---|---|
| Keys.ParseFormat | io-bilive-damaku/controller.go:200 | decimal formatting of an unsigned number is undone by parsing |
| Keys.FormatUintInjective | io-bilive-damaku/controller.go:200 | user keys are equal exactly for equal user ids |
| Keys.FormatUintFirst | io-bilive-damaku/controller.go:200 | decimal numbers have no leading zero |
| Keys.ItoaInjective | io-bilive-recorder/metrics.go:121 | decimal room ids, negative ones included, are equal exactly for equal ids |
| Keys.SplitJoin | io-bilive-damaku/controller.go:418 | splitting at a separator undoes joining parts that do not contain it |
| Keys.KeyRoundTrip | io-bilive-damaku/controller.go:417-422 | splitting an entry's key recovers all the parts it was built from |
| Keys.Categories | io-bilive-damaku/controller.go:417-422 | the category recovered at release is "damaku", "gift", "guard" or "superChat" exactly for a message of that kind |
| Keys.DamakuKeyFormat | io-bilive-damaku/controller.go:264-265 | a danmaku's key is "damaku", room, user and time, in this order, separated by colons |
| Keys.GiftKeyFormat | io-bilive-damaku/controller.go:282-283 | a gift's key is "gift" and its number |
| Keys.GuardKeyFormat | io-bilive-damaku/controller.go:300-301 | a guard's key is "guard", user and time |
| Keys.SuperChatKeyFormat | io-bilive-damaku/controller.go:318-319 | a super chat's key is "superChat", user and time |
| Keys.DedupKeyInjective | io-bilive-damaku/controller.go:264-319 | two messages have the same duplicate key exactly when they have the same type and identity fields |
| Keys.MedalKeyInjective | io-bilive-damaku/controller.go:154 | medal keys are equal exactly for equal user and room |
| Keys.MedalKeyFormat | io-bilive-damaku/controller.go:154 | a medal's key is user and room in decimal, separated by a colon |
| Rooms.Agent.Action | io-bilive-damaku/agent/agent.go:233-239 | an applied control adds or removes its one room |
| Rooms.Agent.Report | io-bilive-damaku/agent/agent.go:176-184 | the report lists every watched room exactly once, whatever order the range takes |
| Rooms.AgentManager.Request | io-bilive-damaku/agent.go:217-220 | a failed request may or may not have been applied; only an answered one succeeds |
| Rooms.AgentManager.OnInfo | io-bilive-damaku/agent.go:313-320 | an info message of a known agent resets every condition bit, keeps the report and renews the update time |
| Rooms.AgentManager.OnStatus | io-bilive-damaku/agent.go:332-339 | a status replaces the report whole, makes the agent initialized and ready, keeps the sync bit and renews the update time |
| Rooms.AgentManager.MasterAgent | io-bilive-damaku/agent.go:98-107 | the master's id, "" while there is none |
| Rooms.AgentManager.Diff | io-bilive-damaku/agent.go:171-186 | rooms to add and to delete, in the order they are met |
| Rooms.AgentManager.SendAll | io-bilive-damaku/agent.go:211-231 | a failed control does not stop the ones after it |
| Rooms.AgentManager.SyncAgent | io-bilive-damaku/agent.go:170-252 | a pass sends exactly the plan to an agent that is initialized and ready, and nothing to one that lacks either, and leaves the updated report, condition, update time and master on both paths |
| Rooms.OnePassPlan | io-bilive-damaku/agent.go:171-231 | an add for exactly the desired rooms not reported, a delete for exactly the reported rooms not desired, no room twice |
| Rooms.UpdatedReport | io-bilive-damaku/agent.go:232-242 | the optimistic update leaves exactly the desired rooms, without duplicates if there were none |
| Rooms.InterruptedUpdateDupFreeIff | io-bilive-damaku/agent.go:232-242 | with a status arriving during the pass, duplicates appear exactly for rooms it lists that the pass just added |
| Rooms.DeliverDrift | io-bilive-damaku/agent.go:211-231 | controls that agree with the desired set remove exactly the rooms they reach from the disagreement, whatever is lost |
| Rooms.FreshPassDrift | io-bilive-damaku/agent.go:170-252 | after a pass on an up-to-date report the agent is wrong on exactly the rooms whose control was lost |
| Rooms.FullPassConvergesIff | io-bilive-damaku/agent.go:170-252 | a pass without losses makes the agent watch the desired rooms if and only if every wrong room was visible in the report |
| RoomProtocol.PotentialNeverGrows | io-bilive-damaku/agent.go:170-339 | no step of center, agent or network increases wrong rooms plus outdated controls, nor the outdated controls alone |
| RoomProtocol.PotentialOverRun | io-bilive-damaku/agent.go:170-339 | the same over every run with a fixed desired set and no agent restart |
| RoomProtocol.DriftOverRun | io-bilive-damaku/agent.go:170-339 | without outdated controls the set of wrong rooms only shrinks, in every interleaving with stale reports, losses and further passes; the exact condition is DriftNeverGrowsIff |
| RoomProtocol.StepGrowsIff | io-bilive-damaku/agent.go:170-339 | a step with the desired set fixed makes more rooms wrong if and only if it applies an outdated control to a room that is right |
| RoomProtocol.DriftNeverGrowsIff | io-bilive-damaku/agent.go:170-339 | from any state, no run with a fixed desired set and no agent restart makes more rooms wrong if and only if every outdated control concerns a room that is wrong already |
| RoomProtocol.StaysConvergedIff | io-bilive-damaku/agent.go:170-339 | a converged agent stays so in every run with a fixed desired set and no agent restart if and only if no control underway or planned contradicts the desired set |
| RoomProtocol.LateControlBreaks | io-bilive-damaku/agent/agent.go:215-243 | a run from the start to a converged state in which a late control undoes convergence |
| RoomProtocol.ReportListsTwice | io-bilive-damaku/agent.go:232-242 | a run from the start after which the cached report lists a room twice |
| RoomProtocol.OutdatedReportMisleads | io-bilive-damaku/agent.go:170-252 | a run from the start to a ready agent without its room whose report makes the plan empty |
| RoomProtocol.ConditionOverRun | io-bilive-damaku/agent.go:124-160 | over every run the ready bit is set exactly if the last of status, info message and expiry was a status, and the initialized bit exactly if the last of status, info message and initialization was no info message |
| RoomProtocol.NoPassBeforeReport | io-bilive-damaku/agent.go:187-210 | between an info message or an expiry and the next pass there is always a status |
| RoomProtocol.FirstPassNeedsReport | io-bilive-damaku/agent.go:187-210 | from the start no pass begins before a status has been received, initialized or not |
| RoomProtocol.SyncedStepIff | io-bilive-damaku/agent.go:191-197 | the synced bit is set by the end of a pass and lost exactly to an info message or to a pass that finds the report different from the desired rooms |
| RoomProtocol.PassIsARun | io-bilive-damaku/agent.go:170-252 | the uninterrupted pass is one of the protocol's runs and has exactly the effect of SyncAgent |
| RoomProtocol.Converges | io-bilive-damaku/agent.go:170-339 | from any state between passes a fresh status and a pass without losses lead to the desired rooms and a correct report |
| RoomProtocol.EveryRunConverges | io-bilive-damaku/agent.go:170-339 | after a pass starts on an up-to-date report with no outdated control underway, in every interleaving without a change of the desired set or an agent restart the agent is wrong only where a control is underway or was lost; with neither it has converged |
| UserMeta.MetaIndexer.SyncMeta | io-bilive-damaku/agent/agent.go:553-568 | the record is published and cached under the key, each unless that call fails |
| UserMeta.MetaIndexer.Index | io-bilive-damaku/agent/agent.go:571-606 | one observation is suppressed, published as first record, or filled up from the cache and published; with failing publish or cache write |
| UserMeta.MetaIndexer.IndexAll | io-bilive-damaku/agent/agent.go:569-606 | cache and stream after any sequence of observations; with failing publications what is left of the stream |
| UserMeta.Subjects | io-bilive-damaku/agent/agent.go:574-606 | the first record published of a user goes to "userInfo", every later one to "userInfoMeta" |
| UserMeta.AgentCacheIsFold | io-bilive-damaku/agent/agent.go:571-606 | the cached record is the last name and the last present face, level and wealth level observed for the user |
| UserMeta.ControllerCacheIsLatest | io-bilive-damaku/controller.go:192-245 | the controller remembers the last stored message of a user as it came, unless it expired |
| UserMeta.EventFields | io-bilive-damaku/controller.go:222-245 | over every sequence of arrivals, a message equal to the stored one is no event, any other is one event with its id and name and, field by field, its own optional value if present, else the stored one |
| UserMeta.TransparentIff | io-bilive-damaku/controller.go:192-245 | events are the messages that differ from the stored one, untouched, if and only if no message drops a field its stored predecessor had; with any expiries and failed writes |
| UserTiers.SentIsUpdates | io-bilive-damaku/agent/agent.go:571-606 | the updates published are the folds of the observations at the points where an observation differs from the record |
| UserTiers.SentGrows | io-bilive-damaku/agent/agent.go:595-606 | later messages of a user carry every field earlier ones had, and each is the fold of the observations up to some point |
| UserTiers.TwoTiersTransparent | io-bilive-damaku/controller.go:192-245 | with one agent that keeps its entries, and any lost messages, expiries and failed writes behind it, every event is the agent's merged record and the events are exactly the messages that differ from what the controller remembers |
| UserTiers.NoChangeLostIff | io-bilive-damaku/controller.go:192-245 | no change is lost if and only if no record comes back to a stored one after another one could not be stored |
| UserTiers.FailedWriteLoses | io-bilive-damaku/controller.go:241-245 | a history in which the write of a second record fails and the return to the first is no event |
| UserTiers.LastChangeIff | io-bilive-damaku/controller.go:192-245 | the last changed message of a user is the last one received if and only if that one is no relapse |
| UserTiers.FinalRecordIff | io-bilive-damaku/agent/agent.go:571-606 | with every update delivered, a user has events if and only if some observation differed from what was known, and the last one is the final merged record if and only if the last message is no relapse after a failed write |
| UserTiers.FirstRecordSilent | io-bilive-damaku/agent/agent.go:574-579 | a user observed once is known to the agent and never becomes an event |
| UserTiers.AgentExpiryBreaks | io-bilive-damaku/controller.go:231-245 | with an agent entry expired in between the controller adds a field to what the agent published |
| Medals.MedalTier.Index | io-bilive-damaku/agent/agent.go:607-635 | a medal without room is skipped, one equal to the cached record suppressed, any other published and cached, each unless that call fails |
| Medals.MedalTier.IndexAll | io-bilive-damaku/agent/agent.go:607-635 | cache and stream after any sequence of observations, failed writes and expiries |
| Medals.PublishedIsCollapsed | io-bilive-damaku/agent/agent.go:607-635 | per user and room, while nothing of it expires, the published medals are the observed ones with equal neighbours collapsed, and the last one is the cached one |
| Medals.CachedIsLatest | io-bilive-damaku/agent/agent.go:607-635 | a tier remembers the last record stored and not expired |
| Medals.StreamIsNews | io-bilive-damaku/agent/agent.go:607-635 | with any expiries and failed writes a tier passes on, per user and room, exactly the records that differ from the latest stored one |
| Medals.SecondTierIff | io-bilive-damaku/controller.go:140-191 | the controller passes on everything it sees if and only if no record repeats the latest stored one of its key |
| Medals.SecondTierIdentity | io-bilive-damaku/controller.go:140-191 | the controller passes on exactly the medals that an agent which does not forget has published, whatever expires at the controller |
| Medals.LastPassedIsLastSeen | io-bilive-damaku/controller.go:140-191 | whatever expires at either tier, the last medal passed on for a key is the last one observed |
| Medals.ExpiryRepeats | io-bilive-damaku/controller.go:140-191 | after an expiry at the agent the repeated medal is suppressed by the controller, or passed on twice if it expired there too |
| AgentMasks.DecodeAppend | io-bilive-damaku/agent.go:78-81 | appending one encoded mask appends one decoded mask |
| AgentMasks.DecodeEncode | io-bilive-damaku/agent.go:60-81 | decoding the concatenation of encoded masks gives the masks back |
| AgentMasks.DecodedParity | io-bilive-damaku/agent.go:74-77 | an entry has no masks exactly when its length is odd |
| AgentMasks.BigEndian | io-bilive-damaku/agent.go:63-64 | a mask is two bytes, the high one first |
| AgentMasks.AgentManager.Register | io-bilive-damaku/agent.go:296-312 | a new agent gets the next mask modulo 65536, a known one keeps mask and counters |
| AgentMasks.AgentManager.AgentMask | io-bilive-damaku/agent.go:60-69 | the two-byte mask of a known agent, nothing for an unknown one |
| AgentMasks.AgentManager.ReadMasks | io-bilive-damaku/agent.go:78-81 | the loop reads exactly the masks an entry decodes to |
| AgentMasks.AgentManager.AddAgentHitMask | io-bilive-damaku/agent.go:73-96 | every agent whose mask occurs is counted once modulo 2^32, all others and odd entries change nothing |
| AgentMasks.AgentManager.AddHit | io-bilive-damaku/agent.go:89-93 | a counter starts at 1 and grows by 1 modulo 2^32 |
| Dedup.MasksByOrder | io-bilive-damaku/agent.go:300-309 | the i-th agent to register has mask i modulo 65536 |
| Dedup.MasksDistinctIff | io-bilive-damaku/agent.go:300-309 | masks tell all agents apart if and only if at most 65536 have registered |
| Dedup.MaskKept | io-bilive-damaku/agent.go:296-312 | no step changes a mask once given |
| Dedup.EntryIsReporters | io-bilive-damaku/controller.go:391-414 | the entry of a live key is the concatenation of the masks its reporters left, in order, under both readings and with failing lookups and appends |
| Dedup.LiveIffReported | io-bilive-damaku/controller.go:391-422 | a key is cached exactly when a report left its mask after the last expiry |
| Dedup.PushedInOrder | io-bilive-damaku/controller.go:391-414 | reports reach the event channel in order and never twice |
| Dedup.ExactlyOnce | io-bilive-damaku/controller.go:391-414 | with the meant test a report is sent if and only if its agent is known and the lookup fails or it is the first in its entry's life; as written if and only if the lookup works and it is not the first |
| Dedup.MaskInEntryIff | io-bilive-damaku/controller.go:408-422 | an agent's mask is in a live entry exactly when the agent reported the key to a working cache in its current window |
| Dedup.LiveKeysAreOpen | io-bilive-damaku/controller.go:408-422 | live entries with the mask plus pairs of closed windows are all pairs the agent reported |
| Dedup.HitsAreClosedPairs | io-bilive-damaku/agent.go:73-96 | a hit counter is the number of the agent's (key, window) pairs of that category whose window is over, modulo 2^32 |
| Dedup.HitAccounting | io-bilive-damaku/agent.go:60-96 | counter plus live entries with the agent's mask equals the distinct (key, window) pairs it reported to a working cache, modulo 2^32 written out, however often reports repeat |
| Dedup.HitsByKind | io-bilive-damaku/controller.go:417-422 | an agent's counter under "damaku", "gift", "guard" and "superChat" is the number of distinct messages of that kind it reported whose window is over, modulo 2^32, and with the live entries that contain its mask the number of all of them |
| Custody.StepKeepsOwner | io-bilive-damaku/controller.go:136-389 | every step of worker, consumer and recycler keeps each object in exactly one place and each pool to its own kind, if a recycled event is one the consumer holds |
| Custody.StepKeepsOwnerIff | io-bilive-damaku/controller.go:126-389 | a step keeps single ownership if and only if it does not recycle an event the consumer does not hold |
| Custody.OwnerOverRun | io-bilive-damaku/controller.go:136-389 | from empty pools and over every interleaved run: every object is in exactly one place throughout if and only if every recycled event was held by the consumer |
| Custody.HandledKeepsOwner | io-bilive-damaku/controller.go:136-349 | taking an object and sending or putting it back once keeps single ownership |
| Custody.RecycledTwiceBreaks | io-bilive-damaku/controller.go:126-129 | a run from empty pools in which an event recycled twice ends twice in its pool |
| Controller.DamakuController.CompareMedal | io-bilive-damaku/controller.go:154-191 | with every cache fault: the medal is sent or pooled once, and the cache updated exactly when it passes and can be written |
| Controller.DamakuController.FansMedalCase | io-bilive-damaku/controller.go:140-191 | an undecodable or roomless medal is put back and changes nothing; any other is compared |
| Controller.DamakuController.CompareUser | io-bilive-damaku/controller.go:200-245 | with every cache fault: one event or none as specified field by field in UserMeta.EventFields, while the cache gets the message as it came |
| Controller.DamakuController.UserInfoMetaCase | io-bilive-damaku/controller.go:192-245 | one record through the second tier, error paths included |
| Controller.DamakuController.MsgDuplicateFilter | io-bilive-damaku/controller.go:391-414 | for both readings and every combination of faults: sent or pooled once, mask appended exactly when the filter says so and the write succeeds |
| Controller.DamakuController.LookUp | io-bilive-damaku/controller.go:392-407 | the lookup with its branches: sent or pooled once, and whether the mask is still to be appended |
| Controller.DamakuController.FilterDecoded | io-bilive-damaku/controller.go:254-269 | an unknown agent or a missing room puts the object back; otherwise the filter decides under the key of the message's own fields (Aggregation.FilteredUnder) |
| Controller.DamakuController.StandardCase | io-bilive-damaku/controller.go:247-323 | undecodable, unknown agent and missing room put the object back; otherwise the filter decides, with the effect stated field by field in Aggregation.StandardEffect |
| Controller.DamakuController.OnlineCase | io-bilive-damaku/controller.go:325-348 | only the master agent's stream is passed on |
| Controller.DamakuController.AggregateWindow | io-bilive-damaku/controller.go:136-349 | whatever goes wrong, the caches and the event channel are those of the specified effect, the object is sent once or put back once, sent exactly if one event appears, and single ownership is kept |
| Controller.DamakuController.Recycle | io-bilive-damaku/controller.go:362-383 | a recycled object ends in the pool of its own kind |
| Controller.DamakuController.DupCacheRelease | io-bilive-damaku/controller.go:416-422 | an expired entry is counted under the first part of its key |
| Controller.DamakuController.Handle | io-bilive-damaku/controller.go:132-423 | one message, expiry, registration or change of master has exactly its specified effect and keeps single ownership |
| Controller.DamakuController.Serve | io-bilive-damaku/controller.go:132-423 | over any history the worker's caches, hit counters and events are those of the two second tiers, the duplicate filter and the followed streams, and every object has one owner |
| Aggregation.AllServed | io-bilive-damaku/controller.go:132-423 | in any history the events of each kind are, in order, those of the user tier, of the medal tier, the reports the duplicate filter pushes and the master's messages; all caches and counters agree |
| Aggregation.PoolOfSubject | io-bilive-damaku/controller.go:136-349 | every subject has its own pool |
| Aggregation.FilteredUnder | io-bilive-damaku/controller.go:254-319 | a complete message is filtered under its sender and under the key spelt from its own fields, and its event carries exactly these fields |
| Aggregation.SameEntryIff | io-bilive-damaku/controller.go:264-319 | two complete messages share an entry if and only if they have one subject and agree in room, user and time, in the gift number, or in user and time |
| Aggregation.StandardEffect | io-bilive-damaku/controller.go:391-414 | a complete message of a known agent is an event with its fields exactly if its entry is absent, and the entry gets the agent's mask, no other entry changing |
| Aggregation.SecondSuppressedIff | io-bilive-damaku/controller.go:391-414 | after one message of a known agent a second is suppressed if it is the same, and otherwise treated as if the first had not been |
| Aggregation.ReportedFields | io-bilive-damaku/controller.go:254-319 | what the duplicate filter is told of a message in a history: its sender, its fields and the cache faults |
| Aggregation.UserComparedIff | io-bilive-damaku/controller.go:192-222 | a decoded user record is compared exactly unless the lookup fails or finds an entry it cannot read |
| Aggregation.MedalComparedIff | io-bilive-damaku/controller.go:140-176 | the same for a medal of some room |
| Aggregation.OnlineEffect | io-bilive-damaku/controller.go:325-348 | a single-stream message is an event exactly if it comes from the current master |
| Exporter.LabelsEqualIff | io-bilive-recorder/model.go:94-106 | two label lists are equal if and only if all eleven labels are |
| Exporter.LabelsByName | io-bilive-recorder/model.go:94-106 | the eleven labels in the order of their declaration, flags as "1" and "0" |
| Exporter.MetricsExporter.constructor | io-bilive-recorder/metrics.go:93-101 | empty families, and empty tables for exactly the configured nodes |
| Exporter.MetricsExporter.UpdateRoomInfo | io-bilive-recorder/metrics.go:137-147 | changed labels replace the old info series and are remembered, equal ones change nothing |
| Exporter.MetricsExporter.SetRoom | io-bilive-recorder/metrics.go:149-169 | all thirteen families get the room's value under the same label pair, each from the field of its own name, and no other series changes |
| Exporter.ValuesByName | io-bilive-recorder/metrics.go:151-169 | the value of each family in the fields of the room |
| Exporter.MetricsExporter.Sweep | io-bilive-recorder/metrics.go:186-197 | exactly the node's rooms with another stamp leave all families and the version table |
| Exporter.MetricsExporter.ClearInfo | io-bilive-recorder/metrics.go:181-184 | exactly the remembered label lists of the node leave the info series |
| Exporter.MetricsExporter.Create | io-bilive-recorder/metrics.go:119-171 | the create and update pass over all rooms of a message |
| Exporter.MetricsExporter.UpdateMetrics | io-bilive-recorder/metrics.go:116-198 | one message: families, versions, labels and info series are exactly those of the specification step, and its request duration is observed once |
| Exporter.MetricsExporter.UpdateAll | io-bilive-recorder/metrics.go:114-199 | over any history of messages the exporter holds exactly what the specification says, and one duration per message |
| ExporterRuns.StepAt | io-bilive-recorder/metrics.go:116-197 | where one message puts each series of each node; other nodes are untouched |
| ExporterRuns.RunTracked | io-bilive-recorder/metrics.go:116-197 | a node's version table lists exactly the rooms that have series, in every family, after every history |
| ExporterRuns.SnapshotIff | io-bilive-recorder/metrics.go:116-197 | after a message a node's series are exactly its rooms in all families if and only if no room that left it carries the same stamp |
| ExporterRuns.SnapshotMirror | io-bilive-recorder/metrics.go:116-197 | with increasing times every family shows exactly the rooms of each node's last message with the values of their last occurrence |
| ExporterRuns.FamiliesByName | io-bilive-recorder/metrics.go:116-197 | with increasing times each of the thirteen families, by name, shows exactly the rooms of a node's last message with the named field of the last occurrence, flags as 1 and 0 and a missing disk rate as 0 |
| ExporterRuns.SameStampKeeps | io-bilive-recorder/metrics.go:186-197 | two messages with one stamp: a room that left the second keeps its series |
| ExporterRuns.OnlyRoomSeries | io-bilive-recorder/metrics.go:116-197 | no family has a series outside configured nodes and decimal room ids |
| ExporterRuns.InfoShownIff | io-bilive-recorder/metrics.go:137-185 | a room's info series is exported exactly if its labels were renewed after the node's last empty message, and the last labels are remembered |
| ExporterRuns.InfoStaysHidden | io-bilive-recorder/metrics.go:181-184 | a room back after an empty message with its old labels stays without its info series |
| ExporterRuns.InfoUnique | io-bilive-recorder/metrics.go:137-147 | an exported info series is the remembered one of its own node and room, so each pair has at most one |
| ExporterRuns.InfoByName | io-bilive-recorder/metrics.go:123-147 | every exported info series shows, label by label, a room its node has reported |
| ExporterRuns.InfoComplete | io-bilive-recorder/metrics.go:137-147 | without empty messages every room ever reported has its info series with its latest labels |
| RatioWindow.SuccessRatioCollector.constructor | io-net-check/metrics.go:73-87 | every configured host starts with an empty window and no last value |
| RatioWindow.SuccessRatioCollector.EnsureHost | io-net-check/metrics.go:133-140 | a known host is kept, an unknown one starts fresh |
| RatioWindow.SuccessRatioCollector.RecordSuccess | io-net-check/metrics.go:121-125 | one success more for this host only |
| RatioWindow.SuccessRatioCollector.RecordFailure | io-net-check/metrics.go:127-131 | one failure more for this host only |
| RatioWindow.SuccessRatioCollector.SortedHosts | io-net-check/metrics.go:98-102 | every host once, in alphabetical order |
| Sequences.AtMostIff | io-net-check/metrics.go:102 | a string comes first exactly if the other begins with it or it has the smaller character where they first differ |
| RatioWindow.SuccessRatioCollector.Emit | io-net-check/metrics.go:105-117 | one host's ratio, or its last one, or NaN, and its window reset |
| RatioWindow.SuccessRatioCollector.Collect | io-net-check/metrics.go:93-119 | every host is emitted once in alphabetical order with its ratio, and every window starts again, the last ratio being kept |
| RatioWindow.SuccessRatioCollector.Replay | io-net-check/metrics.go:93-140 | over any interleaving of results and scrapes the state is that of the log and every scrape shows the state before it |
| RatioWindow.WindowHolds | io-net-check/metrics.go:93-140 | counters and last value agree with the log of probes and scrapes, for every interleaving |
| RatioWindow.EmittedIsLatestRatio | io-net-check/metrics.go:104-117 | the emitted value is successes over total of the most recent scrape interval in which the host was probed |
| RatioWindow.NaNIffNeverProbed | io-net-check/metrics.go:106-114 | NaN is emitted exactly while the host was never probed, otherwise a value in [0, 1] |
| ProbeChecker.StepKeepsSafe | io-net-check/checker.go:59-100 | every step keeps semaphore, wait group and running flag in step with the goroutines |
| ProbeChecker.CheckerSafety | io-net-check/checker.go:59-100 | over all interleavings at most one round is active, probes in flight never exceed the limit, and with the flag down none is in flight |
| ProbeChecker.ProbesNeverBlock | io-net-check/checker.go:91-95 | a finished probe always finds its semaphore slot and never drives the wait group below zero |
| ProbeChecker.RoundCanEnd | io-net-check/checker.go:64-100 | with a positive limit, from every reachable state and whatever lookups answer, some continuation without cancellation lowers the flag |
| ProbeChecker.ZeroLimitBlocks | io-net-check/checker.go:73-88 | with limit zero a round that waits for its semaphore keeps waiting while it is not cancelled |
| ProbeChecker.DurationsConserved | io-net-check/checker.go:75-106 | between rounds the durations per host equal the addresses resolved minus those given up on cancellation, and all of them without cancellation |
| ProbeChecker.DurationsPerRound | io-net-check/checker.go:71-106 | after uncancelled rounds the durations of a host are the sum of the address counts of its targets, times the number of rounds begun; a failed lookup gives none and stops nothing |
| ProbeChecker.CountersConserved | io-net-check/metrics.go:46-54 | at all times a counter equals what scrapes drained plus the window plus the calls between the two increments |
| ProbeChecker.CountersCountDials | io-net-check/checker.go:102-122 | the success counter counts the connected dials of the run, the failure counter the timed out ones, and durations all dials, up to the probes in between |
| Scheduler.TaskScheduler.AddTask | client-http-proxy/task.go:86-98 | the task is queued last with the first given qos, or 0 |
| Scheduler.TaskScheduler.GetTaskNow | client-http-proxy/task.go:76-83 | the oldest task, or nothing and no change on an empty queue |
| Scheduler.TaskScheduler.Drain | client-http-proxy/task.go:56-65 | all remaining tasks and those added between polls run in order, one tick each, until a poll finds the queue empty |
| Scheduler.FifoNoLoss | client-http-proxy/task.go:28-98 | dispatched tasks are always a prefix of those added, nothing is lost or repeated, at most 8192 wait |
| Scheduler.StopMeansDrained | client-http-proxy/task.go:56-74 | Stop is reached in limited mode only, after cancellation, by the last poll of the drain; exactly the tasks added before that poll were dispatched, in order, and those added after it are queued |
| Scheduler.StopReachableIff | client-http-proxy/task.go:66-74 | a run to Stop exists if and only if the mode is limited |
| Scheduler.CanStop | client-http-proxy/task.go:34-74 | from every state of a limited run the scheduler can go on until everything added is dispatched and it stops |
| Scheduler.TicksSpent | client-http-proxy/task.go:34-65 | dispatches plus the waiting tick never exceed fires plus the tick waiting before, over any stretch |
| Scheduler.RateBound | client-http-proxy/task.go:34-65 | any stretch of a limited run with m fires dispatches at most m + 1 tasks, in the loop, in the drain and across the switch |
| Scheduler.RateBoundTight | client-http-proxy/task.go:34-44 | a run from the start in which one fire dispatches two tasks |
| Wash.BliveData.UpdateUser | io-bilive-damaku/cmd/wash.go:268-284 | the name always, and the first present of face, level and wealth level, go into the user's record |
| Wash.BliveData.UpdateMedal | io-bilive-damaku/cmd/wash.go:286-308 | a medal without room is skipped, any other replaces the one of its user and room |
| Wash.BliveData.AttrParse | io-bilive-damaku/cmd/wash.go:181-266 | one token extends the history of events, or the meta data, by exactly what its element and attributes say |
| Wash.BliveData.HeaderParse | io-bilive-damaku/cmd/wash.go:185-209 | the attributes of a header element set their fields in order |
| Wash.BliveData.MessageParse | io-bilive-damaku/cmd/wash.go:210-263 | after an element lists and maps say exactly what the extended history says, for any number of raw attributes |
| Wash.ListsByElement | io-bilive-damaku/cmd/wash.go:210-263 | danmaku come from "d", gifts from "gift", super chats from "sc" and guards, without medal, from "guard": one message per attribute "raw", in order, with its user, medal room and body |
| Wash.ElementsOfKinds | io-bilive-damaku/cmd/wash.go:210-252 | the table of element names |
| Wash.ParsedUser | io-bilive-damaku/agent/parse/rawJsonParser.go:8-87 | which fields of the text give the user's name, face, level and wealth level, for each parser |
| Wash.ParsedMedal | io-bilive-damaku/agent/parse/rawJsonParser.go:16-94 | which fields of the text give the medal, with 32-bit truncation, and that a guard has none |
| WashHeader.ParseIntItoa | io-bilive-damaku/cmd/wash.go:195-197 | a 64-bit number in decimal is read back, one that does not fit as the nearest |
| WashHeader.MetaIsLast | io-bilive-damaku/cmd/wash.go:185-209 | each meta field holds what the last attribute that sets it decodes to |
| WashHeader.MetaUnset | io-bilive-damaku/cmd/wash.go:185-209 | a field no attribute sets stays zero |
| WashHeader.MetaByName | io-bilive-damaku/cmd/wash.go:184-209 | each meta field, by name, is what the last attribute of its name in elements of its name says, and zero without one |
| WashHeader.ParseBad | io-bilive-damaku/cmd/wash.go:195-197 | a text that is no number gives 0 |
| WashHeader.ParsePlus | io-bilive-damaku/cmd/wash.go:195-197 | a leading plus sign changes nothing |
| Wash.BliveData.ListUsers | io-bilive-damaku/cmd/wash.go:150-153 | in any iteration order every user is listed exactly once |
| Wash.BliveData.ListMedals | io-bilive-damaku/cmd/wash.go:154-158 | in any order of the two iterations every medal is listed exactly once |
| Wash.BliveData.Wash | io-bilive-damaku/cmd/wash.go:125-158 | malformed XML writes nothing; otherwise lists and meta data are those of the whole history |
| Wash.LatestIsLast | io-bilive-damaku/cmd/wash.go:268-308 | the event a history answers with is the one at the last matching index, if there is any |
| Wash.UserOfFields | io-bilive-damaku/cmd/wash.go:274-283 | per user the last name, the last face, and the last level and wealth level the switch comes to |
| Wash.UsersStep | io-bilive-damaku/cmd/wash.go:268-284 | one update keeps the user map equal to what the history says of every user |
| Wash.MedalsStep | io-bilive-damaku/cmd/wash.go:286-308 | one update keeps the nested medal map equal to what the history says |
| Wash.UsersListed | io-bilive-damaku/cmd/wash.go:139-158 | exactly one user per id seen, with the fields the history says, and no other |
| Wash.UsersByElement | io-bilive-damaku/cmd/wash.go:139-158 | a user is listed exactly if some raw text of one of the four elements has that user |
| Wash.MedalsListedOnce | io-bilive-damaku/cmd/wash.go:154-158 | exactly one medal per user and nonzero room seen, equal to the last one |
| Wash.ReferencesResolve | io-bilive-damaku/cmd/wash.go:210-263 | every message listed refers to a listed user, and any medal it names is listed |
| Wash.SwitchMergesIff | io-bilive-damaku/cmd/wash.go:276-283 | an update merges a record without loss, whatever was known, if and only if it carries at most one optional field |
| Wash.LevelNeverListed | io-bilive-damaku/agent/parse/rawJsonParser.go:79-87 | no user in any output has a level |
| Wash.WealthListedIff | io-bilive-damaku/agent/parse/rawJsonParser.go:30-38 | a user has a wealth level exactly if some gift of theirs had one and no face, and it is that of the last such gift |

## Left out

- NATS, HTTP, echo, telemetry, configuration, command line, file walking and logging: input and
  output only; messages are values and sends are steps that may fail.
- protobuf, JSON, gzip, gjson and XML decoding: records arrive decoded, or as undecodable.
- bigcache internals, its size limits and the moment of expiry: a map with an explicit expiry step.
- The garbage collector's freedom to drop pooled objects: pools keep what they are given.
- Agent staleness (io-bilive-damaku/agent.go:268-286): timestamps are refreshed on every pass of a
  ready agent, so losing readiness is a step that may happen at any time.
- Provide and revoke flags per provider, described in io-bilive-damaku/types.go:32-37 but not
  implemented.
- A control without a room id, which the center never sends.
- More than one agent in the user record results: transparency is stated for a single agent.
- Failing lookups and unreadable entries in the agent's own caches: the observation is dropped, nothing
  else changes.
- Event consumer, message processor and storage: the consumer is any process that takes events and
  recycles objects.
- The scheduler's main loop and the probe's goroutines are step systems over values, not classes:
  their order of execution is the point.
- Rooms.AgentManager.SyncAgent: one uninterrupted pass for one agent; interleavings are in
  RoomProtocol.
- RoomProtocol.Next: the diff of a pass is one step, while the code walks two sets that could change
  in between.
- Custody.Next: an object is put back into a pool by kind; what its fields hold is not modelled.
- RatioWindow.SuccessRatioCollector.Collect: ratios are exact reals; rounding and the wrap-around of
  64-bit counters are not modelled, and strings are compared by character, not by byte.
- Exporter.Value: values are exact reals; of the request duration histogram only the observations are
  modelled, not its buckets.
- UserMeta.MetaIndexer.IndexAll: writes to the agent's own cache succeed; a failing one is modelled for
  a single observation only (UserMeta.MetaIndexer.Index).
- ProbeChecker.Next: a duration is counted, its length is not modelled.
- Scheduler.StopReachableIff: says that Stop can be reached, not that it will be; that needs fairness
  of the select.
- Wash.BliveData.AttrParse: a message keeps user, medal room and an opaque body; a start time comes
  decoded.
- Wash.BliveData.Wash: opening, compressing and writing files is not modelled.
