# Verification of the ifStackTable subagent

This project models the subagent's path from the kernel to an SNMP manager and proves what that path
guarantees: netlink datagrams become a complete inventory, an inventory becomes a validated topology, the
monitor decides when to acquire and what to publish, the published table is looked up and walked, and AgentX
sessions answer from it. `dafny verify dfyconfig.toml` checks everything (Dafny 4.11).

## How it is organised

| file | models |
|---|---|
| `Framing.dfy`, `LinkDecoder.dfy`, `Netlink.dfy`, `Adapter.dfy` | `src/netlink.rs`: datagram framing, attribute decoding, dump and notification messages, `NetlinkSource` |
| `Links.dfy` | `src/link.rs`: the two-pass topology validator |
| `Mib.dfy`, `Lookup.dfy`, `Bulk.dfy`, `Oids.dfy` | `src/mib.rs`: boundary rows, Get, GetNext, GetBulk over the ordered table |
| `History.dfy`, `Guarantees.dfy`, `Monitor.dfy`, `Runs.dfy`, `Actor.dfy`, `Durations.dfy` | `src/monitor.rs`: the scheduling and availability state machine |
| `System.dfy`, `Provenance.dfy`, `Freshness.dfy` | the monitor loop over the production adapter: from the kernel's datagrams to the published table, and from its notifications to the next inventory |
| `WalkCheck.dfy` | `packaging/ifstack-walk-check.awk`, the independent walk checker |
| `Session.dfy`, `Dispatch.dfy` | `src/session.rs`: the frame reader and the single table version behind a reply |
| `EndToEnd.dfy` | an accepted inventory, its published table, the walk of it and the checker, together |
| `Sequences.dfy`, `Numbers.dfy`, `Wrappers.dfy` | shared facts about permutations, `Min` and `Max`, `Option` and `Result` |

What the source updates in place is a class here (`Actor.State`, `Actor.Publication`, `Adapter.NetlinkSource`,
`WalkCheck.Validator`, `Session.Stream`), and each method is proved equal to an operation on values
(`Monitor.Schedule`, `WalkCheck.Notes`, ...).

The monitor is treated in three layers. `History` defines what a run leaves behind, an append-only list of
entries, which histories are *legal*, and how each quantity (failure floor, event deadline, generation, what is
published) is *read off* a history by looking backwards, without any monitor variable. `Monitor.RunsAreLegal` proves
that every run of the loop, against any environment, writes a legal history and that every field of `State` is
exactly its reading. `Guarantees` then proves the availability, memory and pacing laws of every legal history.

Modelling choices:

- A `Duration` is a number of nanoseconds with saturating arithmetic up to the type's maximum; the continuity
  counter wraps at 2^64, the netlink sequence at 2^32. Other u32 values are natural numbers: the code only compares them.
- The environment is data. A `Turn` holds everything the acquisition interface may answer in one iteration,
  an `Io` everything clocks and sockets may answer, an `Arrival` what one read does. All of them are arbitrary unless
  a theorem names an assumption. When an inventory's polls run out, its clock has reached the deadline; when a
  stream's arrivals run out, the peer stays silent.
- `NetlinkMessage::deserialize` is an arbitrary function from the bytes of one frame to an optional message, the host's
  byte order is a parameter, and `Header::from_bytes` is an arbitrary function on twenty bytes.
- An OID is a sequence of naturals in lexicographic order; an agentx `ID` adds the include flag, which comparisons
  ignore. A null range end is an end without components, and an OID's sub-identifier count is its number of components.
- The `BTreeMap` of a table is its increasing key listing; every stored value is `Integer(1)`.
- Error kinds and texts are collapsed; which call fails is exact.

## Model

| member | source | states |
|---|---|---|
| Links.CatalogueLinks | src/link.rs:87-116 | first pass: succeeds exactly when every link has a valid index and a name and no two share either, and then maps each index to its link |
| Links.RelateLink | src/link.rs:119-189 | second pass for one link: succeeds exactly when all its references resolve, and then gives exactly the relationships it explains |
| Links.FromObserved | src/link.rs:86-196 | the verdict is the declarative well-formedness predicate, and the topology is the declaratively defined relation |
| Links.TopologySound | src/link.rs:86-196 | endpoints known, no interface on itself, indices in 1..2^31-1, and every explained relationship is present |
| Links.RelationshipRules | src/link.rs:118-190 | a bond or bridge stands above each port; VLAN, MACVLAN, IPVLAN and MACVTAP above their lower interface; VXLAN above a local listed underlay; and nothing else stands above anything |
| Links.RejectionRules | src/link.rs:87-189 | which inventories are rejected, field by field: duplicates, invalid identities, unknown, foreign or own references |
| Links.OrderFree | src/link.rs:86-196 | any permutation of the links has the same verdict and the same topology |
| Mib.FromRows | src/mib.rs:42-55 | the table is the increasing listing of exactly the rows' OIDs |
| Mib.FromTopology | src/mib.rs:15-40 | the built table is the unique listing of the topology's RFC 2863 rows |
| Mib.TableRows | src/mib.rs:15-55 | a name is served exactly when it is a relationship row or a zero row of a missing side |
| Mib.ServedNames | src/mib.rs:15-55 | the exact names served, component by component: each relationship higher before lower, and the zero rows of the missing sides |
| Mib.BoundaryRows | src/mib.rs:31-38 | no 0.0 row; on each side an interface has a zero row exactly when it has no real row; only known interfaces appear |
| Mib.DecodeRows | src/mib.rs:15-40 | interfaces and relationships are recovered from the rows |
| Mib.TableInjective | src/mib.rs:15-55 | different sound topologies are served as different tables |
| Oids.LessMeans | src/mib.rs:63 | one name is less than another exactly when it is a proper prefix or smaller at the first difference |
| Oids.SubtreeBand | src/mib.rs:59-63 | the two comparisons in get hold exactly for names that have the column as a prefix |
| Lookup.GetClassifies | src/mib.rs:57-70 | Integer(1) exactly for served names, NoSuchInstance exactly for absent names under the status column, NoSuchObject for all others |
| Lookup.GetNextLeast | src/mib.rs:72-84 | the answer is the least served name in the range under the include flag and exclusive end, or the range start with endOfMibView when there is none |
| Lookup.GetAgreesWithInclusiveNext | src/mib.rs:57-84 | a name is served exactly when Get and an inclusive GetNext both answer it with the value |
| Lookup.AdvanceRows | src/mib.rs:72-84 | continuing from an answer uses up exactly the first in-range row |
| Lookup.WalkComplete | src/mib.rs:72-84 | the k-th answer of a walk is the k-th in-range row, then endOfMibView for ever under the last name returned |
| Bulk.GetBulk | src/mib.rs:86-115 | the interleaving loop with its early stop and its cap computes the closed-form response |
| Bulk.BulkLength | src/mib.rs:92-114 | the response length is min(4096, c + R * min(M, L + 1)) |
| Bulk.BulkSingle | src/mib.rs:92-97 | a non-repeater is answered by its first in-range row |
| Bulk.BulkRepetition | src/mib.rs:98-113 | binding c + k*R + r is the k-th row of repeater r, or endOfMibView under its last name |
| WalkCheck.Validator.constructor | packaging/ifstack-walk-check.awk:6-22 | BEGIN expects exactly the positive indexes and objects to a zero or to none |
| WalkCheck.Validator.ReadLine | packaging/ifstack-walk-check.awk:24-77 | one line updates the arrays, the previous instance and the flag as the rules say |
| WalkCheck.TracksLine | packaging/ifstack-walk-check.awk:24-77 | after any lines the variables describe exactly what was read, and the flag says whether any rule was broken |
| WalkCheck.Validator.Finish | packaging/ifstack-walk-check.awk:79-106 | END accepts exactly when nothing was rejected, rows were read and each interface's sides are complete |
| WalkCheck.Check | packaging/ifstack-walk-check.awk:1-106 | the script as a whole accepts exactly the unobjectionable walks |
| WalkCheck.ScriptRules | packaging/ifstack-walk-check.awk:24-106 | the rules of the script over the lines: shape and value, row endpoints, order, and both sides of each interface |
| WalkCheck.CheckerMatchesGenerator | packaging/ifstack-walk-check.awk:24-106 | the script accepts a walk exactly when it is the ordered listing of the generator's rows for some irreflexive relation on the interfaces |
| Durations.BackoffDoubles | src/monitor.rs:281-283 | doubling up to the cap walks through min(2^k, 30) seconds |
| Durations.BackoffLadder | src/monitor.rs:8-9 | the delays are 1, 2, 4, 8, 16 and then 30 seconds |
| Monitor.DelayDoubles | src/monitor.rs:281-283 | the next delay is twice the delay, at most thirty seconds |
| Monitor.SubscriptionRules | src/monitor.rs:98-109 | the subscription step: not due and unchanged, successful, or a failure with its floor and longer delay |
| Monitor.AttemptRules | src/monitor.rs:111-112 | an iteration attempts exactly when subscribed, past the floor, and owed one, woken by events or due to reconcile |
| Monitor.StartRules | src/monitor.rs:198-203 | an attempt clears what is owed, and doubles the event delay exactly when it consumes an event deadline |
| Monitor.OutcomeRules | src/monitor.rs:118-136 | for each outcome of an attempt, the entries written and every field's new value |
| Monitor.BatchRules | src/monitor.rs:219-231 | which events of a batch are recorded and which batches are only set aside |
| Monitor.EventRules | src/monitor.rs:239-250 | one event: the quiet reset, the last event, and a deadline only the first event sets |
| Monitor.WaitRules | src/monitor.rs:140-150 | a wait changes nothing, records its event, or loses continuity with a floor |
| Actor.Publication.Publish | src/monitor.rs:35-37 | readers see the new table, by one more write |
| Actor.Publication.Unavailable | src/monitor.rs:39-41 | readers see none, by one more write |
| Actor.State.constructor | src/monitor.rs:168-181 | the initial schedule, due for a subscription and an inventory |
| Actor.State.RetryReady | src/monitor.rs:183-185 | in every state a run reaches, holds exactly when the failure floor the history sets has passed |
| Actor.State.AcquisitionReady | src/monitor.rs:187-196 | in every state a run reaches, holds exactly when an attempt is due by the history |
| Actor.State.StartAcquisition | src/monitor.rs:198-203 | the whole new state of starting an attempt; between attempts, a due start leaves every field equal to its reading of a legal history |
| Actor.State.AcceptInventory | src/monitor.rs:205-217 | succeeds exactly for a current tag, a recordable batch and a well-formed inventory; gives its topology; the whole new state in every case; acceptance settles the attempt, rejection leaves it in flight |
| Actor.State.RecordBatch | src/monitor.rs:219-231 | records the first and last event exactly when the batch is usable, and keeps every field equal to its reading |
| Actor.State.RetainFailedEvents | src/monitor.rs:233-237 | a failed attempt's usable events stay scheduled |
| Actor.State.RecordEvent | src/monitor.rs:239-250 | the whole new state of recording an event; fields stay equal to their readings |
| Actor.State.Fail | src/monitor.rs:252-256 | the whole new state of a failure, which ends an attempt; fields stay equal to their readings |
| Actor.State.LoseContinuity | src/monitor.rs:258-264 | the whole new state of a loss, which ends an attempt, and the table is withdrawn; fields stay equal to their readings |
| Actor.State.NextDeadline | src/monitor.rs:266-278 | in every settled state, the first moment from now at which a subscription or an attempt is enabled |
| Actor.Conclude | src/monitor.rs:118-136 | every outcome of an attempt, with exactly the writes to the publication that the history calls for |
| Actor.Iterate | src/monitor.rs:97-151 | one iteration takes the schedule's step, asks for the exact timeout, keeps every field equal to its reading, and the publication shows what the history makes available after exactly the writes the history calls for |
| Actor.Run | src/monitor.rs:93-152 | any number of iterations is the run of the schedule, and the publication has seen exactly the writes its history calls for |
| Monitor.TakeKeeps | src/monitor.rs:97-151 | every iteration keeps every field equal to its reading of a legal history |
| Monitor.RunsAreLegal | src/monitor.rs:93-152 | every run writes a legal history; failure_delay is min(2^k, 30) s for the failures since the last acceptance, event_delay likewise for event-consuming attempts since the last quiet reset, and all other fields are their readings |
| Monitor.ExactSleep | src/monitor.rs:266-278 | next_deadline is the first moment from now at which a subscription or an attempt can begin without further input |
| Monitor.EnabledIsAttempt | src/monitor.rs:97-112 | what is enabled is exactly what an iteration that can subscribe would attempt at once |
| Monitor.NoSpinning | src/monitor.rs:97-151 | a subscribed wait has a strictly positive timeout; after an instant unsubscribed wait the next loop head that can subscribe does so exactly when the wait did not fail or the new failure delay has passed; after a failed subscription the wait is strictly positive until its delay has passed |
| Monitor.TakeAvailability | src/monitor.rs:97-151 | an iteration makes new links available exactly when its inventory is accepted, withdraws exactly on a loss, and otherwise changes nothing |
| Monitor.BatchLossless | src/monitor.rs:219-250 | recording only the first and last event of a burst shorter than the quiet period leaves the same fields as recording all of them |
| Guarantees.HeadShape | src/monitor.rs:252-278 | between attempts a floor or a missing subscription implies a needed inventory, and idling implies an earlier success |
| Guarantees.NoLostChange | src/monitor.rs:198-264 | a change not covered by an accepted inventory that began after it has an attempt scheduled, even when its batch was malformed, stale or rejected |
| Guarantees.EnabledWithinThirtySeconds | src/monitor.rs:187-264 | with nondecreasing event times, the next step for that change is enabled no later than 30 s after the later of it and the latest failure |
| Guarantees.NotPostponed | src/monitor.rs:247-249 | later events do not move a scheduled deadline |
| Guarantees.AttemptsSpaced | src/monitor.rs:187-256 | attempt starts lie at least a second apart |
| Guarantees.AttemptRate | src/monitor.rs:187-256 | no window of w seconds holds more than w + 1 attempts |
| Guarantees.HardFloor | src/monitor.rs:183-190 | nothing starts before the latest failure's delay has passed |
| Guarantees.AvailableIff | src/monitor.rs:205-264 | a table is available exactly when an inventory was accepted since the last loss, and it is the latest one's |
| Guarantees.AvailableIsCurrent | src/monitor.rs:206-210 | the available table carries the current generation's tag |
| Guarantees.AvailableWhileListening | src/monitor.rs:258-264 | a table is available only while subscribed |
| Guarantees.AvailableWhenSatisfied | src/monitor.rs:205-264 | between attempts a table is available unless an inventory is needed |
| Guarantees.RecoveryOrder | src/monitor.rs:99-137 | between a loss and the next publication lie a subscription and then an attempt |
| Guarantees.StaleNeverPublishes | src/monitor.rs:206-210 | a completion tagged before a loss is never published after it, for fewer than 2^64 losses |
| Runs.RunOrdered | src/monitor.rs:93-152 | a clock that runs forward through the iterations gives an ordered history |
| Runs.RunForgetsNothing | src/monitor.rs:93-152 | no run forgets an observed change |
| Runs.RunReactsInTime | src/monitor.rs:93-152 | in every run whose event times never decrease the next step for a change is enabled within the 30 s bound, and an iteration from then on that can subscribe makes the attempt |
| Runs.RunAttemptRate | src/monitor.rs:93-152 | every run with an ordered clock and a reconcile interval of at least a second keeps the attempt rate |
| Framing.SplitPrint | src/netlink.rs:293-328 | printed frames are read back exactly, whatever the padding bytes and with the final padding present or absent |
| Framing.SplitOnlyPrinted | src/netlink.rs:293-328 | whatever is read was laid out as those frames |
| Framing.U32Means | src/netlink.rs:301-305 | the length field's value in either byte order |
| Framing.U32Injective | src/netlink.rs:301-305 | a length has one encoding |
| Framing.DecodeDatagram | src/netlink.rs:293-328 | succeeds exactly when the bytes are laid out as frames that all decode, and its i-th message is the decoding of the i-th frame |
| LinkDecoder.DecodeLink | src/netlink.rs:330-393 | succeeds exactly when nothing is said twice and a name is said, and gives exactly what is said |
| LinkDecoder.TakeAttribute | src/netlink.rs:337-358 | one attribute fills its slot, or fails exactly when that makes the claims ambiguous |
| LinkDecoder.AttributeRules | src/netlink.rs:337-346 | name, controller, lower and namespace are exactly those the attributes say |
| LinkDecoder.InfosAre | src/netlink.rs:347-355 | the link infos are those of every LinkInfo attribute |
| LinkDecoder.KindRules | src/netlink.rs:361-371 | each kind is decoded exactly when a link info says it |
| LinkDecoder.UnderlayRules | src/netlink.rs:372-383 | the underlay is exactly the one named in VXLAN data |
| LinkDecoder.RefusalRules | src/netlink.rs:330-401 | a link is refused exactly when it has no name, repeats an attribute, kind or data, or names two underlays |
| LinkDecoder.AttributeOrderFree | src/netlink.rs:330-393 | any permutation of the attributes decodes to the same result |
| Netlink.ConsumeDump | src/netlink.rs:256-291 | completes exactly on NewLink* Done(0), continues exactly on NewLink*, and pushes the decoded links in order |
| Netlink.DumpShape | src/netlink.rs:256-291 | a dump message by message: sequence, no interruption, decodable links in order, then Done(0) |
| Netlink.ReceiveNotification | src/netlink.rs:52-88 | fails exactly when the datagram breaks continuity, and reports a time exactly when it reports a change |
| Netlink.ContinuityRules | src/netlink.rs:52-88 | continuity is kept exactly by whole kernel datagrams of NewLink, DelLink and Noop messages with sequence zero; a change is a NewLink or DelLink among them |
| Adapter.NetlinkSource.NextSequence | src/netlink.rs:90-96 | the successor that skips zero: never zero, never the previous sequence |
| Adapter.NetlinkSource.Subscribe | src/netlink.rs:107-111 | holds a socket exactly when one was opened or held before |
| Adapter.NetlinkSource.PollOnce | src/netlink.rs:125-208 | one turn of the polling loop: its verdict, its links, its bytes and its event batch |
| Adapter.NetlinkSource.Inventory | src/netlink.rs:113-210 | the result is the one the datagrams call for: lost, completed or neither, with exactly the dump's links and a batch spanning exactly the changes read; the sequence number spent; the notification socket is dropped exactly on a lost result |
| Adapter.NetlinkSource.Wait | src/netlink.rs:212-243 | fails exactly when the poll fails or its datagram breaks continuity, reports a change exactly when the datagram delivered reports one, and drops the socket exactly on an error |
| Adapter.AcceptedIffDump | src/netlink.rs:113-210 | an inventory completes exactly when a whole dump arrives in time over healthy sockets within 16 MiB, and then carries its links in order |
| Adapter.NoSilentLoss | src/netlink.rs:125-172 | an inventory reports a loss exactly when the loop gets as far as a poll that, in time, is unanswered, fails the notification socket or delivers a datagram that breaks continuity |
| Adapter.OutcomeEvents | src/netlink.rs:160-172 | every result's batch spans exactly the changes reported by the datagrams of the polls the loop gets as far as |
| Adapter.OutcomeWarranted | src/netlink.rs:113-210 | the loop's result is determined by the datagrams alone: its kind, its links and its batch |
| Adapter.PollRules | src/netlink.rs:125-208 | what makes a poll healthy, suspicious or informative, field by field |
| Adapter.AmountRules | src/netlink.rs:193-206 | the byte count and the messages of a dump grow by exactly what each poll brings |
| Adapter.AcceptedRules | src/netlink.rs:125-208 | a dump is accepted only over polls in time, answered, whole, from the kernel and decodable, within 16 MiB |
| Adapter.SpanExtends | src/netlink.rs:169-172 | keeping the first time and moving the last spans exactly the change notifications consumed so far |
| System.BatchContract | src/netlink.rs:160-172 | every batch is empty or has first <= last, and lies where the notifications it consumed lie |
| System.DeadlineBoundsBatch | src/netlink.rs:124-134 | the three-second deadline of the polling loop keeps every batch shorter than the quiet period, so the monitor can record it |
| System.InventoryDependable | src/netlink.rs:113-210 | the adapter answers with the current tag, a recordable batch and ordered times; recordability comes from its own deadline |
| System.DependableKeepsAll | src/monitor.rs:97-151 | in such an environment no event is ever set aside |
| System.HeardInOrder | src/monitor.rs:93-152 | with ordered clocks everything the monitor hears through the adapter is ordered |
| System.NothingSetAside | src/monitor.rs:93-152 | with ordered clocks no event that reaches the monitor over the adapter is ever set aside |
| System.AttemptSystem | src/monitor.rs:112-137 | the attempt concludes on exactly the adapter's inventory, with the current generation as its tag |
| System.AwaitSystem | src/monitor.rs:140-150 | the wait ends with exactly what the adapter's wait heard |
| System.IterateSystem | src/monitor.rs:97-151 | one iteration over the adapter is one step of both: the monitor takes exactly what the adapter heard, and believes itself subscribed exactly while the adapter holds a socket |
| System.RunSystem | src/monitor.rs:93-152 | any number of iterations pass through the states of one trace of those steps, with the publication always what the history makes available |
| System.HeardRules | src/monitor.rs:97-151 | every clock reading reaches the monitor as itself, and its inventory is the one the datagrams call for |
| System.TraceIsRun | src/monitor.rs:93-152 | every trace is, iteration by iteration, the run of the monitor over what it hears, so all its guarantees hold of it |
| Provenance.PublishingIsSupplied | src/monitor.rs:117-118 | an iteration publishes only the links of a whole dump of a well-formed inventory |
| Provenance.SuppliedPublishes | src/monitor.rs:117-118 | with ordered clocks every such dump publishes |
| Provenance.AvailableStands | src/monitor.rs:93-152 | what is available at a loop head is the latest links brought, unless lost since |
| Provenance.LossIsBreak | src/monitor.rs:132-148 | the monitor loses continuity exactly when a poll it read broke the notification stream |
| Provenance.PublishedIsDump | src/monitor.rs:93-152 | whatever the environment does, a published table is the table of a whole well-formed dump some iteration received; ever since, the monitor has been subscribed and no poll read broke the notification stream |
| Provenance.PublishedIffDump | src/monitor.rs:93-152 | with ordered clocks a table is published exactly when such a dump was received and no poll read since broke the stream, and it is the newest one's |
| Provenance.StartupPublishes | src/monitor.rs:93-117 | a monitor whose first request is answered by a whole dump of a well-formed inventory, over any ordered clocks and any number of datagrams, publishes its table in its first iteration |
| Provenance.PromptPublishes | src/monitor.rs:93-117 | every well-formed dump that fits into one datagram has such a start |
| Freshness.ChangesHeard | src/monitor.rs:118-142 | the last change among the datagrams an iteration reads is what the monitor hears of |
| Freshness.NotificationsForceInventory | src/monitor.rs:93-152 | once an iteration has read change notifications from the kernel, at every later loop head an inventory begun after them has been accepted or an attempt is scheduled |
| Freshness.ChangeKeepsScheduled | src/monitor.rs:198-264 | a change read keeps something scheduled until a later iteration publishes |
| Freshness.FreshAtRest | src/monitor.rs:93-152 | whenever nothing is scheduled a table is published, and no change notification has been read since the dump it shows was requested, nor the stream broken |
| Freshness.ReactsWithinThirtySeconds | src/monitor.rs:93-152 | with ordered clocks, an iteration that begins 30 s after a change was read and after the latest failure requests an inventory, unless a dump requested after the change was received |
| Session.ReadBefore | src/session.rs:242-260 | exactly the requested bytes, or an error with its cause |
| Session.Receive | src/session.rs:225-240 | exactly one whole frame of 20 + payload_length bytes, the idle timeout restored, and errors only for their causes |
| Session.SupplyCounts | src/session.rs:242-260 | every read that brings data counts once |
| Session.FramesUnique | src/session.rs:225-240 | a byte stream begins with one sequence of frames only, so frames cannot depend on chunking |
| Session.ReceiveFrames | src/session.rs:45-46 | whatever the chunking and interruptions, the sent frames come back in order; a calm socket with enough data fails only on a frame that overran its budget |
| Dispatch.Validate | src/session.rs:113-119 | accepts exactly the ranges with valid OIDs and include flags |
| Dispatch.AnswerRules | src/session.rs:103-144 | which requests are refused, and that Get, GetNext and GetBulk are answered range by range by get, get_next and get_bulk |
| Dispatch.EvaluateBulk | src/session.rs:121-124 | a GetBulk amid monitor steps before every pass is the closed-form response on the one table it was given |
| Dispatch.DispatchRead | src/session.rs:103-144 | the reply is the pure answer on the one version current at the snapshot, with the monitor running before every pass over the ranges, and the session changes nothing |
| EndToEnd.SessionsSeePublished | src/monitor.rs:21-42 | the writes the actor makes to the cell leave it showing what the monitor's history makes available, and every table written is ordered |
| EndToEnd.WalkReadsTable | src/mib.rs:72-84 | a walk of the column reads every row in order and then ends |
| EndToEnd.PublishedTablePasses | packaging/ifstack-walk-check.awk:1-106 | every table any run publishes comes from a well-formed inventory, and its walk passes the independent checker for that inventory's interfaces |

## Left out

- Socket system calls, poll and errno handling of `SocketIo`: foreign I/O; their results are arbitrary inputs.
- The agentx and rust-netlink codecs, attribute decoding and ID normalisation: not part of this model; they are the parameters named above.
- The AgentX handshake, the refusal of non-default contexts, TestSet, CommitSet, UndoSet, Ping and Close replies and the error-code patch: single branches around invisible encoders.
- The supervisor's reconnect backoff in `src/main.rs`, configuration, readiness notification and logging: they neither read nor change the topology, the schedule or the table. The configured minimum of one second for the reconcile interval is an assumption of the pacing theorems.
- Text parsing in the walk checker: lines are already split into an instance and whether its value is active.
- Thread scheduling and real time: timing results are statements about deadlines over a monotone clock.
- The order of error reports within one failing inventory: all such errors have the same kind.
- Monitor.BatchLossless: compares the fields of the state, not the history, because the history of a batch holds only its two times.
- Bulk.GetBulk: the non-repeaters, the repetitions and one repetition are separate methods of one loop each, and the early return is a flag.
- Dispatch.DispatchRead: the monitor's steps fall between passes over the ranges, not inside the lookup of one range; that lookup reads only the snapshot, an immutable value.
- Adapter.NetlinkSource.Inventory: the body of its loop is a method of its own, and a turn's socket answers are fixed before the turn.
- Runs.RunReactsInTime: speaks of when a step becomes enabled and what an iteration then does; that the thread then runs is outside the model.
- System.DeadlineBoundsBatch: assumes that a notification is stamped less than 57 seconds after its turn of the polling loop began, because how long a system call takes is outside the model.
