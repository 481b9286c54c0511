# Verified model of the storage and room-graph layer

This project models the parts of the homeserver that rewrite, index and walk stored data, and
proves what they keep:

| file | what it models |
|---|---|
| `Bytes.dfy` | byte order of keys, separators, big-endian integers |
| `TupleKey.dfy` | the tuple key writer and reader |
| `StateDiff.dfy` | the two readers of a legacy state diff record |
| `StateChain.dfy` | replay of diff chains, and the bounded cache in front of it |
| `RootBackfill.dfy` | the chunked per-event root backfill, on top of the cache |
| `VerdictFold.dfy` | the verdict migrations `db_lt_19` and `db_lt_21` under crashes |
| `RawPduRekey.dfy` | the rekeying of two mutually inverse tables |
| `Receipts.dfy` | receipt deduplication and the receipt state map |
| `HealReceipts.dfy` | the admin command that deletes obsolete receipts |
| `PruneDefaults.dfy` | default pruning of JSON objects |
| `Distance.dfy` | hop distance in a directed graph, shared by the two traversals |
| `MultiGet.dfy` | the level-order closure over stored references |
| `Relationships.dfy` | the relationship walks and the request that combines them |
| `Replies.dfy` | what replies hold and report: reach past seen events, length of climbs, the `limited` flag |
| `Requests.dfy` | one request spelled out on the world: turns of a walk at every breadth, kinds of reply, defaults |
| `FederationBatch.dfy` | the retry passes over a federated batch |
| `Watchers.dfy` | prefix watchers, and readers and writers in every interleaving |

Code that updates state step by step is a class or a method with a loop, proved to compute a
specification function; the theorems are about those functions. `dafny verify dfyconfig.toml`
checks everything.

Conventions used throughout: a table is a map with byte-string keys; a batch is one atomic
update, and committing an empty batch is not a write; a raw stream is a snapshot of the table in
key order, taken when the scan starts; the bodies of library calls (parsers, root construction,
visibility, acceptance of an event, federation requests) are arbitrary function parameters.

## Where the code and its promises differ

The code is modelled as it is. Each difference has a lemma with a concrete input or family, and
a lemma that says exactly when the promise holds.

- A present option whose encoding is empty or starts with the separator byte reads back as
  absent (`HiddenReadsAbsent`, `RoundTrip`). Of the 8-byte integers these are the signed ones from
  -2^56 to -1 and the unsigned ones from 255 * 2^56 on (`HiddenIntegers`,
  `OptionalNegativeIsLost`).
- A status row that `db_lt_21` cannot read hides a soft-failed event from `db_lt_19`
  (`MalformedStatusLosesEvent`, `ListedSurvives`).
- Rekeying can lose an event when a new key equals an old one still to be migrated
  (`ExtremeCountsCollide`, `RekeyExact`); count magnitudes below 2^62 exclude it.
- A snapshot that adds nothing makes the backfill fail, but only if its chunk is flushed, so the
  flush threshold can decide whether the backfill succeeds (`ThresholdMatters`,
  `ThresholdIndependent`, `StoreThresholds`).
- Deduplicating receipts first changes the state map when the newest row of a group does not
  parse (`UnparsedNewestIsLost`, `DedupChangesMigration`, `MigrateAfterDedup`).
- An object that only omits keys of its default is pruned away (`OmittedKeyIsLost`,
  `PruneRoundTrip`).
- `resolve` documents `limited` as "truncated by the limit"; it is raised only for a limit of 0,
  or of 1 when the parent is shown (`LimitedFlag`, `TruncatedUnflagged`). When that is right is
  stated by how much there is to return: the events in reach for a downward request (`FlagDown`,
  `FlagDownAlone`), the length of the parent chain for an upward one (`FlagUp`,
  `FlagUpWithChildren`).
- With `include_parent`, an upward walk finds a stored parent already seen and adds no ancestor
  (`RequestedParentEndsClimb`). It climbs exactly when the first lookup fails to store the parent
  and a second one gets it (`ClimbsPastParent`).
- The order of a federated batch is said not to matter. It does not if and only if no event needs
  a ninth round of dependencies (`OrderDoesNotMatter`, `NineDeepChain`).

## Model

| member | source | states |
|---|---|---|
| `TupleKey.RoundTrip` | src/database/de.rs:92-140 | for every typed tuple, decoding its encoding returns it and consumes every byte if and only if each present option starts with a visible byte, raw bytes come last, and a single field is not empty |
| `TupleKey.FieldRoundTrip` | src/database/de.rs:231-241 | one field in front of a separator or the end reads back exactly under that condition, and otherwise never reads back as itself |
| `TupleKey.ElementsRoundTrip` | src/database/de.rs:388-402 | the same equivalence for the elements after the first, each behind a separator |
| `TupleKey.KeysAreInjective` | src/database/ser.rs:280-290 | two decodable tuples of one schema with the same key are equal |
| `TupleKey.HiddenReadsAbsent` | src/database/de.rs:231-241 | a present option reads back as absent if and only if its encoding is empty or starts with the separator byte |
| `TupleKey.HiddenIntegers` | src/database/de.rs:231-241 | exactly the signed 8-byte integers from -2^56 to -1 and the unsigned ones from 255 * 2^56 on are hidden in an option |
| `TupleKey.OptionalNegativeIsLost` | src/database/de.rs:231-241 | a pair of any string and such a negative integer does not survive |
| `TupleKey.EncodingBytes` | src/database/ser.rs:196-264 | the bytes of each kind of field and directive: integers big-endian in two's complement, one byte 1 or 0 for a boolean, the separator byte for the separator directive |
| `TupleKey.KeyLayout` | src/database/ser.rs:92-102 | a key of one item is its bytes, and each further item follows one separator byte |
| `TupleKey.DecodingIntegers` | src/database/de.rs:284-336 | an integer is read at its width, or underflows |
| `TupleKey.DecodingBoolean` | src/database/de.rs:243-256 | a boolean is any byte but zero |
| `TupleKey.DecodingText` | src/database/de.rs:350-365 | a string ends before the next separator, and raw bytes take everything |
| `TupleKey.PrefixQueryExact` | src/database/ser.rs:196-207 | the key of (b, rest) starts with the encoding of (a, Interfix) if and only if a equals b |
| `TupleKey.PrefixQueryContiguous` | src/database/ser.rs:56-67 | every key between two keys a prefix query selects is selected too |
| `TupleKey.Serializer.RecordStart` | src/database/ser.rs:92-102 | writes a separator exactly if a record was started before |
| `TupleKey.Serializer.SerializeTuple` | src/database/ser.rs:280-290 | appends exactly the separated records of its items, directives included |
| `TupleKey.Deserializer.RecordStart` | src/database/de.rs:103-113 | skips one byte unless it is at the first record |
| `TupleKey.Deserializer.RecordNext` | src/database/de.rs:92-98 | returns the bytes before the next separator, or the rest, and stands behind them |
| `TupleKey.Deserializer.NextElement` | src/database/de.rs:391-402 | fails at the end of the input, else reads one field behind the separator |
| `TupleKey.Deserializer.DeserializeTuple` | src/database/de.rs:153-159 | computes the functional decoder, failing exactly when it fails, and leaves the cursor at its rest |
| `StateDiff.GetStateDiff` | src/service/migrations.rs:2535-2586 | parses every byte string into parent, added and removed set, or fails if it is shorter than the parent |
| `StateDiff.ReadAddedShortEventIds` | src/service/migrations.rs:2695-2722 | returns the events of the added entries of every byte string |
| `StateDiff.ReadersAgree` | src/service/migrations.rs:2689-2722 | on every record of at least 8 bytes the two readers see the same added events |
| `StateDiff.LayoutRoundTrip` | src/service/migrations.rs:2689-2694 | a record in the documented layout is read back exactly if and only if no added state key is zero |
| `StateDiff.EntryReads` | src/service/migrations.rs:2689-2694 | the second half of an entry is its event |
| `StateChain.GetFullState` | src/service/migrations.rs:2588-2611 | the stack walk computes the recursive replay of the whole chain, missing records included |
| `StateChain.StateCache.constructor` | src/service/migrations.rs:2625-2632 | an empty sound cache whose capacity is at least one |
| `StateChain.StateCache.Insert` | src/service/migrations.rs:2634-2644 | first in, first out; the entry just inserted stays, the order lists the cached keys once each within capacity, and nothing else changes |
| `StateChain.StateCache.GetFullStateCached` | src/service/migrations.rs:2646-2687 | for every sound cache the result equals the full replay, and the cache stays sound |
| `StateChain.StateCache.ResolveAll` | src/service/migrations.rs:2646-2687 | every request of every sequence of requests gets the full replay |
| `StateChain.ReplayUnique` | src/service/migrations.rs:2588-2611 | the replay does not depend on the rank that witnesses acyclicity |
| `StateChain.ReplayHolds` | src/service/migrations.rs:2588-2611 | an entry is in the state if and only if some snapshot of the chain adds it without removing it and no newer one removes it |
| `StateChain.ReplayFails` | src/service/migrations.rs:2588-2611 | there is no state if and only if some record of the chain is missing or shorter than its parent pointer |
| `StateChain.RemovedIsGone` | src/service/migrations.rs:2603-2608 | two concrete records: what the first adds and the second removes is gone |
| `RootBackfill.Backfill.FlushChunk` | src/service/migrations.rs:2728-2763 | a chunk is labelled as a whole if every snapshot in it resolves, and nothing is written otherwise |
| `RootBackfill.Backfill.Run` | src/service/migrations.rs:2896-2949 | the chunked loop succeeds exactly when every flushed chunk resolves, and then labels like one unchunked pass |
| `RootBackfill.LabelsGreatest` | src/service/migrations.rs:2728-2763 | whenever the loop succeeds, at whatever threshold, each event ends with the root of the greatest snapshot that added it |
| `RootBackfill.Backfill.BackfillStore` | src/service/migrations.rs:2896-2949 | a backfill of the whole store that succeeds leaves each event with the root built, for the first event its greatest adding snapshot added, from the full state of that snapshot, and other events as they were |
| `RootBackfill.ThresholdIndependent` | src/service/migrations.rs:2896-2949 | whether it succeeds is the same at all positive thresholds if and only if no snapshot adds an event, or all resolve, or one up to the last that adds an event does not |
| `RootBackfill.StoreThresholds` | src/service/migrations.rs:2896-2949 | the same for the diffs of a store: no snapshot adds an event, or the last one does, or one up to the last that does fails |
| `RootBackfill.EveryThresholdSucceeds` | src/service/migrations.rs:2896-2949 | it succeeds at every threshold if and only if every snapshot resolves or none adds an event |
| `RootBackfill.ThresholdMatters` | src/service/migrations.rs:2896-2949 | a store of two records, the second only a parent pointer, whose backfill passes at threshold 1 and fails at 2 |
| `VerdictFold.Lt21CrashRestartable` | src/service/migrations.rs:2042-2222 | after any number of crashes, each after any prefix of the writes, a full run ends with the tables of one uninterrupted run |
| `VerdictFold.ResumeOne` | src/service/migrations.rs:2057-2210 | after its first write a fresh run issues exactly the remaining writes |
| `VerdictFold.NothingLost` | src/service/migrations.rs:2057-2210 | at every point of a run, also one aborted by a corrupt row, no event gained, lost or changed its effective verdict or metadata |
| `VerdictFold.FoldPriority` | src/service/migrations.rs:2042-2222 | the stores end with the existing verdict, else the status row, else the metadata verdict, and every row is status-less |
| `VerdictFold.FoldsV20` | src/service/migrations.rs:2144-2165 | a v20 row with no other verdict ends as its metadata, and its typed code in the one store it belongs to |
| `VerdictFold.FoldsV19` | src/service/migrations.rs:2166-2183 | a v19 row ends as its metadata, with code 3 stored if it was soft-failed and 11 if it was rejected |
| `VerdictFold.FoldsV18` | src/service/migrations.rs:2126-2143 | a v18 row ends the same way, with depth 0 and no count |
| `VerdictFold.FoldsV21` | src/service/migrations.rs:2111-2116 | a v21 row stays and brings no verdict |
| `VerdictFold.FoldsStatus` | src/service/migrations.rs:2057-2086 | a stored verdict stays, and otherwise a status row ends as its second byte in the store its first byte names |
| `VerdictFold.NothingLostV20` | src/service/migrations.rs:2144-2210 | at every point of a run a v20 row is there unchanged, or its metadata and its typed code are |
| `VerdictFold.NothingLostFlags` | src/service/migrations.rs:2126-2210 | the same for the flags of v18 and v19 rows |
| `VerdictFold.Lt19CrashRestartable` | src/service/migrations.rs:1835-1906 | the same crash theorem for `db_lt_19` |
| `VerdictFold.Lt19Result` | src/service/migrations.rs:1835-1906 | exactly the listed events without a verdict get an `Unknown` record, and the list is dropped |
| `VerdictFold.Lt19ThenLt21` | src/service/migrations.rs:1835-1900 | running both stores the effective verdict, and `Unknown` only where nothing was recorded |
| `VerdictFold.ListedSurvives` | src/service/migrations.rs:1835-1900 | a listed event ends in a store unless its only record is a non-empty unreadable status row |
| `VerdictFold.MalformedStatusLosesEvent` | src/service/migrations.rs:2057-2092 | a concrete listed event that is lost |
| `VerdictFold.EventTables.DbLt21` | src/service/migrations.rs:2042-2222 | the tables move through exactly the modelled writes, and success means that every row parses |
| `VerdictFold.EventTables.DbLt19` | src/service/migrations.rs:1835-1906 | the tables move through exactly the modelled writes |
| `VerdictFold.EventTables.FoldStatus` | src/service/migrations.rs:2057-2092 | the status scan issues exactly the missing verdicts |
| `VerdictFold.EventTables.FoldMetadata` | src/service/migrations.rs:2093-2217 | the metadata scan issues verdicts row by row and rewritten rows in batches, and drops the batch at a corrupt row |
| `RawPduRekey.PduTables.Unify` | src/service/migrations.rs:2226-2319 | whatever the batch size, the pass rekeys both tables row by row and counts the rows it migrated |
| `RawPduRekey.RekeyExact` | src/service/migrations.rs:2226-2319 | every event gets its new key, and the tables stay inverse if and only if no two rows share a new key and none takes the old key of a later row |
| `RawPduRekey.BoundedCountsAreSafe` | src/service/migrations.rs:2242-2262 | old-format rows at distinct positions with counts below 2^62 meet that condition in every scan order |
| `RawPduRekey.RekeyLosesNothing` | src/service/migrations.rs:2226-2319 | from such consistent tables no event is lost or merged and every key has 16 bytes |
| `RawPduRekey.RekeyByLayout` | src/service/migrations.rs:2226-2319 | from consistent tables whose keys are room, zeros if backfilled, and two's-complement count below 2^62, every row is migrated, every event ends at room and count + 2^63, and the tables are inverse |
| `RawPduRekey.OldKeyMoves` | src/service/migrations.rs:2270-2295 | every old key, of whatever count, moves to its room and its count offset by 2^63 |
| `RawPduRekey.OthersStay` | src/service/migrations.rs:2242-2265 | keys of other lengths, and 16-byte keys with the sign bit set, stay |
| `RawPduRekey.PositionOrder` | src/service/migrations.rs:2289-2295 | such keys sort by signed count within a room |
| `RawPduRekey.NewKeyOrder` | src/service/migrations.rs:2289-2295 | within a room, byte order of new keys is signed order of counts |
| `RawPduRekey.OvertakenIsLost` | src/service/migrations.rs:2297-2300 | a row that takes the old key of a later row is lost |
| `RawPduRekey.ExtremeCountsCollide` | src/service/migrations.rs:2242-2262 | for every room, two extreme counts whose tables do not stay inverse |
| `Receipts.ReceiptTable.FixDuplicates` | src/service/migrations.rs:1594-1639 | exactly the row with the highest count of each (room, user) and the malformed rows survive |
| `Receipts.ReceiptTable.ScanBackwards` | src/service/migrations.rs:1594-1639 | the scan that forgets `seen` at each room change keeps exactly the last row of each room and user |
| `Receipts.SeenIsExact` | src/service/migrations.rs:1605-1632 | the per-room set decides like one global set |
| `Receipts.RoomsContiguous` | src/service/migrations.rs:1594-1639 | keys of one room are contiguous in byte order |
| `Receipts.GroupOrder` | src/service/migrations.rs:1594-1639 | within a room and user, byte order is count order |
| `Receipts.RoomOrder` | src/service/migrations.rs:1594-1639 | within a room, a key with a higher count comes later |
| `Receipts.ReceiptKeyParts` | src/service/migrations.rs:1609-1626 | the key of any room, count and user is well-formed and is read back |
| `Receipts.ReceiptGroups` | src/service/migrations.rs:1609-1626 | two such keys are of one group exactly if room and user agree |
| `Receipts.MigrateReadReceipts` | src/service/migrations.rs:538-588 | the existing state map is overwritten by the newest parseable row of each group and by nothing else |
| `Receipts.MigrateAfterDedup` | src/service/migrations.rs:538-588 | migrating after deduplication ends with the same map if and only if each group's newest parseable row is its newest row, or is in the map already |
| `Receipts.UnparsedNewestIsLost` | src/service/migrations.rs:538-588 | two rows of a group of which only the older parses: migrated before deduplication, gone after it |
| `Receipts.DedupChangesMigration` | src/service/migrations.rs:538-588 | the same for the keys of any room and user, with both maps |
| `Receipts.AllParse` | src/service/migrations.rs:538-588 | that holds if every row parses |
| `HealReceipts.ReceiptTable.HealAll` | src/admin/yolo/heal.rs:642-690 | removes exactly the obsolete rows and counts deleted and kept ones |
| `HealReceipts.CarriersKept` | src/admin/yolo/heal.rs:642-690 | every signature keeps the first row of the reverse scan that carries it |
| `HealReceipts.SignaturesOf` | src/admin/yolo/heal.rs:655-682 | a row is skipped exactly without two separators or if its value does not parse, and otherwise carries exactly the room, user, type and thread of each receipt |
| `HealReceipts.CarrierIsNewest` | src/admin/yolo/heal.rs:642-690 | that row has the highest count of all well-formed rows of its room that carry the signature |
| `HealReceipts.DeletedExactly` | src/admin/yolo/heal.rs:642-690 | a row goes if and only if it parses and each of its signatures occurs in a newer row |
| `HealReceipts.DeletedIsCovered` | src/admin/yolo/heal.rs:642-690 | each signature of a deleted row is in a newer row that survives |
| `HealReceipts.HealIsStable` | src/admin/yolo/heal.rs:642-690 | healing what was healed changes nothing |
| `HealReceipts.SecondRunDeletesNothing` | src/admin/yolo/heal.rs:642-690 | running again on the healed table deletes nothing |
| `PruneDefaults.PruneDefaults` | src/database/dbkey.rs:499-517 | the retain loop computes the recursive pruning |
| `PruneDefaults.PruneRoundTrip` | src/database/dbkey.rs:499-527 | overlaying the pruned value on the default restores it if and only if it has all the default's keys at each object level |
| `PruneDefaults.PruneStable` | src/database/dbkey.rs:499-527 | pruning twice equals pruning once |
| `PruneDefaults.PruneIsLean` | src/database/dbkey.rs:499-517 | at no object level is a member left that equals its default, or an empty object where the default has an object |
| `PruneDefaults.PruneIsSmallest` | src/database/dbkey.rs:499-527 | whatever reads back as the value holds all that pruning keeps |
| `PruneDefaults.KeptDiffers` | src/database/dbkey.rs:505-516 | a member that is kept does not prune to its own default |
| `PruneDefaults.OmittedKeyIsLost` | src/database/dbkey.rs:505-516 | a concrete object that reads back as its default |
| `MultiGet.RecursiveMultiGet` | src/database/map.rs:719-777 | terminates on every graph; values come by exact distance; the result is truncated if and only if some reachable key was neither fetched nor found missing; it fails only on a reachable row that does not parse |
| `MultiGet.ProcessLevel` | src/database/map.rs:754-767 | one level yields its present keys up to the node limit, its absent keys and all their references |
| `MultiGet.RetainUnvisited` | src/database/map.rs:771-773 | the next level is the unvisited references, once each |
| `MultiGet.UntruncatedIsComplete` | src/database/map.rs:719-777 | untruncated, the values are exactly the present reachable keys and `missing` exactly the absent ones |
| `MultiGet.DepthLimitIsExact` | src/database/map.rs:719-777 | with only a depth limit d, the values are exactly the present keys at distance below d, and truncation means that some key is at distance d |
| `MultiGet.NodeLimitKeepsNearest` | src/database/map.rs:719-777 | a node limit that cuts returns exactly that many values, and skips no present key nearer than a fetched one |
| `Relationships.Clamp` | src/api/msc2836.rs:58-64 | a negative limit becomes 0, and any other the smaller of itself and 100 |
| `Relationships.WalkDown` | src/api/msc2836.rs:338-420 | with a limit, appends exactly the matching prefix of the unlimited walk, in every mode |
| `Relationships.DownFinds` | src/api/msc2836.rs:338-420 | every mode shows distinct, new, visible, stored events linked to the anchor by visible children |
| `Relationships.DownReaches` | src/api/msc2836.rs:338-420 | breadth first, with unlimited breadth and only the anchor seen, it shows exactly the events within `max_depth` hops, nearest first with exact distances |
| `Relationships.TurnShrinks` | src/api/msc2836.rs:338-420 | each turn uses up a frontier event and shows only unseen stored ones, so the walk ends on cyclic relations |
| `Relationships.WalkUp` | src/api/msc2836.rs:422-470 | with a limit, appends exactly the matching prefix of the unlimited climb |
| `Relationships.AncestorsClimb` | src/api/msc2836.rs:422-470 | a climb is a chain of parent edges through new, distinct, visible events stored in the end |
| `Relationships.AncestorsStop` | src/api/msc2836.rs:422-470 | it ends only at the depth limit, without parent, or at a parent seen, unobtainable or invisible |
| `Relationships.Resolve` | src/api/msc2836.rs:472-591 | the reply is not found, forbidden, or the unlimited answer cut at the limit |
| `Requests.ReplyKind` | src/api/msc2836.rs:482-517 | when a reply is not found or forbidden, and which requests fetch first |
| `Requests.AnsweredFrom` | src/api/msc2836.rs:482-505 | a reply comes from the fetched world exactly if the request fetches |
| `Requests.EverythingSpelledOut` | src/api/msc2836.rs:519-586 | without a limit: the anchor, a stored visible requested parent, what the walk in the requested direction adds past both, and the requested children |
| `Requests.AnswerIsPrefix` | src/api/msc2836.rs:587-590 | the events of a reply are the first `limit` of these |
| `Relationships.AnswerSound` | src/api/msc2836.rs:472-591 | in every mode at most `limit` events, no duplicates, all visible, stored and linked to the anchor, which comes first |
| `Relationships.AnswerReaches` | src/api/msc2836.rs:472-591 | a downward breadth-first answer below the limit holds exactly the events in reach, by distance |
| `Relationships.RepliesAreBounded` | src/api/msc2836.rs:52-71 | whatever is requested, a reply holds at most 100 events, at most the requested limit, and is sound |
| `Requests.DefaultsAndGiven` | src/api/msc2836.rs:52-71 | depth 3, breadth 10, limit 100 and the rest off by default, and what is given is taken |
| `Replies.DownReachesPast` | src/api/msc2836.rs:338-420 | whatever was seen before, a breadth-first walk of unlimited breadth shows exactly the events in reach past it, nearest first |
| `Replies.DownCovers` | src/api/msc2836.rs:338-420 | with unlimited depth and breadth, depth first too, it shows exactly the events reachable past those seen |
| `Replies.DepthFirstMisses` | src/api/msc2836.rs:338-420 | six events for which a depth-first walk to depth 3 misses one that is 3 hops away |
| `Replies.DownCount` | src/api/msc2836.rs:338-420 | how many events such walks show |
| `Requests.TurnSpelledOut` | src/api/msc2836.rs:356-418 | one turn in every mode and at every breadth: which event it takes, and that it shows exactly the visible new ones among the first `max_breadth` sorted stored new children, in order |
| `Requests.OneLevelBounded` | src/api/msc2836.rs:396-418 | to depth 1, distinct new visible children are shown in sorted order up to the breadth |
| `Replies.ClimbLength` | src/api/msc2836.rs:422-470 | a climb adds at least n events if and only if the depth limit allows it and each of the first n ancestors exists, can be had and seen, and is new |
| `Replies.LimitedFlag` | src/api/msc2836.rs:587-590 | `limited` is raised exactly for limit 0, or 1 with the parent shown |
| `Replies.FlagDown` | src/api/msc2836.rs:472-591 | downwards, it tells truncation if and only if anchor and parent alone exceed the limit, or they and the events in reach past the parent fit |
| `Replies.FlagDownAlone` | src/api/msc2836.rs:472-591 | without a requested parent: if and only if the limit is 0 or the events in reach fit |
| `Replies.FlagUp` | src/api/msc2836.rs:472-591 | upwards: if and only if anchor and parent alone exceed the limit, or the parent chain is too short to pass it |
| `Replies.FlagUpWithChildren` | src/api/msc2836.rs:472-591 | upwards with children: if and only if anchor and parent alone exceed the limit, or they, the ancestors and the new visible children fit |
| `Replies.TruncatedUnflagged` | src/api/msc2836.rs:587-590 | a concrete reply that is cut without `limited` |
| `Replies.ClimbsPastParent` | src/api/msc2836.rs:524-557 | asked for the parent, an upward walk adds ancestors if and only if fetching it once did not store it and fetching it again does, it is visible and not the anchor, and the depth limit is not 0 |
| `Replies.RequestedParentEndsClimb` | src/api/msc2836.rs:524-557 | asked for a stored parent, the answer holds the anchor, the parent if visible, and the requested children |
| `FederationBatch.PersistEvents` | src/api/msc2836.rs:166-262 | every parsed event ends persisted or pending, counted with repetitions, and distinct events never both |
| `FederationBatch.ParsedAre` | src/api/msc2836.rs:172-192 | the parsed events are those of the responses that parse, in order |
| `FederationBatch.RunPass` | src/api/msc2836.rs:200-252 | one pass tries each pending event against everything stored so far and reports progress |
| `FederationBatch.OrderDoesNotMatter` | src/api/msc2836.rs:148-262 | under monotone acceptance all orders of a batch store the same events if and only if every event acceptable after nine rounds of dependencies is acceptable after eight |
| `FederationBatch.EveryOrderPersists` | src/api/msc2836.rs:194-262 | every order stores the whole batch if and only if no event needs more than eight rounds |
| `FederationBatch.ClosedOutcome` | src/api/msc2836.rs:194-262 | what every order then stores: the events of the first eight rounds |
| `FederationBatch.NineDeepChain` | src/api/msc2836.rs:195-252 | a chain of nine events: ascending order stores all, descending order leaves the last one pending |
| `FederationBatch.PassesStop` | src/api/msc2836.rs:194-252 | unless each pass stored something, nothing pending is acceptable at the end |
| `FederationBatch.StuckIsClosure` | src/api/msc2836.rs:194-252 | a batch that stops with nothing acceptable stored exactly the events whose dependencies can be met |
| `FederationBatch.WorstPass` | src/api/msc2836.rs:194-252 | in the worst order each pass stores exactly one more level |
| `Watchers.Triggered` | src/database/watchers.rs:36-42 | the collected prefixes are exactly the registered prefixes of the key |
| `Watchers.WatcherTable.Watch` | src/database/watchers.rs:19-33 | registers the prefix and a new listener that is not notified |
| `Watchers.WatcherTable.Wake` | src/database/watchers.rs:35-54 | notifies exactly the listeners whose prefix the key starts with |
| `Watchers.PairKept` | src/database/map.rs:354-360 | every step of every actor keeps a listener owed each write committed since it began to listen |
| `Watchers.NoLostWakeUp` | src/database/watchers.rs:19-54 | in every interleaving, a reader that watched, read and missed a write under its prefix is notified once the writer has woken that key |
| `Watchers.WriterIsNeverStuck` | src/database/map.rs:354-360 | a committed writer with a key to wake has an enabled step |
| `Watchers.WriterAdvances` | src/database/map.rs:354-360 | each of its steps lowers a measure, and no other step changes it, so it wakes every key |
| `Watchers.WakeUpsAreJustified` | src/database/map.rs:284-293 | nobody is notified without a committed write under the watched prefix |

## Left out

- Strings in keys are bytes without the separator: UTF-8 validation of decoded strings is not modelled.
- Sequences, nested tuples, `Ignore`, `IgnoreAll` and the top-level single value form of the codec, and its debug-only assertions.
- The storage engine: cork counters, write-ahead log, read errors in streams (the scans stop or skip there) and the marker keys written at the end of a migration.
- The binary layouts of metadata rows: a row carries a tag for the layout it parses as.
- State roots: `Builder` stands for the room lookup and root construction of a snapshot, as an arbitrary function of one event and the full state. The other passes of `db_lt_23` are not modelled.
- Cyclic diff chains: `Acyclic` is assumed, as a cycle would keep both resolvers walking for ever.
- Interrupted rekeying: the original relies on running once, and one complete pass is modelled.
- `populate_pdu_count_in_metadata` and the remaining migrations, including the other tables dropped by `db_lt_19`.
- The writer of legacy state diffs is gone from the code; `Layout` follows the documented record layout.
- RootBackfill.Backfill.FlushChunk: does not model the sort of a chunk, because the stream already yields snapshots in ascending order.
- PruneDefaults.PruneDefaults: works on values, so the in-place edit of each member is a functional update.
- The sibling order of `walk_down` is an arbitrary permutation, so no property depends on it.
- Federation requests of `resolve` may store any further events and child edges (`Network`), but do not change visibility, parents or rooms.
- The child index and reported-children bookkeeping of `persist_federation_events`; acceptance of an event is a function of the events stored.
- Relationships.WalkDown: does not return the final `seen` set, which no caller reads afterwards.
- Watchers: one map is modelled. A batch wakes each map it touches through that map's own watchers.
- HTTP handling, admin output and configuration.
- With a limited breadth, how many events a downward walk shows depends on the sibling order, so `FlagDown` is stated for unlimited breadth; with a depth limit it is stated for breadth first.
- What a depth-first walk under a depth limit reaches depends on the sibling order, because depth is fixed at first discovery. `DepthFirstMisses` shows that it can miss an event in reach; that it shows nothing else is `DownFinds`, and without the limit it misses nothing (`DownCovers`).
