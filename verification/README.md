# Ecphoria: verified models of its core

Ecphoria is a replicated memory store. This project models the parts of it where a mistake would be
hardest to see and proves what they keep, in Dafny 4.11. `dafny verify dfyconfig.toml` checks all of it.

| files | part of the system |
|---|---|
| `ReplicatedEngine`, `Replay`, `RunLedger` | the stores a replica keeps, what a request does to them, and what happens when a stretch of the log is applied a second time |
| `RaftStore`, `Metadata`, `LogShape`, `Recovery` | the Raft log store over SQLite with its in-memory cache, statement by statement, with failures and crashes; what it remembers of votes, commit marks and membership; a cluster of nodes that apply, crash, reopen, build and install snapshots |
| `Graph`, `TopoOrder`, `Workflow` | Kahn's algorithm and the workflow scheduler on top of it |
| `AgentTranscript`, `AgentReply`, `AgentDriver` | the agent loop: prompts rebuilt from a journal, tool calls numbered by counting text, stopped and started anywhere |
| `HashRing`, `Fnv`, `Resharding`, `TopK` | consistent hashing, the reshard plan and its execution, cross-shard search |
| `OperatorDrain`, `OperatorLease` | the Kubernetes operator: drain before delete, and leader election by compare-and-swap |
| `SnapshotArchive` | the byte format of a snapshot |
| `IngestPipeline` | events, vectors, and the flag that ties them |

Conventions. Code that changes state step by step is a class or a method with loops, proved against a
specification function, and the theorems are about that function or are kept as invariants. What the
system cannot control (a write that fails, a reply of any shape, a crash) is a parameter that ranges
over every possibility. Where a write goes over the network it may also take effect and report an
error (`DoneUnseen`, `Unseen`, `MovedSilently`, `Copied`); a local database statement that reports an
error has had no effect, and a crash may fall on either side of it. A run is any finite sequence of steps.

Where the code and its own comments disagree the model follows the code:

- Applying an entry again is said to be idempotent (`crates/ecphoria-cluster/src/raft/store.rs:276`). An
  ingest batch without idempotency keys is bulk-loaded under a primary key and is rejected the second
  time, so a node that crashed between the engine write and the `last_applied` write can never pass it.
  `Recovery.StuckIff` says exactly when; `Replay.BulkIngestRejectedAgain` is an example.
- A fuzzy backup is said to be harmless under log replay (`crates/ecphoria-core/src/engine/mod.rs:4196-4201`).
  `Replay.FuzzySnapshot` proves it for events and rows exactly outside that case; `Replay.GraphReplayIff`
  and `Replay.VersionDrift` say exactly when it fails for graph edges and state versions. The run ledger
  is not in the snapshot at all; `RunLedger.LedgerIff` and `Recovery.LedgerInEveryRun` say exactly when it
  comes out right nevertheless.
- The ledger of recorded tool results is said to prevent repeated calls on resume
  (`crates/ecphoria-core/src/engine/agentic.rs:749-752`). A driver that has read the whole journal never finds
  its next key there (`AgentDriver.AgentRun.Execute`); the ledger matters only to one that read the
  journal before it got the lease, which the code allows. `AgentDriver.StaleDriverRepeatsIff` says
  exactly when such a driver repeats a key.
- A failed scale-up move is said to be retried on the next pass (`ops/operator/src/main.rs:173-174`). The
  next pass computes no moves (`OperatorDrain.SteadyPassDoesNothing`), and a later scale-down can delete
  the tenant's data (`OperatorDrain.FailedMoveThenLoss`).
- A scale-down plan is said never to delete a shard with live data
  (`crates/ecphoria-cluster/src/shard.rs:71-74`). The migration exports only active memories up to a row
  limit and then deletes all of the tenant's; `Resharding.NothingLostIff` gives the exact condition, and
  `OperatorDrain.ConfirmedDrainKeepsRowsIff` the same for the operator's drain.
- A graceful shutdown is said to delete the lease only if it is still held
  (`ops/operator/src/main.rs:561-562`). The look and the delete are two calls;
  `OperatorLease.DeleteSafeIff` says exactly when the delete is harmless.

## Model

| member | source | states |
|---|---|---|
| `ReplicatedEngine.RowEffect` | crates/ecphoria-cluster/src/raft/store.rs:277-395 | a request leaves every row it does not touch as it was and gives each row it touches the value its last write names |
| `ReplicatedEngine.RowSays` | crates/ecphoria-cluster/src/raft/store.rs:300-348 | request by request, the value each row holds afterwards: the one set or upserted, none after a delete, of a batch of memories the last one under the id |
| `ReplicatedEngine.EdgeEffect` | crates/ecphoria-core/src/memory/cognition.rs:2387-2411 | edge by edge: an added edge is stored as given unless its id is taken, a supersede stores its time and closer in every open edge of its scope and leaves the destination, and nothing removes an edge |
| `ReplicatedEngine.VersionSays` | crates/ecphoria-core/src/memory/state.rs:165-185 | a set gives its row the next version, 1 if it is new; a delete forgets the version |
| `ReplicatedEngine.RunEffect` | crates/ecphoria-core/src/runtime/store.rs:161-222 | a create leaves a run that exists alone; an update rewrites exactly the fields it names, and only of a run that exists |
| `ReplicatedEngine.FreshIsStored` | crates/ecphoria-core/src/memory/episodic.rs:304-330 | in a batch with keys an event is stored as it came unless its id or idempotency key is stored already or came earlier in the batch |
| `ReplicatedEngine.BulkLoadIff` | crates/ecphoria-core/src/memory/episodic.rs:288-295 | a batch without keys is accepted exactly if its ids are new and distinct, and then the table is the old one plus the batch |
| `Replay.KeysUniqueAlways` | crates/ecphoria-core/src/memory/episodic.rs:284-330 | after any history every event is stored under its own id and no idempotency key twice |
| `Replay.EventsReplay` | crates/ecphoria-core/src/memory/episodic.rs:285-313 | an ingest applied again over a later table changes nothing if it carries idempotency keys, and is rejected exactly if it is a non-empty batch without any |
| `Replay.RowsStep` | crates/ecphoria-cluster/src/raft/store.rs:300-348 | replaying an entry moves last-writer-wins rows one entry nearer to agreeing with straight replay |
| `Replay.GraphReplayIff` | crates/ecphoria-core/src/memory/cognition.rs:2387-2411 | a graph dumped late and replayed from the label survives unchanged exactly if no supersede in the overlap matches an edge active in the dump |
| `Replay.EdgeHistory` | crates/ecphoria-core/src/memory/cognition.rs:2303-2411 | after any history an edge is what the first entry adding its id carried, closed by the first later supersede of its scope with that entry's time and closer if it was added open, and by nothing else |
| `Replay.VersionDrift` | crates/ecphoria-core/src/memory/state.rs:165-185 | after a replayed overlap a state version is too high by exactly the number of sets in it, unless the overlap deletes the key |
| `Replay.RejectedIff` | crates/ecphoria-cluster/src/raft/store.rs:272-298 | the next entry is rejected exactly if it is a bulk ingest the event table already holds |
| `Replay.ReplayReflects` | crates/ecphoria-cluster/src/raft/store.rs:568-614 | replaying any stretch of the log over stores that have run ahead fails exactly at such an ingest and otherwise keeps them on the log |
| `Replay.FuzzySnapshot` | crates/ecphoria-cluster/src/raft/store.rs:421-467 | a snapshot whose four stores were exported at different moments after the label, installed and replayed from the label, ends in the events and rows of straight replay, in its edges if no supersede of the overlap hits an edge active in the dump, and in a ledger that replays the node's own; it is rejected exactly if a bulk ingest lies between label and event export |
| `Replay.BulkIngestRejectedAgain` | crates/ecphoria-core/src/memory/episodic.rs:293-295 | one keyless event applied twice is rejected |
| `Replay.NewEdgeClosedByReplay` | crates/ecphoria-core/src/memory/cognition.rs:2387-2411 | supersede-then-add replayed over its own result closes the new edge |
| `RunLedger.LedgerIff` | crates/ecphoria-core/src/engine/mod.rs:4153-4215 | the run ledger after installing a snapshot and replaying from its label is that of straight replay exactly if each run that the node had, or that existed at the label, is in both and differs only in fields rewritten since, or is created by the entries replayed with fields that agree or are rewritten afterwards |
| `RunLedger.LedgerKnownIff` | crates/ecphoria-core/src/engine/mod.rs:4153-4215 | with run ids used once: exactly if every run at the label is known to the node and differs only in fields that the entries replayed rewrite |
| `RunLedger.SnapshotLosesRuns` | crates/ecphoria-core/src/engine/mod.rs:4153-4215 | a run from before the label that the installing node lacked and nothing creates again is missing for good |
| `RaftStore.CutAgreesIff` | crates/ecphoria-cluster/src/raft/store.rs:92-113 | after a truncation or purge cache and disk keep the same log exactly if the signed comparison on the cast index is the unsigned one for every entry |
| `RaftStore.MirrorIsHydrate` | crates/ecphoria-cluster/src/raft/store.rs:139-181 | a statement mirrored in the cache gives what reading the tables back after it would give |
| `RaftStore.CacheEqualsDisk` | crates/ecphoria-cluster/src/raft/store.rs:475-668 | after every call that fails part way cached log, vote, committed and last_purged equal what hydrate would rebuild; after every call that succeeds the whole cache does, a truncation or purge exactly if its comparisons on the cast index agree, at any index |
| `RaftStore.AgreesAfterErrorIff` | crates/ecphoria-cluster/src/raft/store.rs:595-598 | after an error in apply or install the whole cache equals disk exactly if the membership about to be written, or the snapshot's position and membership, is already there |
| `RaftStore.MembershipRunsAhead` | crates/ecphoria-cluster/src/raft/store.rs:595-598 | on an empty store a membership entry whose write fails leaves a cached membership that is not on disk |
| `RaftStore.MemStore.Reopen` | crates/ecphoria-cluster/src/raft/store.rs:230-270 | reopening gives the cache that the tables determine |
| `RaftStore.MemStore.LoadLog` | crates/ecphoria-cluster/src/raft/store.rs:141-154 | the loop over log rows rebuilds the map of entries under their unsigned indices |
| `RaftStore.MemStore.SaveVote` | crates/ecphoria-cluster/src/raft/store.rs:475-484 | after Ok the vote given is in memory and on disk; every other cached field, meta key, log row and the engine are as before; after an error everything is |
| `RaftStore.MemStore.SaveCommitted` | crates/ecphoria-cluster/src/raft/store.rs:490-499 | after Ok the commit mark given, none included, is in memory and on disk, and nothing else changed; after an error nothing did |
| `Metadata.LastWriteIsRead` | crates/ecphoria-cluster/src/raft/store.rs:475-499 | in every run of calls that succeed, fail or are cut off, crashes and reopens, the vote, commit mark, membership, applied position and purge point read from memory or after a reopen are those of the last write that took effect |
| `Metadata.VoteKept` | crates/ecphoria-cluster/src/raft/store.rs:475-488 | a vote that was saved is read in every later state of the run, across crashes and reopens, until another vote has been written |
| `Metadata.ApplyMembership` | crates/ecphoria-cluster/src/raft/store.rs:595-614 | an apply call cut off after any statement leaves on disk the membership of the last membership entry whose write was reached and the id of the last entry carried through |
| `RaftStore.MemStore.AppendToLog` | crates/ecphoria-cluster/src/raft/store.rs:520-532 | disk and cache advance entry by entry and stop together |
| `RaftStore.AppendEffect` | crates/ecphoria-cluster/src/raft/store.rs:520-532 | an append that returns has put the same initial run of its entries, each under its index and the last one winning, into cache and table, all of them on success, and has changed nothing else |
| `RaftStore.MemStore.DeleteConflictsSince` | crates/ecphoria-cluster/src/raft/store.rs:534-545 | rows and cached entries from the index on go together |
| `RaftStore.MemStore.PurgeUpto` | crates/ecphoria-cluster/src/raft/store.rs:547-558 | the purge mark first, then the rows; the cache follows each |
| `RaftStore.PurgeEffect` | crates/ecphoria-cluster/src/raft/store.rs:547-558 | a purge carried through marks the id given, drops exactly the entries at or below its index from the cache and the rows at or below its cast from the table, and changes nothing else |
| `RaftStore.MemStore.ApplyEntries` | crates/ecphoria-cluster/src/raft/store.rs:568-614 | the loop runs the engine write, then the last_applied write, of each entry in order, and stops at the first failure |
| `RaftStore.MemStore.InstallSnapshot` | crates/ecphoria-cluster/src/raft/store.rs:626-668 | engine first, then the two marks, memory ahead of disk; after Ok engine, position and membership are the snapshot's and log, vote and commit mark are as before |
| `RaftStore.InstallIs` | crates/ecphoria-cluster/src/raft/store.rs:626-668 | on disk an install carried through leaves the snapshot's engine with the node's own run ledger, its position and its membership, and every other row as it was |
| `RaftStore.MemStore.GetLogState` | crates/ecphoria-cluster/src/raft/store.rs:505-514 | the reported last id is that of the entry no other entry's index exceeds, or the purge point if the log is empty |
| `LogShape.LogShapeInEveryRun` | crates/ecphoria-cluster/src/raft/store.rs:505-558 | in every state of every run with failures, crashes and reopens the log is one contiguous range reaching down to the purge point, above which it holds exactly the entries appended and not truncated; with purge points inside the log the reported ids are in order |
| `LogShape.PurgeCutShort` | crates/ecphoria-cluster/src/raft/store.rs:547-558 | after a purge cut off between its two writes the reported last id is not below last_purged exactly if the log was empty or held the purge point |
| `LogShape.PurgeBeyondEnd` | crates/ecphoria-cluster/src/raft/store.rs:547-558 | a purge point past the end of the log that does break the order |
| `Recovery.ApplyFeedsInOrder` | crates/ecphoria-cluster/src/raft/store.rs:568-614 | an apply call cut off after any statement has fed the engine a gapless initial run of its entries and marked all of them or all but the last |
| `Recovery.DumpIs` | crates/ecphoria-cluster/src/raft/store.rs:421-467 | a finished build holds the label taken first, then events, vectors, memories with the graph, and state, each of its own moment, and no runs |
| `Recovery.ExactStep` | crates/ecphoria-cluster/src/raft/store.rs:272-395 | an entry applied once or twice leaves the same stores, except that a bulk ingest is rejected the second time |
| `Recovery.CrashRecovery` | crates/ecphoria-cluster/src/raft/store.rs:139-181 | in every run of the cluster over every log a node that has installed no snapshot has fed its engine the log in order, repeating only the entry after its durable position, its stores are those of straight replay there or one entry further, and it never gets past an entry that straight replay rejects |
| `Recovery.RunWithin` | crates/ecphoria-cluster/src/raft/store.rs:568-614 | every run over a log is a run over the part before the first entry that straight replay rejects |
| `Recovery.LedgerInEveryRun` | crates/ecphoria-cluster/src/raft/store.rs:626-668 | in every run a node's run ledger is the one its last install found, replayed from there to the durable position or one further, and equals that of straight replay exactly under the condition of LedgerIff |
| `Recovery.Convergence` | crates/ecphoria-cluster/src/raft/store.rs:626-668 | in every run, snapshots included, nodes at the same position past everything they had absorbed hold the same events and rows, those of straight replay, and the same edges if the log supersedes none |
| `Recovery.StuckIff` | crates/ecphoria-cluster/src/raft/store.rs:568-594 | in every run over every log a node's next entry is rejected exactly if it is a bulk ingest its event table already holds or straight replay rejects it too, and then no apply call succeeds or writes anything |
| `TopoOrder.TopoOrder` | crates/ecphoria-core/src/engine/agentic.rs:980-1015 | an order comes back exactly if every dependency is known and the graph has no cycle; it is then a permutation with dependencies first that starts with the dependency-free nodes; otherwise no such order exists; repeated ids and dependencies included |
| `TopoOrder.LoadEdges` | crates/ecphoria-core/src/engine/agentic.rs:982-997 | in-degrees and adjacency lists count every dependency with its multiplicity; fails exactly on an unknown one |
| `TopoOrder.EdgesFit` | crates/ecphoria-core/src/engine/agentic.rs:1001-1010 | an in-degree is never decremented below zero |
| `TopoOrder.Verdict` | crates/ecphoria-core/src/engine/agentic.rs:1000-1014 | a queue that runs dry early proves a cycle and one that does not proves there is none |
| `Graph.CycleExcludesOrders` | crates/ecphoria-core/src/engine/agentic.rs:978-979 | a graph with a cycle has no order with dependencies first |
| `Workflow.RunWorkflow` | crates/ecphoria-core/src/engine/agentic.rs:913-976 | every node starts once and after all its dependencies succeeded, nothing starts after the first non-success, the journal lists what ran, the parent is Succeeded exactly if all nodes are, how far its stored status got otherwise, and which failures make the call fail |
| `AgentTranscript.RebuildTranscript` | crates/ecphoria-core/src/engine/agentic.rs:589-650 | the loop over the journal joins the text of its steps |
| `AgentTranscript.RenderedText` | crates/ecphoria-core/src/engine/agentic.rs:598-646 | the exact text of each kind of journaled step: question, query and results, content, approval prompt in their places |
| `AgentTranscript.LinesSay` | crates/ecphoria-core/src/engine/agentic.rs:598-646 | query, results, content and approval prompt are read back from the lines that carry them |
| `AgentTranscript.LiveIs` | crates/ecphoria-core/src/engine/agentic.rs:789-866 | the text that the live loop appends for a search, a remember or a call is what the journaled step is rebuilt as, given the names it was called with |
| `AgentTranscript.LineFaithfulIff` | crates/ecphoria-core/src/engine/agentic.rs:632-640 | the line the live loop wrote, spelled out on its own, is the one rebuilt from the journaled step always for a search and a remember, and for a call exactly if the server name has no slash |
| `AgentTranscript.PromptFaithfulIff` | crates/ecphoria-core/src/engine/agentic.rs:589-650 | a prompt grown live equals the rebuilt one exactly while no server name had a slash |
| `AgentTranscript.MatchCountIsStarts` | crates/ecphoria-core/src/engine/agentic.rs:748-748 | counting non-overlapping matches of the marker counts every position where it starts |
| `AgentTranscript.StartsSplit` | crates/ecphoria-core/src/engine/agentic.rs:748-748 | the marker count of a concatenation is at least the sum and equals it unless a match crosses the seam |
| `AgentTranscript.RebuiltCount` | crates/ecphoria-core/src/engine/agentic.rs:602-640 | the counter a driver starts from is the number of journaled external calls plus the markers in free text |
| `AgentReply.ReplyReads` | crates/ecphoria-core/src/engine/agentic.rs:777-887 | which of the four commands opens a reply decides how it is read, whatever white space surrounds it; without one the trimmed reply is the answer |
| `AgentReply.CallReads` | crates/ecphoria-core/src/engine/agentic.rs:809-818 | `TOOL call <server> <tool>: <args>` within any white space is read as a call of that tool of that server with those arguments, their surrounding white space dropped |
| `AgentReply.BareCallReads` | crates/ecphoria-core/src/engine/agentic.rs:811-811 | without a colon the arguments are `{}` |
| `AgentReply.SearchReads` | crates/ecphoria-core/src/engine/agentic.rs:778-779 | `TOOL search:` is read as a search for the rest, trimmed |
| `AgentReply.RememberReads` | crates/ecphoria-core/src/engine/agentic.rs:793-794 | `TOOL remember:` is read as storing the rest, trimmed |
| `AgentReply.ApproveReads` | crates/ecphoria-core/src/engine/agentic.rs:868-871 | `TOOL approve:` is read as asking approval for the rest, trimmed |
| `AgentReply.ParseCallReads` | crates/ecphoria-core/src/engine/agentic.rs:811-818 | `<server> <tool>: <args>` is read back as its three parts |
| `AgentReply.TrimAround` | crates/ecphoria-core/src/engine/agentic.rs:777-777 | trimming undoes exactly the surrounding white space |
| `AgentDriver.AgentRun.constructor` | crates/ecphoria-core/src/engine/agentic.rs:446-488 | a new run has its question journaled, if that write took effect, and satisfies the invariant |
| `AgentDriver.AgentRun.ResolveApproval` | crates/ecphoria-core/src/engine/agentic.rs:291-340 | journals the verdict and keeps the invariant |
| `AgentDriver.AgentRun.Begin` | crates/ecphoria-core/src/engine/agentic.rs:745-764 | the driver starts with the rebuilt transcript and the marker count as next key, past every journaled key if it read the whole journal |
| `AgentDriver.ReadLedger` | crates/ecphoria-core/src/engine/agentic.rs:753-764 | the ledger holds exactly the journaled keys with their results |
| `AgentDriver.AgentRun.Execute` | crates/ecphoria-core/src/engine/agentic.rs:819-857 | a recorded key is answered from the ledger and nothing is sent; otherwise the call is sent once under its key, only by the leader; a driver that read the whole journal never hits the ledger |
| `AgentDriver.AgentRun.TakeTurn` | crates/ecphoria-core/src/engine/agentic.rs:766-888 | what one turn shows, sends and journals for every reply and every failure, keeping the invariant |
| `AgentDriver.ReplySays` | crates/ecphoria-core/src/engine/agentic.rs:777-888 | reply by reply the steps journaled, the calls sent with server, tool, arguments and key, and how the turn ends |
| `AgentDriver.AgentRun.Drive` | crates/ecphoria-core/src/engine/agentic.rs:719-888 | from any journal and under any behaviour of model, tools and journal the invariant of a run holds wherever the loop stops: prompts are what the journal gives; if every driver had read the whole journal, journaled keys strictly increase; if every driver had read it or the ledger, no journaled key is sent again and equal keys carry equal results; prompts are bounded by the turns; an answer or a pause is the last step journaled |
| `AgentDriver.GrowCall` | crates/ecphoria-core/src/engine/agentic.rs:857-864 | journaling a call keeps every clause of the invariant of a run: prompts, keys, sends, results |
| `AgentDriver.StartsAhead` | crates/ecphoria-core/src/engine/agentic.rs:745-748 | a driver that read the whole journal starts past every key in it, so journaled keys strictly increase |
| `AgentDriver.KeysGapless` | crates/ecphoria-core/src/engine/agentic.rs:748-748 | if no free text contains the marker, journaled keys are 0, 1, 2, ... |
| `AgentDriver.RetryKeepsKey` | crates/ecphoria-core/src/engine/agentic.rs:745-748 | then two sends share a key exactly if no call was journaled between them |
| `AgentDriver.ResendMeansUnrecorded` | crates/ecphoria-core/src/engine/agentic.rs:819-857 | a key is sent a second time only if the journal did not hold it |
| `AgentDriver.PromptsFaithfulIff` | crates/ecphoria-core/src/engine/agentic.rs:766-776 | in every run each prompt shown by a driver that read the whole journal is the rebuilt transcript exactly while no server name had a slash |
| `AgentDriver.StaleDriverRepeatsIff` | crates/ecphoria-core/src/engine/agentic.rs:496-506 | with no marker in free text, a driver that read only part of the journal starts on a key already journaled exactly if an external call was journaled after what it read |
| `AgentDriver.StaleDriverNeedsNewCall` | crates/ecphoria-core/src/engine/agentic.rs:496-506 | whatever the free text and the history, it does so only if an external call was journaled after what it read |
| `AgentDriver.StaleDriverMeetsOldKey` | crates/ecphoria-core/src/engine/agentic.rs:496-506 | the question was read, another driver journaled the first call: the key repeats |
| `HashRing.BuildRing` | crates/ecphoria-cluster/src/shard.rs:109-119 | the nested loops build the ring of all virtual nodes, later inserts winning; for counts of at least one it holds the points of exactly the shards below that count |
| `HashRing.RingIsRing` | crates/ecphoria-cluster/src/shard.rs:109-119 | for every hash, a ring point belongs to the highest shard that hashes there |
| `HashRing.OwnerIsNearest` | crates/ecphoria-cluster/src/shard.rs:144-155 | a key's owner is the shard of the nearest point clockwise, ties to the highest shard, one shard included |
| `HashRing.ShardForIsNearest` | crates/ecphoria-cluster/src/shard.rs:109-155 | for any counts of at least one the owner is the nearest among the points of exactly those shards |
| `HashRing.Monotone` | crates/ecphoria-cluster/src/shard.rs:109-155 | for every hash, growing from n to m shards, a key keeps its owner exactly if no new shard takes it; it never moves between old shards |
| `Fnv.Hash` | crates/ecphoria-cluster/src/shard.rs:281-288 | the loop folds the byte step over the input from the offset basis |
| `Fnv.XorBitwise` | crates/ecphoria-cluster/src/shard.rs:284-284 | the byte step's exclusive or is one in exactly the bits in which its operands differ |
| `Fnv.ZeroByte` | crates/ecphoria-cluster/src/shard.rs:283-286 | a zero byte multiplies the state by the FNV prime modulo 2^64 and does nothing else |
| `Fnv.TestVectors` | crates/ecphoria-cluster/src/shard.rs:281-288 | the published FNV-1a values of the empty input and of the letter a |
| `Fnv.MixBijective` | crates/ecphoria-cluster/src/shard.rs:283-286 | each byte step is a bijection of the 64-bit state, with its inverse |
| `Fnv.CommonSuffix` | crates/ecphoria-cluster/src/shard.rs:281-288 | appending a common suffix neither makes nor removes a collision |
| `Fnv.OneByte` | crates/ecphoria-cluster/src/shard.rs:281-288 | inputs that differ in exactly one byte never collide |
| `Resharding.MovesExact` | crates/ecphoria-cluster/src/shard.rs:129-141 | the moves are exactly the listed keys whose owner changes, from the old owner to the new |
| `Resharding.ScaleDownExact` | crates/ecphoria-cluster/src/shard.rs:75-97 | a scale-down goes to the number asked for, removes exactly the shards from there on, and moves exactly the listed tenants on them, each to a survivor |
| `Resharding.ScaleUpExact` | crates/ecphoria-cluster/src/shard.rs:75-97 | a scale-up goes to the number asked for, adds exactly the shards in between, and moves exactly the listed tenants that they take over |
| `Resharding.StayExact` | crates/ecphoria-cluster/src/shard.rs:75-97 | asked for the number there is, the plan adds, removes and moves nothing |
| `Resharding.Export` | crates/ecphoria-core/src/memory/cognition.rs:1654-1662 | the newest active memories of the tenant: as many as the limit allows if it is between 1 and 1_000_000, at most one for 0, at most 1_000_000 above |
| `Resharding.ExportCounts` | crates/ecphoria-core/src/memory/cognition.rs:1654-1662 | every export by that rule has min(limit, active) rows for a limit from 1 to 1_000_000, at most one for 0 and min(1_000_000, active) above |
| `Resharding.ExportableIff` | crates/ecphoria-core/src/engine/mod.rs:3110-3115 | a tenant is exportable exactly if all its memories are active and at most that many |
| `Resharding.ExportsAllIff` | crates/ecphoria-core/src/engine/mod.rs:3110-3115 | an export is everything the shard holds of a tenant exactly if all of it is active and within the limit |
| `Resharding.MigrationDropsHistory` | crates/ecphoria-core/src/engine/mod.rs:3128-3143 | after the migration a superseded memory of the moved tenant is on no shard |
| `Resharding.ShardedCluster.MigrateTenant` | crates/ecphoria-core/src/engine/mod.rs:3128-3143 | copies the export, then drops the tenant at the source; an error part way has only copied |
| `Resharding.ShardedCluster.ApplyMoves` | crates/ecphoria-cluster/src/shard.rs:258-269 | any list of moves takes the cluster to the placement that following them gives, counts what moved, and after an error every surviving row is still in place |
| `Resharding.NothingLostIff` | crates/ecphoria-cluster/src/shard.rs:255-269 | the moves lose no memory exactly if every tenant that travelled was exportable |
| `Resharding.ShardedCluster.Rebalance` | crates/ecphoria-cluster/src/shard.rs:32-42 | planning and executing a reshard of a placed cluster places it by the new ring, empties the removed shards, returns the number of memories that changed shard, and loses none exactly if each tenant whose owner changes has only active memories and, for a limit from 1 to 1_000_000, at most that many |
| `TopK.InsertSorts` | crates/ecphoria-cluster/src/shard.rs:246-250 | a stable descending sort puts a hit behind all better ones and the earlier equal ones |
| `TopK.SortPermutes` | crates/ecphoria-cluster/src/shard.rs:246-250 | a stable sort has exactly the hits it was given |
| `TopK.FlattenAt` | crates/ecphoria-cluster/src/shard.rs:240-245 | the concatenation holds every shard's hits one shard behind the other, each in its own order |
| `TopK.DistributedTopK` | crates/ecphoria-cluster/src/shard.rs:236-253 | sorting and truncating everyone's first k gives the same list as sorting and truncating all full rankings |
| `TopK.MemorySearchAll` | crates/ecphoria-cluster/src/shard.rs:236-253 | the fan-out returns the first k, or all if fewer, of a stable descending sort of all full rankings, or an error exactly if a shard did |
| `OperatorDrain.OperatorRing` | ops/operator/src/main.rs:92-100 | the ring built by the operator's own loops is the cluster's |
| `OperatorDrain.ReconcileMoves` | ops/operator/src/main.rs:92-131 | the operator's own ring, routing and planner compute the same moves as the cluster's, for every input |
| `OperatorDrain.Operator.ApplyMoves` | ops/operator/src/main.rs:398-435 | true exactly if every move was addressable and confirmed; on which shards each tenant has data afterwards, for every mix of moves confirmed, unconfirmed, imported without being erased, and failed |
| `OperatorDrain.RequestSays` | ops/operator/src/main.rs:407-432 | tenant by tenant and shard by shard what a move leaves when it is confirmed, carried out silently, imported without being erased, failed, or not addressable |
| `OperatorDrain.Operator.ScaleUp` | ops/operator/src/main.rs:265-296 | the shards whose creation succeeded exist afterwards |
| `OperatorDrain.Operator.ScaleDown` | ops/operator/src/main.rs:302-317 | the shards whose deletion succeeded are gone with all they held |
| `OperatorDrain.Operator.Reconcile` | ops/operator/src/main.rs:143-203 | one pass does exactly what its specification says and asks for a retry exactly if a scale-down could not verify its drain |
| `OperatorDrain.ShardsAfterPass` | ops/operator/src/main.rs:143-203 | the shards after a pass: those before, plus the ones created above the count, minus those deleted at or above the number asked for in a pass that verified its drain |
| `OperatorDrain.TenantsAfterPass` | ops/operator/src/main.rs:143-203 | a pass that deletes nothing leaves tenants where the replies to its moves put them, and where they were if they could not be listed |
| `OperatorDrain.NoDeleteWithoutDrain` | ops/operator/src/main.rs:183-199 | unknown tenants or any unconfirmed move leave every shard in place, so nothing goes down with one |
| `OperatorDrain.DrainSafeIff` | ops/operator/src/main.rs:143-203 | in a pass that deletes, exactly that data of a discovered tenant goes down with a shard which it had on a deleted shard that was not its owner among the shards counted |
| `OperatorDrain.PlacedIsSafe` | ops/operator/src/main.rs:143-203 | from a correctly placed state no discovered tenant has data on a shard that a pass deletes, whatever fails |
| `OperatorDrain.ConfirmedDrainKeepsRowsIff` | crates/ecphoria-gateway/src/rest/handlers/mod.rs:1046-1110 | memory by memory, a confirmed drain of a placed cluster empties the shards to be deleted and keeps every memory exactly if each moved tenant has only active memories and at most 1_000_000 of them |
| `OperatorDrain.SmoothRun` | ops/operator/src/main.rs:143-203 | over any sequence of passes in which every call succeeds, whatever sizes are asked for, the cluster stays placed, every tenant keeps having data, and none goes down with a shard |
| `OperatorDrain.SteadyPassDoesNothing` | ops/operator/src/main.rs:200-202 | a pass that finds the desired number of shards moves nothing |
| `OperatorDrain.FailedMoveThenLoss` | ops/operator/src/main.rs:172-177 | a scale-up with a failed move followed by a scale-down destroys a tenant's data |
| `OperatorLease.MutualExclusion` | ops/operator/src/main.rs:502-559 | for any number of replicas and any interleaving of their reads and writes on a shared clock, at most one is within the lease time of the renewal it last saw succeed, in every run whose deletes happen while nobody leads |
| `OperatorLease.TakeoverIff` | ops/operator/src/main.rs:521-540 | another replica's record may be taken exactly once its renew time plus its duration is past or cannot be represented; one without holder, time or duration, or one's own, at any time |
| `OperatorLease.WriteSays` | ops/operator/src/main.rs:506-554 | a write goes through exactly if the record is the one read, or absent as it was; it stores the writer, the time taken before the read and 15 seconds, and the writer leads for 15 seconds from that time |
| `OperatorLease.ReleaseSays` | ops/operator/src/main.rs:563-569 | a leaving replica deletes only after seeing its own name in the record, and the delete removes whatever record is there by then |
| `OperatorLease.OwnDeletesAreQuiet` | ops/operator/src/main.rs:563-569 | deletes that find the deleter's own record, or none, happen while nobody leads |
| `OperatorLease.WriteKeeps` | ops/operator/src/main.rs:538-554 | an accepted write keeps the record naming whoever is within the lease time, because the record read was still current and was the writer's own, unheld or expired |
| `OperatorLease.DeleteSafeIff` | ops/operator/src/main.rs:563-569 | a run that stands before the delete of a leaving replica goes on to at most one leader, whatever follows, exactly if nobody leads at that moment |
| `OperatorLease.ReleaseRace` | ops/operator/src/main.rs:563-569 | a run of three replicas in which such a delete leaves two leaders |
| `SnapshotArchive.PackDirectory` | crates/ecphoria-cluster/src/replication/snapshot.rs:99-122 | the buffer is the records of all files in order |
| `SnapshotArchive.FourBytes` | crates/ecphoria-cluster/src/replication/snapshot.rs:112-118 | a length field is read lowest byte first |
| `SnapshotArchive.OneFileArchive` | crates/ecphoria-cluster/src/replication/snapshot.rs:99-122 | an archive of one small file, byte for byte |
| `SnapshotArchive.UnpackDirectory` | crates/ecphoria-cluster/src/replication/snapshot.rs:125-173 | the cursor loop writes the files its specification reads, and ends as it says |
| `SnapshotArchive.StopsBecause` | crates/ecphoria-cluster/src/replication/snapshot.rs:125-173 | for any input, behind the files read there is a whole path that is not UTF-8 exactly if an error comes back, a data length beyond the address space exactly in a panic, and otherwise no whole record |
| `SnapshotArchive.RoundTrip` | crates/ecphoria-cluster/src/replication/snapshot.rs:99-173 | unpacking a packed list returns it exactly if and only if every path is UTF-8 and shorter than 2^32 bytes |
| `SnapshotArchive.Truncation` | crates/ecphoria-cluster/src/replication/snapshot.rs:125-173 | cutting an archive anywhere yields exactly the files wholly inside |
| `SnapshotArchive.RepackIsPrefix` | crates/ecphoria-cluster/src/replication/snapshot.rs:125-173 | packing whatever was read from any bytes gives a prefix of those bytes |
| `IngestPipeline.Pipeline.EmbedAndIndex` | crates/ecphoria-core/src/ingest/pipeline.rs:147-198 | every event is sent once, in order, in full chunks and a shorter last one; vectors and flags after any mix of failures and short or long replies; every vector is one that the provider returned for the text it is stored with |
| `IngestPipeline.VectorIsItsAnswer` | crates/ecphoria-core/src/ingest/pipeline.rs:159-163 | the k-th embedding returned for chunk c becomes the vector of the k-th event of that chunk, unless a later applied upsert carries the same id |
| `IngestPipeline.FlaggedHasItsAnswer` | crates/ecphoria-core/src/ingest/pipeline.rs:147-198 | a flagged event has a vector that the provider returned for the event's own text |
| `IngestPipeline.Pipeline.Ingest` | crates/ecphoria-core/src/ingest/pipeline.rs:115-129 | only the append can fail the call, and a flag never runs ahead of its event's own vector, one the provider returned for its text, when ids are unique per event |
| `IngestPipeline.Pipeline.IngestEpisodicOnly` | crates/ecphoria-core/src/ingest/pipeline.rs:136-141 | appends and touches neither flags nor vectors |
| `IngestPipeline.Pipeline.Reindex` | crates/ecphoria-core/src/engine/mod.rs:648-654 | keeps the flags sound under any failure, and a failure-free pass over all unflagged events flags every event |
| `IngestPipeline.VectorsStaySound` | crates/ecphoria-core/src/ingest/pipeline.rs:156-188 | over a batch of stored events every id reported successful has a vector of its own text |
| `IngestPipeline.SoundIff` | crates/ecphoria-core/src/ingest/pipeline.rs:147-198 | without failures the flags stay sound exactly if the last event of the batch under each stored id has the stored text |
| `IngestPipeline.ReusedIdFlagsForeignVector` | crates/ecphoria-core/src/memory/episodic.rs:304-313 | a keyed batch that reuses an id leaves a flagged event with another text's vector |
| `IngestPipeline.VectorsAreStoredIff` | crates/ecphoria-core/src/ingest/pipeline.rs:115-129 | after a failure-free ingest every vector belongs to a stored event exactly if no event of the batch was shut out by its idempotency key alone |
| `IngestPipeline.StoredIff` | crates/ecphoria-core/src/memory/episodic.rs:304-313 | an id is stored after any part of a keyed batch exactly if it was before or an event that carries it was not shut out at its turn |
| `IngestPipeline.IgnoredEventIsIndexed` | crates/ecphoria-core/src/ingest/pipeline.rs:120-126 | an event ignored for its idempotency key still gets a vector, under an id the store does not have |

## Left out

- openraft, the gRPC transport and TLS; its calling discipline (contiguous appends, committed entries applied in order, snapshots installed only when ahead) is the step relation of the models.
- The mode without a database or without an engine, and the values returned to clients from apply.
- `MemoryExpire`, which reads the clock while applying (crates/ecphoria-core/src/memory/cognition.rs:2289-2300), and the creation time of edges.
- Atomicity inside the engine: applying one request and restoring one backup are single steps.
- The in-memory copy of the last snapshot, and reading log ranges.
- JSON, MessagePack and UTF-8 codecs: values are assumed to come back as written.
- LogShape.LogShapeInEveryRun: log indices stay below 2^63; RaftStore.CacheEqualsDisk says what the casts do above.
- Recovery.Convergence: says nothing of state versions and the run ledger, nor of graph edges once the log supersedes one, for which it is false; Replay.GraphReplayIff, Replay.VersionDrift and RunLedger.LedgerIff say when.
- AgentDriver.AgentRun.Drive: does not model the run's status, the approval record or the memory writes of `TOOL remember`; terminal statuses are not sticky in the code.
- AgentDriver.StartsAhead: strict increase of keys needs drivers one at a time that read the whole journal; a journal write is taken to have happened or not by the time its call returns, and the journal to come back in the order written.
- AgentReply.ParseCallReads: tool arguments stay text; whether they are JSON is not modelled.
- The lease on a run (crates/ecphoria-core/src/runtime/store.rs): it appears only as the outcome of each claim.
- TopK.MemorySearchAll: scores are real numbers, so a NaN is not modelled, and each shard is taken to return the first k of a full descending ranking.
- Resharding.ShardedCluster.Rebalance: vectors and graph edges of a moved tenant are not modelled, and memory ids are unique across shards.
- OperatorDrain.Operator.Reconcile: a confirmed move is taken as complete for the tenant it names; which memories it keeps is said by OperatorDrain.ConfirmedDrainKeepsRowsIff, and events and agent state are not modelled there.
- OperatorDrain.PlacedIsSafe: speaks of discovered tenants; discovery asks shard 0 only (ops/operator/src/main.rs:325-369) and is a parameter.
- OperatorDrain.SmoothRun: says nothing of passes in which creating or deleting a shard fails, after which the number of shards no longer gives their indices.
- OperatorLease.MutualExclusion: one shared clock is assumed.
- SnapshotArchive.UnpackDirectory: the file system, path joining and files with equal paths are not modelled; the result is the list of files written.
- IngestPipeline.Pipeline.Ingest: `extract_embedding_text` is an arbitrary function of the event, and `unembedded_events` is taken to return stored unflagged events.
- Obsidian import and export, SDKs, CLI, gateway, telemetry, providers and configuration: plumbing, or settled by reading one branch.
