# Keva in Dafny

A model of the key-value store Keva and proofs about it: leader election among any number of
nodes, the durable sharded store with its write-ahead log and eviction policies, replication
from a leader to a follower, and the byte formats they speak.

`dafny verify dfyconfig.toml` checks the whole project.

## How it is put together

| file | what it models |
|---|---|
| `raft_node.dfy`, `cluster.dfy`, `cluster_progress.dfy`, `cluster_elects.dfy`, `raft_sessions.dfy` | one node's critical sections, in place and as functions; all nodes, run loops, handlers and late RPC replies as a step system; election safety; which peers can elect a leader; the object performing those steps |
| `sequences.dfy`, `bytes.dfy`, `reader.dfy` | duplicate-free lists, big-endian integers cut to their width, chunks back to back, `io.ReadFull` |
| `wal_record.dfy`, `wal_writer.dfy` | record format and replay; the flusher as a step system and the log object that runs it, compaction of the file, crash at any byte |
| `entries.dfy`, `lru.dfy`, `shard.dfy`, `sampling.dfy`, `lru_runs.dfy`, `lru_sessions.dfy` | byte accounting, recency list, the three eviction policies; what sampling spares; readers that touch the list while a writer works; the shard performing those steps |
| `store.dfy`, `recovery.dfy`, `store_runs.dfy`, `store_limits.dfy`, `sessions.dfy`, `durability.dfy` | the sharded store as a class that refines one flat map; what replay means; whole lives of a store; its memory limits; the class running such a life; crashes of store and log together |
| `messages.dfy`, `frames.dfy`, `formats.dfy`, `topology.dfy` | ReplicationSync, SetRequest, frames and the skipping reader, the formats byte by byte, TopologyResponse and who is marked leader |
| `replication.dfy`, `replication_runs.dfy`, `replication_sessions.dfy` | Node, Leader and the follower loop over the store class; whole runs of a leader and a follower; the classes performing such a run |

Code that changes things in place is a class or a method with its loops, proved against a function
or predicate on values; the theorems over whole runs are about step systems built from those same
functions and predicates. `RaftSessions.Peer.Handle`, `Sessions.Handle`, `LruSessions.Handle`,
`ReplicationSessions.Link.Handle` and the methods of `WalWriter.Wal` show that the classes perform
those steps. Sequences of steps are arbitrary: every
interleaving, message delay, loss, reordering and duplication that a step system allows is covered.

Main results: `Cluster.ElectionSafety`, `Cluster.HeartbeatsNameTheWinner`, `Cluster.LeaderStays`,
`Cluster.VoteHistory`, `ClusterElects.LiveMajorityElects`, `ClusterElects.MinorityElectsNobody`,
`Topologies.OnePeerMarked`, `WalRecord.ReplayOfPrefix`,
`WalWriter.DiskIsARecentPrefix`, `WalWriter.CrashReplaysAPrefix`, `StoreRuns.RecoveryTellsAll`,
`StoreRuns.RecoveryIsExact`, `StoreRuns.RecoveryUnderEviction`, `StoreRuns.RecoveryUnderNoEvict`,
`Recovery.CompactionPreservesMeaning`, `StoreRuns.CompactionIsInvisible`, `StoreLimits.CapHolds`,
`StoreLimits.RestartFits`, `Sessions.Serve`, `Durability.CrashLosesAtMostThreeBatches`,
`Durability.CrashBehindSnapshot`, `ReplicationSessions.Serve`,
`LruRuns.ListAgreesWithShard`, `LruRuns.VictimsAreLeastRecent`, `LruRuns.NoFewerVictims`,
`LruRuns.ReadOutlives`, `LruSessions.Serve`, `LruSessions.ReadThenServe`, `Sampled.LatestOutlivesASet`,
`StoreLimits.StoredExactlyWhenItFits`, `ReplicationSessions.SetThenFollowerGet`,
`ReplicationRuns.ReplicaCatchesUp`, `ReplicationRuns.ReplicaIsAPastLeader`, `Frames.FollowPrefix`,
`Topologies.TopologyRoundTrip`.

## Where the code and its promises differ

The model follows the code. Each difference is proved, with the exact condition.

- A restart does not always bring a store back as it was. A write that NoEvict refuses is already in
  the log and can come up: `StoreLimits.RefusedWriteResurfaces`, with the exact condition in
  `StoreRuns.RecoveryUnderNoEvict`. Evictions are not logged, so an entry evicted by LRU or sampling
  comes back until it expires: `StoreLimits.EvictedEntryReturns`, with the exact condition in
  `StoreRuns.RecoveryUnderEviction`.
- A crash can show a state the store was never in: the records that were pending at a compaction are
  written behind the snapshot oldest first, so for a while an older value of a key stands last in the
  file: `Durability.CrashShowsWhatNeverWas`, with the exact condition in
  `Durability.CrashBehindSnapshot`. Once they are all written, as without a compaction, a crash loses
  only the latest writes: `Durability.CrashLosesAtMostThreeBatches`.
- A follower acknowledges a message that its own log failed to take and does not apply it:
  `ReplicationRuns.FollowerMissesAWrite`, with the exact condition in
  `ReplicationRuns.IdleReplicaAgrees`.
- The memory cap under NoEvict holds until the next restart (`StoreLimits.CapHolds`). A restart can
  break it, because the refused writes come back: `StoreLimits.RestartBreaksTheCap`, with the exact
  condition in `StoreLimits.RestartFits`. And with more shards than bytes of memory the per-shard
  budget rounds to 0, which means unlimited: `Store.CapIsLostBelowOneBytePerShard`.
- A crash inside a record leaves a log that the next start refuses to open: `Store.KVStore.Open`
  with `WalRecord.ReplayOfPrefix`, and `Durability.CrashSinceOpening`.
- An expiry beyond the int64 range of nanoseconds wraps in the log and in replication messages:
  `WalRecord.RoundTrip` and `Replication.SentIsApplied` hold for exactly the others.
- The SET decoder adds 14 to the key length in 16 bits, so keys of 65522 to 65535 bytes make it
  panic: `Messages.SetPanicsOnLongKeys`, `Messages.SetRoundTrip`.
- A frame stream cut right after a frame header ends in a clean EOF, unlike a log cut inside a
  record: `Frames.CutFrame`, `Frames.FollowPrefix`.
- A decoder that panics stops a follower at that frame: `Frames.FollowStopsAtCrash`.
- A value is still served at the very instant it expires, but not recovered:
  `StoreRuns.RestartShowsWhatGetShowed`.

## Model

| member | source | states |
|---|---|---|
| `RaftNode.OthersAreThePeersButSelf` | cluster/raft.go:331-339 | A candidate asks exactly the peers other than itself, each once. |
| `RaftNode.CriticalSectionsKeepTheVote` | cluster/raft.go:60-126 | No critical section lowers the term, and none changes a vote already cast in the same term. |
| `RaftNode.MajorityDecides` | cluster/raft.go:223-243 | A candidate of the term takes office if and only if twice its votes exceed the number of peers. |
| `RaftNode.VoteRequestOutcome` | cluster/raft.go:85-126 | For every state and request, the whole outcome: an older term is refused, a newer one always gets the vote and ends any office, the same term gets it only from a node that does not lead and has no other favourite. |
| `RaftNode.RaftState.constructor` | cluster/raft.go:46-54 | A new node is a follower of term 0 with no vote and no known leader. |
| `RaftNode.RaftState.HandleHeartbeat` | cluster/raft.go:60-82 | A stale heartbeat changes nothing; any other makes the node a follower of its sender in its term, and drops the vote exactly if the term is new; the demotion callback is due exactly when a leader stops being one. |
| `RaftNode.RaftState.HandleVoteRequest` | cluster/raft.go:85-126 | Grants exactly if the term is new, or is the node's own while it does not lead and has voted for nobody else; the reply carries the node's new term; a new term ends any office; the demotion callback is due exactly when a leader stops being one. |
| `RaftNode.RaftState.ElectionTimeout` | cluster/raft.go:180-183 | The role becomes candidate and nothing else changes. |
| `RaftNode.RaftState.StartElection` | cluster/raft.go:187-193 | Raises the term by one, votes for itself, and reads the term and the peers to ask under the same lock. |
| `RaftNode.RaftState.StepBack` | cluster/raft.go:215-220 | The role becomes follower and nothing else changes. |
| `RaftNode.RaftState.Decide` | cluster/raft.go:223-243 | Takes office exactly when still a candidate of that term with the votes of more than half of the peers; a candidate without them becomes a follower, and any other node is left alone. |
| `RaftNode.RaftState.ReceiveVoteReply` | cluster/raft.go:302-311 | A reply of a larger term makes the node adopt it and drop its vote; the grant is passed on. |
| `RaftNode.RaftState.OtherPeers` | cluster/raft.go:331-339 | The loop computes the peers other than self, in order. |
| `Cluster.WinnerHasQuorumOfVoters` | cluster/raft.go:229-231 | The winner of a term has more than half of the peers, all distinct, whose recorded vote in that term is for it. |
| `Cluster.OneWinnerPerTerm` | cluster/raft.go:187-244 | Two winners of one term in a state that satisfies the invariant are the same node, by quorum intersection. |
| `Cluster.NextKeepsInv` | cluster/raft.go:60-327 | Every step of every node, handler and late RPC keeps the invariant, and histories only grow. |
| `Cluster.OneWinnerPerRun` | cluster/raft.go:187-244 | Two offices of one term, seen at any two moments of one run, belong to one node. |
| `Cluster.ElectionSafety` | cluster/raft.go:85-126 | In every run of any number of nodes, at most one node ever leads in a given term. |
| `Cluster.HeartbeatsNameTheWinner` | cluster/raft.go:246-274 | All heartbeats ever sent for a term name one node, that node won the term, and no other node ever leads in it. |
| `Cluster.NoRivalHeartbeat` | cluster/raft.go:60-82 | No heartbeat of a leader's own term is ever addressed to it, so the equal-term path never demotes a leader. |
| `Cluster.LeaderStaysOneStep` | cluster/raft.go:60-126 | In one step a leader stays leader of its term or moves to a strictly larger term. |
| `Cluster.LeaderStays` | cluster/raft.go:246-274 | Over any stretch of a run a leader leaves office only by reaching a strictly larger term. |
| `Cluster.OneVotePerTerm` | cluster/raft.go:102-121 | Terms never go back, and a vote seen in a term is the only one ever seen in that term. |
| `Cluster.VoteHistory` | cluster/raft.go:85-126 | `votedFor` is empty exactly when the node has not voted in its current term; a granted reply carries its request's term and is a real vote. |
| `Cluster.LeaderViewIsAWinner` | cluster/raft.go:224-236 | A known leader address is a peer that won a term no later than the node's own, and the term it comes from never goes backwards. |
| `Cluster.LeaderViewsAgree` | cluster/raft.go:71-72 | Two views of the leader that come from the same term agree, at any two moments and on any two nodes. |
| `ClusterProgress.AnyPeerCanWin` | cluster/raft.go:187-244 | For every cluster and every peer there is a run in which that peer leads term 1, so the safety results are not vacuous. |
| `ClusterElects.Settles` | cluster/raft.go:156-274 | By its own timer steps alone, a node in any reachable state comes to the top of its run loop or leads. |
| `ClusterElects.StandsPast` | cluster/raft.go:173-244 | Lost elections raise the term: by its own steps a node can stand for a term past any bound. |
| `ClusterElects.BecomesFree` | cluster/raft.go:60-126 | From every reachable state two peers can bring one of them, a leader included, to where it may stand for office. |
| `ClusterElects.PollsAll` | cluster/raft.go:197-207 | Every peer of a smaller term votes for the candidate, and each such vote is counted once. |
| `ClusterElects.TakesOffice` | cluster/raft.go:223-274 | Counted votes of more than half of the peers, its own included, put the candidate in office, and its heartbeats make all its voters follow it. |
| `ClusterElects.LiveMajorityElects` | cluster/raft.go:156-274 | Every run of a cluster of two or more, wherever it stands, can go on with steps of any given majority of peers alone until any given one of them leads a term later than any they held, with all the others following it in that term under its address. |
| `ClusterElects.MinorityElectsNobody` | cluster/raft.go:229-231 | In a run in which at most half of the peers ever act, nobody ever wins or leads a term. |
| `RaftSessions.Peer.constructor` | cluster/raft.go:46-58 | A new object is a node of the initial state. |
| `RaftSessions.Peer.Dispatch` | cluster/raft.go:156-171 | The run loop enters the function of its role: the dispatch step. |
| `RaftSessions.Peer.EndFollower` | cluster/raft.go:173-185 | The end of the follower's wait, by wake-up or timer, is that step. |
| `RaftSessions.Peer.StartElection` | cluster/raft.go:187-207 | Bumping the term and starting one vote RPC per other peer, with the self-vote counted, is the election step. |
| `RaftSessions.Peer.EndCampaign` | cluster/raft.go:212-244 | The end of the candidate's wait, by wake-up or by the votes counted so far, is that step. |
| `RaftSessions.Peer.LeaderCheck` | cluster/raft.go:250-258 | The leader's check of its role, which fixes the term of its next heartbeats, is that step. |
| `RaftSessions.Peer.EndLeaderWait` | cluster/raft.go:260-272 | The tick sends one heartbeat of that term to each other peer; it and the wake-up are those steps. |
| `RaftSessions.Peer.Hear` | cluster/raft.go:60-82 | Handling a heartbeat is the step that delivers it. |
| `RaftSessions.Peer.Answer` | cluster/raft.go:85-126 | Handling a vote request is the step that delivers it, and the reply is the one the step sends. |
| `RaftSessions.Peer.Receive` | cluster/raft.go:302-311 | An RPC goroutine that gets its reply adopts a larger term and keeps the grant: the receiving step. |
| `RaftSessions.Peer.Count` | cluster/raft.go:203-205 | A granted vote is counted once, in the campaign that asked for it: the counting step. |
| `RaftSessions.Peer.Handle` | cluster/raft.go:60-311 | Whatever a step asks of a node, its object does: its guarded state, run loop and campaigns are then those of the step system, and what it sends is what the step sends. |
| `Reader.Stream.ReadFull` | storage/wal/wal_record.go:53-55 | Reads exactly n bytes, or uses up the stream and tells a clean end from a cut. |
| `WalRecord.ReadRecord` | storage/wal/wal_record.go:52-81 | Reading step by step from a stream gives what the one-shot reader gives: a record, a clean end, or a torn record. |
| `WalRecord.ReplayLog` | storage/wal/wal_replay.go:24-33 | The loop hands over exactly the records of the one-shot replay, in order, and fails exactly on a torn record. |
| `WalRecord.RoundTrip` | storage/wal/wal_record.go:34-81 | A record reads back as written, whatever follows, if and only if its lengths and a set's expiry fit their fields and only a set has a value. |
| `WalRecord.CutRecordIsTorn` | storage/wal/wal_record.go:83-90 | A record cut anywhere but at its start is reported as torn, never as a clean end. |
| `WalRecord.ReplayOfPrefix` | storage/wal/wal_replay.go:24-33 | Replaying any byte prefix of a log applies exactly the records wholly inside it, and succeeds exactly when it ends between records. |
| `WalRecord.ReplayOfLog` | storage/wal/wal_replay.go:11-34 | A whole log replays to every record written to it. |
| `WalWriter.Wal.constructor` | storage/wal/wal_writer.go:26-46 | Opening keeps the file's bytes, starts with empty channel and batch, and stands for the initial state of the flusher's step system. |
| `WalWriter.Wal.Append` | storage/wal/wal_writer.go:56-79 | Interval mode queues the encoded record (the step system's send), hands it to the waiting flusher when the channel has no room of its own, or blocks on a full channel; the other modes put it at the end of the file and report a failed write or a failed fsync. |
| `WalWriter.Wal.Flush` | storage/wal/wal_writer.go:91-117 | The whole batch goes to the end of the file, in order; the object then stands for the state that tick, one write per record and the end of the flush lead to. |
| `WalWriter.Wal.Receive` | storage/wal/wal_writer.go:111-115 | Taking a record from the channel loses, doubles and reorders nothing, flushes exactly when the batch is full, and is the step system's take with its flush. |
| `WalWriter.Wal.Compact` | storage/wal/wal_compaction.go:14-64 | The file becomes the snapshot's encoding, or stays as it was if that fails; channel and batch are untouched, so pending records go behind it. |
| `WalWriter.FlushRun` | storage/wal/wal_writer.go:91-104 | A flush, from its first write to its end, is a run of the step system that moves the whole batch into the file. |
| `WalWriter.RunKeepsInv` | storage/wal/wal_writer.go:83-120 | In every state that appenders and flusher reach: file, unwritten batch and channel together are exactly the accepted appends, in order. |
| `WalWriter.DiskIsARecentPrefix` | storage/wal/wal_writer.go:38-120 | In every run the file holds a prefix of the accepted appends and misses at most three batches of them. |
| `WalWriter.DiskCanTrailThatFar` | storage/wal/wal_writer.go:38-120 | That bound is reached: for every batch size there is a run in which the file trails by a full channel of two batches and one full batch. |
| `WalWriter.TornLogReplays` | storage/wal/wal_replay.go:24-33 | A log of complete records plus part of the next replays to the complete ones and reports the cut exactly when there is one. |
| `WalWriter.CrashReplaysAPrefix` | storage/wal/wal_writer.go:91-104 | A crash at any moment of any run, any number of bytes into the record the flusher is writing, replays to exactly the records whose writes completed, which miss at most three batches of the accepted ones. |
| `Entries.LruKeepsIsUnique` | storage/eviction/lru_evict_policy.go:30-44 | "The shortest least-recent suffix whose removal makes room, or everything" leaves exactly one choice. |
| `Entries.LruDropKeeps` | storage/eviction/lru_evict_policy.go:37-42 | The loop that drops the least recent key while the rest is too big drops exactly the shortest least-recent suffix that makes room, or everything. |
| `Lru.LRUEvict.KeysAreDistinct` | storage/eviction/lru_evict_policy.go:71-76 | List and index have the same keys, each once. |
| `Lru.LRUEvict.Forget` | storage/eviction/lru_evict_policy.go:71-76 | Removes the key from list and index and leaves the rest in order; nothing happens for an unknown key. |
| `Lru.LRUEvict.AfterWrite` | storage/eviction/lru_evict_policy.go:46-50 | Always adds a new front element and points the index at it; list and index stay in agreement exactly when the key was not listed. |
| `Lru.LRUEvict.AfterRead` | storage/eviction/lru_evict_policy.go:54-60 | A listed key moves to the front and the others keep their order behind it; a key that is gone is ignored. |
| `Lru.TouchedGoesFirst` | storage/eviction/lru_evict_policy.go:54-60 | Of a duplicate-free list the touched key is cut out and put first, with everything before and after it in its old order; an unlisted key changes nothing. |
| `Shards.Shard.Evict` | storage/store/shard.go:39-44 | Drops the key and keeps the byte counter equal to the sum of stored lengths. |
| `Shards.Shard.MakeRoom` | storage/store/kv_store.go:103-104 | What each policy may do to list and map before a write. |
| `Shards.Shard.TakeOut` | storage/store/kv_store.go:95-101 | The entry being replaced leaves the shard and can be put back to give the old map. |
| `Shards.Shard.Commit` | storage/store/kv_store.go:112-118 | Storing an entry adds its size to the counter and its key to the front of the list. |
| `Shards.Shard.Set` | storage/store/kv_store.go:92-121 | One set: stored after the policy made room, or refused with map, list and counter exactly as before. |
| `Shards.Shard.NoteRead` | storage/store/kv_store.go:127-147 | The hook of a hit puts the key first in the list and leaves list and map in agreement. |
| `Shards.Shard.Remove` | storage/store/kv_store_util.go:66-71 | Removing an entry keeps counter, list and map in agreement. |
| `Shards.Shard.Delete` | storage/store/kv_store.go:159-170 | Removes the key if present and says whether it was. |
| `Shards.Shard.Sweep` | storage/store/kv_store_util.go:63-74 | Removes exactly the expired entries, in any map order, keeping list order and counter. |
| `Shards.Shard.CountLoaded` | storage/store/kv_store_util.go:42-47 | After recovery's second pass counter, list and map agree. |
| `Shards.SetKeepsOthers` | storage/store/kv_store.go:92-121 | A stored write leaves only old entries and its own; a refused one changes nothing. |
| `Shards.SetWithoutEviction` | storage/store/kv_store.go:103-118 | Without a budget every write is stored and nothing is evicted; NoEvict never evicts. |
| `Shards.SetWithinBudget` | storage/store/kv_store.go:95-118 | A stored write under a budget ends within it or alone in its shard, from any starting size; NoEvict never exceeds it. |
| `Shards.NoEvictVerdict` | storage/eviction/no_evict_policy.go:9-14 | NoEvict stores a write exactly when the shard without the replaced entry has room in its budget for key and value, or has no budget. |
| `Shards.EvictUntilFits` | storage/eviction/lru_evict_policy.go:37-42 | Eviction from the back stops as soon as there is room, with list and map still in agreement; it terminates because of that agreement. |
| `Shards.LruBeforeWrite` | storage/eviction/lru_evict_policy.go:30-44 | Forgets the overwritten key, then evicts exactly the shortest least-recent suffix that makes room, or everything. |
| `Shards.LruRoomIsTheLoop` | storage/eviction/lru_evict_policy.go:30-44 | What LruBeforeWrite promises and what the eviction loop computes are the same list. |
| `Shards.SoonestOfSample` | storage/eviction/sampling_evict_policy.go:29-41 | For every map order the victim has the earliest expiry among min(5, Len) visited entries. |
| `Shards.EvictSoonestOfSample` | storage/eviction/sampling_evict_policy.go:29-45 | That victim, and nothing else, leaves the shard. |
| `Shards.SamplingBeforeWrite` | storage/eviction/sampling_evict_policy.go:13-21 | Terminates for every map order; ends with room or an empty shard; every eviction was needed and took the soonest of its sample. |
| `Sampled.VictimChoice` | storage/eviction/sampling_evict_policy.go:29-45 | Of two or more entries the victim never outlives all others, and of five or fewer it is one that expires first. |
| `Sampled.LatestOutlivesASet` | storage/eviction/sampling_evict_policy.go:13-45 | Whatever a write evicts, the old entry that expires last stays as long as any old entry does. |
| `Sampled.FewGoSoonestFirst` | storage/eviction/sampling_evict_policy.go:11-45 | With at most five old entries, those a write evicts expire no later than those it leaves. |
| `LruRuns.NextKeepsInv` | storage/eviction/lru_evict_policy.go:30-76 | Each hook, with late AfterRead calls between the steps of a locked write, keeps list and map in agreement up to the key being written. |
| `LruRuns.ListAgreesWithShard` | storage/eviction/lru_evict_policy.go:30-76 | Whenever the shard's lock is free the list has no duplicates, names exactly the stored keys, and is sorted by last write or successful read. |
| `LruRuns.VictimsAreLeastRecent` | storage/eviction/lru_evict_policy.go:30-60 | In every run, whatever the eviction loop takes out was last used strictly before everything it keeps. |
| `LruRuns.NoFewerVictims` | storage/eviction/lru_evict_policy.go:37-42 | In every run the loop ends with room or an empty shard, and keeping any more of the most recent entries would leave no room. |
| `LruRuns.ReadOutlives` | storage/eviction/lru_evict_policy.go:30-60 | In every run, from a read of one entry on, and as long as the other is not used and the first not deleted, the other is in the shard only while the first is. |
| `LruSessions.Handle` | storage/eviction/lru_evict_policy.go:30-68 | Each locked region of the shard and each hook of the policy, with late AfterRead calls between them, is exactly the step of LruRuns. |
| `LruSessions.SetIsFourSteps` | storage/store/kv_store.go:95-118 | What a set does to an LRU shard is the four steps of a writer. |
| `LruSessions.DeletesAreSteps` | storage/store/kv_store.go:149-171 | Deleting any set of stored keys, one after the other, is a sequence of the delete steps and leaves the others in their order. |
| `LruSessions.Perform` | storage/store/kv_store.go:95-171 | Any set, delete, read or sweep on a shard takes it from one state of the step system to another by its own steps. |
| `LruSessions.Serve` | storage/store/kv_store.go:95-171 | Every sequence of such operations on a shard is a run, and the shard holds its last state. |
| `LruSessions.ReadThenServe` | storage/eviction/lru_evict_policy.go:30-60 | On the class: once an entry is read, however many writes, reads and deletes of other keys follow, an entry that was not used since is in the shard only while the one that was read is. |
| `Recovery.LoadAllAt` | storage/store/kv_store_util.go:19-38 | For each key, the last record that concerns it decides what replay leaves. |
| `Recovery.ReapplyingSuffix` | storage/store/kv_store_util.go:19-38 | Applying a suffix of a history again, to the history's own result, changes nothing. |
| `Recovery.RebuildLater` | storage/store/kv_store_util.go:22-33 | Recovering later loses exactly the entries that expired in between. |
| `Recovery.RebuildStored` | storage/wal/wal_record.go:40-42 | What the codec drops from a delete record never matters to recovery. |
| `Recovery.SnapshotRebuilds` | storage/store/kv_store_util.go:83-103 | A snapshot replayed at any later time gives the entries still alive then. |
| `Recovery.CompactionPreservesMeaning` | storage/wal/wal_compaction.go:14-39 | Snapshot plus any unflushed suffix of the history replays, at any later time, like the whole history. |
| `Store.ShardSetIsFlatSet` | storage/store/kv_store.go:67-121 | A set on one shard is a set on the one flat map, for any hash and shard count. |
| `Store.ShardSetIsStoreSet` | storage/store/kv_store.go:67-121 | A set on one shard is, on the flat map, the policy acting on the key's own part and nothing else changing. |
| `Store.StoreSetIsFlatSet` | storage/store/kv_store.go:82-121 | From the flat map alone: a stored write keeps only old entries and its own, a refused one changes nothing, and without a budget a write is a plain update. |
| `Store.UnlimitedSet` | storage/store/kv_store.go:82-121 | Without a budget every write can be stored, under every policy. |
| `Store.KVStore.constructor` | storage/store/kv_store.go:29-51 | A new store is empty, its shards and lists are new and separate, and the shard budgets together come to the configured memory, short of it by less than one byte per shard; no configured memory means no budget. |
| `Store.KVStore.SetWithExpiry` | storage/store/kv_store.go:82-121 | Log first; then the key's shard does exactly what its policy says and the flat map follows; NoEvict stores exactly when the shard without the old entry has room for key and value; a failed log append changes nothing, the recency list included. |
| `Store.KVStore.SetInShard` | storage/store/kv_store.go:92-121 | Behind the log: the key's shard does what its policy says, the flat map follows, and all other shards stay in order. |
| `Store.KVStore.Get` | storage/store/kv_store.go:127-147 | Finds exactly the stored, unexpired value; after a hit under LRU the key is first in its list; nothing else ever changes. |
| `Store.KVStore.Delete` | storage/store/kv_store.go:153-171 | Always logged; removes exactly that key and says whether it was there. |
| `Store.KVStore.SweepShard` | storage/store/kv_store_util.go:63-74 | Sweeping one shard removes exactly its expired entries from the flat map. |
| `Store.KVStore.Sweep` | storage/store/kv_store_util.go:57-77 | One tick removes exactly the expired entries of all shards and logs nothing. |
| `Store.SnapshotOf` | storage/store/kv_store_util.go:89-99 | One set record per unexpired entry of a shard, in any map order, and no other. |
| `Store.KVStore.Snapshot` | storage/store/kv_store_util.go:83-103 | The compaction callback emits one set record per unexpired entry of the store, and no other. |
| `Store.KVStore.Compact` | storage/store/kv_store_util.go:83-103 | The log becomes a snapshot followed by the records the flusher still holds; memory is unchanged. |
| `Store.KVStore.Load` | storage/store/kv_store_util.go:19-38 | The replay callback changes the flat map as the pure replay function does, in the right shard. |
| `Store.KVStore.Recover` | storage/store/kv_store_util.go:16-49 | Rebuilds exactly what replaying the records at `now` means, with all bookkeeping correct, and is within budget exactly when the rebuilt parts fit. |
| `Store.KVStore.Open` | storage/store/kv_store.go:53-61 | Opening a log fails exactly when it is cut inside a record, and otherwise rebuilds it. |
| `Store.KVStore.MemoryWithinCap` | storage/store/kv_store.go:35-38 | While every shard is within its budget, and with 0 < shards <= cap, the store as a whole stays within the configured cap. |
| `Store.KVStore.WithinIsPartsFit` | storage/store/shard.go:16-23 | Every shard is within its budget exactly when every part of the flat map is. |
| `Store.PartsFitTheCap` | storage/store/kv_store.go:35-38 | Parts within their budgets are together within the cap, whatever the hash. |
| `Store.NoEvictKeepsParts` | storage/eviction/no_evict_policy.go:9-14 | A set under NoEvict takes no shard over its budget. |
| `Store.BudgetSplit` | storage/store/kv_store.go:35-38 | The shard budgets together never exceed the cap, miss it by less than one byte per shard, and are limited at all exactly when there are no more shards than bytes. |
| `Store.CapIsLostBelowOneBytePerShard` | storage/store/kv_store.go:35-38 | With more shards than bytes, NoEvict stores every write of any size. |
| `StoreRuns.SetKeepsAgreement` | storage/store/kv_store.go:82-121 | A set keeps log and memory in agreement at every later time, also when it evicts or is refused. |
| `StoreRuns.SetTellsItself` | storage/store/kv_store.go:82-121 | Stored or refused, with or without evictions, a set changes what the log tells by exactly itself. |
| `StoreRuns.CompactKeepsAgreement` | storage/wal/wal_compaction.go:14-39 | A compaction with unflushed records keeps log and memory in agreement, under every policy. |
| `StoreRuns.CompactionIsInvisible` | storage/store/kv_store_util.go:83-103 | Unlimited memory: at any moment of any run, the bytes left by a compaction, with any number of records still unflushed, recover at any later time what the full log would have. |
| `StoreRuns.RunAgrees` | storage/store/kv_store_util.go:16-103 | Through any sequence of sets, deletes, sweeps, compactions and restarts, under every policy, the log replays to memory with the refused and evicted entries in front, now and later. |
| `StoreRuns.StepKeepsFit` | storage/wal/wal_record.go:34-47 | Sets and deletes that fit a record's fields keep the whole log and all of memory fitting, through compactions and restarts. |
| `StoreRuns.RecoveryTellsAll` | storage/store/kv_store_util.go:16-49 | Every policy and budget: replaying the bytes of a log whose records fit succeeds and yields the unexpired entries of memory with the refused and evicted ones in front. |
| `StoreRuns.RecoveryIsExact` | storage/store/kv_store_util.go:16-49 | Unlimited memory: at any moment of any run, replaying the log's bytes succeeds and yields exactly the live unexpired entries. |
| `StoreRuns.RestartShowsWhatGetShowed` | storage/store/kv_store_util.go:22-33 | Unlimited memory: a restart shows exactly what Get showed if and only if no stored entry expires at that very instant. |
| `StoreRuns.RecoveryUnderEviction` | storage/store/kv_store_util.go:16-49 | LRU and sampling: recovery yields the live unexpired entries and exactly the evicted ones that have not expired; it is exact if and only if every evicted entry still in the log has expired. |
| `StoreRuns.RecoveryUnderNoEvict` | storage/store/kv_store.go:83-109 | NoEvict: recovery gives memory overlaid with the refused writes, and is exact if and only if, for each key whose latest record is a refused write, that write and what is stored come to the same at that time. |
| `StoreLimits.RefusedWriteResurfaces` | storage/store/kv_store.go:104-110 | Whenever an old entry fits the budget and its replacement does not, the policy refuses the replacement and a restart brings it up. |
| `StoreLimits.NoEvictDecides` | storage/eviction/no_evict_policy.go:9-14 | In that life it is the policy's own size test that lets the old entry in and keeps the new one out. |
| `StoreLimits.EvictedEntryReturns` | storage/store/kv_store_util.go:16-49 | LRU and sampling: of two entries of one shard that do not fit together the first is evicted, and a restart before its expiry brings it back. |
| `StoreLimits.CapHolds` | storage/store/kv_store.go:35-38 | NoEvict, with 0 < shards <= cap, from any start within budget: in every state until the next restart the store takes at most the configured cap. |
| `StoreLimits.StoredExactlyWhenItFits` | storage/eviction/no_evict_policy.go:9-14 | NoEvict, in any state: a write is stored if and only if its shard without the replaced entry, plus key and value, takes at most the configured memory divided by the shards, or that quotient is 0; it then changes its own key and no other. |
| `StoreLimits.RestartFits` | storage/store/kv_store_util.go:42-47 | A restart at any moment of any run finds every shard within its budget if and only if in each shard the unexpired refused or evicted entries fit beside the rest; the same for the cap in total. |
| `StoreLimits.RestartBreaksTheCap` | storage/store/kv_store_util.go:42-47 | With 0 < shards <= cap, one refused write larger than the cap is enough for a restart to exceed the cap. |
| `Sessions.Handle` | storage/store/kv_store.go:82-171 | Each call on the store class is one step of the store's step system. |
| `Sessions.Serve` | storage/store/kv_store.go:29-171 | Every sequence of sets, deletes, gets, sweeps and compactions on a new store is a session; its log fits its fields if every request does, and under NoEvict it ends within the cap. |
| `Durability.CrashLosesAtMostThreeBatches` | storage/wal/wal_writer.go:83-120 | Interval mode, once what the log held at the last start or compaction is on disk: a crash between records reopens to the store as it was at a moment since then, inside a record reopening fails, and the disk lacks at most the last 3*MaxBatchSize sets and deletes. |
| `Durability.CrashSinceOpening` | storage/wal/wal_writer.go:83-120 | The same without any condition on the disk for a store that has not compacted since it was opened, on whatever log it was opened. |
| `Durability.CrashBehindSnapshot` | storage/wal/wal_compaction.go:22-36 | A crash after some of the records pending at a compaction were written behind the snapshot reopens to what memory held, if and only if those records tell their keys as memory has them; without a budget, if and only if none of their keys has a later pending record with another effect. |
| `Durability.CrashShowsWhatNeverWas` | storage/wal/wal_compaction.go:22-36 | Two sets of one key and one of another, a compaction, and a crash after the first pending record: reopening shows a state the store was never in. |
| `StoreRuns.BehindSnapshot` | storage/wal/wal_compaction.go:14-39 | A snapshot with any records behind it replays to the memory it was taken of if and only if those records tell their keys as memory has them. |
| `Messages.WriteAt` | protocol/kv/set_protocol_request.go:38-43 | Writing a part at an offset extends the filled front of the buffer by exactly that part. |
| `Messages.ReplicationSync.Encode` | protocol/cluster/replication_sync_protocol_request.go:34-50 | The buffer filled at fixed offsets is exactly the message's byte format. |
| `Messages.ReplicationSync.Decode` | protocol/cluster/replication_sync_protocol_request.go:52-74 | Succeeds exactly when the pure decoder does, and sets the fields to its result. |
| `Messages.SyncRoundTrip` | protocol/cluster/replication_sync_protocol_request.go:34-74 | A message comes back, whatever follows it, if and only if key and value fit their length fields. |
| `Messages.SyncPrefixRefused` | protocol/cluster/replication_sync_protocol_request.go:52-67 | Every strict prefix is refused. |
| `Messages.SetRequest.Encode` | protocol/kv/set_protocol_request.go:32-46 | The buffer is exactly the request's byte format. |
| `Messages.SetRequest.Decode` | protocol/kv/set_protocol_request.go:48-68 | Succeeds, refuses or panics exactly as the pure decoder with its 16-bit sum says. |
| `Messages.KeyEnd` | protocol/kv/set_protocol_request.go:61-65 | The 16-bit end of the key is the true end exactly for keys of at most 65521 bytes. |
| `Messages.SetRoundTrip` | protocol/kv/set_protocol_request.go:32-68 | A request comes back, whatever follows it, if and only if its value fits and its key has at most 65521 bytes. |
| `Messages.SetPanicsOnLongKeys` | protocol/kv/set_protocol_request.go:61-65 | Among keys that fit the length field, the decoder panics on exactly those longer than 65521 bytes. |
| `Messages.SetPrefixRefused` | protocol/kv/set_protocol_request.go:48-59 | Every strict prefix is refused, long keys included. |
| `Formats.GetIsBigEndian` | storage/wal/wal_record.go:57-60 | Reading a field gives the number its bytes spell, most significant first. |
| `Formats.FieldSpells` | storage/wal/wal_record.go:38-41 | A written field spells the number, cut to the field's width, most significant byte first. |
| `Formats.LogLayout` | storage/wal/wal_record.go:13-47 | Where each field of a log record stands and what it spells, byte by byte, the zero expiry of a delete included. |
| `Formats.SetLayout` | protocol/kv/set_protocol_request.go:12-46 | Where each field of a set request stands and what it spells. |
| `Formats.SyncLayout` | protocol/cluster/replication_sync_protocol_request.go:34-50 | Where each field of a replication message stands and what it spells. |
| `Formats.FrameLayout` | protocol/frame.go:22-31 | On the connection a replication message is 4 bytes of length, opcode 0x20 and the payload. |
| `Formats.OpcodesOnTheWire` | storage/wal/wal_record.go:20-23 | A set is operation 1 and a delete operation 2, in the log and between nodes. |
| `Frames.SyncParses` | protocol/message.go:67-97 | A replication message comes back through opcode lookup if and only if it fits its length fields. |
| `Frames.EncodeMessage` | protocol/message.go:67-77 | For any message: the buffer is the opcode followed by the payload, or the payload's encoding error is passed on. |
| `Frames.EncodeFrame` | protocol/frame.go:22-31 | For any message: the buffer is the 4-byte length followed by opcode and payload, or the error is passed on. |
| `Frames.ReadFrame` | protocol/frame.go:50-71 | Reading from a stream gives the pure reader's result and leaves exactly the bytes behind the frame. |
| `Frames.FrameRoundTrip` | protocol/frame.go:22-71 | A read takes exactly the frame that was written, whatever follows, if and only if its length fits 4 bytes. |
| `Frames.FrameLimit` | protocol/frame.go:56-59 | A frame over the limit is refused with its body left unread; any other is read whole. |
| `Frames.CutFrame` | protocol/frame.go:51-64 | A cut frame is never read; the error is a clean EOF exactly when the cut is at its start or right behind its header. |
| `Frames.FollowPast` | cluster/follower.go:53-71 | Any frames, decodable or not, are consumed one by one; exactly the replication messages among them are applied, in order. |
| `Frames.FollowPrefix` | cluster/follower.go:53-71 | For a stream cut at any byte, exactly the replication messages of the frames wholly inside it are applied, and the reported end is known. |
| `Frames.FollowStopsAtCrash` | cluster/follower.go:53-71 | A body on which a decoder panics ends the loop after the messages before it. |
| `Replication.ApplySync` | cluster/follower.go:74-88 | One message changes the store as the policy lets it and is logged; a failed log append changes nothing, and unknown operations do nothing. |
| `Replication.SyncOnce` | cluster/follower.go:53-71 | One pass reads exactly one frame and applies it or skips it, under any budget, or ends with the stream's end or a panic. |
| `Replication.OnePassFollows` | cluster/follower.go:53-71 | Passes put together are the pure stream reader. |
| `Replication.SyncWithLeader` | cluster/follower.go:53-71 | The loop acknowledges exactly the messages of the pure stream reader, each with its own index, and applies and logs, in order, exactly those whose log append succeeds, under any budget. |
| `Replication.UnlimitedFollower` | cluster/follower.go:74-88 | Without a budget the follower's map is exactly the logged messages applied to it. |
| `Replication.AppliedJoined` | cluster/follower.go:74-88 | Applying two batches of messages one after the other is applying their concatenation. |
| `Replication.Leader.Broadcast` | cluster/leader.go:55-75 | Every live connection gets the frame behind what it got before; those whose write fails, and no others, are dropped. |
| `Replication.Leader.BroadcastSet` | cluster/leader.go:36-44 | The index goes up by one, wrapping at 64 bits, and with key, value and expiry to every live follower. |
| `Replication.Leader.BroadcastDelete` | cluster/leader.go:47-53 | The index goes up by one, wrapping at 64 bits, and with the deleted key to every live follower. |
| `Replication.Node.Set` | cluster/node.go:45-60 | The record is logged and the store takes the write as its policy says, to expire after the requested time, or the default if none is requested; it is sent, with that expiry, exactly when it was stored and the node leads. |
| `Replication.Node.LifeOf` | cluster/node.go:46-49 | A positive TTL is the time from now to the expiry; otherwise the default is. |
| `Replication.Node.SetThenGet` | cluster/node.go:45-64 | A stored write is served, value and all, at exactly the times no further off than the requested or default life. |
| `Replication.Node.Delete` | cluster/node.go:66-77 | The delete is logged and the key removed; it is sent exactly when the key was there and the node leads. |
| `Replication.SentIsApplied` | cluster/leader.go:36-53 | Receiving what was sent does to a map what the write did if and only if the expiry is an int64 of nanoseconds. |
| `ReplicationRuns.ArrivesIffSendable` | cluster/leader.go:55-59 | A broadcast write is read back as itself and nothing more, and does the same to the follower's map, if and only if it fits the message's and the frame's length fields and its expiry is an int64. |
| `ReplicationRuns.NextKeepsInv` | cluster/node.go:45-77 | Each write, send, receive (logged or not) and sweep on either side keeps leader, wire and follower in agreement but for the keys whose latest message the follower could not log. |
| `ReplicationRuns.ReplicaCatchesUp` | cluster/follower.go:53-88 | In every reachable state the wire holds whole frames, and a follower that applied all that is on its way would show exactly the leader's unexpired entries, but for keys whose latest message its log failed to take; with no such failure, all of them. |
| `ReplicationRuns.IdleReplicaAgrees` | cluster/follower.go:53-88 | With nothing on its way, both nodes show the same entries if and only if they do so for the keys whose latest message the follower's log failed to take. |
| `ReplicationRuns.NothingMissed` | cluster/follower.go:74-88 | Without a failed log append on the follower there are no such keys. |
| `ReplicationRuns.FollowerMissesAWrite` | cluster/follower.go:66-81 | One failed log append is enough: the message is acknowledged, nothing is on its way any more, and the follower lacks the entry until it expires. |
| `ReplicationRuns.ReplicaIsAPastLeader` | cluster/follower.go:53-88 | What a follower shows is always what the leader held at some earlier moment, after a prefix of its writes, but for the keys whose latest message its log failed to take. |
| `ReplicationRuns.ReplicaMovesForward` | cluster/follower.go:53-88 | A follower never falls back to an earlier write. |
| `ReplicationRuns.IndexCountsMessages` | cluster/leader.go:36-53 | In every run the leader's index is the one it had at the join plus the number of messages sent since, modulo 2^64. |
| `ReplicationSessions.Link.constructor` | cluster/follower.go:41-51 | A follower that shows what the leader shows joins over a new connection: a start of the replication step system. |
| `ReplicationSessions.Link.Handle` | cluster/node.go:45-77 | Any set, delete, delivery or sweep, performed by Node, the follower's pass and the two stores, is a path of the step system. |
| `ReplicationSessions.SetThenFollowerGet` | cluster/follower.go:53-88 | A follower that has caught up and receives the leader's next write serves it at exactly the times no further off than the requested or default life. |
| `ReplicationSessions.Serve` | cluster/follower.go:53-71 | Every sequence of such events since the join is a run, and the objects hold its last state. |
| `Topologies.GetTopology` | cluster/node.go:102-119 | One line per peer, in order, with its address as node ID and role 1 exactly when it is the known leader, else 0. |
| `Topologies.OnePeerMarked` | cluster/node.go:102-119 | In every reachable cluster state a node that knows a leader marks exactly one peer, a winner of the term its view comes from; otherwise it marks none. |
| `Topologies.TopologyResponse.EncodedSize` | protocol/client/topology_protocol_response.go:47-53 | The size loop computes the exact length of the encoding. |
| `Topologies.TopologyResponse.Encode` | protocol/client/topology_protocol_response.go:46-88 | The buffer filled by the offset loop is exactly the message's byte format. |
| `Topologies.TopologyResponse.EncodeNodes` | protocol/client/topology_protocol_response.go:69-85 | The node loop appends the encodings of all nodes, in order. |
| `Topologies.TopologyResponse.Decode` | protocol/client/topology_protocol_response.go:90-155 | Succeeds exactly when the pure decoder does, with its result. |
| `Topologies.TopologyResponse.DecodeNodes` | protocol/client/topology_protocol_response.go:114-152 | The node loop takes exactly the announced number of nodes or refuses. |
| `Topologies.TopologyRoundTrip` | protocol/client/topology_protocol_response.go:46-155 | A topology comes back, whatever follows it, if and only if every string and the node count fit 2 bytes. |
| `Topologies.TakeTopologyExtends` | protocol/client/topology_protocol_response.go:90-155 | A decoder that succeeds takes the same from any longer input. |
| `Topologies.TopologyPrefixRefused` | protocol/client/topology_protocol_response.go:90-155 | Every strict prefix is refused. |

## Left out

- Sockets, dialling, deadlines, timers and random timeouts: a timeout or a wake-up is a step that may always happen, so nothing is said about when an election ends, only that any majority can end one.
- Node restarts in the election: term and vote live in memory only, so one vote per term is not meant to survive a restart.
- The 64-bit wrap of the term counter: terms are unbounded.
- ClusterElects.LiveMajorityElects: a single-node cluster is covered by ClusterProgress.AnyPeerCanWin; once in office its node never stands again.
- RaftSessions.Peer.Handle: one node at a time; that nodes share no memory is taken for granted, and the messages between them are those of the step system.
- The wake-up channel of capacity one: the model allows more wake-ups than the channel would deliver. The runs that `ClusterElects` builds use none.
- Whether `Node.leader` is set exactly while the node leads: the role callbacks run outside the lock, and stepping down on a vote reply calls none.
- Who is in the leader's follower map: one established connection per follower, and no history is sent on join.
- Several writers at once on the leader: the log append and the broadcast happen outside the shard's lock, so writes are taken one at a time in the run theorems.
- Writes that overlap a compaction: they can go to the replaced file.
- Draining on Close: the stop branch of the flusher writes the batch, not the channel.
- What fsync makes durable, file permissions and partial file writes: a file is a byte sequence, and a write either happens or fails as a whole.
- ReplicationRuns.ReplicaCatchesUp: budgets are unlimited, because a follower with a budget of its own evicts or refuses on its own.
- ReplicationRuns.ReplicaIsAPastLeader: one follower; each connection gets the same frames independently of the others.
- WalWriter.Wal.Compact: the case that the rename succeeds and reopening the new file fails is not modelled; the source then keeps writing to the replaced file.
- Store.KVStore.SetWithExpiry: its log is the sequence of records handed over; how they become bytes in a file, and when, is in WalRecord and WalWriter. An append whose fsync fails, which leaves the record in the file, is not among its outcomes.
- Store.KVStore.Get: is one step here; the gap between its read and AfterRead is covered by the steps of LruRuns.
- FNV-1a: the hash is an arbitrary function of the key.
- The `createdAt` field, copying of value buffers, and the monotonic part of Go's clock readings.
- Registration of message types: the other decoders are an arbitrary function from opcode and payload to accept, refuse or panic.
- The small fixed-layout messages (acknowledgements, votes, heartbeats, join, get, delete, responses, errors), engine handlers, TCP routing, configuration, CLI, benchmarks and `utils`: they would only add easy members.
