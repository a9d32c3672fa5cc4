# A verified model of the raft_server replication core

raft_server is a small Raft server in C++: one node is started as leader, other nodes join it by a handshake,
and the leader replicates its log of configuration entries to them over framed protobuf messages. This project
models that core in Dafny and proves what it promises, over every input and every run.

`dafny verify dfyconfig.toml` checks everything.

## Layout

| layer | files |
|---|---|
| integers, messages | `Words`, `Messages` |
| one node: each handler as a function on a value | `RaftNode` |
| the server object: the handlers run in place, proved equal to those functions | `RaftServer` |
| the cluster: leader, followers and FIFO channels as a step system | `Replication` |
| what every step keeps; what only grows | `Invariant`, `Growth` |
| what each handler does, said without its body; laws that tie two ends together | `Laws`, `RunLaws` |
| results over every run | `Writes`, `Agreement`, `CommitSafety`, `FollowerCommit`, `Membership`, `Progress`, `SendDiscipline` |
| limits and counterexamples | `Limits`, `Witness`, `Counterexamples` |
| protobuf wire form | `WireFormat`, `Codec`, `ReplyCodec` (functions), `Protobuf` (serializer, parser and size loops), `Fields` (as any reader sees it), `Utf8` |
| the entries database | `EntryStore` |
| byte stream to messages | `Framing`, `Transport` |
| the cluster over its byte streams, refining the step system | `Cluster` |
| ordered delivery of subscription messages | `HoldBack`, `Subscription` |
| recovery log | `RecoveryLog` |

## The step system

A run is a finite sequence of states of one leader and any number of nodes that may join, with two FIFO channels
each. A step is a handshake (whose database write may fail), a broadcast to any set of live connections, the
delivery of the oldest request (any of whose database writes at the follower may fail) or of the oldest reply, or an
election timeout at a follower (a term increment: there is no election). The leader may step down during a run and goes
on broadcasting afterwards, because the timer does not look at the role. The starting term is arbitrary, although the
program always starts with 0.

A run assumes the following of its environment, in `Replication.Enabled`:

* channels do not lose, repeat or reorder messages, and followers do not restart. `Cluster` removes the first half: it
  models the same nodes over byte streams with partial sends and arbitrary chunks, and proves that each of its runs is a
  run of the step system;
* a request is sent to a proxy only when no entry-carrying exchange with it is outstanding; heartbeats may pile up.
  This is needed, because the conflict loop of the follower looks at a log that nothing fills, so a repeated batch is
  appended again. `SendDiscipline.SendSafeExactly` proves that the assumption is exact for every follower that has not
  timed out and lost no write, at every state whose log names distinct nodes: a send breaks the prefix property if and
  only if the assumption is violated;
* indexes and terms stay within 32 bits. The other two guards of `Enabled` (a next index of at least 1, a commit read
  in range) hold in every reachable state, by `Agreement.ReadsInRange`.

A follower acknowledges a batch whether or not it could write it. `Writes` says exactly what that does: a follower that
lost a write holds fewer entries than it acknowledged, refuses every later request and never changes its log again. The
results below hold in every run, and say which followers they promise something for.

## What was found false, and when it holds

| promise | fails | holds if and only if |
|---|---|---|
| a commit index names an entry that the follower stores | a node that joins after index 2 is committed, with no timeout and no failed write: `Counterexamples.LateJoin`, `Counterexamples.PastLastEntryWitness` | for one request: `FollowerCommit.LastIndexExact`; over runs, at a follower that has not timed out and lost no write, it fails only as commit 2 with two entries: `FollowerCommit.FollowerCommitInTime` |
| a commit index is at most the number of entries that the follower stores | `Witness.TimeoutWitness` | the request does not declare more committed than a first batch, or a log short of a lost write, stores: `FollowerCommit.StoredBoundExact` |
| a follower's log is a prefix of the leader's | `Counterexamples.LostWriteWitness` | the follower did not lose the first and write the second entry of its first batch: `Agreement.LogAgreement` |
| an acknowledged batch is stored as it was sent, the term aside | a write that fails; a removal, which is stored as an addition: `Limits.RemovalStoredAsAddition` | every entry is an addition without other payload and every write succeeded: `Limits.AcknowledgedMeansStored`; over runs, whose entries all are: `Agreement.ExactAccounting` |
| a committed entry is stored by the followers counted for it | `Counterexamples.LostWriteWitness`, `Counterexamples.LostForGood` | the follower lost no write of an index up to the committed one: `CommitSafety.DurableCommit`, `CommitSafety.DurableQuorum` |
| a committed entry is seen by every later quorum | two joins: `Counterexamples.TwoJoinsWitness` | the members that store it by then and a quorum outnumber the members: `CommitSafety.CommittedSeenByQuorum`. A smallest quorum at the commit guarantees it for one join, or two when the number of members was even: `CommitSafety.JoinsTolerated`; after more it can hold again: `Counterexamples.SeenAgain` |
| a run can still be completed: every follower comes to store the leader's whole log | a lost write; a lost join, after which the leader's one entry is never sent: `Counterexamples.LoneEntryWitness`; a timeout of a follower that lacks an entry | no node lost a write, the log does not consist of one entry, and whoever timed out stores it whole (while the leader leads and some member has not timed out): `Progress.CompletableExactly` |
| a batch extends the follower's log to a longer prefix of the leader's | `Limits.RepeatedFirstBatch` | the follower holds exactly the entries before it: `Limits.BatchFitsExactly`; as a rule for the sender: `SendDiscipline.SendSafeExactly` |
| every join is logged | a join whose write failed | no such join: `Membership.MembershipExact` |
| `start` leaves log and database in agreement | a database with older entries | it holds nothing that the first entry does not replace: `RaftServer.StartLeader` |
| an entry survives the database | a host with a NUL | the host has no NUL: `EntryStore.ReloadExact` |
| decimal keys keep the database in step with the log | index 2^31 | the index is below 2^31: `EntryStore.PutKeepsAgreement` |
| a serialized message parses | a host that is not UTF-8 | every host is valid UTF-8: `Codec.EntryRoundTrip`, `Codec.AppendQRoundTrip` |

One more limit concerns only the generalised starting term: with 2^32-1, which the program never starts with, a stored
term reads back as -1 and nothing after the first batch is accepted (`FollowerCommit.AcceptedExactly`).

## Where code and comments disagree

The model follows the code: a refused request leaves the next index alone although the comment says it is lowered
(mod/ModApi.hpp:291-294); the conflict loop passes a term where an index is meant (mod/ModApi.hpp:217); becoming a
candidate raises the term but leaves the role (nanoraft/RaftServer.cpp:207-220); the first batch makes the commit update
compute 2 as the last new index although it is 1 (mod/ModApi.hpp:251), and that update also runs on refused requests.

## Model

| member | source | states |
|---|---|---|
| RaftServer.Server.constructor | nanoraft/RaftServer.cpp:80-132 | a new server is a follower of term 0 with an empty log over the database on disk; over an empty one the log agrees with the database |
| RaftServer.Server.BecomeLeader | nanoraft/RaftServer.cpp:186-198 | takes the role; exactly the inactive proxies are reset to one past the deprecated log and sent a request, the active ones are untouched |
| RaftServer.Server.BecomeFollower | nanoraft/RaftServer.cpp:200-205 | only the role changes |
| RaftServer.Server.BecomeCandidate | nanoraft/RaftServer.cpp:207-220 | the term goes up by one modulo 2^32 and the role does not change |
| RaftNode.RaiseTerm | nanoraft/RaftServer.cpp:207-220 | an election timeout raises the term by exactly one, or wraps it to 0; everything else, the role included, is untouched |
| RaftServer.Server.SetAndPersistTerm | nanoraft/RaftServer.cpp:268-285 | current and persisted term become the given one, nothing else changes |
| RaftServer.Server.AppendCfgLog | nanoraft/RaftServer.cpp:386-423 | log and database grow by one CFGADD entry with the node's own term exactly when the write succeeds; where they agreed they still agree |
| RaftServer.Server.LoadEntries | nanoraft/RaftServer.cpp:500-536 | the log becomes the parsed records in iteration order, and the proxies gain exactly the ids added by them; a member so added has next 1, match 0 and no connection, one that was there keeps its indexes and its connection |
| RaftServer.Server.AddProxy | nanoraft/RaftServer.cpp:155-172 | a new proxy starts with next 1, match 0 and no connection; a known one only becomes active again |
| RaftServer.Server.Tie | net/Conn.cpp:375-386 | only the connection of that proxy changes |
| RaftServer.Server.SendAppendEntries | net/Conn.cpp:292-334 | the request for a proxy: nothing, entries 0 and 1, or the entry at the next index, with previous index, previous term and commit index |
| RaftServer.Server.BroadCastAppendEntries | nanoraft/RaftServer.cpp:365-374 | exactly the active proxies with a live connection are sent their request |
| RaftServer.Server.HandshakeQ | mod/ModApi.hpp:47-111 | refines the handshake function: refused by a non-leader, re-tied when known (naming the connection to close if it is another one), otherwise added, logged and broadcast; where database and log agreed they still agree |
| RaftServer.Server.SkipConflicts | mod/ModApi.hpp:207-223 | with the deprecated log empty the conflict loop stops at the first entry |
| RaftServer.Server.AppendNewEntries | mod/ModApi.hpp:207-240 | the log grows by the configuration entries of the batch whose writes succeeded, stamped with the follower's term; where database and log agreed they still agree |
| RaftServer.Server.AdoptTerm | mod/ModApi.hpp:141-161 | the term and role after seeing the request's term, and whether the request is stale |
| RaftServer.Server.AppendEntriesQ | mod/ModApi.hpp:127-264 | refines the follower function on whole states: term, refusals, heartbeat, append, commit update on every path, reply; where database and log agreed they still agree |
| RaftServer.Server.CountHolders | nanoraft/RaftServer.cpp:459-467 | the loop counts the set of proxies whose match index is at least the given index |
| RaftServer.Server.ChangeCommitIndex | nanoraft/RaftServer.cpp:455-476 | the commit index moves by one exactly when a quorum holds the next entry and it has the current term; the result says whether it moved |
| RaftServer.Server.AppendEntriesR | mod/ModApi.hpp:267-329 | refines the reply function: step down on a higher term, count an acknowledged batch, otherwise leave the indexes alone, then try to commit; where database and log agreed they still agree |
| RaftServer.StartLeader | main.cpp:44-56 | `start` over any database produces an initial leader of the step system; log and database agree if and only if the database held nothing that the first entry does not replace |
| RaftServer.Restart | main.cpp:73-81 | `restart` over the database of a server that stopped rebuilds the same log if and only if no host has a NUL, and a proxy with nothing acknowledged for every logged member; then database and log agree again |
| Invariant.StepInv | mod/ModApi.hpp:47-329 | the inductive invariant over leader, followers and messages in flight is kept by every step, whatever writes fail |
| Invariant.RunInv | mod/ModApi.hpp:47-329 | the invariant holds in every state of every run |
| Invariant.AcceptedBatch | mod/ModApi.hpp:207-240 | an accepted batch whose writes succeed extends the follower's log by exactly the leader's next entries, through the two-entry first batch |
| Invariant.LossyBatch | mod/ModApi.hpp:227-240 | an accepted batch that loses a write leaves fewer entries than it acknowledges: still a prefix, or, when the first batch loses only its first entry, entry 1 at index 0 |
| Invariant.ShortRefuses | mod/ModApi.hpp:169-189 | a follower that holds less than it acknowledged refuses every request in flight to it |
| Writes.WholeExactly | nanoraft/RaftServer.cpp:404-417 | in every run a follower holds less than it acknowledged if and only if it accepted a batch and lost a write of it |
| Writes.LostWriteRefuses | mod/ModApi.hpp:169-189 | in every run a follower that lost a write refuses every request |
| Writes.LostWriteFreezes | mod/ModApi.hpp:169-240 | and its log never changes again |
| Writes.ShapeInRun | mod/ModApi.hpp:207-240 | in every run a follower that skipped the first entry holds entry 1 alone, any other one a prefix of the leader's log |
| Invariant.CommitReadSafe | nanoraft/RaftServer.cpp:469 | under the invariant the entry after the commit index exists whenever it is read |
| Laws.RequestSays | net/Conn.cpp:292-334 | a request carries the sender's current term and commit index, the acknowledged index and its entry's term, and exactly the entries that take the member from what it acknowledged to one index more |
| Laws.BroadcastMeans | nanoraft/RaftServer.cpp:365-374 | a broadcast addresses exactly the proxies that are not inactive and whose connection is open |
| Laws.SentSays | net/Conn.cpp:292-373 | in every step exactly the members addressed get one request, which says what the leader is after the step; all other steps only take requests off |
| Laws.AcceptedMeans | mod/ModApi.hpp:142-202 | a request is accepted if and only if its term is not behind and, unless it is for an empty log, the log has an entry of its previous term at its previous index; a refusal leaves the log |
| Laws.TermMeans | mod/ModApi.hpp:142-161 | the term becomes the later of the two, a changed term is persisted, and a node that adopts a term, or is a candidate of the same term, follows |
| Laws.BatchesConcat | mod/ModApi.hpp:227-240 | a batch is appended entry by entry: two batches in a row are their concatenation |
| Laws.SingleEntry | nanoraft/RaftServer.cpp:386-417 | a configuration entry whose write succeeds is stored as an addition with the node's own term and the entry's id, port and host; anything else is not stored |
| Laws.CommitMeans | mod/ModApi.hpp:245-252 | in a run the commit index becomes the larger of what it was and the committed part of the indexes up to where the request ends |
| Laws.KnowsCommitted | mod/ModApi.hpp:245-252 | a follower that holds what it acknowledged, accepts and writes everything then knows as committed all that it stores and the request declares committed |
| Laws.ReplyMeans | mod/ModApi.hpp:267-312 | a later term is adopted, persisted and ends the role; otherwise an acknowledged batch counts one index for that member and for no other |
| Laws.CommitsExactly | nanoraft/RaftServer.cpp:455-476 | while the leader leads, every reply advances the commit index by one if and only if more than half of the members have then acknowledged a later index |
| Laws.AddProxyMeans | nanoraft/RaftServer.cpp:155-172 | a known proxy keeps its indexes and connection and votes again, a new one has next 1, match 0 and no connection, and nobody else changes |
| Laws.HandshakeMeans | mod/ModApi.hpp:64-101 | a handshake that a leader serves ties the node's proxy to the connection it came by, known or not; only a node without a connection is added and, if the write succeeds, logged; a non-leader changes nothing |
| Laws.LeadMeans | nanoraft/RaftServer.cpp:186-198 | exactly the inactive proxies restart one past the deprecated log with nothing acknowledged, and those with a live connection are sent to |
| RunLaws.SentTermReaches | net/Conn.cpp:299-300 | in every run a follower that has handled all it was sent has a term at least that of the sender at the time of sending |
| RunLaws.TiedToLast | nanoraft/RaftProxy.cpp:20 | in every state the members are exactly the nodes whose handshake the leader served, each tied to the connection by which the last one came |
| RunLaws.StepPersists | nanoraft/RaftServer.cpp:268-285 | every step but an election timeout leaves a changed term persisted, at the leader and at every other node |
| RunLaws.SteppedDownIsPersisted | mod/ModApi.hpp:280-286 | a node that leads has persisted no term, and one that has stepped down has persisted the term it has |
| Agreement.LogAgreement | net/Conn.cpp:319-331 | in every run, whatever writes fail, a follower's log is a prefix of the leader's in all fields but the term if and only if it did not skip the first entry (or the first two entries are alike); in all fields while the leader leads |
| Agreement.FollowersAgree | mod/ModApi.hpp:169-240 | two followers' logs are prefixes of one another, with the exact exception of one skipped first entry |
| Agreement.ExactAccounting | net/Conn.cpp:602-622 | next is match plus 1, match is at most the last index, and a follower holds at most what it acknowledged: match plus 1 entries (none for 0), one batch more while its acknowledgement is in flight; it holds exactly that if and only if it lost no write |
| Agreement.ReadsInRange | nanoraft/RaftServer.cpp:461-469 | in every reachable state the next indexes are positive and the commit read is in range, so these guards exclude no run |
| Growth.AnswerGrows | mod/ModApi.hpp:245-252 | handling a request never shortens or rewrites the log and never lowers the term or the commit index, although the commit assignment could |
| Growth.RunGrows | mod/ModApi.hpp:127-329 | between any two states of a run: logs only grow at their ends, terms, commit and match indexes never decrease, lost leadership stays lost |
| Agreement.TermsInOrder | mod/ModApi.hpp:142-161 | a leader has its starting term and a former leader a higher one, no persisted term exceeds the current one, no success reply in flight carries a term above the leader's |
| Agreement.ReplyTerm | mod/ModApi.hpp:258 | a success reply carries its request's term, and only a stale request is answered with a higher one |
| CommitSafety.QuorumsOverlap | nanoraft/RaftServer.cpp:458-469 | two quorums over one proxy set, or over two that differ by one added node, share a follower |
| CommitSafety.QuorumsMeetExactly | nanoraft/RaftServer.cpp:458-469 | every quorum of the members meets a given set of them if and only if that set and a quorum outnumber the members |
| CommitSafety.JoinsTolerated | nanoraft/RaftServer.cpp:458-469 | every later quorum meets a smallest quorum if and only if at most one node joined, or two when the number of members was even |
| CommitSafety.QuorumWithLeaderIsMajority | nanoraft/RaftServer.cpp:458 | a quorum of followers plus the leader is a strict majority of the cluster |
| CommitSafety.CommitStep | nanoraft/RaftServer.cpp:455-476 | only a reply moves the leader's commit index, by one, only while it leads, and only to an index that a quorum of the proxies acknowledged |
| CommitSafety.HolderStores | mod/ModApi.hpp:297-306 | a follower counted for index i stores the leader's log up to i, terms included, if and only if its log is that long, which it is when it holds what it acknowledged |
| CommitSafety.KeeperExactly | mod/ModApi.hpp:227-242 | a follower counted for an index while the leader leads stores the entries up to it if and only if it lost no write of an index up to it |
| CommitSafety.DurableCommit | nanoraft/RaftServer.cpp:455-476 | whenever the commit index advances to i, a quorum has acknowledged i; a follower counted stores the leader's entries up to i, in any later state, if and only if it lost no write of an index up to i before the commit; the leader keeps them too |
| CommitSafety.DurableQuorum | nanoraft/RaftServer.cpp:455-476 | all followers counted store the committed entries in every later state if and only if none of them lost a write of an index up to the committed one |
| CommitSafety.SeenExactly | nanoraft/RaftServer.cpp:458-469 | in every state of every run, every quorum has a member that stores the leader's entries up to an index if and only if the members that store it and a quorum outnumber the members |
| CommitSafety.CommittedSeenByQuorum | nanoraft/RaftServer.cpp:455-476 | the same for a committed entry and every later state; the followers that kept it at the commit are among those that store it |
| CommitSafety.OneJoinTolerated | nanoraft/RaftServer.cpp:155-172 | that is so as long as at most one node joined in between and none of the followers counted lost a write of an index up to the committed one |
| CommitSafety.SteppedDownNeverCommits | mod/ModApi.hpp:280-312 | a leader that has stepped down never advances its commit index again |
| FollowerCommit.FollowerCommitBounds | mod/ModApi.hpp:245-252 | in every run a follower's commit index is at most the leader's; if it lost no write, at most the number of entries stored, unless none is stored and it is at most 2 |
| FollowerCommit.StoredBoundExact | mod/ModApi.hpp:245-252 | handling a request keeps the commit index within the number of stored entries if and only if it is neither a first batch that stores fewer entries than it declares committed, nor any request, at a follower that lost a write, from a leader that has committed more than is stored |
| FollowerCommit.LastIndexExact | mod/ModApi.hpp:245-252 | handling a request keeps the commit index at a stored entry if and only if it is neither a first batch stored whole from a leader that has committed 2, nor a request refused or not written whole from a leader that has committed past the last entry stored |
| FollowerCommit.FollowerCommitInTime | mod/ModApi.hpp:245-252 | in every run, while the leader leads, a follower that has not timed out and lost no write has an exact prefix of the log, and a commit index that exceeds neither the leader's nor the number of stored entries, and names a stored entry except as commit 2 with exactly two entries |
| FollowerCommit.FollowerCommitWithoutTimeouts | mod/ModApi.hpp:245-252 | without timeouts the leader keeps its role, so this holds for every follower that lost no write |
| Membership.MembershipConserved | mod/ModApi.hpp:77-101 | log length plus lost joins equals initial length plus proxies; later entries name pairwise distinct proxies, and all of them when no join was lost |
| Membership.EntriesRecordJoins | nanoraft/RaftServer.cpp:386-417 | every later entry carries id, port and host of a join of the run and the leader's starting term |
| Membership.MembershipExact | mod/ModApi.hpp:77-101 | log length is proxies plus one if and only if no join's write failed, and then the proxies are exactly the ids logged after index 0 |
| Limits.BatchFitsExactly | mod/ModApi.hpp:209-240 | an appended batch keeps the follower's log a prefix of the leader's if and only if the follower holds exactly the entries before it |
| Limits.RepeatedFirstBatch | mod/ModApi.hpp:209-240 | the first batch delivered twice is accepted twice and stored twice |
| Limits.AcknowledgedMeansStored | mod/ModApi.hpp:227-242 | an accepted batch is acknowledged in any case; the log gains the batch as it was sent, except for the follower's term, if and only if every entry is an addition without other payload and every write succeeded |
| Limits.RemovalStoredAsAddition | nanoraft/RaftServer.cpp:386-417 | a removal is acknowledged and stored as an addition of the node to be removed |
| SendDiscipline.SendSafeExactly | net/Conn.cpp:292-373 | one more request to a proxy, with all requests then answered, keeps its log a prefix if and only if no entry-carrying exchange was outstanding |
| SendDiscipline.SendSafeInRun | easytimer/Timer.cpp:142-153 | the same at every state of every run in which nobody joined under the leader's own id, for a follower that has not timed out and lost no write |
| FollowerCommit.AcceptedExactly | mod/ModApi.hpp:169-189 | while the leader leads, a request delivered to a follower that has not timed out is accepted if and only if the follower holds what it acknowledged (and, for the generalised starting term 2^32-1, only the first batch is) |
| Progress.Round | easytimer/Timer.cpp:142-153 | one broadcast to the followers that have not timed out, with everything delivered, takes each that lags one index further |
| Progress.Converges | mod/ModApi.hpp:47-329 | while the leader leads and some member has not timed out, every run without lost writes whose log does not consist of one entry and whose timed-out members have it whole, however its messages interleaved, extends to one in which every member stores the leader's whole log and all commit indexes are the last index |
| Progress.CommitsWithoutMinority | nanoraft/RaftServer.cpp:455-476 | a run whose leader leads extends to one with everything committed, while the nodes outside a given set and all that is in flight to and from them stay as they are, whenever that set is more than half of the members, has not timed out and lost no write |
| Progress.CompletionNeeds | mod/ModApi.hpp:47-329 | whoever leads, a run that extends to a complete one has no lost write, not exactly one entry, no timed-out member that lacks an entry, and, if the leader has stepped down, everything committed |
| Progress.CompletableExactly | mod/ModApi.hpp:47-329 | while the leader leads and some member has not timed out, a run extends to a complete one if and only if no node lost a write, the log does not consist of one entry, and whoever timed out stores it whole |
| Progress.CompletableWithoutTimeouts | mod/ModApi.hpp:47-329 | a run without timeouts extends to a complete one if and only if no node lost a write and the log does not consist of one entry |
| Progress.LoneEntryNeverSent | net/Conn.cpp:319-331 | in every state of every run in which the leader has one entry, every follower's log is empty |
| Progress.LateNeverCompletes | nanoraft/RaftServer.cpp:395-397 | a member that timed out without the whole log never gets it, because it stamps what it writes with its own term |
| Witness.TimeoutWitness | mod/ModApi.hpp:245-252 | a concrete run in which a timeout makes a follower's commit index exceed its stored entries |
| Witness.NothingCommitsAfterwards | nanoraft/RaftServer.cpp:469 | no continuation of that run ever commits the entry that is left |
| Counterexamples.LateJoin | mod/ModApi.hpp:245-252 | in every state whose leader leads and has committed 2, a node that joins and has not timed out accepts its first batch and then has commit 2 with two entries, whatever other connections are open |
| Counterexamples.PastLastEntryWitness | mod/ModApi.hpp:245-252 | there is a run without timeouts that ends like that |
| Counterexamples.LostWriteWitness | mod/ModApi.hpp:227-242 | a run in which a follower stores entry 1 at index 0 and the leader commits an index that no follower stores |
| Counterexamples.LostForGood | mod/ModApi.hpp:227-242 | in no continuation of that run does the follower ever store it |
| Counterexamples.LoneEntryWitness | mod/ModApi.hpp:97-100 | a run in which a join's write fails, and which no continuation completes |
| Counterexamples.SeenAgain | nanoraft/RaftServer.cpp:458-469 | a continuation of the two joins in which every quorum sees the committed entries again |
| Counterexamples.TwoJoinsWitness | nanoraft/RaftServer.cpp:458-469 | a run in which two nodes join after a commit and form a quorum that stores nothing |
| WireFormat.VarintRoundTrip | protocol/api.pb.cc:1282-1332 | reading a written varint returns its value and exactly its bytes |
| WireFormat.DelimitedRoundTrip | protocol/api.pb.cc:1282-1332 | the same for length-delimited records |
| Fields.VarintDigits | protocol/api.pb.cc:1282-1332 | byte i of a varint carries the i-th group of seven bits, all but the last byte have the top bit set, and no group is superfluous |
| Fields.EntryFields | protocol/api.pb.cc:1282-1332 | to any reader of numbered fields a serialized entry is fields 1 to 6, type, term, node id, port, host and payload, defaults left out |
| Fields.AppendQFields | protocol/api.pb.cc:1694-1735 | a serialized request is fields 1 to 4 and one field 5 for each entry, in order |
| Fields.AppendRFields | protocol/api.pb.cc:2047-2075 | a serialized reply is fields 1 to 3, term, success and heartbeat |
| Fields.ParseTakesFields | protocol/api.pb.cc:1116-1231 | parsing any list of fields, reordered, repeated and with unknown ones among them, gives each known field its last value |
| Fields.ParseTakesRequestFields | protocol/api.pb.cc:1557-1652 | the same for requests, whose entries accumulate |
| Fields.ParseTakesReplyFields | protocol/api.pb.cc:1947-2015 | the same for replies |
| Utf8.ValidExactly | protocol/api.pb.cc:1189-1192 | a host passes the check if and only if it is the UTF-8 form of some sequence of Unicode scalar values |
| Utf8.AsciiIsValid | protocol/api.pb.cc:1189-1192 | every host of plain ASCII passes |
| Codec.EntryRoundTrip | protocol/api.pb.cc:1116-1332 | parsing a serialized entry succeeds if and only if its host is valid UTF-8, and then returns the entry |
| Codec.AppendQRoundTrip | protocol/api.pb.cc:1557-1735 | the same for a request with any number of nested entries |
| ReplyCodec.AppendRRoundTrip | protocol/api.pb.cc:1947-2076 | parsing a serialized reply always succeeds and returns the reply |
| ReplyCodec.ParseAppendR | protocol/api.pb.cc:1947-2015 | the tag loop of a reply computes the merge of all fields, and what was merged before a failure |
| Codec.EntrySizeExact | protocol/api.pb.cc:1334-1389 | the computed size of an entry is the number of bytes written |
| Codec.ZeroOnlyInHost | protocol/api.pb.cc:1282-1332 | a serialized entry has a zero byte if and only if its host has one |
| Protobuf.SerializeEntry | protocol/api.pb.cc:1282-1332 | the serializer writes the wire form at the position given, and touches nothing else in the buffer |
| Protobuf.SerializeAppendQ | protocol/api.pb.cc:1694-1735 | the same for a request, nested entries behind their sizes |
| Protobuf.ByteSizeAppendQ | protocol/api.pb.cc:1737-1790 | the size loop computes the number of bytes written |
| Protobuf.ParseEntry | protocol/api.pb.cc:1116-1231 | the tag loop computes the merge of all fields, and what was merged before a failure |
| Protobuf.ParseAppendQ | protocol/api.pb.cc:1557-1652 | the same for a request |
| EntryStore.KeysCompareAsNumbers | nanoraft/RaftServer.cpp:25-50 | decimal keys compare as numbers below the largest int, and as equal from there on |
| EntryStore.NoLeadingZero | nanoraft/RaftServer.cpp:407 | a key has no leading zero, so an index has one key only |
| EntryStore.RecordComplete | nanoraft/RaftServer.cpp:400-407 | the record cut at the first zero byte is the whole serialized entry if and only if the host has no NUL |
| EntryStore.CutRecordLosesHost | nanoraft/RaftServer.cpp:400-407 | otherwise reading the record back fails with the fields before the host set and the host empty |
| EntryStore.ReloadExact | nanoraft/RaftServer.cpp:509-526 | an entry survives the database if and only if its host has no NUL |
| EntryStore.PutKeepsAgreement | nanoraft/RaftServer.cpp:386-417 | writing the next entry keeps database and log in agreement if and only if its index is below 2^31 |
| EntryStore.IterationIsIndexOrder | nanoraft/RaftServer.cpp:509-526 | an iterator over an agreeing database visits 0 to n-1 in order, once each |
| EntryStore.ReplayAgrees | nanoraft/RaftServer.cpp:386-417 | after any sequence of appends whose writes succeed or fail, database and log agree |
| EntryStore.RestartRebuildsLog | nanoraft/RaftServer.cpp:509-526 | and iterating the database rebuilds the log if and only if no host has a NUL |
| Framing.ChunkingIrrelevant | mod/Mod.cpp:75-143 | decoding chunk by chunk handles the same frames and leaves the same rest as decoding at once |
| Framing.FrameLayout | mod/Mod.cpp:161-163 | a frame is the id in two bytes and the length in four, low byte first, then the payload |
| Framing.DecodeEncoded | mod/Mod.cpp:75-143 | decoding a concatenation of frames returns them and goes on with what follows |
| Framing.PrefixOfStream | mod/Mod.cpp:75-143 | any prefix of a stream of frames decodes to a prefix of the frames, all of them for the whole stream, and every header met is well formed |
| Framing.Conn.PreSend | mod/Mod.cpp:145-197 | the old content and the new frame are offered to the socket, and the out-buffer keeps what was not sent |
| Framing.Conn.SendCallback | net/Conn.cpp:162-205 | the out-buffer is offered to the socket and loses exactly the bytes sent |
| Framing.Conn.HandleArrivedMsg | mod/Mod.cpp:75-143 | the decode loop ends, hands over all complete frames in order and keeps a rest that has no complete frame |
| Framing.Conn.RecvCallback | net/Conn.cpp:125-160 | the same for bytes that arrive behind a kept rest; the end of the stream closes the connection, an error changes nothing |
| Transport.FramesArriveInOrder | net/Conn.cpp:125-205 | for every interleaving of enqueues, partial sends and chunks the frames handled are a prefix of those enqueued, all of them once no byte is under way; bytes sent plus out-buffer are the enqueued frames |
| Transport.ReceiverInputSane | mod/Mod.cpp:82-96 | what the decode loop requires of its input holds at every receive of every run |
| Transport.RefinesFifo | mod/Mod.cpp:153-181 | the byte stream refines a FIFO queue of frames step by step |
| Transport.RequestsArriveInOrder | mod/Mod.cpp:110-127 | whatever frames a connection carries, the requests handled are a prefix of the requests enqueued, and all of them once no byte is under way |
| Transport.SentRequestsArrive | net/Conn.cpp:338-357 | codec and framing composed: among handshake replies and other frames, the handler is given the requests that the sender built, in order |
| Transport.Drive | net/Conn.cpp:125-205 | two connection objects driven through the steps of a link hold, buffer by buffer, the state of the link, and hand over the same frames |
| Cluster.StepRefines | mod/Mod.cpp:75-197 | every step of the cluster over its byte streams, whether a handler runs or bytes move, is one step of the step system or none |
| Cluster.RunRefines | mod/Mod.cpp:75-197 | every run of that cluster is a run of the step system, so all results over runs hold of it |
| Cluster.LogsOverTheWire | net/Conn.cpp:125-205 | in every state of every run of that cluster the invariant holds, and each log is a prefix of the leader's, or entry 1 alone |
| Cluster.RequestFits | net/Conn.cpp:338-357 | every request that a leader in a run builds fits a buffer when hosts are text of at most 600 bytes |
| Cluster.FrameIds | net/Conn.cpp:341 | requests travel as message 259 and replies as message 260 |
| Cluster.FirstJoin | mod/ModApi.hpp:95-109 | over new connections the first node can join: the guards of that cluster are met |
| HoldBack.DrainSettles | eventloop/RedisChannel.cpp:308-327 | the drain delivers consecutive waiting messages, stops at the first gap, and leaves only placeholders up to the next id |
| HoldBack.MessageSettles | eventloop/RedisChannel.cpp:296-358 | each message, early, due or repeated, keeps counter and queue exact for the ids arrived |
| HoldBack.MessageMeans | eventloop/RedisChannel.cpp:296-358 | a due message is delivered first, an early one takes the place of whatever waited under its id and changes nothing else, a repeat changes nothing |
| HoldBack.DrainLeavesPlaceholder | eventloop/RedisChannel.h:76 | unless the queue runs empty, a drain leaves a null placeholder under the first missing id |
| HoldBack.HoldBackRefines | eventloop/RedisChannel.cpp:296-358 | after any arrivals the counter is the largest k with 1..k all arrived, messages 1..k were delivered in order once each, and exactly the later ones wait |
| HoldBack.OrderIrrelevant | eventloop/RedisChannel.cpp:296-358 | counter and waiting ids depend only on the set of ids arrived |
| HoldBack.Channel.MsgBy | eventloop/RedisChannel.h:76 | a lookup of a missing id inserts a null placeholder |
| HoldBack.Channel.DrainReady | eventloop/RedisChannel.cpp:306-327 | the drain loop ends although its lookups grow the map, and computes the drain |
| HoldBack.Channel.OnSubscribed | eventloop/RedisChannel.cpp:296-358 | the callback computes the reaction to one message |
| RecoveryLog.StackIsOpenLines | log/Logger.cpp:26-38 | the stack holds exactly the lines after which the depth never falls back, in log order |
| RecoveryLog.ContainsMeans | log/Logger.cpp:29-34 | a mark is found exactly when it occurs somewhere in the line |
| RecoveryLog.ExpireLineRoundTrip | timer/Timer.cpp:640-652 | a written line gives its ids back and has one separator more than ids, so six ids fit ten recorded positions |
| RecoveryLog.OpenLines | log/Logger.cpp:26-38 | the first loop computes the stack of open lines |
| RecoveryLog.Separators | log/Logger.cpp:50-61 | every space of the line is recorded in order, within ten slots |
| RecoveryLog.PushIds | log/Logger.cpp:50-64 | the texts between consecutive spaces are appended in order |
| RecoveryLog.Restore | log/Logger.cpp:17-75 | the result is the ids of the unmatched expire lines, newest line first |
| RecoveryLog.LineMarks | timer/Timer.cpp:640-652 | a written line opens, closes or does neither as it is meant to, and its separators fit ten positions when it has at most nine ids |
| RecoveryLog.RestoreWritten | log/Logger.cpp:17-75 | restoring a written log returns the ids of the batches opened and not closed, newest first |
| Subscription.SplitMessage | eventloop/RedisChannel.cpp:261-285 | the three fields joined again are the message, split at the first two underscores behind the first character |
| Subscription.SplitUndoesJoin | eventloop/RedisChannel.cpp:261-285 | such a reading is unique |
| Subscription.SplitJoined | eventloop/RedisChannel.cpp:261-285 | splitting a join of a non-empty id and an open id without underscores returns the three fields |

## Left out

- RaftServer.Server.SkipConflicts: does not delete from the deprecated log, because that log is empty in every valid state; it then states only where the loop stops.
- RaftServer.Server.SetAndPersistTerm: a failed write ends the process and is not modelled.
- RaftServer.Server.LoadEntries: reads exactly the stored value, while the source passes a fixed length of 128 bytes to the parser.
- Framing.Conn.RecvCallback: the write-interest flags are not modelled.
- Framing.Conn.PreSend: overflow of the 1440-byte buffers is excluded by a precondition; overlapping copies are modelled as moves.
- Framing.Conn.HandleArrivedMsg: headers with an unknown message id or a length that overflows an int are excluded, since the source is undefined there.
- EntryStore.RecordComplete: the length that the source takes by `strlen` is modelled on a NUL-terminated copy of the buffer.
- EntryStore.KeysCompareAsNumbers: covers the decimal keys the program writes, not signs or blanks in foreign keys.
- HoldBack.HoldBackRefines: ids stop at 2^32-2, so the 32-bit counter does not wrap.
- RecoveryLog.Restore: a closing line without an open one and more than ten separators are undefined in the source and excluded.
- Subscription.SplitMessage: messages with fewer than two separators give a negative copy length in the source and are excluded, as are the limits of the field buffers.
- Elections and voting: the vote handlers are empty, so a timeout is only a term increment.
- Applying committed entries, `AppendLog` and `DelLogsFromIndex`: no live path reaches them with effect.
- Indexes of 2^32-1, where the lookup by index adds one in 32 bits: runs keep logs shorter than that.
- A follower restart in the middle of a run, message loss, and what is left on a connection that a reconnecting node replaces: a run lets a node reconnect only when nothing is.
- Proxies and connections as shared objects with weak references: proxies are values in the server's map, and the set of live connections is a parameter.
- Completion after the leader has stepped down, or once every member has timed out: only what it needs is stated (`Progress.CompletionNeeds`).
- Cluster.StepRefines: the handshake request itself is not decoded from its frame; a handshake is a step of the environment, as in the step system.
- The contents of handshakes, request votes and the other protobuf messages, groups and the preservation of unknown fields.
- Sockets, epoll registration, timers, clocks, Redis and LevelDB themselves: their results are parameters.
