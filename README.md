# leader-election: replicated key-value state machine and membership, in Dafny

This project models the core of a small Raft-based node written in Go: the
`Cluster` type, which is both the finite state machine the consensus engine
drives (a string-to-string store changed by committed "set" and "delete"
commands, snapshotted and restored wholesale) and the membership coordinator
that turns a join request into RemoveServer/AddVoter configuration changes;
and the HTTP service that reports leadership and forwards join requests.

Modules, one per component:

- `Wrappers`: the `Option` datatype.
- `Raft`: the consensus engine as the core sees it: a configuration of
  `Server(id, address)` entries, the node's role, and configuration-change
  requests that may be refused. `Engine.issued` records every change asked
  for, so that "no RemoveServer or AddVoter call" can be stated.
- `StateMachine`: the store semantics as functions: `Step` (one committed
  entry), `Replay` (a log, left to right), and a reference reading
  `LastWrite` (the last command on a key decides its value).
- `Membership`: `JoinSpec`, the join procedure as a scan over the configuration
  read at the start of the call, and the lemmas about it.
- `Cluster`: class `Table`, a string map held by reference (as a Go map is),
  and class `Cluster`, whose field `m` refers to the store's table; its methods
  are proved against `Step`, `Replay` and `JoinSpec`. `Snapshot` returns a
  freshly allocated table, so isolation from later updates rests on the copy.
- `Httpd`: the request decisions as pure functions (`ServeDecision`,
  `JoinDecision`) and class `Service`, whose methods call a `Cluster` and are
  proved to answer as those functions decide.

Decoding is abstracted: an applied log entry is the decoded `Command` or
`None` for bytes that do not decode; a snapshot being restored and a join
request body are the decoded map or `None`. A command's operation stays the
raw string, so an entry without a recognised "op" is modelled exactly as the
source treats it (a panic). The panic of `Apply` is the result
`Some(fatal)`; the store is left as it was, since the source aborts before
touching it.

The engine's refusals are a fixed set `rejected` of configuration changes
(and a flag for an engine that cannot report its configuration): a change in
the set is refused whenever it is asked for. `RemoveServer` drops every entry
with the given ID; a successful `AddVoter` gives the entry with that ID the
new address in place, or appends the new voter.

Three facts about the source that the model keeps: routing looks at the path
only, whatever the HTTP method, and every path other than "/join" receives
the status body; a join body is accepted when it holds exactly the keys "id"
and "addr", with no check that their values are non-empty; the
model has no timeouts, so a configuration change never fails for lack of
time, which is what the source's timeout of 0 (no bound) gives.

`Cluster.Leader`, `Cluster.NodeID` and `Raft.Engine.GetConfiguration` are
reads defined by their bodies (the engine's role compared with Leader, the
name fixed at startup, the engine's current servers or a failure); what they
mean for a caller is stated by `Httpd.Service.ServeHTTP`,
`Httpd.StatusBodiesDiffer` and `Cluster.Cluster.Join`.

The Join lemmas assume `NoConflicts`: no two servers of the configuration
share an ID or an address. The real engine guarantees this, since it refuses a
configuration with a duplicated ID or address. The model's `RemoveServer`
drops every entry with the given ID, while the real engine drops only the
first one. The two rules agree only on configurations without duplicates.
`Membership.JoinOnDuplicateID` shows what the model's rule does on a
configuration the engine would refuse: an earlier removal also drops the
exact entry, and the later exact match still ends the scan as "already a
member".

## Model

| member | source | states |
|---|---|---|
| `Raft.Without` | cluster/cluster.go:142 | the configuration after a removal holds exactly the servers whose ID was not removed |
| `Raft.WithVoter` | cluster/cluster.go:149 | after AddVoter the new voter is listed, every server with another ID stays, nothing else appears, and a new ID is appended |
| `Raft.Engine.RemoveServer` | cluster/cluster.go:142-145 | the removal is recorded as issued; when not refused the server's ID leaves the configuration, when refused nothing changes |
| `Raft.Engine.AddVoter` | cluster/cluster.go:149-152 | the addition is recorded as issued; when not refused the voter is in the configuration, when refused nothing changes |
| `StateMachine.Step` | cluster/cluster.go:158-172 | an entry applies iff it decodes and its op is "set" or "delete"; set makes key map to value and keeps every other key; delete removes the key and keeps the rest; undecodable data and any other op are the two fatal outcomes |
| `StateMachine.Replay` | cluster/cluster.go:158-172 | applying a log in order succeeds iff every entry is applicable |
| `StateMachine.ReplayAppend` | cluster/cluster.go:158-172 | replaying a log in two parts equals replaying it at once |
| `StateMachine.ReplaySnoc` | cluster/cluster.go:158-172 | replaying one more entry is one more Apply on the store reached so far |
| `StateMachine.ReplayIsLastWrite` | cluster/cluster.go:164-168 | order determinism: after a log, every key holds exactly what the last command on it wrote, or its old value if none touched it |
| `StateMachine.DeleteAbsentIsNoop` | cluster/cluster.go:207-211 | deleting an absent key leaves the store identical and is not an error |
| `StateMachine.SetSetDeleteScenario` | cluster/cluster.go:164-168 | set a, set b, delete a leaves exactly {b: 2} |
| `Membership.Visit` | cluster/cluster.go:131-146 | one listed server: the exact pair, and only it, stops the scan as a member, issuing nothing and leaving the configuration unchanged; for a conflicting one a removal of its ID is issued, and the scan stops as refused iff that removal is refused, otherwise its ID leaves the configuration and the scan goes on; when refused the configuration is unchanged; an unrelated one changes nothing |
| `Membership.Scan` | cluster/cluster.go:131-147 | scanning only ever appends to the issued changes |
| `Membership.JoinSpec` | cluster/cluster.go:122-155 | a configuration read failure is reported as such and changes nothing; every other run only appends to the issued changes |
| `Membership.Evictions` | cluster/cluster.go:131-146 | the removals a full scan asks for are removals only, and cover every conflicting server |
| `Membership.ScanHalted` | cluster/cluster.go:137-144 | after an early return no later server is looked at |
| `Membership.ScanShape` | cluster/cluster.go:131-146 | the scan only drops servers, issues only removals, stops as a member only at the exact pair, and stops on a refusal only after a refused removal |
| `Membership.ScanScanning` | cluster/cluster.go:131-146 | a scan that runs through has removed every matching server, met no exact pair, and issued exactly the evictions in order |
| `Membership.ScanWithoutConflicts` | cluster/cluster.go:131-140 | with no conflicting server the scan changes nothing and stops as a member iff the exact pair is listed |
| `Membership.ScanKeepsOthers` | cluster/cluster.go:131-146 | on a conflict-free configuration the scan keeps every server matching neither ID nor address |
| `Membership.JoinWhenMember` | cluster/cluster.go:137-140 | joining with an already listed (ID, address) pair succeeds with no RemoveServer or AddVoter call |
| `Membership.JoinKeepsOthers` | cluster/cluster.go:131-152 | servers matching neither ID nor address survive a Join, and only the joining node can appear |
| `Membership.JoinKeepsNoConflicts` | cluster/cluster.go:131-152 | Join never leaves two servers sharing an ID or an address |
| `Membership.JoinSuccessAdmitsNode` | cluster/cluster.go:131-154 | after a successful Join the node is listed and is the only server with its ID or its address |
| `Membership.JoinIdempotent` | cluster/cluster.go:122-155 | repeating a successful Join succeeds and issues nothing |
| `Membership.JoinWithoutRefusals` | cluster/cluster.go:131-154 | an engine that refuses nothing lets every Join succeed |
| `Membership.JoinRequests` | cluster/cluster.go:131-152 | a refused removal ends the Join with no AddVoter; otherwise, unless the exact pair was listed, every conflicting server is removed in order and then AddVoter(id, addr) is asked, its refusal being the error; any refused removal makes the error RemoveFailed(id, addr), and a Join with no error had none of its requests refused |
| `Membership.ScanAccepted` | cluster/cluster.go:142-145 | a scan that did not stop on a refusal had every removal it issued accepted |
| `Membership.JoinRefusalsDecide` | cluster/cluster.go:142-151 | a refused removal always makes Join return RemoveFailed, and a Join returning no error had none of its requests refused |
| `Membership.JoinAddRefusedLeavesNeither` | cluster/cluster.go:131-152 | when AddVoter is refused after the evictions, no server with the joining ID or address is left: the old entry is gone and the new one was never added |
| `Membership.JoinMovesAddress` | cluster/cluster.go:131-154 | a node rejoining at a new address is listed at the new address, and no entry with its ID keeps the old or any other address |
| `Membership.JoinOnDuplicateID` | cluster/cluster.go:131-146 | under the model's rule that RemoveServer drops every entry with the ID, a configuration with a duplicated ID (one the real engine refuses) lets Join report success although the node was removed |
| `Cluster.Table.constructor` | cluster/cluster.go:180 | a newly made map is empty |
| `Cluster.Table.Of` | cluster/cluster.go:189-190 | a newly made map filled by the decoder holds exactly the decoded entries |
| `Cluster.Table.Put` | cluster/cluster.go:203 | the key now maps to the value, every other key as before |
| `Cluster.Table.Remove` | cluster/cluster.go:210 | the key is gone, every other key as before; an absent key changes nothing |
| `Cluster.Cluster.constructor` | cluster/cluster.go:49-54 | a new node starts with a newly made, empty store |
| `Cluster.Cluster.Apply` | cluster/cluster.go:158-172 | the store moves as Step says; a fatal entry is reported and leaves the store untouched |
| `Cluster.Cluster.ApplySet` | cluster/cluster.go:200-205 | the key now maps to the value, everything else as before |
| `Cluster.Cluster.ApplyDelete` | cluster/cluster.go:207-212 | the key is gone, everything else as before |
| `Cluster.Cluster.Snapshot` | cluster/cluster.go:175-185 | the copy loop yields a newly allocated map equal to the store at call time, without changing the store |
| `Cluster.Cluster.Restore` | cluster/cluster.go:188-198 | on success the store is a newly made map holding exactly the decoded entries (no merge); on a decode failure an error is returned and the store is the same map, unchanged |
| `Cluster.Cluster.Join` | cluster/cluster.go:122-155 | the configuration, the issued changes and the returned error are exactly those of JoinSpec |
| `Cluster.DeliverCommitted` | cluster/cluster.go:158-172 | Apply called on each committed entry in order ends in the store Replay gives, or in the fatal outcome Replay gives |
| `Cluster.SnapshotIsolation` | cluster/cluster.go:175-185 | a snapshot is a different map from the store, and an Apply after it leaves it equal to the store at snapshot time |
| `Cluster.SnapshotRestoreRoundTrip` | cluster/cluster.go:175-198 | restoring the snapshot just taken succeeds and gives back the same store |
| `Httpd.JoinDecision` | http/service.go:86-114 | only a decoded body with exactly the keys id and addr reaches Join, called with (id, addr); anything else is 400; a Join error is 500; success is 200; the body is always empty |
| `Httpd.ServeDecision` | http/service.go:71-84 | "/join" goes to the join handler; any other path never calls Join and answers 200 with "I am server " + NodeID + ".\n" when leader, "I am not the leader.\n" otherwise |
| `Httpd.StatusBodiesDiffer` | http/service.go:78-83 | the leader's status body never equals a follower's, whatever the node ID |
| `Httpd.MissingAddrScenario` | http/service.go:93-102 | a join body {"id": "n2"} gets 400 and no Join |
| `Httpd.Service.constructor` | http/service.go:33-38 | the service is bound to its cluster |
| `Httpd.Service.ServeHTTP` | http/service.go:71-84 | the reply is ServeDecision's, given the cluster's role and ID; the cluster's configuration moves only through the Join it calls |
| `Httpd.Service.HandleJoin` | http/service.go:86-114 | the reply is JoinDecision's, given the result of the Join it called with (id, addr); without a call nothing changes |

## Left out

- `Cluster.Open` (cluster/cluster.go:59-108): engine construction, TCP transport, snapshot and log stores, bootstrap. The constructor takes the node ID and the engine that Open would set up.
- The consensus engine itself: elections, replication, the real causes of refused configuration changes. They are the fixed `rejected` set and `configUnavailable` flag; failures that come and go between two calls with the same arguments are not modelled.
- `Raft.Engine.RemoveServer`: drops every entry with the ID, whereas the real engine drops only the first; the two agree on the duplicate-free configurations the real engine accepts, and the configuration checks that refuse duplicates are not modelled.
- `Raft.Engine.RemoveServer` and `Raft.Engine.AddVoter`: the index and timeout arguments (both 0 in the source, meaning no bound) are not modelled; there is no notion of time.
- `Cluster.Cluster.Join`: the error values are reduced to their kind: RemoveFailed keeps the joining ID and address that the message names but not the engine's error text, and AddFailed drops the engine's error.
- The mutex guarding the store: every method is atomic and sequential, so the concurrency of snapshots with Apply is not modelled.
- `fsmSnapshot.Persist` and `Release` (cluster/cluster.go:218-242): JSON encoding and the snapshot sink are I/O. Restore takes the decoded map, so the round trip holds on the assumption that decoding an encoded store gives it back.
- JSON decoding of log entries, snapshots and join bodies: each is the decoded value or `None`.
- Logging calls.
- `Service.Start`, `Close`, `Addr` (http/service.go:41-68, 117-119): listener and goroutine plumbing. The HTTP method and the response headers are not modelled.
- main.go: flag parsing, directory creation, signal handling and the join POST.
