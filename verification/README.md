# Verified models of a Redis fork

The Dafny modules here model six parts of a Redis 6 fork whose correctness rests on whole runs, whole loops or
heap structures, and prove what the code promises about them for every input.

- **Cluster epochs, votes and slots** (`SlotClaims`, `SlotTable`, `ClusterBus`, `ClusterHandlers`, `Election`,
  `ElectionCounterexample`, `EpochCollision`, `ClusterConverge`). `ClusterBus` says what one node does with each
  message and on each failover tick, `ClusterHandlers` shows the in-place code to do exactly that, `Election` and
  `EpochCollision` put nodes and messages together into runs of the whole cluster.
- **Cache-through hand-off** (`Backend`, `BackendSafety`, `BackendProgress`, `BackendPanics`, `BackendMain`). The main
  thread and one worker per mode share a one-slot job, a pipe and a table of waiting clients. `Backend` is the state
  machine, one action per lock section; `BackendSafety` and `BackendProgress` prove when it is safe and never stuck;
  `BackendPanics` has a run for each way it fails; `BackendMain` is the code of one mode on its own tables.
- **Append only file** (`AofLog`, `AofLoad`, `AofCut`, `AofFlush`, `AofRewrite`). The encoder and the loader, files
  that are cut and fed on, the flush of the pending buffer, and the rewrite hand-off between parent and child.
- **CRC-64** (`Crc64`, `CrcSpeed`, `CrcBigEndian`). Bit-by-bit polynomial division against slice-by-8 tables.
- **ACL users** (`Acl`, `AclDescribe`, `AclRoundTrip`, `AclUser`, `AclLoad`, `AclSave`). Rules, the printer that
  must be replayable, the file loader on the server's own structures, and saved lines split again.
- **Lists, blocked clients, bit kernels** (`AdList`, `Blocked`, `BlockedServer`, `BlockedCommands`, `Bitfield`,
  `Popcount`, `Bitpos`, `Bitop`).

## Main results

1. In every run in which no acknowledgement is counted at a node that is not standing, an epoch has at most one winner,
   and every victory rests on a majority of its own epoch (`Election.OneWinnerPerEpoch`). Without that guard the claim
   is false of the code: `ElectionCounterexample.TwoWinnersInOneEpoch` is a run with two winners, because the vote
   counter is zeroed when an election is scheduled and the epoch is raised only when it starts. Of a single victory
   `Election.MajorityIffEarned` says exactly whether it rests on a majority.
2. Config-epoch collisions die out: the master with k greater IDs bumps at most 2^k - 1 times, and no bump is
   possible any more exactly when all configEpochs differ (`EpochCollision`).
3. Slot claims converge in any order of delivery: in a view, and in a whole node, claimant or not, that gets pings and
   UPDATEs mixed (`ClusterConverge.NodeConverges`). An UPDATE is not heard where the epoch of its subject was noted
   before, which another UPDATE can do (`ClusterConverge.UpdateIsMissed`); a ping always is. The slot table, the
   bitmaps and the counters always agree.
4. An interleaving of the backend threads fails an assertion, uses or frees a dead key buffer or client, reads a number
   as a string or waits on an empty pipe iff an action in it meets one of four guards (`BackendSafety.RunPanicsIff`): a
   SETEX or PSETEX whose ttl is the text of the waiting value; a SET compared with a string the db keeps as a number; an
   empty answer to a GET; the resumption of a client that a client resumed before it had killed. `BackendPanics` has a
   run for each. As long as a run goes on, a wait ends in exactly one resumption, and the threads can serve everybody
   iff no such killed client is left to resume (`BackendProgress.NoRunGetsStuck`), in one completion per candidate.
5. The rewrite hand-off loses, repeats and reorders nothing: what the child received, what is in the pipe and what the
   parent holds are all that was appended since the fork (`AofRewrite.NothingLost`), and a child whose last read is not
   interrupted leaves nothing in the pipe (`AofRewrite.PipeEmptyAtExit`), so that the new file is complete. A flush
   conserves file then buffer whatever write(2) and ftruncate(2) do.
6. Loading undoes feeding, and loading any prefix of a log runs exactly its whole commands, or those up to the MULTI of
   a transaction left open. How often a file must be cut until it loads, and what is left, is stated exactly
   (`AofCut.CutFileLoads`). After a cut and further feeding the next load runs what the first ran and what was fed
   since iff the cut left no transaction open; the cut after a short read inside one does, and swallows what is fed
   next (`AofCut.ReloadIff`, `AofCut.ThreeCuts`).
7. Slice-by-8 CRC-64 equals the bitwise division for every string and alignment, little-endian; the big-endian loop does
   so over byte-reversed tables, but on a big-endian machine the code fills the tables with zeros, and its result 0 is
   right iff the remainder is 0 (`CrcBigEndian.CrcThere`).
8. Replaying a printed ACL user gives the user back; the flag ALLCOMMANDS is reproduced iff it was set or some command
   bit is clear, and every table has users on the other side (`AclRoundTrip.FlagIsLost`). The printer's panic is
   unreachable. A saved line is split into its words again iff the name, the key patterns and the subcommands hold no
   quote and no white space that ends a word (`AclSave.SavedLineIff`). Loading an ACL file is all or nothing, in place:
   on an error the table and every structure in it are as they were, on success the default user is still the same
   structure (`AclLoad.AclServer.LoadFromFile`).
9. The blocking index is a two-way map through every operation; clients are served first come, first served, each once;
   the loop over the ready keys ends although BRPOPLPUSH signals new ones. After any commands nobody waits for a list at
   a key that holds one, as long as no SORT ... STORE puts a list over a value of another type at a key somebody waits
   at, which the code signals to nobody (`BlockedCommands.ExecuteAll`); `BlockedCommands.Starved` is a client that such
   a command, and every push after it, leaves waiting.
10. The word-parallel bit loops equal their per-bit definitions. The signed overflow check always knows whether a sum
    fits, but names the wrong bound in one range; `Bitfield.SignedCodeIsDirectionIff` gives that range.

## Modelling decisions

- Epochs, offsets and counters are unbounded integers; where width matters (bit fields, CRC, popcount, bit positions)
  it is written out, with `bv` types or with explicit casts.
- Cluster: the electorate of an epoch is a parameter on which voters and candidates agree (the code uses each node's
  local size); each acknowledgement is delivered at most once, all other messages may be lost, repeated and reordered;
  the last vote epoch survives restarts; there is no RESET HARD and no TAKEOVER. Time is an arbitrary input.
- Backend: the databases behind `db_get`, `db_set`, `db_del` answer anything, and the db may change in any way at any
  time, which covers what resumed commands do to it. A waiting client issues no command, since its input is not
  processed; a resumed one may issue commands at once, inside the handler, and have others killed. The identifier of a
  killed client is not given to a new one while a handler still has it to resume.
- Blocked clients: a list is its length; a key holds a list, something else, or nothing.
- Append only file: a command that is run is recorded with its db; those a freed client had queued are not. The answers
  of write(2), read(2) and ftruncate(2) are inputs, in order; running out of answers is
  a failed call. Commands are those that need no translation. Bytes of the log are characters.
- ACL: the command table is fixed, ids are distinct and below the reserved 1023, names differ when case is ignored;
  the password digest is any function to 64 lower-case hexadecimal digits. Where the comments of the code promise that
  a replayed user is the same user, the code falls short in the ALLCOMMANDS flag, and the model follows the code.
- Lists: `AdList` proves the C lists to be sequences of node objects; `Blocked` and `Backend` then use sequences.
- Bit fields: a difference or sum that overflows an int64_t wraps around. A shift by 64, which the code makes for
  signed integers of 64 bits in two places, is an outcome of its own, `Undefined`.

## Model

| member | source | states |
|---|---|---|
| SlotClaims.RunTracks | src/cluster.c:1573-1633 | After any sequence of deliveries each slot belongs to the claimant of greatest epoch among the masters heard from, and each master is on record with its epoch. |
| SlotClaims.ClaimsConverge | src/cluster.c:1573-1633 | From unassigned slots, with one claim per master and distinct positive epochs, any order and repetition of pings and updates settles every slot on the greatest claimant. |
| SlotClaims.DeliverTracks | src/cluster.c:1762-1766 | One delivery keeps every slot with the greatest claimant heard from. A ping is always heard; an UPDATE is, unless the epoch of the master it is about was noted before. |
| SlotClaims.SlotSettles | src/cluster.c:1597-1632 | One rebinding test moves a slot from the greatest claimant so far to the greatest including the sender. |
| SlotClaims.OrderIrrelevant | src/cluster.c:2131-2144 | Two nodes that heard from the same masters, in whatever order and by whatever messages, have the same slot table. |
| SlotClaims.RebindRaisesEpoch | src/cluster.c:1597-1632 | A slot changes hands only to the sender, only if claimed, and only to a strictly greater configEpoch. |
| ClusterConverge.PingIsDelivery | src/cluster.c:1981-1996 | A ping of a master, with its epoch and role parts, does to the table and epochs of a whole node exactly what a delivery does to a view. |
| ClusterConverge.UpdateIsDelivery | src/cluster.c:2131-2144 | So does an UPDATE, once the epochs of its header are noted; nodes known and importing slots stay as they are. |
| ClusterConverge.NodeConverges | src/cluster.c:1573-1633 | From any state in which the slots are where the masters heard put them, whatever pings and UPDATEs a node gets, in any order and repetition, each slot is with the greatest claimant among those heard; with the greatest of all once every claimant has pinged or was heard before. The node may itself be a claimant, and may change its role meanwhile. |
| ClusterConverge.ReceiveFollows | src/cluster.c:1749-2144 | One ping of a claimant, ping of a replica or UPDATE keeps the slots where the masters heard put them and the own epoch apart from all claims. |
| ClusterConverge.ReplicaPing | src/cluster.c:1937-1996 | A ping of a replica, promoted or demoted as it may have been, changes no slot of a claimant. |
| ClusterConverge.RunFollows | src/cluster.c:1749-2144 | So does every sequence of such messages. |
| ClusterConverge.WhoIsHeard | src/cluster.c:2131-2144 | Every claimant that pings is heard, and nobody is heard who neither pings nor is the subject of an UPDATE. |
| ClusterConverge.StartFollows | src/cluster.c:1573-1633 | A node with no slots, and a claimant with exactly its own, start in such a state. |
| ClusterConverge.UpdateIsMissed | src/cluster.c:2131-2144 | After an UPDATE sent by a master not heard yet, an UPDATE about that master is ignored and its slots stay unknown. |
| SlotTable.BitsAfterUpdate | src/cluster.c:3703-3722 | Setting or clearing a bit of a bitmap changes the set of set bits by exactly that bit. |
| SlotTable.ClusterState.constructor | src/cluster.c:466-467 | A new table has no owners and no open slots and is coherent. |
| SlotTable.ClusterNode.SetSlotBit | src/cluster.c:3741-3764 | The bit is set, no other bit of the node changes, and the counter grows iff the bit was clear. |
| SlotTable.ClusterNode.ClearSlotBit | src/cluster.c:3766-3771 | The bit is cleared, no other bit of the node changes, and the counter shrinks iff the bit was set. |
| SlotTable.ClusterState.AddNode | src/cluster.c:929-935 | A node without slots joins and the table stays coherent. |
| SlotTable.ClusterState.AddSlot | src/cluster.c:3782-3787 | Bit j of a node is set iff slot j is that node's, counters count, before and after; a taken slot is refused and nothing changes. |
| SlotTable.ClusterState.DelSlot | src/cluster.c:3792-3800 | The owner's bit is found set, as asserted; coherence is kept; only that slot and that counter change. |
| SlotTable.ClusterState.MoveSlot | src/cluster.c:4491-4492 | Deleting then adding hands the slot over, with both counters right. |
| SlotTable.ClusterState.DelNodeSlots | src/cluster.c:3803-3813 | Exactly the node's slots are freed, their number is returned, nobody else is touched. |
| SlotTable.ClusterState.ForgetInSlot | src/cluster.c:953-960 | One slot forgets the node in all three roles and no other; coherence is kept. |
| SlotTable.ClusterState.DelNode | src/cluster.c:948-961 | The node leaves no trace in owners, importing or migrating slots, and coherence is kept. |
| SlotTable.ClusterState.RebindSlot | src/cluster.c:1597-1632 | One slot takes the owner the rebinding test gives it; bitmaps and counters follow. |
| SlotTable.ClusterState.UpdateSlotsConfigWith | src/cluster.c:1573-1633 | For any sender and any current master, its own included: each slot ends with the owner the rebinding test gives it from the old table, although the table changes during the scan; the flag says exactly when a current master other than the sender lost its last slot to it. |
| SlotTable.ClusterState.ClaimSlotsOf | src/cluster.c:3015-3020 | All slots of the old master and no others become this node's; the slot counts add up. |
| SlotTable.ClusterState.SetSlotNode | src/cluster.c:4456-4492 | Refused iff this node still holds keys of a slot given away; otherwise the slot moves and the importing and migrating marks are cleared as required. |
| ClusterBus.NoteEpochsOk | src/cluster.c:1755-1766 | Noting the epochs of a header keeps epoch domination and touches neither votes nor elections. |
| ClusterBus.NoteRoleOk | src/cluster.c:1937-1970 | A role change keeps epoch domination and the known nodes and casts no vote. |
| ClusterBus.NotePingOk | src/cluster.c:1981-2049 | The slot part of a ping keeps epoch domination and casts no vote. |
| ClusterBus.UpdateSlotsOk | src/cluster.c:1573-1667 | Rebinding and changing master keeps epoch domination and the known nodes. |
| ClusterBus.PingOk | src/cluster.c:1936-2049 | A whole PING or PONG, with role change, rebinding and collision, keeps epoch domination and casts no vote. |
| ClusterBus.UpdateOk | src/cluster.c:2123-2144 | An UPDATE whose claim is not ahead of its header keeps epoch domination. |
| ClusterBus.FreshEpochExceedsAll | src/cluster.c:1120-1135 | A new epoch taken in a collision or a bump exceeds every configEpoch the node knows. |
| ClusterBus.BookkeepingOk | src/cluster.c:929-961 | Learning, forgetting and failing a node keeps epoch domination. |
| ClusterBus.BuildHdrOk | src/cluster.c:2340-2389 | A header never carries a configEpoch ahead of its current epoch. |
| ClusterBus.VoteOk | src/cluster.c:2802-2903 | A vote is cast at exactly the epoch of the request, later than every earlier vote of the node. |
| ClusterBus.AckOk | src/cluster.c:2098-2110 | An acknowledgement changes only the counter, by one iff it passes the test. |
| ClusterBus.FailoverOk | src/cluster.c:3042-3211 | Per outcome: scheduling zeroes the counter, starting takes an epoch above all others, winning needs a majority and adopts the epoch of the election. |
| ClusterHandlers.Cluster.GetMaxEpoch | src/cluster.c:1011-1023 | The scan returns the greatest of the current epoch and all known configEpochs. |
| ClusterHandlers.Cluster.BumpConfigEpochWithoutConsensus | src/cluster.c:1055-1072 | The in-place code bumps iff the node's configEpoch is not already the greatest. |
| ClusterHandlers.Cluster.HandleConfigEpochCollision | src/cluster.c:1120-1135 | The in-place code is the collision step. |
| ClusterHandlers.Cluster.ProcessHeader | src/cluster.c:1755-1766 | The in-place code is the epoch step of the model and knows the senders. |
| ClusterHandlers.Cluster.ClaimIsCurrent | src/cluster.c:2877-2894 | The loop accepts iff no claimed slot is served with a greater configEpoch. |
| ClusterHandlers.Cluster.ProcessAuthRequest | src/cluster.c:2802-2903 | The in-place code, with its loop over the claimed slots, grants exactly the votes of the model. |
| ClusterHandlers.Cluster.ProcessAuthAck | src/cluster.c:2098-2110 | The in-place code counts exactly the acknowledgements of the model. |
| ClusterHandlers.Cluster.ClaimSlotsOf | src/cluster.c:3015-3020 | Exactly the slots of the old master become this node's. |
| ClusterHandlers.Cluster.ReplaceMaster | src/cluster.c:3004-3034 | The in-place code is the takeover step of the model. |
| ClusterHandlers.Cluster.FailoverTick | src/cluster.c:3042-3211 | The in-place code takes the election steps of the model, takeover of slots included. |
| ClusterHandlers.Cluster.RebindLoop | src/cluster.c:1592-1633 | The loop gives every slot the owner decided on the old table and notices whether the current master lost one. |
| ClusterHandlers.Cluster.UpdateSlotsConfigWith | src/cluster.c:1573-1667 | The loop over the slots and the change of master are the rebinding step of the model. |
| ClusterHandlers.Cluster.ProcessRole | src/cluster.c:1937-1970 | The in-place code is the role step of the model. |
| ClusterHandlers.Cluster.SlotsDiffer | src/cluster.c:1981-1990 | The comparison says whether the claim differs from what is known of the sender's master. |
| ClusterHandlers.Cluster.ProcessPing | src/cluster.c:1936-2049 | The in-place code is the PING step of the model. |
| ClusterHandlers.Cluster.ProcessUpdate | src/cluster.c:2123-2144 | The in-place code is the UPDATE step of the model. |
| Election.EpochDomination | src/cluster.c:1757-1766 | In every reachable state of the cluster, at every node the current epoch is at least every known configEpoch, and in every message in flight at least the configEpoch carried. |
| Election.StepKeepsInv | src/cluster.c:2802-3211 | Every step of every node keeps: epochs dominate, votes rise with time, acknowledgements match votes, counters are backers plus stale ones, victories had a quorum. |
| Election.RunKeepsInv | src/cluster.c:2802-3211 | The same over every run. |
| Election.OneVotePerEpoch | src/cluster.c:2802-2903 | In every run a voter grants at most one vote per epoch. |
| Election.CountIsExactIffNoStaleAck | src/cluster.c:3114-3180 | In every reachable state the vote counter equals the number of distinct voters of this election iff no acknowledgement was counted between scheduling and starting it. |
| Election.MajorityIffEarned | src/cluster.c:3114-3211 | A victory rests on a majority that voted for that replica in that very epoch iff the count, less the acknowledgements counted before the election started, reaches the quorum. |
| Election.ElectionSafety | src/cluster.c:3114-3211 | In every run two victories of one epoch that did not need stale acknowledgements belong to the same replica. |
| Election.OneWinnerPerEpoch | src/cluster.c:2098-2110 | In every run in which no acknowledgement is counted at a node that is not standing, every victory rests on a majority of its own epoch and an epoch has at most one winner. |
| Election.ReplicaHasMaster | src/cluster.c:4641-4647 | In every run a node is a master or knows its master, so that the current master looked at when slots are taken is there. |
| ElectionCounterexample.TwoWinnersInOneEpoch | src/cluster.c:3114-3180 | A run of the cluster in which stale acknowledgements give one epoch two different winners. |
| EpochCollision.BumpsAreBounded | src/cluster.c:1120-1135 | In every run of pings, stale ones included, the master with k greater IDs changes its configEpoch at most 2^k - 1 times. |
| EpochCollision.QuietIffDistinct | src/cluster.c:2042-2049 | In every reachable state no current ping causes a bump iff all configEpochs are different. |
| EpochCollision.BumpIffCollision | src/cluster.c:1120-1135 | A current ping causes a bump iff the two configEpochs are equal and the sender's ID is greater. |
| EpochCollision.RunKeepsInv | src/cluster.c:1120-1135 | Every run keeps: what a node knows of another's epoch it once had, and bumps are paid for by epochs still ahead. |
| BackendSafety.NoRunPanics | src/backend.c:89-148 | A run of main thread and workers fails an assertion, uses or frees a dead key buffer or client, reads a number as a string or reads an empty pipe iff some action in it meets a guard in the state it is taken in. None does where every SET sets its second argument, no answer to a GET is empty, no change leaves a number in the db and no client is freed while others are resumed. |
| BackendSafety.HandOffSafety | src/backend.c:481-608 | In every state a run reaches, the slot is idle, the worker's or the main thread's; the one live key buffer is the slot's; bytes in the pipe match announced results and handlers under way. |
| BackendSafety.CoalescingAtRest | src/backend.c:375-478 | Between events a mode has a candidate iff its slot is occupied, the slot's key is one, and a client is in the mode iff it stands on exactly one of its lists. |
| BackendSafety.ResumedExactlyOnce | src/backend.c:733-782 | In every reachable state the number of times a client was enqueued equals the times it was resumed or freed waiting, plus one if it waits still. |
| BackendSafety.CompletionRemovesOne | src/backend.c:733-768 | A completion removes exactly one candidate. |
| BackendSafety.DrainTakesOneCompletionPerCandidate | src/backend.c:784-818 | Without arrivals a mode sees at most one completion per candidate, and between events it is idle with nobody waiting iff it saw that many. |
| BackendProgress.Settle | src/backend.c:687-818 | From every consistent state with no freed client to resume the main thread can finish what it is at, by steps of its own. |
| BackendProgress.CanComplete | src/backend.c:481-608 | A mode with candidates can complete one, by steps of its worker and its handler. |
| BackendProgress.CanDrain | src/backend.c:784-818 | From every consistent state with no freed client to resume the threads alone can bring a mode to rest with nobody waiting. |
| BackendProgress.NoRunGetsStuck | src/backend.c:89-148 | A run can be continued without arrivals to one between events in which nobody waits in a mode iff no handler has a client to resume that was freed. |
| BackendProgress.NeverSettles | src/backend.c:770-781 | Once a handler has a freed client to resume, no continuation gets back to the event loop. |
| BackendSafety.SetPanicsIff | src/backend.c:199-260 | In every state whatever, a command fails iff it is a SET issued where commands are looked at, not stopped as a SETNX on a key that is there, and either the db holds a number at its key and no different value waits, or the waiting value equals its second argument and not the value to be set and the db does not hold that argument. |
| BackendPanics.SetexPanics | src/backend.c:396-401 | Two SETEX commands with the same ttl, the first of which sets the ttl's own text, fail the assertion. |
| BackendPanics.NumberPanics | src/backend.c:218-227 | SET k 11 where the db holds 10, encoded as a number: the number is read as the address of a string. |
| BackendPanics.EmptyAnswerPanics | src/backend.c:526-535 | A GET answered with an empty value fails the assertion of the worker. |
| BackendPanics.KillPanics | src/backend.c:746-781 | From every consistent state in which a handler has two clients to resume, the first may have the second freed, and the handler then uses it. |
| BackendPanics.KilledClientPanics | src/backend.c:746-781 | Such a state is reached: two clients wait for one key, and the first has the second killed. |
| BackendSafety.StepOk | src/backend.c:436-818 | From a consistent state an action of either thread panics iff it is a SET that meets its guard, an empty answer to a GET at work, or the resumption of a freed client; otherwise it keeps slot, worker, pipe, table and client lists consistent. |
| BackendSafety.IssueOk | src/backend.c:436-478 | Issuing any command that does not panic keeps consistency. |
| BackendSafety.CreateJobOk | src/backend.c:89-148 | Creating a job finds the slot empty and fills it with a waiting key and a fresh buffer. |
| BackendSafety.WorkerStepOk | src/backend.c:481-608 | Every lock section of a worker keeps consistency; of its assertions only that on the answer to a GET can fail, and it does iff that answer is empty. |
| BackendSafety.EnterOk | src/backend.c:855-938 | A handler called for a byte in the pipe finds the result its assertions demand. |
| BackendSafety.FinishOk | src/backend.c:687-768 | Finishing a key finds its entry, copies the clients and deletes the entry. |
| BackendSafety.ResumeOk | src/backend.c:635-657 | A client is resumed in the backend state, as asserted, and leaves it; the code fails iff the client was freed since the list was copied. |
| BackendSafety.ClearOk | src/backend.c:784-815 | Clearing finds the returned key, frees its buffer once and empties the slot. |
| BackendSafety.ReadPipeOk | src/backend.c:877-879 | The handler's last read finds its byte. |
| BackendSafety.FreeOk | src/backend.c:1049-1106 | Freeing a client, between events or while a handler resumes others, keeps consistency. |
| BackendSafety.RunOk | src/backend.c:436-818 | Every run from a consistent state, SETEX and PSETEX included, is consistent as long as it goes on. |
| BackendSafety.RunPanicsIff | src/backend.c:375-818 | A run from any consistent state panics iff some action of it meets a guard in the state its predecessors lead to. |
| BackendSafety.CarefulRun | src/backend.c:375-818 | A run of harmless actions in which nobody is freed while others are resumed never panics. |
| BackendSafety.FinishLive | src/backend.c:747-752 | The list a completion copies holds only clients that are there. |
| BackendMain.ModeState.HasAvailableCandidate | src/backend.c:37-87 | The scan of the dbs finds a candidate of the lowest db that has one, or none iff there is none. |
| BackendMain.ModeState.constructor | src/backend.c:611-633 | A mode starts with an idle slot, an empty pipe and no candidates. |
| BackendMain.ModeState.AddKeyToBackendKeys | src/backend.c:375-424 | The in-place code adds the client to the one entry of its key, or fails its assertion, exactly as the step does. |
| BackendMain.ModeState.CreateNewJob | src/backend.c:107-148 | The in-place code fills an empty slot with a candidate of the first db that has one. |
| BackendMain.ModeState.GetJob | src/backend.c:481-511 | The worker takes the job iff it owns the slot. |
| BackendMain.ModeState.ReturnResult | src/backend.c:526-605 | The worker hands its result back and announces it, or fails its assertions, that on an empty answer to a GET included, exactly as the steps do. |
| BackendMain.ModeState.TakeClients | src/backend.c:733-768 | The copied list is the waiting list, and exactly that entry is deleted. |
| BackendMain.ModeState.ClearJob | src/backend.c:784-815 | The slot is emptied and its key buffer freed once. |
| BackendMain.ModeState.Release | src/backend.c:1049-1106 | Freeing a client removes it from every list of the mode and changes nothing else. |
| BackendMain.DeleteFromList | src/backend.c:1064-1067 | The list without the client, in order. |
| BackendMain.ReleaseDict | src/backend.c:1059-1068 | Each list of the dictionary loses the client and nothing else. |
| AofRewriteBuffer.RewriteBuffer.Append | src/aof.c:125-169 | The blocks afterwards hold the old bytes followed by the new ones. |
| AofRewriteBuffer.RewriteBuffer.AppendSome | src/aof.c:129-160 | One turn moves bytes into the blocks in order, and makes progress or makes room. |
| AofRewriteBuffer.Block.Fill | src/aof.c:134-138 | Bytes that fit are appended to the block. |
| AofRewriteBuffer.RewriteBuffer.ChildWriteDiffData | src/aof.c:95-122 | Bytes sent followed by bytes kept are the old contents, whatever partial writes happened; nothing is sent after the stop request; the handler is removed iff stopped or empty. |
| AofRewriteBuffer.RewriteBuffer.SendFirst | src/aof.c:112-119 | A partial write of the first block moves bytes from the contents to the sent ones. |
| AofRewriteBuffer.Block.Drop | src/aof.c:116-118 | Moving the rest of a block to its front drops exactly the sent bytes. |
| AofRewriteBuffer.RewriteBuffer.Write | src/aof.c:174-194 | Success means the whole contents were written; full writes succeed. |
| AofRewriteBuffer.RewriteBuffer.Size | src/aof.c:79-90 | The size is the number of bytes held. |
| AofRewrite.NothingLost | src/aof.c:1439-1471 | In every interleaving, received then in the pipe then in the blocks are all bytes appended since the fork, in order. |
| AofRewrite.PipeEmptyAtExit | src/aof.c:1456-1464 | A child whose last read is not interrupted leaves an empty pipe, since the parent stopped sending before. |
| AofRewrite.StepOk | src/aof.c:1439-1526 | Every step of parent or child keeps the order of received, piped and kept bytes. |
| AofRewrite.FinalFileIffDrained | src/aof.c:1505-1526 | The new file is the dump followed by the whole diff iff the child left nothing in the pipe. |
| AofRewrite.FinalFileIsDumpThenDiff | src/aof.c:1448-1471 | When the child's last read stops because the pipe is empty, the new file is complete. |
| AofRewrite.InterruptedReadLoses | src/aof.c:1301-1311 | A last read that fails with data in the pipe loses it. |
| AofRewrite.ReadDiffFromParent | src/aof.c:1301-1311 | The loop moves a prefix of the pipe to the diff, and all of it unless a read fails. |
| AofFlush.FlushConserves | src/aof.c:343-519 | For every pattern of short, interrupted and failed writes and truncates, a flush that returns leaves file then buffer unchanged and the recorded size equal to the file length; one that exits leaves a prefix. |
| AofFlush.StepConserves | src/aof.c:394-519 | One feed or flush conserves the log. |
| AofFlush.RunConserves | src/aof.c:394-519 | Over every run of feeds and flushes the file then the buffer are the old log then all that was fed; without "always" the server never exits. |
| AofFlush.AlwaysIsDurable | src/aof.c:454-511 | Under "always" a flush that returns has the whole log synced, unless syncing is off during a rewrite. |
| AofFlush.StatusTellsTheBuffer | src/aof.c:411-485 | After an attempt to write, the status is good iff the buffer is empty. |
| AofFlush.PostponedAtMostTwoSeconds | src/aof.c:362-382 | A flush two seconds after the first postponed one does write. |
| AofFlush.Server.Write | src/aof.c:300-317 | The retry loop appends exactly the bytes the answers of write(2) add up to. |
| AofFlush.Server.Sync | src/aof.c:496-519 | The in-place code is the sync step of the model. |
| AofFlush.Server.WriteBuffer | src/aof.c:394-494 | The in-place write, truncate and trim are those of the model; the server exits iff the write is short under "always". |
| AofFlush.Server.FlushAppendOnlyFile | src/aof.c:338-520 | The in-place code is the flush of the model, exit included. |
| AofLoad.CatGenericCommand | src/aof.c:522-545 | The loop produces the encoding of the command. |
| AofLoad.Feeder.Feed | src/aof.c:584-648 | The buffer grows by a SELECT iff the db changed, then the command. |
| AofLog.CommandWhole | src/aof.c:774-820 | A command as the encoder writes it, followed by anything, is read back as itself, leaving the rest. |
| AofLog.ArgWhole | src/aof.c:791-819 | An encoded argument of any bytes is read back, leaving the rest. |
| AofLog.AtoiDec | src/aof.c:782-782 | The number printed, followed by anything but a digit, is read back. |
| AofLog.CommandCut | src/aof.c:774-820 | A command cut at any byte is a short read, never a format error. |
| AofLog.AtoiCut | src/aof.c:782-783 | A cut of a positive number is still positive, so a cut header is no format error. |
| AofLog.ArgCut | src/aof.c:791-819 | An argument cut at any byte is a short read. |
| AofLoad.LoadAppendOnlyFile | src/aof.c:705-923 | The loop over the file offset is the loader of the model; a file of no bytes is reported as empty, and only that one. |
| AofLoad.LoadUndoesFeed | src/aof.c:584-868 | Loading a fed log runs exactly the fed commands, each in its db, in order; if they leave a transaction open, exactly those up to its MULTI. |
| AofLoad.RawSent | src/aof.c:584-648 | Loading the first j commands written, SELECTs included, leaves the client having run the fed commands among them, each in its db, or those up to the MULTI that is open. |
| AofLoad.ProcessView | src/aof.c:828-840 | Queued or run at once, a command adds itself to what the client will have run once its transaction ends. |
| AofLoad.LoadOfPrefix | src/aof.c:759-916 | Loading any prefix of a log never fails; of the fed commands that are whole in it, it runs all, or those up to the MULTI of the transaction they leave open; it cuts after the last whole command, or before the last MULTI on a clean end inside a transaction. |
| AofLoad.LoadCut | src/aof.c:759-916 | Loading a prefix of encoded commands replays the whole ones and says where to cut. |
| AofLoad.CutIsLastMulti | src/aof.c:831-868 | The cut before a transaction is where the last MULTI starts. |
| AofCut.LastMultiCounts | src/aof.c:824-868 | Cutting before the last MULTI takes one MULTI off the open transaction; what was run since is that MULTI, if it was the one that opened it. |
| AofCut.CutFileLoads | src/aof.c:759-916 | A prefix of any log must be cut exactly once if it ends inside a command and then once for each MULTI of the transaction left open; what loads in the end is everything before that transaction. |
| AofCut.ThreeCuts | src/aof.c:859-916 | A log this server writes that must be cut three times: a transaction cut inside a command, loaded, and fed on with another. |
| AofCut.FirstFed | src/aof.c:859-916 | What the first load runs and leaves in the file, over the fed commands. |
| AofCut.SecondFed | src/aof.c:759-868 | What a load of that file and part of what was fed since runs. |
| AofCut.Reload | src/aof.c:759-916 | Load, cut, feed, load: if the cut left no transaction open, the second load runs what the first ran followed by what a load of the new commands alone runs. |
| AofCut.Swallowed | src/aof.c:888-893 | If it left one open, the second load runs nothing of what was fed since, up to an EXEC. |
| AofCut.ReloadIff | src/aof.c:759-916 | A data command fed after the cut is run by the next load iff the cut left no transaction open: iff the file did not end inside a command of a transaction, nor cleanly in one with a second MULTI. |
| AofLoad.StrictLoad | src/aof.c:859-916 | Without aof-load-truncated the loader gives the same result but exits where it would cut. |
| Crc64.CrcReflect | src/crc64.c:69-78 | The shifting loop reverses the 64 bits. |
| Crc64.DivideByte | src/crc64.c:92-106 | The inner loop is eight steps of polynomial division. |
| Crc64.DivideLoop | src/crc64.c:92-107 | The outer loop divides the whole string. |
| Crc64.BitwiseMethod | src/crc64.c:88-111 | The nested loops compute the reflected remainder of the polynomial division. |
| Crc64.StepsLinear | src/crc64.c:92-106 | Any number of division steps is linear over GF(2). |
| Crc64.StepsSplit | src/crcspeed.c:45-45 | Eight steps are a lookup of the low byte and a shift of the rest. |
| Crc64.DivideIsUpdate | src/crc64.c:88-111 | The bitwise division, reflected, is the byte-wise update of the reflected register. |
| Crc64.BitwiseIsUpdate | src/crc64.c:88-111 | From 0, the bitwise definition is the byte-wise update. |
| Crc64.UpdateConcat | src/crcspeed.c:111-143 | The update composes over concatenation. |
| CrcSpeed.LittleInit | src/crcspeed.c:33-49 | Row k of the table holds each byte divided by 8(k+1) steps. |
| CrcSpeed.InitColumn | src/crcspeed.c:42-48 | Each further entry is eight steps on from the one before. |
| CrcSpeed.InitFirstRow | src/crcspeed.c:37-39 | The first row is the bitwise CRC of each byte. |
| CrcSpeed.LookupsDivide | src/crcspeed.c:124-132 | The eight lookups of one turn divide a whole word by 64 steps. |
| CrcSpeed.UpdateEight | src/crcspeed.c:123-133 | The code of one turn is eight bytes of the update. |
| CrcSpeed.UpdateWord | src/crcspeed.c:123-131 | Up to eight bytes of the update are that many steps on register xor word. |
| CrcSpeed.EightLookups | src/crcspeed.c:123-131 | Eight lookups of register xor word are eight bytes of the update. |
| CrcSpeed.OneLookup | src/crcspeed.c:117-117 | One lookup is one byte of the update. |
| CrcSpeed.Little | src/crcspeed.c:111-143 | For every start value, string and alignment the fast loop equals the byte-wise update. |
| CrcSpeed.Crc64FromZero | src/crc64.c:121-123 | From 0 the fast loop gives the result of the bitwise definition. |
| CrcSpeed.BigInit | src/crcspeed.c:86-94 | If the byte at the address of an int were its low one, the big-endian tables would be the byte-reversed little-endian ones. |
| CrcSpeed.Rev8Twice | src/crcspeed.c:70-82 | Reversing the bytes twice is the identity. |
| CrcSpeed.BigUpdateEight | src/crcspeed.c:193-203 | On reversed register and tables the code of one turn is eight bytes of the update, reversed. |
| CrcSpeed.Big | src/crcspeed.c:182-212 | Over byte-reversed tables the big-endian loop gives the same result as the little-endian one. |
| CrcBigEndian.BigInitThere | src/crcspeed.c:33-49 | On a big-endian machine every table entry is 0, since the byte at the address of an int is its high one. |
| CrcBigEndian.BigThere | src/crcspeed.c:182-212 | Over those tables the loops give 0 from 0. |
| CrcBigEndian.CrcThere | src/crc64.c:116-123 | There the CRC of every string is 0, which is the remainder of the division iff that is 0. |
| CrcBigEndian.OneByteIsWrong | src/crc64.c:88-111 | It is not for the string of one byte 1. |
| Acl.ParseOk | src/acl.c:737-900 | No operation string yields the pattern "*" or a subcommand with a null character. |
| Acl.DoOk | src/acl.c:737-900 | Every accepted rule keeps a user well-formed: one of on and off, nopass without passwords, allkeys without patterns, ALLCOMMANDS only with all bits, a set bit without subcommands, bits outside the table equal to the reserved one. |
| Acl.DoCommandOk | src/acl.c:826-889 | Rules on single commands, subcommands and categories keep a user well-formed. |
| Acl.DoBulkOk | src/acl.c:753-764 | Rules on all commands, and reset, succeed and keep a user well-formed. |
| Acl.DoLoginOk | src/acl.c:739-825 | Rules on login and keys keep a user well-formed. |
| Acl.ReachableOk | src/acl.c:737-900 | Every user reachable by operations is well-formed. |
| Acl.ResetIsFresh | src/acl.c:890-894 | "reset" takes any user to the state of a fresh one. |
| AclRoundTrip.CategoriesReplay | src/acl.c:476-487 | Replaying the category rules gives the bits of the printer's fake user and leaves bits outside the table alone. |
| AclRoundTrip.PatternsReplay | src/acl.c:573-579 | Replaying printed key patterns gives the list back in order. |
| AclRoundTrip.PreambleReplay | src/acl.c:546-580 | Replaying flags, passwords and keys gives them back. |
| AclRoundTrip.PasswordsReplay | src/acl.c:558-567 | Replaying printed password digests gives the list back in order. |
| AclRoundTrip.FixReplay | src/acl.c:489-517 | Replaying the single-command rules makes bits and subcommands of every command those of the printed user. |
| AclRoundTrip.RulesReplay | src/acl.c:443-516 | Replaying the command rules gives bits and subcommands back. |
| AclRoundTrip.AllSetReplay | src/acl.c:462-487 | A user with all bits is printed so that the replay sets ALLCOMMANDS. |
| AclRoundTrip.RoundTrip | src/acl.c:443-587 | Replaying a printed user on a fresh one gives it back, with ALLCOMMANDS turned into "all bits set". |
| AclRoundTrip.PrintedUserReplaysIff | src/acl.c:443-587 | For every user reachable by operations the replay gives all of it back iff ALLCOMMANDS is set or some bit is clear, and everything but that flag in any case. |
| AclRoundTrip.FlagIsLost | src/acl.c:376-386 | In every table and for every command, "+@all", taking the command away and giving it back makes a user with all bits and no ALLCOMMANDS, whose printed form gives another user. |
| AclUser.UserObject.SetCommandBit | src/acl.c:376-386 | One bit changes; clearing drops ALLCOMMANDS. |
| AclUser.UserObject.GetCommandBit | src/acl.c:358-362 | The bit of an id, false for an id out of range. |
| AclUser.UserObject.constructor | src/acl.c:236-253 | A new user is off, with no passwords, patterns or commands. |
| AclUser.UserObject.SetBitsForCategory | src/acl.c:393-408 | The loop over the table is the category step of the model. |
| AclUser.UserObject.AddAllowedSubcommand | src/acl.c:630-657 | The subcommand is appended unless one equal up to case is there. |
| AclUser.UserObject.DoBulk | src/acl.c:753-764 | All bits are set or cleared, and all subcommands dropped. |
| AclUser.UserObject.DoLogin | src/acl.c:739-825 | The in-place code for login and keys is the rule step; errors change nothing. |
| AclUser.UserObject.DoCommand | src/acl.c:826-889 | The in-place code for single commands, subcommands and categories is the rule step; errors change nothing. |
| AclUser.UserObject.SetUser | src/acl.c:737-900 | The in-place code is the rule step of the model, and an error leaves the user as it was. |
| AclUser.CountCategoryBits | src/acl.c:414-434 | The loop counts the allowed and denied commands of a category. |
| AclUser.CategoryRules | src/acl.c:476-487 | The loop prints the category rules of the model and applies them to the fake user. |
| AclUser.CommandRules | src/acl.c:493-514 | One turn prints the rules of one command and makes its bit agree. |
| AclUser.FixRules | src/acl.c:489-516 | The loop prints the rules of all commands; bits of the table then agree. |
| AclUser.CompareBits | src/acl.c:525-527 | The comparison finds whether the bitmaps are equal. |
| AclUser.BitsMatch | src/acl.c:525-533 | If the bits of the table agree, all do, since bits outside it follow the reserved one. |
| AclUser.DescribeCommandRules | src/acl.c:443-536 | The printer emits the rules of the model and its fake user ends with the bitmap of the user, so the panic is unreachable. |
| AclUser.DescribeUser | src/acl.c:543-587 | The printed text is the operations of the model, with a space between each and the next. |
| AclLoad.DefaultIsReached | src/acl.c:930-936 | The initial default user is what its four operations produce. |
| AclLoad.ApplyRules | src/acl.c:1365-1366 | The asserting loop on a user succeeds iff the rules apply, and leaves their user. |
| AclLoad.TryRules | src/acl.c:1334-1344 | The loop over a line's rules fails iff applying them in order fails. |
| AclLoad.CheckLine | src/acl.c:1294-1352 | A line is accepted iff its rules apply to a fresh user, whatever the fake user was before; only the fake user changes. |
| AclLoad.CopyUser | src/acl.c:309-330 | The destination structure stays, takes exactly the rules of the source, subcommand lists included, and nothing else is written. |
| AclLoad.CopyBits | src/acl.c:314-315 | The bitmap is copied. |
| AclLoad.AclServer.constructor | src/acl.c:939-943 | The server starts with the default user alone. |
| AclLoad.AclServer.InitDefaultUser | src/acl.c:930-936 | A new structure holds the default user and is the only one in the table. |
| AclLoad.AclServer.DefineUser | src/acl.c:1356-1366 | The rules of a line go to the structure of that name, reset, or to a new one; no other user changes. |
| AclLoad.AclServer.LoadLine | src/acl.c:1289-1369 | One line is tried on the fake user and, if no line had an error, defines its user; its asserted rules cannot fail. |
| AclLoad.AclServer.LoadLines | src/acl.c:1288-1369 | The loop over the lines fills a table of new structures with the users the file defines iff every line is right. |
| AclLoad.AclServer.AdoptDefault | src/acl.c:1380-1384 | What the new default user says goes into the old structure, which takes its place in the new table. |
| AclLoad.AclServer.LoadFromFile | src/acl.c:1276-1394 | If every line is right the table holds the users the file defines, with the default user in the very structure it had; otherwise the table, the default user and every user in it are as they were; in both cases only the table and the default user are written; the asserted rules cannot fail. |
| AclSave.GetToken | src/sds.c:968-1047 | The loop with its two quote flags reads one token. |
| AclSave.SplitArgs | src/sds.c:959-1067 | The outer loop splits a line into its tokens, or finds unbalanced quotes. |
| AclSave.SplitCost | src/sds.c:959-1067 | The words of a line with what separates them are never longer than the line, and if as long they hold no white space and no quote. |
| AclSave.SplitJoined | src/sds.c:959-1067 | Plain words joined by spaces are split again into themselves. |
| AclSave.JoinedLineIff | src/sds.c:959-1067 | Words joined by spaces come back from the trimmed and split line iff none is empty, starts with white space or holds a space, tab, line end, null or quote. |
| AclSave.DescribePlain | src/acl.c:543-587 | Everything printed of a user is plain iff its key patterns and subcommands are. |
| AclSave.SaveUser | src/acl.c:1411-1417 | The saved line is the word "user", the name and the operations, joined by spaces. |
| AclSave.SavedLineIff | src/acl.c:1411-1417 | The line saved for a user gives its words back iff its name, key patterns and subcommands are plain. |
| AclSave.SavedLineLoads | src/acl.c:1289-1369 | Such a line is accepted and defines the user again, with ALLCOMMANDS turned into "all bits set". |
| AclSave.SaveThenLoad | src/acl.c:1400-1418 | Saving plain users in any order and loading the file gives them all back. |
| AclSave.QuoteBreaksTheFile | src/acl.c:809-825 | The server accepts a key pattern with a quote, prints it as it is, and then rejects the whole file it saved. |
| AclSave.SpaceChangesTheLine | src/acl.c:826-875 | In every table a subcommand with a space is accepted, and the saved line reads as other words. |
| AclLoad.CopySubs | src/acl.c:322-328 | Adding the subcommands of one command one by one copies the list. |
| AdList.List.AddNodeHead | src/adlist.c:88-105 | A new node goes before all others; links, ends and length stay right. |
| AdList.List.constructor | src/adlist.c:41-52 | A new list is empty. |
| AdList.List.AddNodeTail | src/adlist.c:114-132 | A new node goes after all others; links, ends and length stay right. |
| AdList.List.InsertNode | src/adlist.c:134-160 | A new node stands right before or after the given one. |
| AdList.List.DelNode | src/adlist.c:167-180 | Exactly the given node goes, wherever it stands; only its neighbours are written. |
| AdList.List.RotateTailToHead | src/adlist.c:330-342 | The last node becomes the first; the node objects stay. |
| AdList.List.RotateHeadToTail | src/adlist.c:345-357 | The first node becomes the last; the node objects stay. |
| AdList.List.Join | src/adlist.c:361-376 | The nodes of the other list follow those of this one, and the other list is empty. |
| AdList.List.Index | src/adlist.c:315-327 | The node at an index from either end, or null outside. |
| AdList.List.SearchKey | src/adlist.c:290-308 | The first node with the value, or null iff there is none. |
| AdList.List.DelValue | src/adlist.c:229-240 | Deleting the node just returned while iterating visits every node once and removes exactly the matching ones. |
| Blocked.TwoWay | src/blocked.c:556-635 | A client stands in the list of a key exactly once iff the key is in its table, and there at the stored node. |
| Blocked.AddOk | src/blocked.c:574-594 | A new node at the tail with its entry in the client's table keeps the index. |
| Blocked.RotateOk | src/blocked.c:226-231 | Rotating a list keeps every stored node valid. |
| Blocked.RemoveOk | src/blocked.c:610-622 | The list looked up for a key is there, and dropping the stored node and an empty list keeps the index. |
| Blocked.FlagsApart | src/blocked.c:135-142 | Flags do not touch the index. |
| Blocked.UnblockCounts | src/blocked.c:161-164 | Unblocking a client keeps both counters right. |
| Blocked.BlockCounts | src/blocked.c:85-91 | Blocking a client keeps both counters right. |
| BlockedServer.Server.BlockForKeys | src/blocked.c:556-597 | The client joins the tail of the list of each key it names, once, with its target; no other list or client changes; index and counters stay right; if it waits for a list and none of the keys holds one, nobody is starved by it. |
| BlockedServer.Server.JoinLists | src/blocked.c:566-595 | The loop over the keys joins each list once. |
| BlockedServer.Server.BlockOnKey | src/blocked.c:567-594 | One key: a repeated one is ignored, a new one gets a node at the tail. |
| BlockedServer.Server.BlockClient | src/blocked.c:85-91 | The counters keep equal to the flagged clients, in total and by type. |
| BlockedServer.Server.LeaveLists | src/blocked.c:601-621 | The client's node and no other leaves each list; no empty list remains. |
| BlockedServer.Server.LeaveList | src/blocked.c:610-619 | The list is there, as asserted; it loses that node, and goes when empty. |
| BlockedServer.Server.UnblockClient | src/blocked.c:146-167 | The client leaves all lists and counters, loses its target and is queued once; all invariants hold. |
| BlockedServer.Server.TimeOut | src/timeout.c:37-46 | A client that times out starves nobody. |
| BlockedServer.Server.ClearBlock | src/blocked.c:161-164 | Flag, type and counters are cleared together. |
| BlockedServer.Server.QueueForReprocessing | src/blocked.c:135-142 | The queue has no duplicates and holds exactly the flagged clients. |
| BlockedServer.Server.ProcessUnblockedClients | src/blocked.c:96-119 | The queue is emptied in order and the flags are cleared. |
| BlockedServer.Server.ProcessOne | src/blocked.c:101-105 | The first client leaves the queue with its flag. |
| BlockedServer.Server.SignalKeyAsReady | src/blocked.c:644-667 | A key somebody waits for is queued iff it is not queued already. |
| BlockedServer.Server.Push | src/t_list.c:197-226 | A push is refused iff the key holds something else; to a key that is not there it creates and signals a list; so, before and after, nobody waits for a list where there is one unless the key is queued. A list that is there already is not signalled. |
| BlockedServer.Server.DeleteKey | src/db.c:306-323 | Deleting a key starves nobody. |
| BlockedServer.Server.SetToOther | src/db.c:244-253 | Setting a key to something that is no list starves nobody; a sorted set or stream is signalled iff the key was not there. |
| BlockedServer.Server.StoreSorted | src/sort.c:572-582 | SORT ... STORE: the key gets the list or is deleted; it is signalled iff it was not there; nobody is starved by it iff the key held nothing, a list, or something else and then nobody waits there or the key is queued. |
| BlockedServer.StoreHeard | src/db.c:244-248 | A list stored without a signal is heard of iff nobody waits for it or the key is queued. |
| BlockedServer.Server.MoveElement | src/t_list.c:628-676 | A popped element goes to the client, to the target list, or back if the target holds something else. |
| BlockedServer.Server.ServeHead | src/blocked.c:222-259 | One turn: the first client is moved to the tail, released with its element moved, or left because nothing was popped. |
| BlockedServer.Server.Rotate | src/blocked.c:226-231 | The first node goes last and the index stays right. |
| BlockedServer.Server.ServeClientsBlockedOnListKey | src/blocked.c:214-266 | Clients blocked for a list are served in the order they blocked, the others move to the tail in order; it stops only when all were looked at or the list is gone; exactly the served are released; the lists of all keys are those that moving one element for each served client leaves. |
| BlockedServer.Server.ServeQueue | src/blocked.c:219-261 | The loop never looks at an empty list and looks at each client once, although serving rotates, shortens and refills lists. |
| BlockedServer.LookedNext | src/blocked.c:222-259 | After one more turn the served are those blocked for a list among the clients looked at, in order, and the others stand behind the rest; or nothing was left to pop. |
| BlockedServer.Server.ServeReadyKey | src/blocked.c:485-519 | One turn: the key leaves list and dictionary, and is served iff it holds a list; a new key is signalled only if a client was released. |
| BlockedServer.Server.HandleClientsBlockedOnKeys | src/blocked.c:474-527 | The loop over the ready keys, again and again while serving signals new ones, ends; then no key is ready, nobody waits for a list at any key that holds one, no client was served twice, and one not served is as it was. |
| BlockedCommands.PopFrom | src/t_list.c:579-595 | An element leaves a list for the client or for the target, which is signalled if new; an emptied list goes; nobody is starved. |
| BlockedCommands.BlockingPop | src/t_list.c:679-733 | The first key that is there decides, with an element or an error; the client blocks, on all keys, iff none is there; nobody is starved. |
| BlockedCommands.BlockingMove | src/t_list.c:743-770 | The client blocks with its target iff the key is not there; otherwise one element moves if the key holds a list and the target is no other type; nobody is starved. |
| BlockedCommands.Execute | src/server.c:3684-3690 | A command and then the ready keys: afterwards nothing is ready, and nobody waits for a list at a key that holds one iff the command was no SORT ... STORE over a value of another type at which somebody waits. |
| BlockedCommands.ExecuteAll | src/server.c:3684-3690 | Any commands, run as far as the first such SORT ... STORE: nobody waits for a list at a key that holds one iff all were run, and where they stop, somebody waits at the key just stored. |
| BlockedCommands.Starved | src/sort.c:572-573 | BLPOP k, SET k, SORT ... STORE k, RPUSH k: k holds a list, its client waits, and nothing is ready. |
| Bitfield.SetUnsigned | src/bitops.c:209-222 | The field then reads the value modulo 2^bits and no other bit changes. |
| Bitfield.FieldOfHolds | src/bitops.c:209-222 | Bits standing high bit first are the integer they were taken from, modulo 2^bits. |
| Bitfield.GetUnsigned | src/bitops.c:229-241 | The loop reads the unsigned integer in the field. |
| Bitfield.SetSigned | src/bitops.c:224-227 | The field then reads the value wrapped to two's complement, for 1 to 64 bits, and no other bit changes. |
| Bitfield.GetSigned | src/bitops.c:243-263 | The loop and the sign propagation read the two's complement integer; exactly the negative integers of 64 bits make it shift by the width of the type. |
| Bitfield.CheckUnsigned | src/bitops.c:288-323 | Zero iff value and exact sum fit; WRAP gives the sum modulo 2^bits, SAT the nearest bound. |
| Bitfield.SignedZeroIffFits | src/bitops.c:325-352 | The signed check returns zero iff value and exact sum fit, for every width up to 64, value and increment, although its differences may wrap. |
| Bitfield.SignedCodeIsDirectionIff | src/bitops.c:332-352 | The signed check names the right bound iff not (fewer than 64 bits, max - value wraps and the increment exceeds what it wraps to). |
| Bitfield.SetTakesMinimumForOverflow | src/bitops.c:332-343 | The smallest int64 set into eight bits is taken for an overflow upwards. |
| Bitfield.CheckSigned | src/bitops.c:325-375 | Zero iff value and sum fit; WRAP gives the sum in two's complement, SAT the bound the check names, FAIL nothing. |
| Bitfield.WrapSum | src/bitops.c:357-374 | The masked unsigned sum is the sum in two's complement. |
| Bitfield.IncrBySigned | src/bitops.c:1040-1069 | INCRBY stores and returns the exact sum if it fits, else the wrapped sum, the nearest bound, or nothing; no other bit changes; it is undefined exactly for 64 bits with a negative field or a sum to be wrapped. |
| Bitfield.IncrByUnsigned | src/bitops.c:1070-1099 | INCRBY on an unsigned field stores and returns the exact sum if it fits, else the sum modulo 2^bits, the nearest bound, or nothing; no other bit changes. |
| Bitfield.SetFieldSigned | src/bitops.c:1040-1069 | SET answers the old integer and stores the value if it fits, else its wrap or nothing; under SAT it stores the nearest bound iff max - value does not wrap; no other bit changes. |
| Bitfield.SetFieldUnsigned | src/bitops.c:1070-1099 | SET casts its argument, answers the old integer and stores the value modulo 2^bits, the maximum under SAT for a negative or large one, or nothing under FAIL; no other bit changes. |
| Bitfield.GetWindow | src/bitops.c:1102-1134 | Reading an unsigned field in the nine-byte copy equals reading it in the zero-padded string. |
| Bitfield.GetWindowSigned | src/bitops.c:1102-1128 | So does reading a signed field; exactly a negative one of 64 bits makes it shift by the width of the type. |
| Bitfield.CopyWindow | src/bitops.c:1113-1121 | The copy is the nine bytes from there, zero-padded. |
| Bitfield.WindowField | src/bitops.c:1113-1123 | A field in the nine-byte copy is the field in the zero-padded string. |
| Popcount.SwarCounts | src/bitops.c:66-80 | After the mask-and-add lines each byte lane of a word holds the number of its own bits. |
| Popcount.AddWord | src/bitops.c:80-86 | Adding a word's lanes adds its bits. |
| Popcount.LanesAdd | src/bitops.c:80-86 | Lane sums up to 56 do not carry into the next lane. |
| Popcount.GatherIsTotal | src/bitops.c:80-86 | With at most 56 in each lane the multiplication and shift give the sum of the lanes. |
| Popcount.CountBlock | src/bitops.c:54-87 | 28 bytes a turn are counted exactly; no lane overflows. |
| Popcount.RedisPopcount | src/bitops.c:40-92 | For every string and alignment the result is the number of set bits. |
| Bitpos.LoadWord | src/bitops.c:151-159 | The loading loop gives the next eight bytes, zero-padded, with the first on top. |
| Bitpos.PackAtBit | src/bitops.c:151-159 | Bit j of the loaded word is bit j of the string from there. |
| Bitpos.SkipWords | src/bitops.c:133-142 | No bit before the stop has the wanted value; a full word left contains one. |
| Bitpos.SkipBytes | src/bitops.c:118-130 | No bit before the stop has the wanted value; found means the byte there has one. |
| Bitpos.ScanWord | src/bitops.c:172-180 | The scan returns the first bit with the wanted value if there is one. |
| Bitpos.RedisBitpos | src/bitops.c:101-186 | For every string and alignment the result is the first position with the wanted value in the zero-padded string, -1 iff a one is wanted and there is none; the panic is unreachable. |
| Bitop.WordStep | src/bitops.c:678-727 | One word operation is eight byte operations. |
| Bitop.Lengths | src/bitops.c:627-654 | The loop finds the greatest length and a length no string is shorter than. |
| Bitop.BlockTurn | src/bitops.c:680-690 | One turn of the fast path leaves the fold of all strings in its 32 bytes. |
| Bitop.BlockStep | src/bitops.c:681-684 | Four word operations are thirty-two byte operations. |
| Bitop.CombineBytes | src/bitops.c:681-684 | Each byte of a word operation is the operation on the bytes. |
| Bitop.FastPath | src/bitops.c:667-728 | The 32-byte path leaves every byte it covers equal to the byte-wise fold. |
| Bitop.Bitop | src/bitops.c:591-745 | Every byte of the result is the fold of the zero-padded strings at that byte, and the length is the longest one's. |

## Left out

- Cluster: failure detection and gossip, replica ranks and migration, manual failover offsets, config saving and crash ordering.
- Cluster: when peers, slots or flags change through commands other than SETSLOT NODE, ADDSLOTS, DELSLOTS and FORGET.
- SlotTable.ClusterNode.SetSlotBit: does not model the MIGRATE_TO flag, which only steers replica migration.
- SlotTable.ClusterState.SetSlotNode: does not model the epoch bump, which ClusterHandlers has on its own.
- EpochCollision.BumpsAreBounded: masters agree on the slots, so that pings carry epochs and no rebinding.
- ClusterBus.UpdateOk: takes the claim not to be ahead of the header, which Election.EpochDomination shows of every message sent.
- Backend: ttl effects, keyspace events and replies; time of the backend calls; cache and backend are not claimed to agree, since a completed GET overwrites the db.
- Backend: a handler re-entered from within, which a script of a resumed client that overruns its time limit would do, and the assertion on clients blocked by modules at the end of a resumption.
- BackendMain.ModeState.Release: the lists are sequences and the dictionaries maps, so their own node handling is not modelled here.
- BackendMain.ModeState.TakeClients: does not model the db update and the resumption of clients, which are steps of Backend.
- Append only file: translation of expire commands, the RDB preamble, the dump itself, fsync threads and renaming.
- AofFlush.Server.Write: a write(2) that answers zero for ever would loop for ever in the code; the list of answers is finite.
- AofLoad.LoadAppendOnlyFile: numbers are read without the bounds of int and long; the fake client is a value, and commands have no effect but to be recorded with their db.
- Crc64: the 16-bit variants.
- ACL: checking commands against a user, authentication, the log, reading the file and splitting it into lines, and freeing the structures of an old table.
- AclUser.UserObject.SetCommandBit: the bitmap is an array of bools, not of 64-bit words.
- AdList: listDup, listEmpty and the free, dup and match methods of a list.
- BlockedServer.Server.HandleClientsBlockedOnKeys: serves lists; sorted sets, streams and modules are not served.
- BlockedServer.Server.BlockForKeys: timeouts and stream IDs are not modelled.
- BlockedCommands.ExecuteAll: freeing clients, swapping dbs, renaming, moving and restoring keys, lists written by modules, and blocking inside a transaction are not among the commands.
- BlockedServer.Server.MoveElement: which end an element leaves and what it is are not modelled.
- CrcSpeed.BigInit: does not model the address of an int on a big-endian machine; CrcBigEndian.BigInitThere does.
- ClusterConverge.NodeConverges: no slot is being imported, claims do not change while they spread, and a table with owners that are no claimants is not a start.
- BlockedServer.Server.ProcessUnblockedClients: does not model what the pending input of a client goes on to do.
- Bitfield.GetSigned: what a shift by 64 yields is not modelled.
- Bitpos.RedisBitpos: the comparison of a native word with all zeros or all ones is made byte by byte.
- Bitop.Bitop: looking up keys and type errors.
