# Verified model of the replicated social network service

The system has three layers, each modelled on the one below it.

1. **Lock filesystem** (`FSMemory`, `FSTreeNode`, `filesystem_utils`). A mutable tree of folders
   and files. `MemoryTree` has it as objects with a ghost map from paths to nodes, and proves every
   operation against `FlatFs`, a flat map from component lists to folders and files. A null
   dereference, `back()` on an empty vector and a call that waits for a mutex nobody will release
   are outcomes of their own (`Undefined`, `Blocked`).
2. **Coordinator** (`SNSCoordinator`). Registration, leader election with lock files, the sweep
   that demotes silent servers, the lists handed out for replication, and the assignment of
   clients. `Registry` has the handlers as functions of the coordinator's state; `Coordinator` has
   the objects and loops, proved against those functions. `ElectionSafety`, `LockFiles`,
   `SyncAddresses`, `FailoverTiming` and `ClientAssignment` prove what every run keeps with atomic handlers and an
   atomic sweep of one server; `ElectionRace` takes heartbeats apart into the steps between which
   other heartbeats may come.
3. **Servers** (`SNSServer`). The social graph, the posts, and the two text logs from which another
   server starts. `Social` has the live handlers, `UserInfoLog` and `PostLog` the printing and the
   unvalidated replay, `Replica` whole runs of one server, `Timeline` the selection of posts, and
   `ServerObjects` the objects and loops, proved against all of these. `Broadcast` follows a request
   through the servers, `MasterFlags` ties the servers' own flags to the coordinator's nodes,
   `Agreement` is the whole system, `Scenarios` has concrete runs of it, and `Convergence` compares
   two orders of the same requests.

A handler that would dereference null, use an index of -1 or throw ends in the outcome `Fault`, or
`None` in a replay; the server is then no longer `alive`.

Assumptions that are stated in the contracts rather than proved: timestamps print as one word
(`Zone.PrintsWords`); an address reaches the server that last started to listen there; broadcasts
and joins are atomic. The time zone (`Zone`), the clock and the content of local files are
parameters.

Where the code departs from its own documentation or comments, the model follows the code:

- README.md:53 says that a master sends every request to its slaves and to the other masters, which
  send it on. `AddPost` sends nothing on (server/src/SNSServer.cpp:913-926); `Broadcast.PostReachesAllIff`
  says exactly when a post still reaches everyone, and `Scenarios.PostMissesSlave` is a run from the
  empty system in which it misses an active slave.
- The reply for a user who does not exist is never sent, because the log line that follows
  dereferences the missing user (server/src/SNSServer.cpp:742, 795); see `Social.WhenRequestsFault`,
  and `Replica.FollowOfStrangerKills` for a run.
- A server counts as active at two misses (coordinator/src/SNSCoordinator.h:47-50), although its
  lock is released then (coordinator/src/SNSCoordinator.cpp:438-440). A demoted server therefore still
  receives broadcasts from its cluster's next master, and as it still believes that it is master itself,
  it sends them back: until its third miss or its next heartbeat no client's request that reaches the
  two ever ends. `MasterFlags.ReachableBroadcastEndsIff` says exactly when a request ends, and
  `Scenarios.RivalsRun` is a run in which none does.
- A server that joins when no cluster has a master gets no sync address and starts from its own files
  (coordinator/src/SNSCoordinator.cpp:186-193, server/src/SNSServer.cpp:202-241), even while other servers
  are still active. `Agreement.JoinAgreesIff` says exactly when that loses agreement,
  `Scenarios.JoinLosesUsers` is such a run.
- A server that was given up becomes active again by beating, without any synchronisation
  (coordinator/src/SNSCoordinator.cpp:117, 135). `Agreement.ReturnAgreesIff` says exactly when that loses
  agreement, and the end of `Scenarios.FailoverRun` is such a run.
- The loser of an election race keeps an empty path (coordinator/src/SNSCoordinator.cpp:173-175, 198).
  When it falls silent, the sweep calls `remove("")`, which returns with the mutex held
  (FSWrapper/FSWrapper/FSMemory.cpp:161-168). `ElectionRace.JamIsReachable` gives the schedule,
  `ElectionRace.WhenTheSweepJams` says that nothing else ever leaves the mutex held, and
  `ElectionRace.NoElectionAfterAJam` what follows.
- The early return for a master (coordinator/src/SNSCoordinator.cpp:137-144) does not rewrite its lock
  file; `SyncAddresses.HeartbeatKeepsTellingIff` says exactly when the file then misleads, and
  `SyncAddresses.MovedMasterMisleads` is a run in which it does.
- The comment that `AddPost` always finds the author (server/src/SNSServer.cpp:917-919) is not enforced;
  `Replica.AddPostPoisonsIff` says what happens when it does not, and `Scenarios.PostPoisonsNewcomer` is
  a run in which such a post arrives.

## Model

| member | source | states |
|---|---|---|
| Text.IntStrInjective | coordinator/src/SNSCoordinator.h:11 | different ids print differently, so ids can be told apart in a lock path |
| Text.IntStrIsDecimal | coordinator/src/SNSCoordinator.cpp:65-71 | an id prints as its decimal digits, without leading zeros, behind a minus sign if it is negative |
| Text.Split | server/src/SNSServer.cpp:89-97 | the loop returns the pieces that `getline` yields |
| Text.GetLinesAppend | server/src/SNSServer.cpp:89-97 | pieces of a text that ends in a delimiter are unaffected by what is appended |
| Text.FindIsFirst | FSWrapper/FSWrapper/filesystem_utils.cpp:11-18 | `find` returns a match, no earlier one exists, and `npos` means there is none |
| FilesystemUtils.SplitString | FSWrapper/FSWrapper/filesystem_utils.cpp:6-28 | the loop returns the specified tokens, also when it resumes inside a longer delimiter |
| FilesystemUtils.TokensUnfold | FSWrapper/FSWrapper/filesystem_utils.cpp:10-25 | the tokens of a text are those before its first delimiter and those of the rest, from one character past the delimiter's start |
| FilesystemUtils.TokensAppend | FSWrapper/FSWrapper/filesystem_utils.cpp:10-25 | with a one-character delimiter, splitting distributes over every delimiter |
| FilesystemUtils.TokensClean | FSWrapper/FSWrapper/filesystem_utils.cpp:13-25 | no token is empty or contains the delimiter |
| FilesystemUtils.GetParentFolderPath | FSWrapper/FSWrapper/filesystem_utils.cpp:35-50 | the loop joins all components but the last, each with a slash |
| FilesystemUtils.JoinedCons | FSWrapper/FSWrapper/filesystem_utils.cpp:41-47 | every component is followed by a slash, the last one too |
| FilesystemUtils.SplitJoined | FSWrapper/FSWrapper/filesystem_utils.cpp:30-50 | splitting a joined path gives its components back |
| FlatFs.OperationsKeepTheTree | FSWrapper/FSWrapper/FSMemory.cpp:45-186 | `create`, `write` and `remove` keep every parent a folder, and without success change nothing, also when directories may be created |
| FlatFs.CreateIsTestAndSet | FSWrapper/FSWrapper/FSMemory.cpp:56-71 | `create` succeeds exactly on a free path below an existing or makeable folder, and adds that entry and the missing folders only |
| FlatFs.RemoveUndoesCreate | FSWrapper/FSWrapper/FSMemory.cpp:159-186 | removing what was created in an existing folder restores the tree |
| FlatFs.ReadAfterWrite | FSWrapper/FSWrapper/FSMemory.cpp:119-140 | after a write the file holds the old data and the new, or the new alone if overwriting; a folder is never written |
| FlatFs.WriteEffect | FSWrapper/FSWrapper/FSMemory.cpp:108-147 | `write` succeeds exactly on an existing file or on a free path below an existing or makeable folder, and changes that file and adds the missing folders only |
| FlatFs.RemoveEffect | FSWrapper/FSWrapper/FSMemory.cpp:159-186 | `remove` succeeds exactly on what exists, and takes away that entry and all it is an ancestor of, and nothing else |
| FlatFs.ReadIs | FSWrapper/FSWrapper/FSMemory.cpp:87-102 | what is read is what follows an offset within an existing file |
| FlatFs.ExistsAfter | FSWrapper/FSWrapper/FSMemory.cpp:45-186 | what was created did not exist and then does, what was removed did and then does not |
| FlatFs.WhenCreateIsUndefined | FSWrapper/FSWrapper/FSMemory.cpp:23-40 | the walk goes through null exactly when it may create folders and crosses a file with two or more components to go |
| FlatFs.WhenCreateReturns | FSWrapper/FSWrapper/FSMemory.cpp:45-78 | exactly when `create` waits, dies or returns, and that it returns with the mutex held exactly on the empty path |
| FlatFs.WhenWriteIsUndefined | FSWrapper/FSWrapper/FSMemory.cpp:108-121 | the walk of a write goes through null exactly when it may create folders and crosses a file with two or more components to go |
| FlatFs.WhenWriteReturns | FSWrapper/FSWrapper/FSMemory.cpp:108-147 | exactly when `write` waits, dies or returns, and with which state of the mutex |
| FlatFs.WhenRemoveReturns | FSWrapper/FSWrapper/FSMemory.cpp:159-186 | exactly when `remove` waits, dies or returns, and that it returns with the mutex held exactly on the empty path |
| MemoryTree.FSTreeNode.GetChild | FSWrapper/FSWrapper/FSTreeNode.cpp:5-14 | the child of that name, or null exactly if there is none |
| MemoryTree.FSTreeNode.CreateChild | FSWrapper/FSWrapper/FSTreeNode.cpp:17-32 | refuses children of files and folders with data, otherwise puts a new node under the name and changes no other child |
| MemoryTree.FSTreeNode.RemoveChild | FSWrapper/FSWrapper/FSTreeNode.cpp:56-61 | removes exactly that child and reports whether it was there |
| MemoryTree.AddedIsConsistent | FSWrapper/FSWrapper/FSTreeNode.cpp:25-31 | a new child keeps keys equal to node names, files without children and folders without data |
| MemoryTree.CutIsConsistent | FSWrapper/FSWrapper/FSTreeNode.cpp:56-61 | so does cutting a subtree off |
| MemoryTree.FSMemory.GetTreeNode | FSWrapper/FSWrapper/FSMemory.cpp:23-40 | the walk ends at the node of the path, makes the missing folders if asked, or dies exactly where the specification says |
| MemoryTree.FSMemory.ParentNode | FSWrapper/FSWrapper/FSMemory.cpp:56-60 | splits off the last component and walks to the parent, or dies on a path with no component |
| MemoryTree.FSMemory.Create | FSWrapper/FSWrapper/FSMemory.cpp:45-78 | refines the flat `create`, mutex included |
| MemoryTree.FSMemory.Write | FSWrapper/FSWrapper/FSMemory.cpp:108-147 | refines the flat `write`, mutex included |
| MemoryTree.FSMemory.Remove | FSWrapper/FSWrapper/FSMemory.cpp:159-186 | refines the flat `remove` of a whole subtree, mutex included |
| MemoryTree.FSMemory.Exists | FSWrapper/FSWrapper/FSMemory.cpp:80-83 | true exactly if the path is in the map |
| MemoryTree.FSMemory.Read | FSWrapper/FSWrapper/FSMemory.cpp:87-102 | the data of a file from the offset on, and nothing for folders, missing paths, negative offsets and offsets beyond the end |
| LockPaths.LocksDiffer | coordinator/src/SNSCoordinator.cpp:65-71 | lock paths are injective in cluster and server id, after splitting too, and no slave lock is a master lock |
| LockPaths.MasterPath | coordinator/src/SNSCoordinator.cpp:65-67 | the master file path splits into the cluster folder and `master` |
| LockPaths.SlavePath | coordinator/src/SNSCoordinator.cpp:69-71 | the slave file path splits into the cluster folder and the slave's own name |
| LockPaths.PathsOfFirstCluster | coordinator/src/SNSCoordinator.cpp:65-71 | the paths of cluster 1 and its server 2 in full |
| Registry.MasterOfIsFirst | coordinator/src/SNSCoordinator.cpp:271-280 | the first server in key order with its flag set, or none exactly if no server of the cluster has it |
| Registry.FirstOtherIsFirst | coordinator/src/SNSCoordinator.cpp:259-289 | the master of the first other cluster that has one, or none exactly if no other cluster has one |
| Coordinator.Node.UpdateHeartbeat | coordinator/src/SNSCoordinator.h:52-55 | sets the time, clears the misses, changes nothing else |
| Coordinator.Node.SetFromServerInfo | coordinator/src/SNSCoordinator.h:57-65 | takes ids and address over and records the heartbeat, but keeps path and master |
| Coordinator.SNSCoordinator.constructor | coordinator/src/SNSCoordinator.cpp:53-61 | starts with that many empty clusters and an empty lock tree |
| Coordinator.SNSCoordinator.Heartbeat | coordinator/src/SNSCoordinator.cpp:87-231 | refines the specified heartbeat: reply, clusters, lock tree and assignments |
| Coordinator.SNSCoordinator.Admitted | coordinator/src/SNSCoordinator.cpp:106-135 | finds or makes the zNode, refuses a second active registration, records the heartbeat |
| Coordinator.SNSCoordinator.Elect | coordinator/src/SNSCoordinator.cpp:151-204 | refines the specified election |
| Coordinator.SNSCoordinator.GetFirstAvailableClusterMaster | coordinator/src/SNSCoordinator.cpp:259-289 | the node of the first master of another cluster, or null exactly if there is none |
| Coordinator.SNSCoordinator.CheckServer | coordinator/src/SNSCoordinator.cpp:429-448 | refines the specified sweep of one server |
| Coordinator.SNSCoordinator.CheckHeartbeats | coordinator/src/SNSCoordinator.cpp:423-454 | one pass refines the specified sweep of all servers |
| Coordinator.SNSCoordinator.GetCounterparts | coordinator/src/SNSCoordinator.cpp:233-253 | lists the nodes of the specified counterparts, in key order |
| Coordinator.SNSCoordinator.GetOtherClusterMasters | coordinator/src/SNSCoordinator.cpp:291-320 | lists the nodes of the first masters of the other clusters, in cluster order |
| Coordinator.SNSCoordinator.GetUniqueClientID | coordinator/src/SNSCoordinator.cpp:325-336 | refines the specified id hand-out |
| Coordinator.SNSCoordinator.GetActiveMaster | coordinator/src/SNSCoordinator.cpp:339-383 | the loop is the ring search from id mod n |
| Coordinator.SNSCoordinator.GetServer | coordinator/src/SNSCoordinator.cpp:385-420 | refines the specified assignment, including the entry that the lookup itself makes |
| ElectionSafety.ElectionOutcome | coordinator/src/SNSCoordinator.cpp:151-204 | in a lock tree of the right shape the election never hangs or loses, and which lock file and which node it changes |
| ElectionSafety.HeartbeatKeepsSafe | coordinator/src/SNSCoordinator.cpp:87-231 | every heartbeat keeps the invariant relating flag, misses, path and lock file |
| ElectionSafety.SweepServerKeepsSafe | coordinator/src/SNSCoordinator.cpp:429-448 | so does the sweep of one server |
| ElectionSafety.MutualExclusion | coordinator/src/SNSCoordinator.cpp:87-231 | in every reachable state a cluster has at most one master, and its master file exists exactly while it has one |
| ElectionSafety.OnlyOwnLockReleased | coordinator/src/SNSCoordinator.cpp:431-445 | in every reachable state a sweep removes no lock but the swept server's own, and the master lock only by demoting its holder |
| LockFiles.SweepReleasesOwnLock | coordinator/src/SNSCoordinator.cpp:431-445 | in every reachable state the sweep that brings a server to its second miss removes the lock its path names and changes no other entry; no other sweep of a server changes the tree |
| LockFiles.PassReleasesExpired | coordinator/src/SNSCoordinator.cpp:423-454 | a whole pass removes exactly the locks of the servers that it brings to their second miss |
| LockFiles.SlaveLocksExist | coordinator/src/SNSCoordinator.cpp:159-170 | in every reachable state the lock file of a slave with fewer than two misses exists and holds its address |
| ElectionSafety.HeartbeatReturns | coordinator/src/SNSCoordinator.cpp:87-231 | no heartbeat of any run hangs, and it replies master exactly to the master and to an accepted server of a cluster without one |
| ElectionRace.ScheduleIsSafe | coordinator/src/SNSCoordinator.cpp:151-204 | every schedule of separate `exists`, `create`, `write`, `read`, path and flag steps keeps the race invariant |
| ElectionRace.RaceExclusion | coordinator/src/SNSCoordinator.cpp:159-204 | on every schedule a cluster has at most one master or pending winner, and its lock exists while it has one |
| ElectionRace.AtomicHeartbeatIsASchedule | coordinator/src/SNSCoordinator.cpp:87-231 | one heartbeat run without interruption is the atomic handler, reply and sync address included |
| ElectionRace.WhenTheSweepJams | coordinator/src/SNSCoordinator.cpp:431-445 | the mutex is left held exactly by sweeping an idle server with an empty path at its second miss |
| ElectionRace.NoElectionAfterAJam | FSWrapper/FSWrapper/FSMemory.cpp:45-54 | from then on no election in any cluster is won |
| ElectionRace.JamIsReachable | coordinator/src/SNSCoordinator.cpp:170-198 | two first heartbeats of one cluster, the loser silent through the sweeps at 11 and 14 seconds, reach the jam |
| SyncAddresses.HeartbeatEffect | coordinator/src/SNSCoordinator.cpp:133-204 | an accepted heartbeat changes its own node and at most its cluster's master lock, which it writes exactly when it wins |
| SyncAddresses.HeartbeatReplies | coordinator/src/SNSCoordinator.cpp:92-204 | which of the three replies a heartbeat gets, that a refusal changes nothing, and that a reply carries the recorded path, and a sync address only for a slave or for a new server |
| SyncAddresses.HeartbeatKeepsTellingIff | coordinator/src/SNSCoordinator.cpp:133-144 | master lock files keep holding their masters' addresses exactly if the heartbeat does not move a master |
| SyncAddresses.JoinSync | coordinator/src/SNSCoordinator.cpp:159-195 | the sync address of a joining server is that of its cluster's master, else of the first other master, and empty exactly if there is no master |
| SyncAddresses.MovedMasterMisleads | coordinator/src/SNSCoordinator.cpp:133-144 | a run in which a master reports a new address: its lock file keeps the old one, and the next joining server is sent there |
| SyncAddresses.JoinersFindAMaster | coordinator/src/SNSCoordinator.cpp:159-195 | over every run in which no master moves, a joining server is sent to the present address of a master unless there is none |
| FailoverTiming.SweepVisitsEachOnce | coordinator/src/SNSCoordinator.cpp:426-450 | one pass visits every server exactly once |
| FailoverTiming.MissedCountsSweeps | coordinator/src/SNSCoordinator.cpp:431-432 | in every run the miss count is the number of sweeps later than the last accepted heartbeat plus ten seconds |
| FailoverTiming.DemotionTime | coordinator/src/SNSCoordinator.cpp:431-445 | a demotion happens in a sweep 14 to 16 seconds after the last accepted heartbeat |
| FailoverTiming.PromptMasterIsNeverDemoted | coordinator/src/SNSCoordinator.cpp:423-454 | a master with gaps of at most 13 seconds stays master through any run |
| FailoverTiming.SilentForTooLong | coordinator/src/SNSCoordinator.cpp:423-454 | more than 16 seconds after its last accepted heartbeat no server is master |
| FailoverTiming.NextHeartbeatElects | coordinator/src/SNSCoordinator.cpp:137-200 | after a demotion the next accepted heartbeat of the cluster elects its sender |
| ClientAssignment.RingSearchFindsFirst | coordinator/src/SNSCoordinator.cpp:354-376 | the search ends at the first cluster with a master in ring order, or none of the visited clusters has one |
| ClientAssignment.RingVisitsAll | coordinator/src/SNSCoordinator.cpp:373-375 | a full round visits every cluster |
| ClientAssignment.RingVisitsOnce | coordinator/src/SNSCoordinator.cpp:373-375 | and none twice |
| ClientAssignment.GetServerAssigns | coordinator/src/SNSCoordinator.cpp:385-420 | a client gets a current master, the one it had exactly while that is master, otherwise the first in ring order from its id, and nothing exactly if there is no master; other clients' entries stay |
| ClientAssignment.AssignmentsStayDense | coordinator/src/SNSCoordinator.cpp:325-336 | in every run that asks with issued ids the keys are exactly 0 to size-1 |
| ClientAssignment.NewIdHasNoServer | coordinator/src/SNSCoordinator.cpp:325-336 | a new id has no server, and no other entry changes |
| ClientAssignment.RecordIsLastTold | coordinator/src/SNSCoordinator.cpp:325-420 | in every run that asks with issued ids, the entry of an id is what its client was last told, or no server |
| ClientAssignment.FirstAskGetsRingMaster | coordinator/src/SNSCoordinator.cpp:385-420 | in such a run a client that asks for the first time gets the first master in ring order from its id, as a change, or nothing exactly if there is no master |
| ClientAssignment.IdsAreUnique | coordinator/src/SNSCoordinator.cpp:325-336 | so the next id is always new |
| ClientAssignment.IdsStayUniqueIff | coordinator/src/SNSCoordinator.cpp:327-331 | all later ids are new exactly if no key has reached the size of the map |
| ClientAssignment.UnissuedIdBreaksIff | coordinator/src/SNSCoordinator.cpp:392 | a lookup spoils that exactly for ids above the size of the map |
| Social.IndexOf | server/src/SNSServer.cpp:378-402 | the first index of a name, or -1 exactly if it is absent |
| Social.RunsKeepGraph | server/src/SNSServer.cpp:660-800 | on every run names are distinct, users connected, following and time lists parallel and without duplicates or self-follows, and following and followers mirror each other |
| Social.RemoveEdgeIsSafe | server/src/SNSServer.cpp:769-782 | in such a graph an unfollow never erases at -1 |
| Social.WhenRequestsFault | server/src/SNSServer.cpp:695-800 | a request kills the server exactly if it names a missing user, the not-exists reply is never sent, and only success changes anything |
| Social.WhichReply | server/src/SNSServer.cpp:711-771 | for existing users, exactly when a follow is invalid, a repetition or a success, and an unfollow invalid, not a follow or a success |
| Social.LoginEffect | server/src/SNSServer.cpp:660-682 | a new user is entered last, connected and with empty lists; a known one changes nothing |
| Social.FollowEffect | server/src/SNSServer.cpp:727-736 | a successful follow appends target and time to the user's lists and the user to the target's followers, and changes nothing else |
| Social.UnFollowUndoesFollow | server/src/SNSServer.cpp:720-788 | an unfollow after a follow restores the graph |
| UserInfoLog.ReplayFollows | server/src/SNSServer.cpp:461-470 | the line of a follow between words replays to the same follow |
| UserInfoLog.ReplayUnFollows | server/src/SNSServer.cpp:472-487 | the line of an unfollow between words replays to the same unfollow |
| UserInfoLog.BadNameLine | server/src/SNSServer.cpp:520-527 | the line of a name that is not one word dies on replay or enters another user |
| UserInfoLog.StrangeLines | server/src/SNSServer.cpp:520-532 | lines of another kind are skipped; an empty line and lines with too few words kill the server |
| UserInfoLog.ReplayTextAppend | server/src/SNSServer.cpp:515-540 | appended lines replay from where the earlier lines ended |
| UserInfoLog.RewriteIsExact | server/src/SNSServer.cpp:534-538 | writing every line back reproduces a text, up to a newline that its last line may lack |
| PostLog.BodyParts | server/src/SNSServer.cpp:554-564 | a post of one-line fields splits into its three lines, also after a left-over newline |
| PostLog.TokenKinds | server/src/SNSServer.cpp:549-573 | exactly which tokens of the file are skipped, which kill the server, and what is read from the others |
| PostLog.PostsAreReadBackIff | server/src/SNSServer.cpp:542-576 | every list of posts is read back, in order, exactly if names and contents have no newline and timestamps survive |
| LocalTime.FaithfulIff | server/src/SNSServer.cpp:118-149 | a timestamp survives exactly if the zone reads back its seconds as printed, and its nanoseconds are 0 |
| Replica.RunKeepsGraphAndAuthors | server/src/SNSServer.cpp:489-512 | on every run the graph is good, and while the server lives every post has an author |
| Replica.RunKeepsLogs | server/src/SNSServer.cpp:660-800 | on every run the logs are whole lines, the post log is the printed posts, and the userinfo log replays to the graph with its times printed and read back, or has visibly diverged once a name is not a word or a follow time cannot be read |
| Replica.RunStores | server/src/SNSServer.cpp:489-512 | a live server holds the graph of the requests it served and the posts said or replicated, in order, without the empty messages |
| Replica.PostWrites | server/src/SNSServer.cpp:174-186 | a post is stored and written after the earlier ones, in which format, and an empty message of a user changes nothing |
| Replica.FilesOfASession | server/src/SNSServer.cpp:660-800 | both files, in full, of a run with two logins, a follow, a post, an empty message and an unfollow |
| Replica.ReplayIsLiveIff | server/src/SNSServer.cpp:454-576 | over every run the two logs replay to the live users, lists, times and posts exactly if every follow served had a time that can be read back, names are words, the follow times survive printing, and posts are one-line by existing users with surviving times |
| Replica.SameTimesIff | server/src/SNSServer.cpp:99-138 | follow times come back from the log unchanged exactly if each survives being printed in whole seconds |
| Replica.RereadRemoveEdge | server/src/SNSServer.cpp:472-487 | an unfollow replayed on reread times erases the same entry |
| Replica.LiveServersRecoverIff | server/src/SNSServer.cpp:454-576 | for a live server the authors need no mention |
| Replica.TellingZonesRestoreIff | server/src/SNSServer.cpp:256-320 | in a zone that reads back every second it prints, a live server is restored, by a restart and by a sync, exactly if its names are single words, its follows and posts at whole seconds and its posts on one line |
| Replica.PlainRunsAreRestored | server/src/SNSServer.cpp:256-320 | so every run of such requests and posts that the server survives is restored |
| Replica.SyncCopiesIff | server/src/SNSServer.cpp:279-319 | starting from another server's logs copies its memory and both files byte for byte on exactly those runs |
| Replica.RestartRestoresIff | server/src/SNSServer.cpp:264-277 | so does starting from the server's own files |
| Replica.StartsKeepFiles | server/src/SNSServer.cpp:256-320 | without a sync the files stay as they are; a sync completes the last line and prints the posts anew |
| Replica.SyncChainPreserves | server/src/SNSServer.cpp:256-320 | any chain of such starts preserves memory and files |
| Replica.AddPostPoisonsIff | server/src/SNSServer.cpp:913-926 | after one more replicated post both ways of starting restore the server exactly if they did before, the author exists and the post survives printing; a surviving post without author kills the server and every later start |
| Replica.FollowOfStrangerKills | server/src/SNSServer.cpp:695-747 | a login followed by a follow of a stranger is a run that ends with the server dead |
| Timeline.ScanStep | server/src/SNSServer.cpp:413-434 | one step of the scan from the end |
| Timeline.ShownIff | server/src/SNSServer.cpp:404-437 | a selected post is shown exactly if fewer than n selected posts are newer, right after those |
| Timeline.ShownOnlyIf | server/src/SNSServer.cpp:421-431 | only posts of followed authors later than the follow are shown |
| Timeline.TimelineIsNewestDue | server/src/SNSServer.cpp:404-437 | what is shown are the newest n of the posts by someone followed that are later than that follow, by seconds and then nanoseconds, newest first |
| ServerObjects.SNSServer.GetClient | server/src/SNSServer.cpp:355-376 | the object of that user, otherwise null or a new object |
| ServerObjects.SNSServer.IndexOfFollowing | server/src/SNSServer.cpp:379-389 | the loop is the specified index in the following list |
| ServerObjects.SNSServer.IndexOfFollower | server/src/SNSServer.cpp:392-402 | the loop is the specified index in the follower list |
| ServerObjects.SNSServer.GetFollowingPosts | server/src/SNSServer.cpp:406-437 | the loop is the first n of the reversed posts filtered by the selection |
| ServerObjects.SNSServer.LoginHelper | server/src/SNSServer.cpp:454-459 | enters the user without looking |
| ServerObjects.SNSServer.FollowHelper | server/src/SNSServer.cpp:461-470 | adds the edge without looking, or dies |
| ServerObjects.SNSServer.UnfollowHelper | server/src/SNSServer.cpp:472-487 | erases the edge, or dies |
| ServerObjects.SNSServer.AddPostHelper | server/src/SNSServer.cpp:489-512 | stores and writes the post before a missing author kills the server, and writes it to the streams of the author's followers that have joined their timelines |
| ServerObjects.AudienceIs | server/src/SNSServer.cpp:503-511 | a post is shown once to every user on a timeline who follows its author, and to nobody else |
| ServerObjects.SNSServer.ProcessUserInfoFromFile | server/src/SNSServer.cpp:515-540 | the loop is the specified replay, and when saving appends every line replayed, all of them or those before the server died |
| ServerObjects.SNSServer.UpdatePostsFromFile | server/src/SNSServer.cpp:542-576 | dies exactly on bad tokens or missing authors, and stores, and when saving appends, the posts read until then, a last one without author included |
| ServerObjects.SNSServer.InitializeData | server/src/SNSServer.cpp:256-320 | refines both ways of starting |
| ServerObjects.SNSServer.Propogate | server/src/SNSServer.cpp:629-647 | the lists asked for contain exactly the servers that the request spreads to from here, in that order |
| Broadcast.ForwardsAreAnswers | server/src/SNSServer.cpp:578-647 | the servers a request is sent on to are those in the coordinator's answers, one after the other |
| ServerObjects.SNSServer.Login | server/src/SNSServer.cpp:660-693 | refines the specified login with its log line |
| ServerObjects.SNSServer.Follow | server/src/SNSServer.cpp:695-747 | refines the specified follow: reply, graph, log line, fault |
| ServerObjects.SNSServer.UnFollow | server/src/SNSServer.cpp:749-800 | refines the specified unfollow: reply, graph, log line, fault |
| ServerObjects.SNSServer.TimelineMessage | server/src/SNSServer.cpp:831-886 | the first message of a user opens its stream and is answered with the newest 20 selected posts; a later one is a post unless empty, is shown to the author's followers, and a master forwards it; one of a stranger kills the server |
| ServerObjects.SNSServer.AddPost | server/src/SNSServer.cpp:913-926 | refines the specified replicated post and its audience; forwards nothing |
| Broadcast.CounterpartsAre | coordinator/src/SNSCoordinator.cpp:233-253 | names every other active server of the cluster exactly once |
| Broadcast.CounterpartsAscend | coordinator/src/SNSCoordinator.cpp:238-250 | in ascending order of server id |
| Broadcast.OtherMastersAre | coordinator/src/SNSCoordinator.cpp:291-320 | names the first master of every other cluster exactly once |
| Broadcast.OtherMastersAscend | coordinator/src/SNSCoordinator.cpp:296-317 | in ascending order of cluster id |
| Broadcast.BroadcastEndsIff | server/src/SNSServer.cpp:578-647 | a client's request stops spreading exactly if no cluster that forwards it has two active servers that believe they are master |
| Broadcast.BroadcastReachesEachOnce | server/src/SNSServer.cpp:578-647 | a request at any active server, if it ends, is applied exactly once at that server and, if that believes it is master, at every active server of its cluster and of every other cluster with a master, and nowhere else, three calls deep |
| Broadcast.BroadcastReachesAllIff | server/src/SNSServer.cpp:578-647 | it misses no active server exactly if there is no other, or it came to a believer and every other cluster with an active server has a master |
| Broadcast.PostReaches | server/src/SNSServer.cpp:874-883 | a post reaches, once each, its server and, if that believes it is master, the others of its cluster and the other masters, whatever anyone else believes |
| Broadcast.PostReachesAllIff | server/src/SNSServer.cpp:913-926 | it misses no active server exactly if there is no other, or it came to a believer and every active server of another cluster is its master |
| MasterFlags.HeartbeatFlags | server/src/SNSServer.cpp:333-345 | after every heartbeat, with the sender taking its flag from the reply, an active server believes it is master exactly if it holds its cluster's master path |
| MasterFlags.RunIsFlagged | server/src/SNSServer.cpp:228-345 | so in every reachable state |
| MasterFlags.ReachableAgreesIff | coordinator/src/SNSCoordinator.cpp:431-445 | in every reachable state servers and coordinator agree on the masters exactly if no demoted master has exactly two misses |
| MasterFlags.ReachableBroadcastEndsIff | server/src/SNSServer.cpp:578-647 | in every reachable state a request at an active server ends exactly if that server does not hold its cluster's master path, or neither its cluster nor any other cluster with a master has two active holders of theirs |
| Agreement.AskEffect | server/src/SNSServer.cpp:629-647 | a request whose calls end is one step of every server that it reaches and of no other |
| Agreement.AskAgreesIff | server/src/SNSServer.cpp:629-647 | agreement survives a request at any active server exactly if it changes nothing, or its server is alone, or its server holds its cluster's master path and every other cluster with an active server has a master |
| Agreement.SayEffect | server/src/SNSServer.cpp:866-885 | a post is stored once at its server and, if that believes it is master, at its cluster's other active servers and the other masters, nowhere else, and an empty one nowhere |
| Agreement.DeathStaysLocal | server/src/SNSServer.cpp:695-885 | a request that kills a server and a post of a stranger kill that server alone and are not sent on, and a dead server ignores everything |
| Agreement.JoinerCopies | server/src/SNSServer.cpp:256-320 | a joining server starts as an exact copy of its cluster's master, else of the first other master, which is in the state all active servers share; without any master it starts from its files |
| Agreement.JoinAgreesIff | server/src/SNSServer.cpp:202-241 | agreement survives an accepted join exactly if there is a master somewhere or the joiner's files replay to the state of the active servers |
| Agreement.ReturnAgreesIff | coordinator/src/SNSCoordinator.cpp:117-135 | when a server that a sweep gave up just beats again, agreement survives exactly if no request served since then has logged anything |
| Agreement.RunReplicates | server/src/SNSServer.cpp:256-320 | requests, posts, joins, heartbeats and sweeps keep the replication invariant, also while a demoted master is still active |
| Agreement.ActiveServersAgree | server/src/SNSServer.cpp:578-647 | after any allowed run all active servers hold the same graph and userinfo log |
| Scenarios.FailoverRun | coordinator/src/SNSCoordinator.cpp:423-454 | an allowed run from the empty system: the master falls silent and is given up, its slave takes over, a user logs in, a later joiner knows that user; the old master does not, and its return ends the agreement |
| Scenarios.JoinLosesUsers | coordinator/src/SNSCoordinator.cpp:186-193 | an allowed run after which a server joins while the demoted master is still active, and knows no user |
| Scenarios.RivalsRun | coordinator/src/SNSCoordinator.h:47-50 | an allowed run to a state in which every cluster has a master and no request, at the new master or the demoted one, ends at any depth |
| Scenarios.PostPoisonsNewcomer | server/src/SNSServer.cpp:913-926 | a run in which a replicated post reaches an active server that lacks its author: it dies and cannot start from its files again |
| Scenarios.PostMissesSlave | server/src/SNSServer.cpp:913-926 | an allowed run in which a post reaches the master of another cluster and not the active slave there |
| Convergence.RunIsLocal | server/src/SNSServer.cpp:695-800 | a user's following list and times depend on that user's requests alone |
| Convergence.InterleavingsConverge | server/src/SNSServer.cpp:695-800 | two interleavings with the same requests per user end in equal following lists and times and equal follower sets |

## Left out

- gRPC, protobuf and glog: a call is a function call with its reply; status codes beyond ok, refused and unavailable, and the `type` field, are not modelled.
- Threads inside one handler beyond the election race: `v_mutex` is never taken, so the model states where it takes handlers and the sweep of one server to be atomic. At most one heartbeat per server is in flight.
- Coordinator.SNSCoordinator.CheckServer: the sweep goes on after a `remove` that would wait for the mutex for ever; in the code the sweeping thread stops there.
- Coordinator.SNSCoordinator.GetServer: takes ids that are not negative and at least one cluster; a negative id, or none, indexes out of range in the code.
- Coordinator.SNSCoordinator.CheckHeartbeats: goes on like `CheckServer` after a `remove` that would wait for ever. Misses are unbounded, so the overflow of a counter that grows for centuries is not modelled.
- Agreement.ActiveServersAgree: leaves out lost messages, crashes in the middle of a broadcast, servers that are registered but do not listen yet, and requests that kill the server that gets them. Requests, joins and returns that would end the agreement are excluded by the exact conditions of `AskAgreesIff`, `JoinAgreesIff` and `ReturnAgreesIff`, and so are requests that change something and never end.
- Agreement.AskAgreesIff: says nothing about requests that change something and never end (`MasterFlags.Calm` says which), since what they have changed by then depends on when the servers run out of threads; nor about requests at servers that were given up.
- Agreement.ReturnAgreesIff: is about runs in which some server is active all the time; after a moment without any, the next server starts from whatever its files hold.
- Agreement.ActiveServersAgree: says nothing about posts, which the code does not bring to the slaves of other clusters.
- ServerObjects.SNSServer.Propogate: lists the destinations; the calls to other servers are modelled on values in `Broadcast` and `Agreement`, not between objects.
- ServerObjects.SNSServer.TimelineMessage: the end of a stream, after which the code keeps a dangling pointer to it, is not modelled; following and time lists are as long as each other, as `Social.RunsKeepGraph` says of every live server.
- ServerObjects.SNSServer.AddPostHelper: returns the followers it writes to, in order; the write itself is not modelled.
- ServerObjects.SNSServer.UnFollow: the erasures that the code writes out here and in `unfollowHelper` are one method.
- `localtime`, `mktime` and `get_time`: the time zone is the parameter `Zone`.
- `FSLocal`: local files are strings with append, overwrite and the line-normalising read; directories and failures of the disk are not modelled.
- `MemoryTree`: a node's name and kind do not change, since `move` and `copy` are not implemented and `renameChild` is not used.
- `List`, which only copies names out, the client shell, the test shell, `toString`, `saveToDisk`, command lines and build files.
