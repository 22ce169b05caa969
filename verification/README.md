# Game platform: verified model

A Dafny model of the stateful cores of the game platform, with proofs of what they keep
over every run. etcd, Kafka, Redis, RabbitMQ and Postgres are small abstract stores whose
calls are atomic and may fail; every `await` between them is a point where anything else
may happen.

`dafny verify dfyconfig.toml` checks the whole project.

| area | modules |
|---|---|
| rules of a tick | `Arena`, `ArenaLaws` |
| tick, commit order, recovery | `MatchState`, `GameLoop`, `Checkpoints`, `ReplayService`, `MatchSystem`, `OrderlyRuns`, `HeldSlots` |
| spectators | `Spectator` |
| leader election | `Election` (protocol), `ElectionThread` (the thread as code), `ElectionTiming` and `StaleFlags` (with a clock) |
| matchmaking | `Matching`, `Grouping`, `MatchQuality`, `RoomPool`, `Matchmaker`, `MatchmakerRuns`, `MatchmakerRetries`, `MatchmakerLedger` |
| ratings | `Elo`, `EloTies`, `Leaderboard`, `LeaderboardConsumer` |

Each imperative core is a class or a method proved against a specification function; the
laws are then proved about that function, and the protocols are state machines whose
steps use the same functions.

## Assumptions

* Positions, averages and ratings are reals. `10 ** (x / 400)` is an abstract function
  that is positive, monotone and satisfies P(x) P(-x) = 1; that P(400) = 10 is used for
  one tie (`EloTies.HigherScoreWinsIffAtMost32`, 33 players) and, with P(x + y) =
  P(x) P(y), in `Elo.FourHundredPointsAreTenToOne`. Distances are compared squared.
* Player, room and process ids are numbers. Each process incarnation has its own id, and
  dispatching a callback does not raise.
* Settings do not change during a run. In the timed election a call takes effect at any
  moment between its sending and its answer. Only the calls and the pause between the
  request for a lease and the lowering of the flag have bounds; all other steps may take
  any time, and the local steps in between take none.
* The replay results are about the log of one match. `MatchState.FoldIsLastEvent` says
  exactly when a log is rebuilt.
* A player who first joins while a publish is awaited is in memory but not in the logged
  event; replay rebuilds the event. The merge overwrites the `connected` flag, so a leave
  that lands there is undone by the commit.

## Where the code does less than its documentation says

* `docs/architecture.md` says a new leader continues from the last Kafka offset. The code
  loads that offset and never resumes from it. After a crash between publish and commit,
  a takeover from Redis repeats a tick that is already logged, and replaying the log may
  then give a different state (`OrderlyRuns.StaleTakeoverBreaksReplay`);
  `OrderlyRuns.TakeoverIsSafeIff` says exactly when it does not. What Redis holds still
  agrees with a logged event (`MatchSystem.RedisNeverAhead`).
* Rooms are reused, and the cold start does not filter the topic, neither by room nor by
  match: a takeover early in a match may start it at the tick, and with the players, of the
  one before (`OrderlyRuns.OldMatchComesBack`).
* A listing of the rooms that raises cuts a pass of the matchmaker short. In the retry
  loop the old list stays in place, so each lobby served or given up before that is
  counted twice, and may get a second room (`MatchmakerLedger.ServedLobbyStaysListed`). In
  the placing loop the lobbies not yet placed are in no list any more
  (`MatchmakerLedger.UnplacedLobbiesVanish`). `MatchmakerLedger.LedgerOfEveryRun` says
  exactly which requests are doubled and lost in a run, `RetryKeepsBooksIff` and
  `PlaceKeepsBooksIff` when a pass does neither.
* With a lobby minimum above 2 the rollback by `list.index` can lose a request that
  equals another one (`Grouping.DuplicateRequestVanishes`); the grouping meets its
  specification exactly when no rollback meets such a request.
* A higher score between equals need not earn a higher rating in matches of more than 32
  players, and does in all others (`EloTies.HigherScoreWinsIffAtMost32`).
* The leader flag alone is exclusive exactly under `ElectionTiming.Timely`, so by default
  only if every call is answered within less than a second, although the client waits up
  to five (`ElectionTiming.DefaultsNeedFastCalls`). Otherwise it can stay up for a bounded
  time after the leader key is lost (`StaleFlags.FlagOutlivesKeyByLag`), and for longer
  than that after its lease is lost: the leader loop compares only the value of the key,
  so it takes a put left over from a failed campaign of the same process for its own key
  (`StaleFlags.LeaseBoundsFlagIff`).

## Model

| member | source | states |
|---|---|---|
| `Arena.ShotHitsNearest` | services/game-room/app/game_loop.py:348-361 | a shot hits the k-th player of the dictionary if and only if that player is a connected enemy nearer than 200, nobody is nearer, and nobody earlier in the dictionary is as near |
| `Arena.FindNearestEnemy` | services/game-room/app/game_loop.py:348-361 | the search loop returns that target, and nothing for an unknown shooter |
| `ArenaLaws.MoveEndsNearestToStep` | services/game-room/app/game_loop.py:328-334 | a move ends, on each axis, at the point of the arena nearest to where d times speed leads, and changes nothing else |
| `ArenaLaws.InputEffect` | services/game-room/app/game_loop.py:324-346 | one input moves its sender, takes 10 health from the player hit, gives 10 score to the sender, and leaves everybody else exactly as they were |
| `ArenaLaws.InputHits` | services/game-room/app/game_loop.py:335-361 | an input hits the k-th player of the dictionary if and only if it shoots and, once its sender has moved, that player is connected, another one, less than 200 away, and nobody such is nearer, nor as near and earlier in the dictionary |
| `ArenaLaws.TickKeepsSound` | services/game-room/app/game_loop.py:267-284 | world invariant: for every queue of inputs, all players stay in the arena with health 10 to 100 in steps of 10 and a score that is a non-negative multiple of 10 |
| `ArenaLaws.HitsExplainHealthAndKills` | services/game-room/app/game_loop.py:335-346 | a player with h health hit k times in a tick is left with h - 10k and is the victim of exactly max(0, k - h/10 + 1) kill records |
| `ArenaLaws.KillersFiredLethalShots` | services/game-room/app/game_loop.py:339-346 | a player is named as killer once for each own shot that left the one it hit without health |
| `ArenaLaws.RespawnIffKilled` | services/game-room/app/game_loop.py:280-284 | exactly the players with a kill record in the tick respawn in it, at the origin with full health and their score kept |
| `ArenaLaws.ScoreCountsLandedShots` | services/game-room/app/game_loop.py:335-339 | over a whole queue a player's score grows by 10 for each own shot that hit and by nothing else |
| `ArenaLaws.TickConserves` | services/game-room/app/game_loop.py:276-284 | a tick changes total score plus total health by exactly 100 per player its inputs created plus the top-ups of the respawned |
| `ArenaLaws.TickPlayers` | services/game-room/app/game_loop.py:268-326 | after a tick the players are exactly those before it and the senders of its inputs |
| `ArenaLaws.TickOrder` | services/game-room/app/game_loop.py:268-326 | a tick keeps the dictionary's order, and senders who were not in it come in behind, in the order of their first messages |
| `MatchState.MergeOverwrites` | services/game-room/app/game_loop.py:304-313 | committing or replaying a dictionary takes every player in it as it is there and leaves all others alone |
| `MatchState.MergeOrder` | services/game-room/app/game_loop.py:170-180 | the merge keeps the order of the dictionary and lets the players it lacks come in behind, in the order of the event |
| `MatchState.FoldIsLastEvent` | services/game-room/app/game_loop.py:170-180 | folding a log gives exactly the last event's players and tick if and only if the last event has every player of the log and the highest tick |
| `MatchState.VisitsKeep` | services/game-room/app/game_loop.py:188-221 | any sequence of joins, hold restores and leaves drops nobody and keeps the world invariant when the restored slots are sound |
| `MatchState.JoinWithoutSlot` | services/game-room/app/game_loop.py:204-207 | without a slot a known player is only marked as back, an unknown one enters at the origin with full health |
| `MatchState.FromDict` | services/game-room/app/models.py:37-49 | the decoding loop builds the dictionary in wire order; a missing `connected` reads as true |
| `MatchState.StateRoundTrip` | services/game-room/app/models.py:21-49 | decoding what was encoded gives back the same players, insertion order included, and the same tick |
| `MatchState.PlayerOnTheWire` | services/game-room/app/models.py:37-49 | a decoded player has the values on the wire and is connected unless it says otherwise |
| `GameLoop.HandleInput` | services/game-room/app/game_loop.py:324-346 | the imperative handling of one input agrees with the specification, of which `ArenaLaws.InputHits` says when it hits and whom, and `ArenaLaws.InputEffect` what it changes |
| `GameLoop.RespawnDead` | services/game-room/app/game_loop.py:280-284 | the respawn loop revives exactly the connected players at or below zero |
| `GameLoop.MergePlayers` | services/game-room/app/game_loop.py:305-313 | the merge loop computes the dictionary merge, whose values and order are given by `MatchState.MergeOverwrites` and `MatchState.MergeOrder` |
| `GameLoop.FirstBadIs` | services/game-room/app/game_loop.py:276-278 | the drain stops at the first malformed message and nowhere else |
| `GameLoop.TickStopsAtMalformed` | services/game-room/app/game_loop.py:276-278 | a tick raises exactly at a malformed message; it is taken off with those before it, whose kill records are kept, and what follows stays queued |
| `GameLoop.GameLoop.constructor` | services/game-room/app/game_loop.py:70-86 | a new loop starts at tick 0 with offset -1 and buffers sized by the tick rate |
| `GameLoop.GameLoop.AddPlayer` | services/game-room/app/game_loop.py:188-207 | a held slot replaces the player, otherwise one enters or is marked connected |
| `GameLoop.GameLoop.RemovePlayer` | services/game-room/app/game_loop.py:209-221 | a leaver is marked disconnected and the slot to hold is the state at that moment |
| `GameLoop.GameLoop.PrepareTick` | services/game-room/app/game_loop.py:267-297 | up to the publish only the queue and the kill records change; a malformed message raises, is consumed with those before it, and leaves the rest queued |
| `GameLoop.GameLoop.CommitTick` | services/game-room/app/game_loop.py:304-316 | after the acknowledgement the tick advances by one, the published players are merged, and the spectator history stays gap-free |
| `GameLoop.GameLoop.ProcessTick` | services/game-room/app/game_loop.py:267-322 | the whole new state of a tick, kill records and queue included, for every queue, all joins, leaves and inputs and any stop that land during the publish or during the Redis writes, and every publish and Redis outcome; a failed publish leaves tick, offset and spectators unchanged and keeps the kill records for the next tick |
| `GameLoop.GameLoop.EndMatch` | services/game-room/app/game_loop.py:408-431 | everyone is disconnected and the winner is the first player with the highest score; a match already over or stopped is left as it is |
| `GameLoop.FirstWithHighestScore` | services/game-room/app/game_loop.py:430 | no score is higher than the winner's, and every earlier player's is lower; there is none exactly without players |
| `GameLoop.GameLoop.ShowSpectators` | services/game-room/app/game_loop.py:236-237 | spectators see the committed tick max(first, t - delay), the same as a search of the whole history, and nothing before the first commit |
| `GameLoop.GameLoop.Replay` | services/game-room/app/game_loop.py:170-180 | replaying one event extends the fold by that event |
| `GameLoop.GameLoop.ApplyCheckpoint` | services/game-room/app/game_loop.py:104-116 | applying a checkpoint to a fresh loop gives the fold of its events |
| `GameLoop.GameLoop.ColdStartReplay` | services/game-room/app/game_loop.py:118-168 | memory is the fold of the checkpoint's events followed by the newer events of the log, and the offset is the last one read |
| `GameLoop.GameLoop.LoadState` | services/game-room/app/game_loop.py:91-102 | Redis is used exactly when both the state and the offset are present, otherwise the cold start; the offset in both cases |
| `Checkpoints.ColdStartIsExact` | services/game-room/app/game_loop.py:118-168 | for the log of one match, a cold start from any checkpoint (with gaps or repeats, ending in its own tick) or from none rebuilds exactly the last event's players and tick |
| `Checkpoints.ColdStartKeepsOrder` | services/game-room/app/game_loop.py:118-180 | and its order of players too, if each event's dictionary begins like that of the one before |
| `Checkpoints.NewerIsInOrder` | services/game-room/app/game_loop.py:154-157 | of the log after a checkpoint exactly the events with a higher tick are applied, in the order of the log |
| `Checkpoints.SnapshotIsFold` | services/replay/app/main.py:71-80 | the snapshot column equals the fold of the events column |
| `ReplayService.ReplayConsumer.ConsumeEvent` | services/replay/app/main.py:113-127 | the exact new buffer and table for one record, for every topic; and for every room whose match the topic tells in order, the newest row stays a good starting point |
| `ReplayService.ReplayConsumer.SaveCheckpoint` | services/replay/app/main.py:71-83 | a row is upserted for its tick, or nothing happens when the database fails |
| `ReplayService.ReplayConsumer.LoadLatestCheckpoint` | services/replay/app/main.py:86-97 | the row of the highest tick is found; it holds only events of that room's log, none newer than its tick, the event of that tick last |
| `ReplayService.ReplayConsumer.ForgetMatch` | services/replay/app/main.py:132-136 | a match.end drops the room's buffer and keeps the newest rows good |
| `ReplayService.ReplayConsumer.Restart` | services/replay/app/main.py:100-109 | a restart at an arbitrary offset, with records repeated or skipped, keeps the newest rows good |
| `ReplayService.OfRoomGrows` | services/replay/app/main.py:114-124 | the records of one room in a topic shared by many rooms form that room's log in order |
| `MatchSystem.StepKeepsInv` | services/game-room/app/main.py:37-88 | promotion, loading, ticks, match end, key clearing, next match, loss of leadership and crash each keep the invariant of the whole room |
| `MatchSystem.RedisNeverAhead` | services/game-room/app/game_loop.py:299-317 | in every reachable state any stored or pending Redis snapshot has the tick of a logged event and agrees with it on all its players, with failed, late or repeated publishes and writes, crashes at any await, joins, leaves, takeovers, back-to-back matches and overlapping leaders |
| `MatchSystem.WorldIsSound` | services/game-room/app/game_loop.py:188-313 | in every reachable state every player in memory, in the log, in Redis and in held slots satisfies the world invariant |
| `MatchSystem.TickIsARun` | services/game-room/app/game_loop.py:267-317 | a tick as the game loop computes it, with visits during its publish, is a run of the interleaved system |
| `MatchSystem.TakeoverResumesState` | services/game-room/app/main.py:37-88 | once the Redis write of a commit has landed, the leader may crash: the instance that takes over from Redis goes on with exactly its state |
| `OrderlyRuns.OrderlyRunKeepsInv` | services/game-room/app/game_loop.py:286-313 | with one leader at a time, definite publish outcomes and up-to-date takeovers, ticks in the log rise, no event drops a player, and the leader never lags behind the log |
| `OrderlyRuns.ReplayRebuildsLeader` | services/game-room/app/game_loop.py:118-180 | in such runs, after every commit a cold start rebuilds the leader's tick and its state of every player of the committed event, and of all players if and only if nobody in memory is missing from the event, which takes a first join during that publish |
| `OrderlyRuns.FirstJoinIsMissing` | services/game-room/app/game_loop.py:204-207 | an orderly run with such a join, whose player replay does not know |
| `OrderlyRuns.NextEventIsRebuiltIff` | services/game-room/app/game_loop.py:170-180 | replay rebuilds the next event of a growing log if and only if its tick is no lower than the last one and it has all the players of the last event |
| `OrderlyRuns.TakeoverIsSafeIff` | services/game-room/app/game_loop.py:91-102 | what a takeover can check: replay rebuilds its first tick, whatever the inputs, if and only if the loaded state is at most one tick behind the log and has all the players of the last event |
| `OrderlyRuns.StaleTakeoverBreaksReplay` | services/game-room/app/game_loop.py:91-102 | that condition can fail: after a crash before the commit the instance that loads the older Redis snapshot may publish a tick that replay does not rebuild |
| `OrderlyRuns.OldMatchComesBack` | services/game-room/app/game_loop.py:118-180 | a run in which a takeover at the start of a match, with nothing in Redis, gives it the tick and the players of the match before |
| `HeldSlots.SlotIsLatestKept` | services/game-room/app/game_loop.py:188-221 | in every run there is a slot with given values if and only if it is the last one kept for that player and has neither run out nor been deleted since |
| `HeldSlots.RejoinRestoresPlayer` | services/game-room/app/game_loop.py:188-221 | a player who left, on any loop, and whose slot was kept and not touched until a later join read it, comes back, on any loop, as it was at the moment of leaving, whatever happened in between, and nobody else changes |
| `HeldSlots.JoinIsNeverRefused` | services/game-room/app/game_loop.py:188-203 | whatever a join has read was once kept, so these runs are runs of the room and its invariants hold of them |
| `Spectator.SpectatorRingBuffer.Append` | services/game-room/app/spectator_buffer.py:10-13 | the bounded list is always the last `max_size` of everything appended |
| `Spectator.SpectatorRingBuffer.GetDelayedState` | services/game-room/app/spectator_buffer.py:15-20 | the reversed scan answers like the lookup in that window, for every requested tick |
| `Spectator.DelayedStateIsExact` | services/game-room/app/spectator_buffer.py:15-20 | the bounded buffer agrees with the unbounded history if and only if the delay fits in it or the match is still shorter than the buffer |
| `Spectator.DelayedEntry` | services/game-room/app/spectator_buffer.py:15-20 | what it shows then is tick max(first, t - delay) |
| `Spectator.NeverGoesBack` | services/game-room/app/spectator_buffer.py:15-20 | over a run the shown tick never decreases and advances by at most one |
| `Election.BehaviorKeepsInv` | services/game-room/app/leader_election.py:58-71 | every step of every process, with expiry at any moment and requests that raise but still take effect later, keeps the invariant |
| `Election.LeaderOwnsKey` | services/game-room/app/leader_election.py:86-131 | no timing assumption: a flag whose lease is live owns the leader key under that lease, so at most one such instance exists |
| `Election.KeyLossHasItsCause` | services/game-room/app/leader_election.py:148-187 | the leader key never passes straight from one holder to another and is lost only with its lease or by its own holder's shutdown; no conditional delete removes a successor's key |
| `Election.AddressIsTheHolders` | services/game-room/app/leader_election.py:107-111 | a published address is under a live lease and is the key holder's, unless its publisher has shut down; a deposed instance cannot overwrite its successor's |
| `Election.StaleFlagIsPossible` | services/game-room/app/leader_election.py:116-131 | without timing a reachable state has two flags up, one of them stale |
| `ElectionTiming.FlagsUniqueIffTimely` | services/game-room/app/leader_election.py:86-131 | with calls that take effect anywhere between sending and answer: at most one flag in every timed run if and only if it is less than the lease's time to live from the sending of a refresh to the answer of the next one, and from the sending of the grant to the answer of the first refresh |
| `ElectionTiming.TimelyFlagIsUnique` | services/game-room/app/leader_election.py:86-131 | then the lease of every process with its flag up is live |
| `ElectionTiming.DefaultsNeedFastCalls` | services/game-room/app/leader_election.py:27-131 | with the default five seconds and a pause of a third of that, the flag is unique if and only if every call is answered within less than one second |
| `StaleFlags.FlagOutlivesKeyByLag` | services/game-room/app/leader_election.py:86-160 | in every timed run a flag is up only while its process holds the leader key, or for at most the longer of two gets, a refresh and a pause, and a compare-and-swap, a publication and a get, after it last held it |
| `StaleFlags.StaleFlagIsShort` | services/game-room/app/leader_election.py:86-160 | a flag outlives its lease by no more than that, in every run in which no put left over from a failed campaign lands while its process leads |
| `StaleFlags.LeaseBoundsFlagIff` | services/game-room/app/leader_election.py:90-131 | with such puts the bound holds of all runs if and only if refreshes are timely, or the leader loop takes no time |
| `ElectionThread.LeaderElection.RunThread` | services/game-room/app/leader_election.py:58-71 | for every environment the thread ends cleaned up, and its execution is a run of the protocol machine, so the safety results hold of its fields |
| `ElectionThread.LeaderElection.Campaign` | services/game-room/app/leader_election.py:86-114 | a campaign ends serving with the flag up, or waiting with the flag as it was |
| `ElectionThread.LeaderElection.Contest` | services/game-room/app/leader_election.py:90-105 | the compare-and-swap on the store it finds: it succeeds if and only if it replies, the key is vacant and the lease live, and then the key is held under that lease, otherwise the store is untouched; a raised call forgets the lease and stays in flight, a held key keeps the lease |
| `ElectionThread.LeaderElection.Announce` | services/game-room/app/leader_election.py:107-111 | two turns: the flag goes up with the store untouched, then the address is published under the lease, if that is live, and a failed publication is ignored |
| `ElectionThread.LeaderElection.ServeAsLeader` | services/game-room/app/leader_election.py:116-131 | serving ends with the flag down unless a stop was requested |
| `ElectionThread.LeaderElection.KeepAlive` | services/game-room/app/leader_election.py:118-125 | a leader goes on if and only if it reads its own id under the key and then refreshes its lease; otherwise it is about to step down |
| `ElectionThread.LeaderElection.WaitForKeyRelease` | services/game-room/app/leader_election.py:133-143 | the wait ends with the first turn that finds the key released or a stop requested |
| `ElectionThread.LeaderElection.LoseLeadership` | services/game-room/app/leader_election.py:148-155 | three turns: the flag is lowered with the store untouched, the lease revoked with its keys and forgotten, the address deleted if it is the own one; after a delete that replied this process does not hold it |
| `ElectionThread.LeaderElection.Cleanup` | services/game-room/app/leader_election.py:157-162 | four turns: the flag, the lease, the leader key and the address, the keys deleted only if they are the own ones; after each delete that replied this process does not hold that key |
| `ElectionThread.LeaderElection.RevokeLease` | services/game-room/app/leader_election.py:170-176 | one turn; if its call replies, the lease is gone from the store and with it the keys held under it, and no other; the handle is forgotten either way |
| `ElectionThread.LeaderElection.DeleteIfOwned` | services/game-room/app/leader_election.py:178-187 | one turn; if its call replies, the key is vacant if this process held it and as found otherwise, and the other key, the leases and the flag are untouched; if it raises, the store is as found |
| `ElectionThread.LeaderElection.AcquireLease` | services/game-room/app/leader_election.py:88-90 | one turn; if its call replies there is a new live lease, whose handle is kept |
| `Matching.SortByElo` | services/matchmaking/app/matcher.py:29 | the queue sorted by rating, a permutation of it |
| `Matching.SortIsStable` | services/matchmaking/app/matcher.py:29 | requests of equal rating stay in order of arrival |
| `Matching.ExpirySplits` | services/matchmaking/app/matcher.py:15-23 | expiry splits the queue: nobody lost or copied, exactly the old ones go |
| `Matching.ExpiryKeepsOrder` | services/matchmaking/app/matcher.py:15-23 | each part keeps the order of the queue |
| `Matching.ExpiresAfterTwoWindows` | services/matchmaking/app/main.py:166-173 | a request is dropped if and only if it has waited for more than two windows |
| `Matching.Matcher.AddRequest` | services/matchmaking/app/matcher.py:11-13 | a request joins the end of the queue |
| `Matching.Matcher.ExpireRequests` | services/matchmaking/app/matcher.py:15-23 | kept and expired requests, each in queue order |
| `Matching.Matcher.CollectLobby` | services/matchmaking/app/matcher.py:34-47 | the inner loop claims the requests in the anchor's range until the lobby is full |
| `Matching.Matcher.RollBack` | services/matchmaking/app/matcher.py:50-53 | the rollback releases the first position holding an equal request, as list.index does |
| `Matching.Matcher.MatchTick` | services/matchmaking/app/matcher.py:25-55 | for every queue the loop computes the index scan over the sorted queue under the rules of the settings |
| `MatchQuality.TickBySettings` | services/matchmaking/app/matcher.py:25-55 | what a clean tick does, by the settings alone: every lobby has from `lobby_min` to `lobby_max` members that its anchor accepts, next to each other in the sorted queue; one that is not full ends the queue or is followed by a request its anchor does not accept; whoever is left over accepts fewer than `lobby_min` at or above it |
| `Grouping.ScanIsGreedyIffClean` | services/matchmaking/app/matcher.py:30-53 | the nested loop with used set and rollback computes the simple recursive greedy if and only if every rollback is clean; otherwise some request is neither matched nor kept |
| `Grouping.GreedyGroups` | services/matchmaking/app/matcher.py:30-53 | every lobby is a contiguous run starting at its anchor, all within the anchor's range, sized in [min, max], and successive lobbies do not overlap |
| `Grouping.CleanWhenPairsOrDistinct` | services/matchmaking/app/matcher.py:50-53 | rollbacks are clean when the minimum is 2 or the requests are pairwise distinct |
| `Grouping.DuplicateRequestVanishes` | services/matchmaking/app/matcher.py:52-53 | with a minimum of 3 or more, the second of two equal requests vanishes: distinctness is needed |
| `MatchQuality.CleanTickPartitions` | services/matchmaking/app/matcher.py:25-55 | after a clean tick each request of the old queue is in exactly one lobby or still pending |
| `MatchQuality.LeftOverCouldNotGroup` | services/matchmaking/app/matcher.py:36-53 | for every left-over request fewer than min requests of the whole sorted queue lie at or above it within its range |
| `MatchQuality.RangeAfterWindows` | services/matchmaking/app/matcher.py:40-42 | after n whole windows a request accepts the initial range plus n expansions |
| `MatchQuality.SecondTickChangesNothing` | services/matchmaking/app/matcher.py:25-55 | a second tick at the same instant forms no lobby and leaves the queue as it is |
| `MatchQuality.LobbySpreadBound` | services/matchmaking/app/matcher.py:40-43 | expire with two windows, match less than one window later: any two members of any lobby differ by at most the initial range plus two expansions |
| `RoomPool.RoomStore.RegisterRoom` | services/matchmaking/app/room_manager.py:53-55 | the room becomes available and every other room keeps its status |
| `RoomPool.RoomStore.RemoveRoom` | services/matchmaking/app/room_manager.py:58-60 | the room is gone and every other room keeps its status |
| `RoomPool.RoomStore.ClaimAvailableRoom` | services/matchmaking/app/room_manager.py:25-50 | the scan for every pattern of failed and ambiguous transactions |
| `RoomPool.PutAndDeleteAreLocal` | services/matchmaking/app/room_manager.py:53-60 | registering or removing a room changes that room and no other |
| `RoomPool.ClaimTakesFirstFree` | services/matchmaking/app/room_manager.py:31-50 | undisturbed, a claim takes exactly the first free room and fails only when none is free |
| `RoomPool.ClaimUnderFaults` | services/matchmaking/app/room_manager.py:31-50 | for every pattern of failed and ambiguous transactions: the room returned is the first free one whose claim is answered, none is returned only if there is none, and what is taken is exactly that room and the free ones before it of which only the reply was lost |
| `RoomPool.ReturnedWasFree` | services/matchmaking/app/room_manager.py:34-48 | the room that a claim returns is one of the listing, was free there, and its claim was answered |
| `RoomPool.ClaimIsARun` | services/matchmaking/app/room_manager.py:31-50 | a claim as the code makes it, whatever faults it meets, is a run of the machine of many workers, with the same rooms and the same room claimed |
| `RoomPool.NoRoomIsHandedOutTwice` | services/matchmaking/app/room_manager.py:31-60 | with any number of workers on stale listings, two takings of a room are always separated by a registration of it |
| `Matchmaker.MatchmakerLoop.AcceptRequest` | services/matchmaking/app/main.py:110-112 | an accepted request joins the queue and the gauge |
| `Matchmaker.MatchmakerLoop.AssignLobby` | services/matchmaking/app/main.py:141-157 | an announced lobby leaves the gauge; a failed announcement frees the room and drops the lobby |
| `Matchmaker.MatchmakerLoop.ExpireOld` | services/matchmaking/app/main.py:166-173 | the expired leave queue and gauge one by one |
| `Matchmaker.MatchmakerLoop.RetryPending` | services/matchmaking/app/main.py:178-192 | the retry loop, with an exception leaving the old list in place |
| `Matchmaker.MatchmakerLoop.PlaceNew` | services/matchmaking/app/main.py:195-206 | new lobbies are assigned or join the retry list with the deficit raised |
| `Matchmaker.MatchmakerLoop.Tick` | services/matchmaking/app/main.py:160-208 | one pass of the loop, the exact new state, whether or not it is cut short |
| `MatchmakerRuns.DeficitCountsWaitingLobbies` | services/matchmaking/app/main.py:177-206 | in every run, with other processes changing the pool between and inside passes, the deficit never exceeds the waiting lobbies, and equals their number as long as no listing has raised in a retry pass after a lobby had found a room or run out of retries |
| `MatchmakerRuns.PhaseKeepsDeficit` | services/matchmaking/app/main.py:177-206 | from equality, a phase keeps the deficit equal if and only if it is not a retry pass in which a listing raises after some lobby before it found a room, in the pool as it was by then, or had no retry left |
| `RoomPool.OthersCanMakeAnyPool` | services/matchmaking/app/room_manager.py:25-60 | the puts and deletes of other processes turn any pool into any other, so the runs leave the pool to them without restriction |
| `MatchmakerLedger.AnnouncedOrReleased` | services/matchmaking/app/main.py:141-157 | an announced lobby keeps its room; after a failed announcement the room is free exactly if its release worked; no other room is touched |
| `MatchmakerLedger.LedgerOfEveryRun` | services/matchmaking/app/main.py:141-206 | in every run the accepted requests, plus those of lobbies a retry pass had served or given up before it was cut short, are exactly those in queue, waiting lobbies, notified, expired, given up, announcement failed, plus those of lobbies a placing pass was cut short before; the gauge is off by the same |
| `MatchmakerLedger.RetryKeepsBooksIff` | services/matchmaking/app/main.py:178-192 | for any desk a retry pass keeps the ledger balanced if and only if no listing raises in it, or every lobby before the one whose listing raises finds no room and has retries left, or is empty |
| `MatchmakerLedger.PlaceKeepsBooksIff` | services/matchmaking/app/main.py:195-206 | a placing pass keeps the ledger balanced if and only if no listing raises before the last lobby is placed |
| `MatchmakerLedger.LedgerBalances` | services/matchmaking/app/main.py:141-206 | so in runs that no exception cuts into, each accepted request is in exactly one of the six places |
| `MatchmakerLedger.ServedLobbyStaysListed` | services/matchmaking/app/main.py:178-192 | a listing that raises at the second entry: the first lobby is announced and still waits |
| `MatchmakerLedger.UnplacedLobbiesVanish` | services/matchmaking/app/main.py:195-206 | a listing that raises at the first new lobby: all lobbies of the tick are gone from queue, waiting list and ledger |
| `MatchmakerRuns.TickServesInOrder` | services/matchmaking/app/main.py:177-206 | an undisturbed tick serves the waiting lobbies, then the new ones, in order |
| `MatchmakerRuns.FirstComeFirstServed` | services/matchmaking/app/main.py:177-206 | served are exactly the first min(lobbies, free rooms), the i-th with the i-th room; the others wait on in order |
| `MatchmakerRuns.RegisteredRoomGoesToOldest` | services/matchmaking/app/main.py:178-192 | with no room free, a room that registers goes to the lobby waiting longest in the next undisturbed pass |
| `MatchmakerRetries.PassOutcome` | services/matchmaking/app/main.py:178-192 | in a retry pass in which no listing raises, a lobby whose claim finds a room is assigned; one turned away stays at its place in order, one retry older, or is given up when it has none left |
| `MatchmakerRetries.SixteenthFailureEndsRetries` | services/matchmaking/app/main.py:178-206 | in every run, from the pass that put a lobby on the list: while listed it has failed in each full retry pass since, at most fifteen times; it leaves for a room after at most fifteen failures or is given up at exactly the sixteenth, so after sixteen full passes it is listed no more |
| `MatchmakerRetries.SurvivorsAge` | services/matchmaking/app/main.py:178-192 | whatever fails, a retry pass in which no listing raises keeps only lobbies of the list, each one retry older and within the limit |
| `Elo.ExpectedComplement` | services/leaderboard/app/elo.py:6-7 | two expectations lie in (0, 1), sum to 1, and are one half for equals |
| `Elo.ExpectedOdds` | services/leaderboard/app/elo.py:6-7 | the two expectations are in the proportion given by the power of the difference, which with their sum determines them |
| `Elo.FourHundredPointsAreTenToOne` | services/leaderboard/app/elo.py:6-7 | each 400 points of difference multiply the odds by ten |
| `Elo.ExpectedMonotone` | services/leaderboard/app/elo.py:6-7 | a higher rating expects no less and is expected to lose no more |
| `Elo.RoundHalfEven` | services/leaderboard/app/elo.py:29 | rounding to the nearest integer, ties to the even one |
| `Elo.SurplusOf` | services/leaderboard/app/elo.py:22-28 | the inner loop sums the gains against everyone else |
| `Elo.NewRatings` | services/leaderboard/app/elo.py:10-30 | the result has a rating for each player and no other, each as specified |
| `Elo.ZeroSum` | services/leaderboard/app/elo.py:21-29 | for any players, ratings and scores the unrounded changes sum to exactly zero |
| `Elo.DuelOfEquals` | services/leaderboard/app/elo.py:10-30 | between two equals the winner takes 16 points from the loser, and a draw changes nothing |
| `Elo.LonePlayerKeepsRating` | services/leaderboard/app/elo.py:17-19 | a player alone in a match keeps the rating |
| `Elo.RoundedTotalMovesAtMostHalfPerPlayer` | services/leaderboard/app/elo.py:21-30 | after rounding the total of all ratings moves by at most n/2 |
| `Elo.ChangeIsAtMostK` | services/leaderboard/app/elo.py:22-29 | no unrounded change exceeds K |
| `Elo.StoredChangeIsAtMostK` | services/leaderboard/app/elo.py:17-30 | nor does a rounded one, for stored whole-number ratings |
| `Elo.HigherScoreNeverEndsLower` | services/leaderboard/app/elo.py:17-30 | between equals the higher scorer never ends lower, and ends strictly higher when K exceeds n - 1, so with at most 32 players for K = 32 |
| `EloTies.StrictOrderNeedsLargeK` | services/leaderboard/app/elo.py:17-30 | that bound cannot be lowered for whole-number ratings: for every smaller K there is a match of n players, all at the initial rating for even n and for odd n of K + 3 or more, eleven of them 400 above for the other odd n from 13 on, in which the two end equal |
| `EloTies.HigherScoreWinsIffAtMost32` | services/leaderboard/app/elo.py:3-30 | with K = 32 the higher score between equals at stored ratings earns the higher rating in every match of n players if and only if n is at most 32 |
| `Elo.UnderdogGainsNoLess` | services/leaderboard/app/elo.py:22-29 | whoever was rated no higher and scored no less gains no less |
| `Elo.OrderOfPlayersIsIrrelevant` | services/leaderboard/app/elo.py:17-30 | the result does not depend on the order of the dictionary |
| `Leaderboard.AverageIsSumOverCount` | services/leaderboard/app/elo.py:33-34 | the running average stays the sum of scores over the number of matches |
| `Leaderboard.Database.UpdateRows` | services/leaderboard/app/db.py:73-86 | the update loop changes exactly the locked rows |
| `Leaderboard.Database.ApplyMatch` | services/leaderboard/app/db.py:41-87 | the transaction's whole effect, and that it is a no-op exactly for a processed match |
| `Leaderboard.SameMatchIff` | services/leaderboard/app/db.py:53-61 | two events are of the same match if and only if they name the same room and the same start, a missing one counting as 0 |
| `Leaderboard.ReusedRoomCountsBoth` | services/leaderboard/app/db.py:53-61 | two matches of one room started at different times each count once for a player listed in both, in either order and however often they come again |
| `Leaderboard.HigherScoreStoresHigherRating` | services/leaderboard/app/db.py:72-86 | of two listed players with the same stored rating the one with the higher score in the event ends no lower, and higher if at most 32 take part |
| `Leaderboard.StoredDuel` | services/leaderboard/app/db.py:72-86 | a match of two such players moves 16 points from the lower score to the higher, none at equal scores, and a missing score counts 0 |
| `Leaderboard.MatchCountsOncePerPlayer` | services/leaderboard/app/db.py:72-86 | a match counts once for each listed player with a row, adds its score to the sum behind the average, stores exactly the new rating, and touches nobody else |
| `LeaderboardConsumer.ProcessEvent` | services/leaderboard/app/main.py:39-58 | up to five attempts, stopping at the first success; one application at most, even when failed attempts had committed |
| `LeaderboardConsumer.ExactlyOnceEffect` | services/leaderboard/app/main.py:39-74 | in every run, with crashes, redelivery, failed and ambiguous transactions and players registering at any moment, the tables are the registrations and one application per match, in order of first committed transaction, and every match.end below a committed offset is processed or was dropped after five failures |
| `LeaderboardConsumer.TotalsCountDistinctMatches` | services/leaderboard/app/main.py:39-74 | in every run the totals of every player with a row, there from the start or registered since, are those of its first row plus one per distinct match listing that player since then |
| `LeaderboardConsumer.QuiescentRunProcessedEverything` | services/leaderboard/app/main.py:61-74 | with all logs committed and nothing dropped, exactly the logged matches are processed |
| `LeaderboardConsumer.EveryRunCanFinish` | services/leaderboard/app/main.py:39-74 | whatever has happened, the workers can go on to commit all of their logs without dropping anything more, and then every match.end in them is processed or had been dropped before |

## Left out

- HTTP and WebSocket endpoints, metrics, tracing, broadcasting: plumbing around the cores.
- The auth service, etcd-watcher, analytics, notification, reconnect-handler, the client and deployment files.
- Kubernetes scale-up: `ensure_game_rooms` catches its own errors and returns nothing the loop uses.
- Kafka partition assignment, the 60 s replay deadline, Redis expiry times and MinIO archiving: the environment, or assumed to complete.
- Floating-point rounding in positions, averages and ratings.
- `started_at` is not persisted, so no round trip is claimed for it.
- `services/game-room/app/main.py` is modelled as the steps Begin, End, Clear, NextMatch and Crash of `MatchSystem`, not as a loop; the connection dictionaries are not modelled.
- PlayerState objects are values in a map: the copy of the players that a tick starts with shares nothing with memory, so aliasing plays no role.
- Telemetry other than kill records, and the match record written to Postgres.
- GameLoop.GameLoop.EndMatch: does not model the room's return to the pool or the lifecycle event, which follow the state change.
- GameLoop.GameLoop.ProcessTick: joins and leaves that wait for Redis across the whole tick are those of `HeldSlots`; in `MatchSystem` a stopped loop is one that goes on for as long as it likes and then is gone.
- GameLoop.GameLoop.ColdStartReplay: starts from a fresh loop; joins that land while it loads are steps of `MatchSystem`.
- GameLoop.GameLoop.LoadState: likewise.
- ReplayService.ReplayConsumer.ConsumeEvent: says nothing of the quality of the rows of a room whose topic holds a second match.
- `etcd_ok`, which only feeds the readiness endpoint, and the room's removal from the pool in the election's cleanup.
- Matchmaker.MatchmakerLoop.AcceptRequest: the queue and the gauge change together, although the code updates the gauge after the queue's lock is released.
- MatchmakerLedger.PlaceKeepsBooksIff: for ticks whose rollbacks are clean; what the others lose is the subject of `Grouping.ScanIsGreedyIffClean`.
- MatchmakerLedger.LedgerOfEveryRun: for lobbies of at least two, or requests accepted once each, which keeps every rollback clean.
- LeaderboardConsumer.TotalsCountDistinctMatches: registration is the insertion of a row; user names and passwords are not modelled.
- A held slot whose JSON is damaged, which the join ignores.
- Leaderboard.Database.ApplyMatch: row locks are modelled by the atomicity of the transaction.
- A second incarnation of a process under the same instance id.
