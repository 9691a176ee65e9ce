# Musicat: verified models of its concurrent and sequential cores

Musicat is a Discord music bot. This Dafny project models five parts of it and proves what they keep and what they
compute:

- **Stream scheduler** (`StreamScheduler`, `StreamSchedulerSafety`, `StreamSchedulerTheorems`, `StreamProgress`,
  `StrandedRun`). The main loop hands heap-allocated stream contexts to N stream threads. The model is a transition
  system whose steps lie between the points of possible interference: acquiring a mutex, running a critical section
  and releasing it, notifying, or calling a context's `run` or `need_handler`. Mutexes, inboxes, unfinished batches,
  loads, program counters, the heap and address reuse are explicit; reading a deleted context is an outcome (`Fault`)
  that is proved impossible.
- **Command format** (`CommandCodec`, `CommandRoundTrip`, `CommandMessages`, `EffectChain`, `Decimal`). The
  `key=value;` text between the main process and its worker, which is unescaped, re-escaped and unescaped again, and
  the `@effect@@effect@` chain nested in it.
- **Player queue** (`PlayerState`, `GuildPlayer`, `QueueLaws`, `QueuePlaces`, `QueueRuns`, `PlaybackRuns`,
  `SkipAndPrevious`). The class `GuildPlayer.Player` has the fields of the guild player and updates them in place;
  `PlayerState` says as functions what each method makes of them, and the laws and the whole runs are proved about
  those functions.
- **Small protocols** (`DownloadQueue`, `DownloadProgress`, `SlaveReady`). Capped downloads with waiters, and the
  rendezvous on the readiness of a slave process, as transition systems over critical sections.
- **Kernels** (`OutputCopier`, `PollStack`, `CacheEviction`, `SeekTimestamp`, `SeekRoundTrip`). The loops as methods,
  each proved against a specification, with 64-bit arithmetic written out where it matters.

`Sequences` and `MachineWords` hold what several parts share. `dafny verify dfyconfig.toml` checks everything.

## What the proofs found

Where a property that one would expect is false of the code, the model keeps the code and the project proves exactly when
the property holds.

- `notify_work` can mark a context handled without giving it to any thread. It happens exactly when the first scan reads
  every thread busy and the second reads every thread at the load it avoids (the maximum, or one more when all were
  equal). One thread that takes a larger batch between the scans is enough, and with no thread at all it always happens.
  The context is then never run or erased, and its guild gets no other one. If no load changes between the scans and
  there is a thread, the hand-off always succeeds.
- `first_chain` compares the index of the closing `@` with zero and is never true. An effect survives the chain exactly
  when it is non-empty, has no `@` and does not start with `!`.
- A value sent without sanitizing survives exactly when it has neither `\` nor `;` in it.
- `add_track` with a slip from 2 up to the offset (and inside the queue), `move` across the offset, and
  `remove_track_by_user` without a reset of a track after the front and up to the playing one each lose the playing
  track. The queue command resets before it removes.
- The reverse option measures a copy of the queue made before it took the lock. A shorter copy drops tracks, a longer
  one throws.
- Loading a playlist to the top of an empty queue makes its last track the playing one.
- Skipping n tracks need not advance by n. While a song is looped it does. Otherwise it takes n - 1 tracks off, and the
  marker passes over one more only if that has the file of the track skipped: so skipping two lands where skipping one
  does, unless the next track has the same file. While the queue is looped, skipping with removal leaves the track that
  the marker passes over in the queue.
- The previous button undoes the end of a track only while the queue is looped, and then depending on the files of two
  neighbouring tracks (or when all tracks are the same and nothing is taken off).
- A status that `wait_slave_ready` returns can be older than the wait: exactly when an entry for the id stood in the queue
  before. And a second waiter of one id takes the entry of the first away without a notification, so that the first
  sleeps until its timeout.
- The arithmetic of the output bound is sound exactly when the bound leaves room in 64 bits for one read with its marks.
- A seek position without an hour can overflow `int64_t`; with one it cannot. From a position more than a step before
  the start, which such an overflow can set, the forward button makes a timestamp that is refused.
- The digits after the dot of a timestamp count milliseconds: `1.5` means 1005 ms. They are a decimal fraction of a
  second exactly when there are three of them, or all are zero.

## Model

| member | source | states |
|---|---|---|
| `StreamSchedulerSafety.StepKeepsInv` | src/musicat/player_manager_stream.cpp:614-837 | One step of any agent (main, a stream thread, a submitter, a spurious wake-up) from a consistent state never touches a deleted context and leaves the registry, the owners, the locks and every program counter consistent |
| `StreamSchedulerSafety.RunKeepsInv` | src/musicat/player_manager_stream.cpp:614-837 | The same for every run |
| `StreamSchedulerSafety.EraseIsExact` | src/musicat/player_manager_stream.cpp:618-633 | Erasing by guild removes the one context of that guild and no other |
| `StreamSchedulerTheorems.NoDanglingContext` | src/musicat/player_manager_stream.cpp:618-706 | No interleaving ever dereferences a deleted context, although threads delete contexts that sit in other structures and addresses are reused |
| `StreamSchedulerTheorems.ExclusiveOwnership` | src/musicat/player_manager_stream.cpp:657-803 | In every reachable state a context is in at most one inbox or unfinished batch, once; it is live there, and handled, except while main holds the lock between pushing and marking it |
| `StreamSchedulerTheorems.MainPollsUnownedContexts` | src/musicat/player_manager_stream.cpp:790-803 | When main polls a context that is not handled, no thread has it |
| `StreamSchedulerTheorems.ThreadErasesItsOwn` | src/musicat/player_manager_stream.cpp:675-701 | Erasing by guild deletes exactly the context the thread is finishing; afterwards no thread has it and the guild has no context |
| `StreamSchedulerTheorems.HandoffFollowsReadings` | src/musicat/player_manager_stream.cpp:737-781 | In every run the thread picked is the one that the loads read call for: the first idle one, else the first whose load is not the avoided one, else none; and it owns the context |
| `StreamSchedulerTheorems.HandoffFailsExactly` | src/musicat/player_manager_stream.cpp:737-781 | A context goes to nobody if and only if the first scan read every thread busy and the second read every thread at the avoided load |
| `StreamSchedulerTheorems.StableHandoff` | src/musicat/player_manager_stream.cpp:737-781 | With a thread and the same loads in both scans, the context goes to the first idle thread, else to the first below the maximum, else (all equal) to the first |
| `StreamSchedulerTheorems.StableCallHandsOver` | src/musicat/player_manager_stream.cpp:737-781 | Whatever the other agents do during one call of `notify_work`: unless a load changes, the call ends with the context owned by a thread, an idle one if there is one, else one below the maximum load, or any if all are equal |
| `StreamSchedulerTheorems.StrandingExactly` | src/musicat/player_manager_stream.cpp:737-803 | A step leaves a context handled but with no thread if and only if it was so before, or main marks a context that it gave to nobody; no step undoes it |
| `StreamSchedulerTheorems.EveryHandledContextHasAThread` | src/musicat/player_manager_stream.cpp:737-803 | With at least one thread, and as long as no call of `notify_work` that finds no thread has read a load change between its two scans, every handled context is owned by a thread |
| `StreamSchedulerTheorems.StandingLoadsStrandNobody` | src/musicat/player_manager_stream.cpp:737-803 | The same from the loads themselves: if in every state of the run with a second scan under way the loads are those the first scan read |
| `StreamSchedulerTheorems.StrandedForever` | src/musicat/player_manager_stream.cpp:737-837 | A stranded context stays as it is in every continuation, and every submission for its guild is refused |
| `StrandedRun.AContextCanBeStranded` | src/musicat/player_manager_stream.cpp:657-803 | A reachable state of one stream thread with a stranded context: the property "every handled context has a thread" does not hold of all runs |
| `StrandedRun.LoadChangesBetweenScans` | src/musicat/player_manager_stream.cpp:737-781 | How it comes about: the thread takes a batch of two between the scans, after main read a load of one |
| `StreamSchedulerTheorems.NoLostWakeUp` | src/musicat/player_manager_stream.cpp:662-781 | A thread asleep with a filled inbox is about to be notified by a step of main that nothing can block |
| `StreamSchedulerTheorems.NoDeadlock` | src/musicat/player_manager_stream.cpp:635-837 | Main, a thread or a submitter that is blocked waits for a mutex whose holder can step, or is main waiting for a thread that can |
| `StreamSchedulerTheorems.CheckTerminates` | src/musicat/player_manager_stream.cpp:790-803 | While main holds the lock on the contexts, each of its steps decreases a well-founded measure until the release, and no other agent increases it |
| `StreamProgress.TurnIsServed` | src/musicat/player_manager_stream.cpp:673-703 | A thread that nothing holds up runs the first context of its batch as long as the context is wanted, and then, in its section on the list, erases it if and only if its stream ended, else leaves it live and not handled, for main to hand over again; nothing else changes |
| `StreamProgress.BatchIsServed` | src/musicat/player_manager_stream.cpp:670-706 | Whatever the turns of its contexts, it serves its whole batch in order: those whose streams ended are gone, the others are not handled, every other context is as before, and it looks for work again |
| `StreamProgress.InboxIsTaken` | src/musicat/player_manager_stream.cpp:659-671 | A thread that looks for work takes its whole inbox as its batch and its length as its load, or goes to sleep with load 0 |
| `StreamProgress.SleepsUntilWoken` | src/musicat/player_manager_stream.cpp:665-667 | A sleeping thread does nothing by itself; it may also wake without a notification |
| `StreamProgress.NotifiedLooksAgain` | src/musicat/player_manager_stream.cpp:665-668 | Once woken it looks for work again |
| `StreamProgress.CheckHandsOver` | src/musicat/player_manager_stream.cpp:737-803 | A check that nobody interferes with comes to its end and marks exactly the contexts that were not handled and need a handler, whichever these are; given a thread, each of them ends up owned by one |
| `StreamProgress.SubmitExactly` | src/musicat/player_manager_stream.cpp:805-837 | A submission lists a new context, not handled, last, if and only if the guild has none yet; else nothing changes |
| `CommandCodec.SanitizeCommandValue` | src/musicat/child/command.cpp:219-243 | The loop computes the recursive specification `Sanitized`, whose inverse is proved below |
| `CommandCodec.SanitizeCommandKeyValue` | src/musicat/child/command.cpp:250-280 | The loop computes `SanitizedKeyValue`: escaping only after the first `=` |
| `CommandCodec.CommandOptions.SetOption` | src/musicat/child/command.cpp:20-57 | The field update is exactly the assignment of the split key and value, exceptions of the conversions included |
| `CommandCodec.CommandOptions.ParseCommandToOptions` | src/musicat/child/command.cpp:282-320 | Parsing a command in place makes the assignments its fields amount to, in order, up to the first that throws |
| `CommandRoundTrip.PairRecovers` | src/musicat/child/command.cpp:250-280 | Re-escaping a parsed field and splitting it gives back key and value, for any value |
| `CommandRoundTrip.RoundTrip` | include/musicat/child/command.h:264-274 | Parsing a concatenation of sanitized arguments makes exactly those assignments, in order, for arbitrary values |
| `CommandRoundTrip.PrintIsInjective` | include/musicat/child/command.h:264-274 | Two argument lists that print alike are equal |
| `CommandRoundTrip.ParseDistributes` | src/musicat/child/command.cpp:282-320 | Parsing distributes over concatenation after any `;` that is not escaped |
| `CommandRoundTrip.UnsanitizedExactly` | include/musicat/child/command.h:264-268 | An argument printed without sanitizing is recovered if and only if its value holds neither `\` nor `;` |
| `CommandRoundTrip.StoiReads` | include/musicat/child/command.h:184-195 | Reading a printed `int` with `std::stoi` gives it back |
| `CommandRoundTrip.ReadyMessageParses` | src/musicat/child/worker.cpp:78-82 | The ready message, which is not sanitized, yields its status and id for any id without `\` and `;` |
| `CommandRoundTrip.ExitCommandParses` | include/musicat/child/command.h:283-289 | The exit command yields the order to shut down and the id, for any id |
| `CommandMessages.DownloadCommandParses` | src/musicat/player_manager_util.cpp:1558-1564 | The download command sets the id, command, path, query, tool and debug flag to what was sent, for any text in them, and no other option |
| `CommandMessages.YtdlpCommandParses` | src/musicat/mctrack.cpp:270-276 | The yt-dlp command sets its fields to what was sent, the limit only where one is given |
| `CommandMessages.SystemCommandParses` | src/musicat/cmds/owner/system.cpp:70-76 | The system command sets the id, the command line, both flags and the output bound to what was sent |
| `CommandMessages.ResultMessageParses` | src/musicat/child/system.cpp:355-358 | The answer of the worker sets the id, the command and the path of the result, and leaves every other option as it was |
| `CommandMessages.ForcedExitParses` | include/musicat/child/command.h:301-308 | The forced exit command orders to shut down with force |
| `CommandMessages.SeekMessageParses` | src/musicat/audio_processing.cpp:340-348 | A seek message sets the position to seek |
| `CommandMessages.VolumeMessageParses` | src/musicat/audio_processing.cpp:340-353 | A volume message sets the volume to the number sent |
| `CommandMessages.EffectMessageParses` | src/musicat/audio_processing.cpp:340-356 | An effect message makes a chain of that one effect |
| `CommandMessages.OtherKeysParse` | include/musicat/child/command.h:155-242 | The keys that none of these uses set the guild id and the plot command |
| `CommandMessages.LengthKey` | include/musicat/child/command.h:226-229 | The output bound is read as printed, up to 2^64; without a value it is 1 |
| `CommandMessages.NumeralsAreRead` | include/musicat/child/command.h:184-229 | `std::stoi` and `std::stoull` read white space, a sign and digits and ignore what follows; they throw exactly when the number is out of range, and a minus sign wraps around modulo 2^64 |
| `CommandMessages.NoNumeralThrows` | include/musicat/child/command.h:184-229 | They throw when no numeral begins the text |
| `CommandMessages.SanitizedExactly` | src/musicat/child/command.cpp:199-243 | Sanitizing changes a value if and only if it holds a backslash, an equals sign or a semicolon |
| `CommandMessages.LastNeedsNoEnd` | src/musicat/child/command.cpp:282-320 | The last field of a command needs no semicolon |
| `EffectChain.ParseHelperChainOption` | include/musicat/audio_processing.h:106-186 | The index loop (the branch the header selects) computes the specification `Links` |
| `EffectChain.SplitsAsExpected` | include/musicat/audio_processing.h:98-186 | A chain of values without `@` splits into one link per value that is not empty after its leading `!`s |
| `EffectChain.LinksAreSound` | include/musicat/audio_processing.h:124-170 | Whatever the string, no link has an empty effect, one with `@` or one with a leading `!`, and none is marked first |
| `EffectChain.RoundTripExactly` | include/musicat/audio_processing.h:106-186 | The chain splits into the values it was made of if and only if each is non-empty, holds no `@` and does not start with `!` |
| `EffectChain.EffectsAccumulate` | include/musicat/child/command.h:196-199 | Assigning a list of arguments appends its effects to the chain, in order, whatever lies between them |
| `EffectChain.EffectsArrive` | include/musicat/audio_processing.h:106-186 | Effects printed into a command, parsed and split arrive unchanged and in order (exactly under the condition above), each not yet parsed and with the debug flag passed on, and only the last is final |
| `GuildPlayer.Player.ResetShifted` | src/musicat/player.cpp:255-270 | The new state is `Reset` of the old one |
| `GuildPlayer.Player.AddTrack` | src/musicat/player.cpp:108-155 | The new state is `Add` of the old one: top, slip or append |
| `GuildPlayer.Player.SkipQueue` | src/musicat/player.cpp:200-245 | Returned tracks and new state are those of `Skip` |
| `GuildPlayer.Player.RemoveTrack` | src/musicat/player.cpp:305-338 | The new state is `Remove` of the old one and the result the number of tracks removed, for every position but the largest `size_t`: there one plus the position wraps around and the iterator is broken |
| `GuildPlayer.Player.RemoveTrackByUser` | src/musicat/player.cpp:340-361 | The in-place loop keeps the front track and the tracks of others, in order, and counts the rest |
| `GuildPlayer.Player.HandleOnTrackMarker` | src/musicat/player_manager_events.cpp:89-182 | The new state is `Marker` of the old one: loop mode, repeats, current track |
| `GuildPlayer.Player.PreviousTrack` | src/musicat/cmds/skip.cpp:95-108 | The last track comes to the front and repeats end |
| `GuildPlayer.Player.MoveTrack` | src/musicat/cmds/move.cpp:33-71 | Clamp, erase and insert amount to `Move` |
| `GuildPlayer.Player.ReverseOption` | src/musicat/cmds/queue.cpp:20-90 | The rebuilt queue, or the exception when the measured copy is longer than the live queue |
| `GuildPlayer.Player.ShuffleQueue` | src/musicat/player.cpp:379-410 | The rebuilt queue is the playing track and the others in the order drawn |
| `GuildPlayer.Player.LoadPlaylistToTop` | src/musicat/cmds/playlist.cpp:216-243 | The two loops add to the top, in reverse order and owned by the user, those tracks of the playlist whose details could be had |
| `GuildPlayer.ShuffleIndexes` | src/musicat/musicat.cpp:221-248 | The erasing loop computes the draws of the specification, each within bounds |
| `GuildPlayer.DrawnPermutes` | src/musicat/musicat.cpp:221-248 | For all random numbers, what is drawn is a permutation |
| `QueuePlaces.AddedGoesToItsPlace` | src/musicat/player.cpp:130-149 | An added track is at the front, at its slip if that is inside the queue, or else at the end, and without it the queue is as before |
| `QueuePlaces.RemoveTakesOut` | src/musicat/player.cpp:305-338 | The tracks from the position on, up to the end asked for or as many as asked for or as there are, leave the reset queue; the others close up in order |
| `QueuePlaces.RemoveTakesNothing` | src/musicat/player.cpp:305-338 | Nothing leaves for position 0, one past the end, or no amount |
| `QueuePlaces.RemoveByUserPlaces` | src/musicat/player.cpp:340-361 | Every track of another user moves forward by as many as were removed before it |
| `QueuePlaces.SkipGoesRound` | src/musicat/player.cpp:200-245 | A skip that re-queues (asked to, or looping a queue, and not removing) goes round by the amount, clamped to 1 to 1000, less one unless the current track goes too or a song is looped: position i then holds the track k + i modulo n of the reset queue |
| `QueuePlaces.SkipTakesOff` | src/musicat/player.cpp:200-245 | One that does not returns that many first tracks and keeps the others |
| `QueuePlaces.SkipEndsRepeats` | src/musicat/player.cpp:200-245 | Skipping ends the repeats of the current track and of the front one, and changes neither loop mode nor stop flag |
| `QueuePlaces.PreviousPlaces` | src/musicat/cmds/skip.cpp:95-108 | The last track comes to the front, all others one position back, and the repeats of the current one end |
| `QueuePlaces.MoveGoesToTarget` | src/musicat/cmds/move.cpp:33-71 | With both positions moved into the queue behind its front, the track at the one is at the other, and without it the queue is the same |
| `QueuePlaces.ShortQueuesStay` | src/musicat/player.cpp:379-389 | Moving and shuffling leave fewer than three tracks alone |
| `QueuePlaces.ReverseThrowsExactly` | src/musicat/cmds/queue.cpp:69-90 | The reverse option throws if and only if it measured at least three tracks and more than there are |
| `QueuePlaces.DrawTakes` | src/musicat/musicat.cpp:221-248 | Each draw takes the track at the random number modulo those left |
| `QueuePlaces.FetchedPlaces` | src/musicat/cmds/playlist.cpp:216-243 | Exactly the tracks whose details could be had are loaded, each behind those that could be had before it |
| `QueuePlaces.StartMarkerPresents` | src/musicat/player_manager_events.cpp:106-182 | A start marker makes the front track of the reset queue current, with the position asked for and without votes; that position is then used up, and nothing else about any track changes |
| `QueuePlaces.EndMarkerMovesOn` | src/musicat/player_manager_events.cpp:106-182 | The end of a track without repeats takes it off, puts it last or leaves it, by loop mode, and the next one is presented; with none left there is no current track |
| `QueuePlaces.EndMarkerRepeats` | src/musicat/player_manager_events.cpp:111-119 | With repeats left, the same track is presented again with one less |
| `QueuePlaces.EndMarkerOfAnother` | src/musicat/player_manager_events.cpp:106-182 | When another file is in front, nothing is taken off |
| `QueueLaws.ResetMovesOnlyPlaying` | src/musicat/player.cpp:255-270 | Resetting puts the playing track first, keeps the order of the others, and is idempotent |
| `QueueLaws.AddKeepsPlayingExactly` | src/musicat/player.cpp:130-149 | Adding keeps the playing track at the offset if and only if it is no slip from 2 up to the offset |
| `QueueLaws.AddKeepsPlaying` | src/musicat/player.cpp:130-149 | The sufficient half without assuming distinct tracks |
| `QueueLaws.AddCanLosePlaying` | src/musicat/player.cpp:130-149 | A queue on which a slip does not keep it |
| `QueueLaws.LoadedInReverse` | src/musicat/cmds/playlist.cpp:216-243 | Whichever tracks could be had, what is added is the reverse of a part of the playlist, so that the laws below apply to that part |
| `QueueLaws.PlaylistFollowsPlaying` | src/musicat/cmds/playlist.cpp:216-243 | Top-loading a playlist and resetting gives the playing track, the playlist in its own order, then all others, however far the queue was shifted |
| `QueueLaws.PlaylistOnEmptyQueue` | src/musicat/cmds/playlist.cpp:216-243 | On an empty queue the last track of the playlist becomes the playing one, ahead of the rest |
| `QueueLaws.RemoveByUserKeepsOffsetExactly` | src/musicat/player.cpp:340-361 | The offset stays inside the queue if and only if it is 0, the id is 0, or enough tracks stay |
| `QueueLaws.RemoveByUserCanBreakOffset` | src/musicat/player.cpp:340-361 | A queue on which it does not |
| `QueueLaws.RemoveByUserKeepsPlayingExactly` | src/musicat/player.cpp:340-361 | The playing track stays at the offset if and only if the offset is 0, the id is 0, or no track after the front and up to the playing one is the user's |
| `QueueLaws.RemoveByUserKeepsPlaying` | src/musicat/player.cpp:340-361 | The sufficient half without assuming distinct tracks |
| `QueueLaws.RemoveByUserCanLosePlaying` | src/musicat/player.cpp:340-361 | A queue on which the offset stays inside and another track takes the place of the playing one |
| `QueueLaws.RemoveByUserContents` | src/musicat/player.cpp:340-361 | The front track and every track of another user stay, as often as before; no other track of the user does |
| `QueueLaws.SkipRotates` | src/musicat/player.cpp:200-245 | With re-queueing, skipping k rotates the reset queue left by k modulo its length, even past a whole round, and returns the first k tracks of its endless repetition |
| `QueueLaws.SkipTakesPrefix` | src/musicat/player.cpp:200-245 | Without it, returned and remaining tracks make up the reset queue, and min(k, n) are returned |
| `QueueLaws.WrapIsModulo` | src/musicat/player.cpp:224-242 | The cyclic position used there is the remainder |
| `QueueLaws.ReverseKeepsTracksExactly` | src/musicat/cmds/queue.cpp:69-90 | The playing track stays first and the others are reversed; no track is lost if and only if the measured length is under 3 or not below the live one |
| `QueueLaws.ReverseCanDropTrack` | src/musicat/cmds/queue.cpp:69-90 | A queue that grew after it was measured and loses its last track |
| `QueueLaws.MoveMovesOne` | src/musicat/cmds/move.cpp:33-71 | The moved track is at the clamped target, all others keep their order, nothing is lost |
| `QueueLaws.MoveKeepsPlayingExactly` | src/musicat/cmds/move.cpp:33-71 | The playing track stays at the offset if and only if the move does not reach over it |
| `QueueLaws.MoveKeepsPlaying` | src/musicat/cmds/move.cpp:33-71 | The sufficient half without assuming distinct tracks |
| `QueueLaws.MoveCanLosePlaying` | src/musicat/cmds/move.cpp:33-71 | A queue on which it does not |
| `QueueLaws.ShufflePermutes` | src/musicat/player.cpp:379-410 | The playing track stays first and the queue is permuted, for all random numbers |
| `QueueLaws.EveryOrderCanBeDrawn` | src/musicat/musicat.cpp:221-248 | And every order of the others is the outcome of some random numbers |
| `QueueRuns.OffsetKept` | src/musicat/player.cpp:130-410 | Every operation leaves the offset at 0 or inside the queue |
| `QueueRuns.ApplyAll` | src/musicat/player.cpp:130-410 | So does every run of operations |
| `QueueRuns.QueueComesFromRun` | src/musicat/player.cpp:130-410 | After any run of operations the queue holds each track at most as often as it was there at the start or was added: nothing is made up or duplicated |
| `PlaybackRuns.StartMarker` | src/musicat/player_manager_events.cpp:106-182 | A start marker puts the front track in play and leaves the plays asked for |
| `PlaybackRuns.NoLoopRun` | src/musicat/player_manager_events.cpp:106-182 | Not looping, the m-th play is that of the m-th of the plays asked for (each track once more than it repeats), and the queue empties after exactly the sum of them and not before |
| `PlaybackRuns.LoopQueueRun` | src/musicat/player_manager_events.cpp:106-182 | Looping the queue, one round plays each track as often as asked, in order, and leaves the queue as it was with no repeat left |
| `PlaybackRuns.LoopQueueRestores` | src/musicat/player_manager_events.cpp:106-182 | Without repeats, n markers play each of n tracks once and restore the queue |
| `PlaybackRuns.LoopSongRun` | src/musicat/player_manager_events.cpp:106-182 | Looping the song, the current track never changes and no track leaves |
| `SkipAndPrevious.SkipLands` | src/musicat/player_manager.cpp:272-275 | In every loop mode, with and without removal, for any offset: the queue after the skip command and its marker is the one rotated or cut by the rounds taken, whose front the marker passes over once more if it has the file of the track skipped; and that front is current |
| `SkipAndPrevious.SkipAdvancesExactly` | src/musicat/player_manager.cpp:272-275 | Skipping n advances the queue by n if and only if a song is looped, or the track that n - 1 rounds bring to the front has the file of the one skipped (looping the queue only if nothing is removed), or that is past the end of what is not re-queued |
| `SkipAndPrevious.SkipNeedNotAdvance` | src/musicat/player_manager.cpp:272-275 | Queues on which it does not: skipping two lands on the next track, and removing the current track while looping the queue leaves it at the end |
| `SkipAndPrevious.SkipTwoIsSkipOneExactly` | src/musicat/player.cpp:412-416 | In every mode, the condition under which skipping two leaves the queue that skipping one leaves |
| `SkipAndPrevious.PreviousLands` | src/musicat/cmds/skip.cpp:84-113 | In every mode: the last track comes to the front and is current, unless it has the file of the current one and the marker takes it off or moves it back |
| `SkipAndPrevious.PreviousUndoesNextExactly` | src/musicat/cmds/skip.cpp:84-113 | In every mode, with or without repeats left: going back after a track ended restores the queue and the current track if and only if the queue is looped and the files of two neighbouring tracks say so (or all tracks are the same) |
| `DownloadQueue.StepKeepsInv` | src/musicat/player_manager_util.cpp:1498-1683 | One step of a submitter, of main, of a task or of a waiter keeps the protocol consistent |
| `DownloadQueue.NoOneWaitsInVain` | src/musicat/player_manager_util.cpp:1183-1192 | Every announced file is with a submitter, in the queue or in a task, and a sleeping waiter waits for such a file or is about to be notified, also with duplicate submissions |
| `DownloadQueue.NobodySleepsAtRest` | src/musicat/player_manager_util.cpp:1498-1683 | When nothing is left to do, no file is announced and no waiter sleeps |
| `DownloadQueue.CapIsRespected` | src/musicat/player_manager_util.cpp:1631-1651 | The counter is the number of live tasks and never exceeds the cap |
| `DownloadQueue.ReturnFollowsTask` | src/musicat/player_manager_util.cpp:1183-1192 | In every run, a waiter comes back from waiting for an announced file only after a task has finished that file |
| `DownloadProgress.StartsExactly` | src/musicat/player_manager_util.cpp:1637-1651 | One call of `check_download_queue` starts a task for the first file in the queue, taking it out and counting it, if and only if fewer tasks than the cap run and there is one; else it changes nothing |
| `DownloadProgress.SubmittedGoesLast` | src/musicat/player_manager_util.cpp:1498-1508 | A submission announces its file and puts it last |
| `DownloadProgress.FirstInFirstOut` | src/musicat/player_manager_util.cpp:1498-1651 | Along every run, files are started in the order in which they were put into the queue: none left out, none out of turn |
| `DownloadProgress.TaskFinishes` | src/musicat/player_manager_util.cpp:1651-1682 | A task can always finish; that ends the announcement of its file and no other, wakes every sleeper and makes room for another task |
| `DownloadProgress.WaitsExactly` | src/musicat/player_manager_util.cpp:1183-1192 | A waiter sleeps if and only if its file is announced, at first and at each wake-up |
| `DownloadProgress.WaiterComesBack` | src/musicat/player_manager_util.cpp:1183-1192 | Whoever sleeps on the file of a task returns after its end |
| `SlaveReady.MarksOnceKept` | src/musicat/child/command.cpp:322-410 | One step of a waiter or a marker keeps every mark in at most one place: an entry or one result |
| `SlaveReady.ResultsComeFromMarks` | src/musicat/child/command.cpp:322-397 | A waiter returns -1 or the status of a mark issued for its id |
| `SlaveReady.LeavesWithWhatStands` | src/musicat/child/command.cpp:369-396 | A waiter that is through with waiting takes the mark pending for its id and returns its status, or -1 if there is none |
| `SlaveReady.BeginsExactly` | src/musicat/child/command.cpp:327-355 | A waiter returns at once, with what stands, if and only if an entry for its id stands in the queue; else it enters one |
| `SlaveReady.RechecksExactly` | src/musicat/child/command.cpp:357-367 | A waiter goes on sleeping if and only if its entry stands and is not ready |
| `SlaveReady.MayWakeOrTimeOut` | src/musicat/child/command.cpp:357-367 | It may also wake without a notification, and leaves at its deadline asleep or not |
| `SlaveReady.ReturnedWhatStood` | src/musicat/child/command.cpp:322-397 | Whenever a waiter has returned along a run, some step before took what then stood for its id: -1 means no entry, one that was not ready, or a mark of -1 |
| `SlaveReady.MarkReachesSleeper` | src/musicat/child/command.cpp:322-410 | From every state with a sleeper, marking its id, notifying, rechecking and leaving deliver that mark and its status to it |
| `SlaveReady.MarksAreDeliveredOnce` | src/musicat/child/command.cpp:322-410 | No mark is delivered to two waiters, and none delivered is still pending |
| `SlaveReady.NoLostReadiness` | src/musicat/child/command.cpp:357-410 | A waiter asleep on a marked id is about to be notified, and that notification lets it return |
| `SlaveReady.ResultIsFreshExactly` | src/musicat/child/command.cpp:322-397 | In every run, a status returned was supplied after its wait began if and only if no entry for the id stood in the queue at that time |
| `SlaveReady.StaleResult` | src/musicat/child/command.cpp:322-410 | A run in which it was not: a mark comes after its waiter has timed out, and the next waiter of that id gets it at once |
| `SlaveReady.EntryVanishesExactly` | src/musicat/child/command.cpp:327-386 | An entry goes away if and only if a waiter of its id begins or ends |
| `SlaveReady.SecondWaiterLeavesFirstAsleep` | src/musicat/child/command.cpp:327-367 | A run in which a second waiter of an id takes the entry of the first, which sleeps on with no notification to come |
| `OutputCopier.ProcessOutfile` | src/musicat/child/system.cpp:125-214 | For every schedule of reads and marks, and every bound that leaves room in 64 bits for one read with its marks, the file is the whole output cut off at the bound, marks included |
| `OutputCopier.CopyDrain` | src/musicat/child/system.cpp:157-213 | Under such a bound, one pass over a descriptor extends the capped output by what it reads and its marks |
| `OutputCopier.PassIsMarkedOnce` | src/musicat/child/system.cpp:157-213 | The output meant by the two above: the reads of a pass in order; those from standard error, when they are to be marked and there are any, between one head and one tail |
| `OutputCopier.UncappedAppend` | src/musicat/child/system.cpp:157-213 | And passes follow each other in order |
| `OutputCopier.Available` | src/musicat/child/system.cpp:167-178 | The code computes the 64-bit budget, for any bound; where nothing wraps around it is what the bound leaves |
| `OutputCopier.BudgetExactly` | src/musicat/child/system.cpp:167-178 | The budget is the room left if and only if the sum does not wrap around |
| `OutputCopier.BoundIsSafeExactly` | src/musicat/child/system.cpp:167-178 | The budget never exceeds the room left, whatever was written, if and only if the bound leaves room in 64 bits for one read with its marks |
| `OutputCopier.SafeBounds` | src/musicat/child/system.cpp:143-168 | With the marks that the source writes, that is: below 2^64 - 4285 |
| `PollStack.ManagePollfdsStack` | src/musicat/child/system.cpp:29-79 | In place: the first n entries watch the descriptors without an error, in order, aligned with their tags; those with an error are closed once, in order; the rest of the array is untouched |
| `PollStack.KeptInOrder` | src/musicat/child/system.cpp:29-79 | What that specification means: each descriptor is kept right after the ones kept before it, with its tag at the same index, or closed right after the ones closed before it |
| `CacheEviction.ControlMusicCache` | src/musicat/player_manager_util.cpp:195-248 | The size tracked is that of the files left; it ends below the limit unless all were tried, and was at or above it before each try |
| `CacheEviction.SizeOfPermutation` | src/musicat/player_manager_util.cpp:219-219 | Sorting does not change the total |
| `CacheEviction.OldestGoFirst` | src/musicat/player_manager_util.cpp:218-242 | Every file tried was accessed no later than every file never tried |
| `CacheEviction.TriedPlaces` | src/musicat/player_manager_util.cpp:226-242 | Every file tried is unlinked or left, never both, and both keep the order: its position in either is the number before it that went the same way |
| `CacheEviction.LeftAndFreed` | src/musicat/player_manager_util.cpp:226-242 | The size left and the bytes freed make up the size of the cache |
| `CacheEviction.GoneExactly` | src/musicat/player_manager_util.cpp:226-242 | A file is gone if and only if it was tried and unlinking it succeeded |
| `SeekTimestamp.ReadField` | src/musicat/cmds/seek.cpp:69-100 | The inner loop reads one run of digits and what ends it, or refuses |
| `SeekTimestamp.CollectFields` | src/musicat/cmds/seek.cpp:61-108 | The outer loop collects up to four fields and counts the separators |
| `SeekTimestamp.CollectSucceeds` | src/musicat/cmds/seek.cpp:61-110 | The collection succeeds exactly when the tokens complete the string, and then holds the fields in order |
| `SeekTimestamp.ReadNumbers` | src/musicat/cmds/seek.cpp:110-150 | The index arithmetic picks hour, minute, second and fraction out of the list, or finds one missing |
| `SeekTimestamp.ParseArgTo` | src/musicat/cmds/seek.cpp:51-161 | The parser accepts what the specification accepts, with the same fields, and its conversions never throw |
| `SeekTimestamp.UntokensOfTokens` | src/musicat/cmds/seek.cpp:69-100 | Splitting a string into digit runs and separators loses nothing |
| `SeekTimestamp.TokensOfUntokens` | src/musicat/cmds/seek.cpp:69-100 | And well-formed tokens are recovered from the string they make |
| `SeekRoundTrip.AcceptsExactly` | src/musicat/cmds/seek.cpp:51-161 | Accepted if and only if 1 to 14 characters of the form digits(:digits){0,2}(.digits)? |
| `SeekRoundTrip.ReadsEveryPart` | src/musicat/cmds/seek.cpp:110-150 | And then every part is read as the number it denotes |
| `SeekRoundTrip.DurationRoundTrip` | src/musicat/musicat.cpp:196-219 | A printed duration parses if and only if it is below ten to the eighth hours, and then means the duration in whole seconds |
| `SeekRoundTrip.FormatShape` | src/musicat/musicat.cpp:196-219 | A printed duration is five characters long if and only if it is under an hour, and eight from there to a hundred hours |
| `SeekRoundTrip.FractionIsMilliseconds` | src/musicat/cmds/seek.cpp:141-147 | The digits after the dot count as milliseconds |
| `SeekRoundTrip.FractionIsDecimalExactly` | src/musicat/cmds/seek.cpp:141-147 | So they mean a decimal fraction of a second if and only if there are three of them, or all are zero |
| `SeekRoundTrip.HalfSecondIsFiveMilliseconds` | src/musicat/cmds/seek.cpp:141-147 | The timestamp 1.5 is read as 1005 milliseconds |
| `SeekRoundTrip.RewindLands` | src/musicat/cmds/seek.cpp:271-288 | The rewind button lands less than a second below its target |
| `SeekRoundTrip.ForwardLands` | src/musicat/cmds/seek.cpp:301-312 | From every `int64_t` position, the forward button lands less than a second below its target if and only if that is neither before the start nor ten to the eighth hours on; else its string is refused |
| `SeekRoundTrip.CurrentByteExactly` | src/musicat/cmds/seek.cpp:195-211 | The byte position set is the one meant if and only if that one is below 2^63 |
| `SeekRoundTrip.HoursNeverOverflow` | src/musicat/cmds/seek.cpp:195-211 | With two colons it always is |
| `SeekRoundTrip.LongMinutesOverflow` | src/musicat/cmds/seek.cpp:195-211 | With one colon it need not be: twelve nines and a second set a negative position |
| `SeekRoundTrip.LongSecondsOverflow` | src/musicat/cmds/seek.cpp:195-211 | Nor with none: fourteen nines |
| `Decimal.LengthExactly` | src/musicat/musicat.cpp:210-214 | A numeral has at most k digits if and only if the number is below ten to the k |
| `Decimal.ValueOfToString` | src/musicat/musicat.cpp:210-214 | Reading a printed number gives it back |

## Left out

- Discord and UI: client calls, embeds, permissions and dashboard publishing, which change none of the modelled state; the guards before a marker is handled are one boolean.
- Streaming itself: FFmpeg, Opus and yt-dlp; `stream_ctx::run` and `need_handler` return arbitrary results, and `init` never fails half-way (a failed submission has no effect).
- The `insert_marker` call after a context is erased: it touches only the voice client.
- Shutdown, exceptions that escape tasks, and allocation failure: the running state is assumed, and a vector of contexts holds at most the pointers that fit in memory.
- Fairness: `CheckTerminates`, `NoDeadlock` and the theorems of `StreamProgress` say that steps are possible and where they lead, not that the scheduler runs them.
- Processes, pipes, fifos and semaphores, and the framing of commands in `write_command`: a whole command is parsed at a time.
- `run_on_main_and_wait`: unused in these files.
- `parse_helper_chain_option` without `EHL_ALL_EXCLUSIVE`: that branch is unfinished, and the header defines the macro.
- Debug state and log output, and the options that are not set by commands (descriptors, paths, the queue time).
- Floating point: track progress, tempo, pitch and equalizer text.
- Database and configuration: the saved queue and configuration of a player are taken as loaded.
- The audio side of skipping: `skip_playback` stops the stream and resets byte positions, which the runs allow to change freely.
- Fetching a track's details in `add_track` is a boolean; a track keeps only the fields that the queue logic reads or writes.
- Bytes are characters: the text formats are byte strings, and no encoding is involved.
- Smaller commands (clear, info, autoplay, history size) and the predicates on effects, which would only add easy members.
- The protocols `DownloadQueue`, `SlaveReady` and `StreamScheduler` are transition systems on values, not classes: their objects are shared by threads, and it is the interleaving of critical sections that is modelled.
- GuildPlayer.Player.RemoveTrack: what an iterator outside the queue does is undefined and not modelled; the remove command never passes the position that makes one, and a queue has fewer tracks than the largest `size_t`.
- GuildPlayer.ShuffleIndexes: a position drawn is kept in an `int` in the source; queues of 2^31 tracks and more are not modelled.
- OutputCopier.ProcessOutfile: `fwrite` writes all it is given, and a pass is given by the non-empty chunks it reads; under a bound that leaves no room for one read with its marks nothing is said of the file (`BoundIsSafeExactly` says why).
- CacheEviction.ControlMusicCache: sizes are summed without a bound, and `std::sort` may leave files of the same access time in any order.
- DownloadQueue.CapIsRespected: the cap does not change during a run.
- SkipAndPrevious.SkipLands: says where the command lands while a track is current, that is, one with a file name.
- SkipAndPrevious.PreviousUndoesNextExactly: every track in the queue has a file name.
