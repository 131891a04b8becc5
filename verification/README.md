# Ridge-Link: verified model

Ridge-Link runs a hall of Assetto Corsa rigs from one admin PC, the orchestrator, with an agent (the
sled) on every rig. This project models the parts of it that keep state or run loops, and proves what
they do over every input and every run.

| file | what it models |
|---|---|
| `PyText.dfy`, `PySort.dfy` | the Python string operations used: `strip`, `upper`, `split("=")`, `readlines`/`writelines`, `sorted` |
| `IniPatch.dfy` | one pass of a section-aware video.ini rewriter, for any table of overrides; why a second pass copies |
| `IniRewriters.dfy` | the two rewriter loops of the launcher and of the spectator service, each equal to a pass |
| `IniReading.dfy` | how a line is read: names in any letter case, blanks around them, and the overrides themselves |
| `IniMeaning.dfy` | what a rewritten file says, section by section and key by key |
| `IniFile.dfy` | the rewriters on whole files, and exactly when a second pass, by the same or the other, changes one |
| `Spectator.dfy` | backup, patch and restore of video.ini over launches, relaunches, self-exits and kills |
| `Orchestrator.dfy` | rig records, groups, status posts, datagrams, commands, the reaper, as `AppState` |
| `KillGuard.dfy` | what KILL_RACE guarantees on the orchestrator, when a race begins and ends there, and which car is selected |
| `RigHistory.dfy` | every field of a rig record over whole runs |
| `Sled.dfy`, `EndToEnd.dfy` | the agent's watchdog and kill sequence, standalone mode, and a kill from end to end |
| `GroupPartition.dfy` | group membership |
| `Leaderboard.dfy`, `LapCapture.dfy` | the laps log, the session-best table, and the laps captured from heartbeats |
| `AcServer.dfy`, `SlotList.dfy` | port allocation, the slot list against the server configuration, and the opponents of an offline race |
| `Splash.dfy` | the lockout screen: a poll thread, Tk's callback queue, hide timers, local unlocks |
| `AppsVisible.dfy` | the read-merge-write cycle on apps_visible.ini |

Objects the source updates in place are classes whose methods are proved equal to a step function on
a value (`View() == Next(old(View()), ...)`); what the source promises is then proved of that function
over whole runs, as lemmas.

## What the proofs found

Where the source falls short of what it is for, the model keeps the code as it is; a lemma shows an
input, and another says for every run when the property holds.

- **A second pass is not always harmless.** On a file that ends in a newline both rewriters are
  idempotent. Otherwise the missing overrides can be appended to the unterminated last line, which
  glues the first of them to it. `IniFile.StableIff` gives the exact condition for every text and any
  two patches of which the first covers the second; `IniFile.IdempotentIffNotGlued` and
  `IniFile.LauncherKeepsSpectatorsIff` are its instances, and a third pass never changes anything
  (`Spectator.LiveIsOnePass`). `IniMeaning.PatchedFileMeaning` says exactly which overrides such a file
  loses: when its last line is a section's only header, all of that section's
  (`IniMeaning.UnterminatedHeaderIsLost`).
- **A driver's name can keep KILL_RACE from rigs.** Naming the driver of an unknown rig makes a record
  without an address (apps/orchestrator/routers/rigs.py:245). A command to all rigs reads every record's
  address in dictionary order (apps/orchestrator/routers/commands.py:114), so it fails there, and the
  rigs behind that record keep their status, guard and car
  (`KillGuard.NamedRigStopsGlobalKill`). `KillGuard.GlobalReachesIff` says for every run whom such a
  command reaches. The second loop of a group command fails in the same way; its first, for KILL_RACE
  and LAUNCH_RACE, has reached every member by then.
- **Heartbeats never end a race on the orchestrator.** The comment at apps/orchestrator/routers/rigs.py:129
  says a downgrade from racing or ready is allowed unless very rapid. `upsert_rig` has just set
  `last_seen`, so it is always too rapid and the branch that allows it is never taken.
  `KillGuard.HeartbeatsNeverEndRace` says over whole runs exactly which of the modelled requests do end
  a race.
- **Once armed, the kill guard stands up to every modelled request but three kinds**: a launch that
  reaches the rig (intended), a UDP datagram that says "racing", and the reaper, which drops the guard
  together with the record of a rig not heard from for ten seconds (`KillGuard.GuardHoldsIff`).
- **A listed rig need not name its group**: its record does so exactly when it had one as it was put
  into the group and has not been reaped since (`GroupPartition.ListedRigNamesItsGroupIff`).
- **A session-best row can outlive its lap**: after a deletion it is the least of the log exactly when
  another lap has its time (`Leaderboard.DeletionKeepsLeastIff`). `DELETE /leaderboard` empties both
  tables and then assigns to a property that has no setter (apps/orchestrator/routers/leaderboard.py:50,
  apps/orchestrator/state.py:384-386); the model has the effect on the tables.
- **Killing the spectator after it has exited by itself does not restore video.ini**; the next launch and
  kill do (`Spectator.KillLeavesOriginalIff`, `Spectator.KillAfterExitKeepsPatch`).
- **Polls that overlap uncover a locked desktop only when their modes reach Tk in the other order**
  (`Splash.LockoutIsCovered`, `Splash.OverlappingPollsUncover`), **and a race is covered by locking the
  rig again after its hide timer, or by an older status applied last**
  (`Splash.RaceIsUncoveredIff`, `Splash.OvertakenStatusCoversRace`). A local unlock can be covered again
  at once by a lock that was written before it (`Splash.LateLockCoversUnlock`).
- **A negative AI count** makes entry_list.ini longer than the MAX_CLIENTS of the configuration
  exactly when the rigs alone are more than ten (`SlotList.WriteConfigs`), and makes an offline race
  announce fewer cars than it lists (`SlotList.ChooseOpponents`).

## Model

| member | source | states |
|---|---|---|
| PyText.StripParts | apps/sled/launcher.py:519 | `strip()` cuts blank ends off a line and nothing else |
| PyText.WhiteSpaceIs | apps/sled/launcher.py:519 | the characters that `strip()` removes |
| PyText.LinesOfText | apps/orchestrator/services/spectator.py:268-269 | reading back written lines gives the same lines, and an unterminated tail as one more |
| PyText.TextOfLines | apps/orchestrator/services/spectator.py:180-188 | the backup written from the lines read is the file itself |
| IniRewriters.RewriteForSpectator | apps/orchestrator/services/spectator.py:193-266 | the spectator's loop, with its tables, is one pass of the specification |
| IniRewriters.SpectatorPass | apps/orchestrator/services/spectator.py:219-266 | the same loop for any two tables of overrides |
| IniRewriters.LeaveSection | apps/orchestrator/services/spectator.py:231-240 | the flush at a header and at the end of the file appends exactly the keys not written so far |
| IniRewriters.RewriteForLauncher | apps/sled/launcher.py:473-561 | the launcher's loop, with its tables, is one pass of the specification |
| IniRewriters.LauncherPass | apps/sled/launcher.py:510-561 | the same loop for any [POST_PROCESS] table and any one [VIDEO] override; its [VIDEO] flush marks the key as written |
| IniRewriters.LeaveRigSection | apps/sled/launcher.py:523-531 | the launcher's flush |
| IniRewriters.AppendMissing | apps/sled/launcher.py:524-527 | a flush appends the missing keys of one table, in table order |
| IniReading.HeaderOpens | apps/sled/launcher.py:521-534 | a header ends its section with a flush, is kept, and opens the section whose name it has in any letter case |
| IniReading.SettingIsReplaced | apps/sled/launcher.py:536-554 | a line that sets an override of the open section, its key in any letter case, is replaced by the override |
| IniReading.OtherLinesAreCopied | apps/sled/launcher.py:556 | every other line is copied and changes nothing |
| IniReading.CaseIsImmaterial | apps/orchestrator/services/spectator.py:225-266 | over whole files: files that differ in the letter case of names are patched alike |
| IniReading.TablesAre | apps/orchestrator/services/spectator.py:193-218 | the overrides are exactly these settings |
| IniReading.SpectatorFileSays | apps/orchestrator/services/spectator.py:193-269 | a spectator's file says every one of them in a section it has under any letter case, unless it is lost to the last line |
| IniReading.LowerCaseIsPatched | apps/orchestrator/services/spectator.py:239-246 | a file in lower case is patched |
| IniPatch.CanonParses | apps/sled/launcher.py:536-543 | a line written for an override reads back as that key with that value |
| IniPatch.SecondPassCopies | apps/sled/launcher.py:511-561 | a pass whose overrides another patch covers copies that patch's output, from any state, on any lines |
| IniPatch.PassesAbsorb | apps/sled/launcher.py:485-561 | both rewriters are idempotent on any lines, and launcher(spectator(f)) = spectator(f) |
| IniMeaning.KeepsTheRest | apps/orchestrator/services/spectator.py:225-260 | every line a patch does not own survives verbatim and in order |
| IniMeaning.OtherValuesKept | apps/sled/launcher.py:545-553 | every setting that is not overridden keeps its exact list of values |
| IniMeaning.PatchMeaning | apps/sled/launcher.py:485-495 | an override reads as its table value wherever it occurs, and occurs if and only if its section does |
| IniMeaning.RewritersAppend | apps/sled/launcher.py:529-531 | how often an override is appended: at the end of every stretch of its section until the file has set it, but once at most for the launcher's [VIDEO] override |
| IniMeaning.PatchedFileMeaning | apps/orchestrator/services/spectator.py:193-269 | the same of any file written and read again: every line the patch does not own survives exactly if nothing was glued to the last line, and an override is there exactly when its section is, except exactly for those the glueing loses |
| IniMeaning.RewrittenFileMeaning | apps/orchestrator/services/spectator.py:193-269 | the same of the two rewriters as they are |
| IniMeaning.UnterminatedHeaderIsLost | apps/sled/launcher.py:556-564 | a file whose only section the launcher loses |
| IniMeaning.LauncherFirstIsImmaterial | apps/sled/launcher.py:485-561 | patching with the launcher first does not change what the spectator's file says |
| IniFile.PatchedFileIsStable | apps/orchestrator/services/spectator.py:179-269 | on a file that ends in a newline both rewriters are idempotent and the launcher leaves the spectator's file alone |
| IniFile.StableIff | apps/orchestrator/services/spectator.py:225-269 | for any patch with distinctive keys, any patch it covers and any file, a pass of the second changes what the first has written exactly when the first glued an override of the second to the last line |
| IniFile.IdempotentIffNotGlued | apps/orchestrator/services/spectator.py:179-269 | the same of the two rewriters as they are |
| IniFile.LauncherKeepsSpectatorsIff | apps/sled/launcher.py:485-564 | launcher(spectator(f)) = spectator(f) exactly when the service glued none of the launcher's overrides, for every file |
| IniFile.UnterminatedCommentGlues | apps/sled/launcher.py:556-564 | a file on which the launcher's rewriter is not idempotent |
| IniFile.LauncherChangesSpectators | apps/sled/launcher.py:556-564 | a file that the launcher changes after the service |
| Spectator.SpectatorService.WriteLowQualityVideoIni | apps/orchestrator/services/spectator.py:161-269 | back up unless a backup exists, then rewrite; skip a missing file |
| Spectator.SpectatorService.RestoreVideoIni | apps/orchestrator/services/spectator.py:283-301 | put the backup back and remove it, if there is one |
| Spectator.SpectatorService.LaunchSpectator | apps/orchestrator/services/spectator.py:437-496 | the effect of a launch, for success and each error return |
| Spectator.SpectatorService.KillSpectator | apps/orchestrator/services/spectator.py:514-531 | the effect of a kill, with its early return |
| Spectator.RunKeeps | apps/orchestrator/services/spectator.py:451-531 | over every run, with the number of passes since the last restore: the live file is the original patched so many times, and the backup, there exactly when that number is not zero, is the original |
| Spectator.KillRestores | apps/orchestrator/services/spectator.py:514-522 | killing a live spectator restores the original, for any file and any run before |
| Spectator.LiveIsOnePass | apps/orchestrator/services/spectator.py:184-189 | for every file: the live file is the original, one pass over it or two, by the number of launches since the last restore; one and two differ exactly when the first glued an override |
| Spectator.KillLeavesOriginalIff | apps/orchestrator/services/spectator.py:514-522 | for every file and run, exactly when a kill request leaves the original file |
| Spectator.KillAfterExitKeepsPatch | apps/orchestrator/services/spectator.py:514-519 | a launch, a self-exit and a kill that leave a file patched |
| Spectator.RelaunchIsHarmlessIff | apps/orchestrator/services/spectator.py:451-457 | a relaunch leaves video.ini as it is exactly when the first launch glued nothing |
| Spectator.LiveGroupIsLastLaunched | apps/orchestrator/services/spectator.py:487-490 | the active group of a live spectator is the one last launched successfully |
| Spectator.AliveIff | apps/orchestrator/services/spectator.py:451-526 | after every run a spectator is alive exactly when a successful launch came last |
| Spectator.GroupIsInForce | apps/orchestrator/services/spectator.py:487-526 | the active group after every run, kills, restarts and failed relaunches included |
| Orchestrator.AppState.UpsertRig | apps/orchestrator/state.py:194-213 | create or refresh a record; `last_seen` is now either way |
| Orchestrator.AppState.UpdateRigStatus | apps/orchestrator/routers/rigs.py:90-190 | a status post as one step: upsert, precedence rules, car selection, lap capture |
| Orchestrator.AppState.UpdateStatus | apps/orchestrator/routers/rigs.py:105-143 | the kill guard, the downgrade rule and the plain update |
| Orchestrator.AppState.SelectCar | apps/orchestrator/routers/rigs.py:145-155 | only posts without temperature and telemetry select or clear a car |
| Orchestrator.AppState.CaptureLap | apps/orchestrator/routers/rigs.py:158-190 | a grown lap count is stored and the lap recorded under the rig's first group |
| Orchestrator.AppState.FirstGroupOf | apps/orchestrator/routers/rigs.py:168-170 | the first group listing the rig |
| Orchestrator.AppState.RemoveStaleRigs | apps/orchestrator/state.py:220-235 | the reaper removes exactly the rigs not heard from for more than ten seconds |
| Orchestrator.AppState.SendCommand | apps/orchestrator/routers/commands.py:57-76 | a single-rig command's effect on its record |
| Orchestrator.AppState.SendGlobalCommand | apps/orchestrator/routers/commands.py:87-117 | the loop over all rigs gives each the broadcast effect up to the first record without an address, where it fails |
| Orchestrator.AppState.SendGroupCommand | apps/orchestrator/routers/commands.py:119-208 | the first loop marks every listed, known rig; the second gives each the broadcast effect up to the first record without an address; the rest stay |
| Orchestrator.ServedIff | apps/orchestrator/routers/commands.py:93-114 | a loop reaches a record if and only if no record before it lacks an address |
| Orchestrator.AppState.ReceiveDatagram | apps/orchestrator/services/heartbeat.py:26-47 | a UDP heartbeat overwrites the status unchecked |
| Orchestrator.AppState.SetRigMode | apps/orchestrator/routers/rigs.py:230-238 | set the mode of a known rig |
| Orchestrator.AppState.SetRigDriverName | apps/orchestrator/routers/rigs.py:240-249 | set the name, creating the record, without an address, if need be |
| Orchestrator.AppState.AddGroup | apps/orchestrator/state.py:249-254 | store a new group |
| Orchestrator.AppState.UpdateTheGroup | apps/orchestrator/state.py:256-274 | change the name and track that are given |
| Orchestrator.AppState.AddRig | apps/orchestrator/state.py:289-302 | take the rig out of every group, append it to this one, and point its record here |
| Orchestrator.AppState.RemoveRig | apps/orchestrator/state.py:304-313 | take a listed rig out of the group and clear its record's group |
| Orchestrator.AppState.RemoveGroup | apps/orchestrator/state.py:276-287 | unassign the group's rigs and delete it |
| Orchestrator.AppState.UpdateEverything | apps/orchestrator/routers/settings.py:204-207 | a full update sets every rig idle |
| Orchestrator.AppState.AddTestLap | apps/orchestrator/routers/leaderboard.py:81-94 | a test lap is inserted and upserted like a captured one |
| Orchestrator.AppState.DeleteLeaderboardRecord | apps/orchestrator/routers/leaderboard.py:53-58 | delete one lap; the session-best table stays |
| Orchestrator.AppState.ClearLeaderboard | apps/orchestrator/routers/leaderboard.py:45-51 | empty both tables |
| Orchestrator.RecordStep | apps/orchestrator/routers/rigs.py:91-249 | what each event makes of one rig's record, all others aside |
| KillGuard.GuardHoldsIff | apps/orchestrator/routers/rigs.py:110-122 | for ten seconds, over every run, the guard holds at every moment exactly as long as no launch reaches the rig, no datagram says it is racing and no reap takes it |
| KillGuard.KilledRigDoesNotRace | apps/orchestrator/routers/rigs.py:110-122 | so for ten seconds after a kill the rig shows racing at no moment of such a run |
| KillGuard.KillBlocksTenSeconds | apps/orchestrator/routers/rigs.py:114-127 | a racing post after a kill leaves the rig idle for exactly ten seconds |
| KillGuard.CommandedStatusIs | apps/orchestrator/routers/commands.py:26-36 | the status after any command: setup for SETUP_MODE, idle for KILL_RACE, and for other actions unchanged if sent to one rig and idle if a group or global loop gets to it |
| KillGuard.ReaperTakesIff | apps/orchestrator/state.py:220-235 | the reaper leaves exactly the rigs heard from in the last ten seconds |
| KillGuard.GuardOutlivesReaper | apps/orchestrator/state.py:220-235 | for a rig heard from since the kill the reaper does not matter: the guard holds exactly as long as no launch and no racing datagram comes |
| KillGuard.GlobalReachesIff | apps/orchestrator/routers/commands.py:93-114 | after every run a command to all reaches a known rig exactly when no rig before it in the dictionary has only been named |
| KillGuard.UnaddressedIff | apps/orchestrator/state.py:196-208 | after every run a record lacks an address exactly when naming the driver made it and the rig has neither been heard of nor reaped since |
| KillGuard.NamedRigStopsGlobalKill | apps/orchestrator/routers/commands.py:108-114 | a run after which a racing rig survives a kill of all rigs, with no guard |
| KillGuard.ReaperDropsGuard | apps/orchestrator/services/heartbeat.py:68-72 | a silent rig is reaped, comes back and races two seconds after its kill |
| KillGuard.DatagramBypassesGuard | apps/orchestrator/services/heartbeat.py:37-47 | a datagram makes a killed rig racing at once |
| KillGuard.HeartbeatsNeverEndRace | apps/orchestrator/routers/rigs.py:128-139 | over every run a rig stays racing exactly as long as no command that reaches it, full update, other status or reap ends it; a heartbeat of idle or setup does not |
| KillGuard.NoRaceLastsIff | apps/orchestrator/routers/rigs.py:110-143 | over every run a rig stays not racing exactly as long as no post without a live guard and no datagram says it is |
| KillGuard.CarIsLastPick | apps/orchestrator/routers/rigs.py:145-155 | after every run the selected car is the last pick, where a setup or the reaper picks none |
| KillGuard.PickLasts | apps/orchestrator/routers/rigs.py:145-155 | a car stays selected exactly as long as no event picks another, clears it or takes the record |
| KillGuard.RacingAfterPostIff | apps/orchestrator/routers/rigs.py:105-143 | step lemma: exactly when a rig is racing after a post |
| KillGuard.StatusAfterPost | apps/orchestrator/routers/rigs.py:105-143 | step lemma: the status after a post, in every case; racing and ready never go to idle or setup |
| KillGuard.GuardAfterPost | apps/orchestrator/routers/rigs.py:114-127 | step lemma: a post changes the guard only by a racing heartbeat after it has expired |
| KillGuard.KillArms | apps/orchestrator/routers/commands.py:64-68 | step lemma: KILL_RACE, sent to a rig, a group or all, marks the rigs it reaches idle and sets their guard, and leaves the others as they were |
| RigHistory.SeenIsLatest | apps/orchestrator/state.py:194-235 | after every run the hub knows exactly the rigs heard of and not forgotten since, and when it last heard of them |
| RigHistory.AddressIsLatest | apps/orchestrator/services/heartbeat.py:37-47 | the address is that of the last post or datagram |
| RigHistory.ModeIsLatest | apps/orchestrator/routers/rigs.py:230-238 | the mode is the last one set for a known rig, and lockout for a new one |
| RigHistory.DriverIsLatest | apps/orchestrator/routers/rigs.py:240-249 | the driver is the last one named |
| RigHistory.KillIsLatest | apps/orchestrator/routers/commands.py:64-72 | the guard remembers the last kill that reached the rig, until a launch, the reaper, or a racing post ten seconds later |
| RigHistory.StatusIsLatest | apps/orchestrator/routers/rigs.py:105-143 | the status after every run is the last one given by a command, a full update, a datagram, or a post that no rule stops |
| Sled.RigAgent.WatchdogSample | apps/sled/agent.py:325 | the watchdog reads the process list |
| Sled.RigAgent.WatchdogAct | apps/sled/agent.py:327-334 | and promotes or demotes by what it has read |
| Sled.RigAgent.BeginKill | apps/sled/agent.py:447-449 | a kill sets idle first |
| Sled.RigAgent.FinishKill | apps/sled/agent.py:454-490 | and ends the game after its sleep |
| Sled.RigAgent.EnterSetup | apps/sled/command_handler.py:100-103 | SETUP_MODE |
| Sled.WatchdogReports | apps/sled/agent.py:323-337 | a round of the watchdog leaves the rig racing exactly if the game was running when it looked |
| Sled.AgentIs | apps/sled/agent.py:323-337 | the agent's status, the game and the watchdog's reading after every run of the watchdog and the other writers |
| Sled.HeartbeatService.Attempt | apps/sled/heartbeat.py:74-92 | one attempt's effect on the counter and the mode |
| Sled.StandaloneIff | apps/sled/heartbeat.py:26-33 | standalone holds exactly when the last three attempts failed, or the sled started so and none has gone through |
| EndToEnd.WatchdogSettles | apps/sled/agent.py:323-337 | a complete watchdog round after the game's death settles the sled, whatever promotions came before |
| EndToEnd.KilledRigNeverShowsRacing | apps/orchestrator/routers/rigs.py:110-143 | if the game is dead, the watchdog has made a round and the older heartbeats are in before the guard expires, the rig never shows racing again, unless another client says so |
| EndToEnd.LateHeartbeatShowsRacing | apps/orchestrator/routers/rigs.py:123-127 | without the last condition it can |
| EndToEnd.RunningGameIsShown | apps/sled/heartbeat.py:54-74 | a running game is shown after a watchdog round and a heartbeat, unless the rig was killed in the last ten seconds |
| EndToEnd.HeartbeatsKeepCar | apps/sled/heartbeat.py:55-57 | over every run the sled's heartbeats leave the picked car alone |
| GroupPartition.GroupsStaySound | apps/orchestrator/state.py:249-313 | in every reachable state no rig is listed twice and a rig that names a group is in it |
| GroupPartition.GroupLookupIgnoresOrder | apps/orchestrator/routers/rigs.py:168-170 | the first-match lookup gives the same group in any order, and the one the record names |
| GroupPartition.ListedRigNamesItsGroupIff | apps/orchestrator/state.py:289-302 | over every run: a listed rig has a record that names that very group exactly when it had a record as it was put there and has not been reaped since |
| GroupPartition.RediscoveredRigForgetsGroup | apps/orchestrator/state.py:196-208 | one failing run: a listed rig is reaped and heard from again |
| GroupPartition.EarlyRigNamesNoGroup | apps/orchestrator/state.py:299-300 | the other: a rig is put into a group before its first heartbeat |
| GroupPartition.TitleIsLatest | apps/orchestrator/state.py:249-287 | over every run a group has the name and track it was last given, and Monza before that |
| LapCapture.LapsAreRecords | apps/orchestrator/routers/rigs.py:161-190 | over every run the laps recorded for a rig are exactly the positive running-maximum records of the counts it reported, life by life of its record |
| LapCapture.LapNumbersIncrease | apps/orchestrator/routers/rigs.py:161-166 | during a life of the record lap numbers strictly increase, whatever is repeated or comes late |
| LapCapture.CapturedLapIs | apps/orchestrator/routers/rigs.py:161-188 | a post records a lap exactly if its count has grown, with the count and time it reports and the record's driver and car |
| LapCapture.CapturedUnderOwnGroup | apps/orchestrator/routers/rigs.py:167-187 | a lap is recorded with the id, track and name of the one group that lists the rig, or with none |
| LapCapture.BoardIsCaptured | apps/orchestrator/routers/rigs.py:178-190 | over every run the leaderboard is the captured laps and test laps, each inserted and upserted in turn, with the deletions and clears between them |
| LapCapture.SessionBestIsBestCaptured | apps/orchestrator/routers/rigs.py:168-190 | after every run, clears and deletions included, the row of a rig and session holds the least positive time recorded for them since the last clear |
| LapCapture.SessionBestIsBestReported | apps/orchestrator/routers/rigs.py:158-190 | after every run the row of a rig and session holds the least positive of the lap times that its posts reported as they completed a lap, and of test laps, since the last clear |
| LapCapture.HistoryIsCaptured | apps/orchestrator/routers/rigs.py:178-190 | with no leaderboard request what is recorded is what is captured |
| Leaderboard.LeaderboardDB.Insert | apps/orchestrator/services/leaderboard_db.py:66-86 | append a lap under the next id |
| Leaderboard.LeaderboardDB.UpsertSessionBest | apps/orchestrator/services/leaderboard_db.py:88-126 | insert or merge the row of this rig and session; nothing without a session |
| Leaderboard.LeaderboardDB.DeleteRecord | apps/orchestrator/services/leaderboard_db.py:145-152 | delete the lap with this id, and say whether there was one |
| Leaderboard.LeaderboardDB.ClearLeaderboard | apps/orchestrator/services/leaderboard_db.py:154-160 | empty both tables |
| Leaderboard.FoldTime | apps/orchestrator/services/leaderboard_db.py:99-105 | after any sequence of upserts the time is the least positive one, or the last if none is positive |
| Leaderboard.FoldColumns | apps/orchestrator/services/leaderboard_db.py:106-111 | the lap is the highest; driver, car, track and group are the last known; the timestamp is the last |
| Leaderboard.TimeIgnoresOrder | apps/orchestrator/services/leaderboard_db.py:99-105 | the time does not depend on the order of the laps |
| Leaderboard.TableIsView | apps/orchestrator/services/leaderboard_db.py:66-160 | after any run the table is the fold of the history since the last clear, key by key, and the log holds only that history, all of it if nothing was deleted |
| Leaderboard.IdsAreNeverReused | apps/orchestrator/services/leaderboard_db.py:16-18 | laps are numbered in the order recorded, and no number is given twice, clears included |
| Leaderboard.PositiveLapsAreCovered | apps/orchestrator/services/leaderboard_db.py:88-126 | every positive lap in the log with a session has a row with a positive time not above it |
| Leaderboard.RowIsLeastOfLogIff | apps/orchestrator/services/leaderboard_db.py:88-152 | after any run, deletions included, the row is the least positive time of the log exactly when some lap of the log has that time |
| Leaderboard.DeletionKeepsLeastIff | apps/orchestrator/services/leaderboard_db.py:145-152 | deleting a lap keeps a row the least of the log exactly when another of its laps has its time |
| Leaderboard.RowIsLeastOfLog | apps/orchestrator/services/leaderboard_db.py:88-126 | with no deletion since the last clear the row is the least positive time of the log |
| Leaderboard.DeletedLapStaysBest | apps/orchestrator/services/leaderboard_db.py:145-152 | a deletion after which it is not |
| AcServer.ACServerManager.StartServer | apps/orchestrator/services/acserver.py:104-123 | the search ends at the least free offset, shared by both stored ports; a failed start only stops the old server |
| AcServer.ACServerManager.StopServer | apps/orchestrator/services/acserver.py:383-397 | unregister the group's server |
| AcServer.ACServerManager.StopAllServers | apps/orchestrator/services/acserver.py:399-402 | unregister every server |
| AcServer.FirstFreeIsLeast | apps/orchestrator/services/acserver.py:115-119 | the offset found is the least not in use, and at most the number in use |
| AcServer.RegisteredIff | apps/orchestrator/services/acserver.py:383-402 | after every run a group has a server exactly when it was last started with success; other groups' starts and stops leave it alone |
| AcServer.OffsetsStayBelowPeak | apps/orchestrator/services/acserver.py:112-123 | over every run offsets are distinct and below the most servers ever registered at once |
| AcServer.PortsAreOpenAndDistinct | bootstrap.py:14-16 | six servers at a time stay inside the firewall ranges; up to 1520, no TCP port is an HTTP port |
| AcServer.PortsAreOpenIff | bootstrap.py:14-16 | all along a run every port is inside the firewall ranges if and only if there are never more than six servers |
| AcServer.PortsAreDistinctIff | apps/orchestrator/services/acserver.py:121-123 | all along a run no TCP port is an HTTP port if and only if there are never more than 1520 servers |
| AcServer.BoundsAreSharp | bootstrap.py:14-16 | a seventh server is outside, and a 1521st takes the first one's TCP port |
| SlotList.CollectCars | apps/orchestrator/services/acserver.py:182-196 | the car list is the validated pool and the picked cars on disk, sorted |
| SlotList.WriteEntryList | apps/orchestrator/services/acserver.py:778-857 | number, index, kind and model of every entry, for any AI count |
| SlotList.RigSlots | apps/orchestrator/services/acserver.py:796-825 | the rig loop |
| SlotList.AiSlots | apps/orchestrator/services/acserver.py:827-842 | the AI loop hands out the cars in turn |
| SlotList.PlaceholderSlots | apps/orchestrator/services/acserver.py:844-857 | the placeholder loop fills up to the slot count |
| SlotList.WriteConfigs | apps/orchestrator/services/acserver.py:182-222 | MAX_CLIENTS, and the number of entries, equal to it exactly when the AI count is not negative or there are at most ten rigs; CARS is exactly the validated pool and the picks on disk, sorted; every model is in it; a rig's pick on disk is in its own slot; the AI entries share the cars evenly |
| SlotList.NegativeCountOverfills | apps/orchestrator/services/acserver.py:200 | eleven rigs and an AI count of -1: eleven entries for ten clients |
| SlotList.ChoosePool | apps/sled/launcher.py:107-123 | the pool of an offline race: the installed cars of the pool, or the player's car |
| SlotList.ChooseOpponents | apps/sled/launcher.py:129-188 | the opponents are dealt from the pool in turn, and the announced number of cars is right exactly when the race is online or the AI count is not negative |
| SlotList.DealtTimes | apps/sled/launcher.py:187-188 | how often each car is dealt: full rounds of the pool, and its first positions once more |
| SlotList.RoundRobinIsFair | apps/sled/launcher.py:187-188 | cars that occur equally often in the pool are dealt equally often up to one round; the models are those the opponents and the AI entries get |
| Splash.DesktopBlocker.PollTheMode | apps/sled/splash.py:519-532 | the mode half of a poll |
| Splash.DesktopBlocker.PollTheStatus | apps/sled/splash.py:534-539 | the status half |
| Splash.DesktopBlocker.HandOverOne | apps/sled/splash.py:532-539 | a callback owed is handed to Tk |
| Splash.DesktopBlocker.RunOne | apps/sled/splash.py:549-597 | Tk runs the next callback |
| Splash.DesktopBlocker.ApplyTheMode | apps/sled/splash.py:549-563 | hide for freeuse, restore otherwise |
| Splash.DesktopBlocker.ApplyTheStatus | apps/sled/splash.py:565-597 | the reaction to each status |
| Splash.DesktopBlocker.HideForRacing | apps/sled/splash.py:599-610 | the hide timer |
| Splash.DesktopBlocker.EnterUnlockedMode | apps/sled/splash.py:735-752 | a local unlock |
| Splash.PollIsObeyedIff | apps/sled/splash.py:519-532 | over every run a polled mode is obeyed exactly if it is lockout, or the rig is not unlocked locally, or it is in force already |
| Splash.ModeInForce | apps/sled/splash.py:519-532 | the mode and the local unlock after every run |
| Splash.ModeIsLastPolled | apps/sled/splash.py:519-532 | without local unlocks the mode is the last one polled |
| Splash.StatusIsLastPolled | apps/sled/splash.py:534-539 | after every run the status is the last one polled |
| Splash.FreeuseIsUncoveredIff | apps/sled/splash.py:549-563 | over every run and interleaving, in freeuse with nothing left to apply the desktop is uncovered except exactly when a lock was applied late and nothing has hidden the screen since |
| Splash.FreeuseIsUncovered | apps/sled/splash.py:549-563 | so a rig set to freeuse is uncovered if modes reach Tk in the order they were written |
| Splash.LateLockCoversUnlock | apps/sled/splash.py:519-563 | a local unlock covered again by a lock written before it |
| Splash.LockoutIsCoveredIff | apps/sled/splash.py:549-610 | over every run and every interleaving: there the screen shows except exactly when a "freeuse" callback ran after the mode was back to lockout, and none has shown the screen since |
| Splash.LockoutIsCovered | apps/sled/splash.py:549-610 | in lockout, without race or sync and with no callback left, the screen shows, whatever timers, unlocks and overlapping polls came before, if modes reach Tk in the order they were written |
| Splash.OverlappingPollsUncover | apps/sled/splash.py:498-539 | if they do not, it need not |
| Splash.RaceIsUncoveredIff | apps/sled/splash.py:565-610 | over every run and every interleaving, once callbacks and timers are done a race is uncovered except exactly when, since the screen was last hidden, it was locked again or an older status was applied behind the last callback of the race |
| Splash.RelockedRaceIff | apps/sled/splash.py:565-610 | with callbacks handed over in order only the first of these remains |
| Splash.RaceIsUncovered | apps/sled/splash.py:572-607 | so a race is uncovered if no mode but freeuse has been written since it began |
| Splash.RelockCoversRace | apps/sled/splash.py:559-579 | a re-lock during a race covers it, and no timer is left to uncover it |
| Splash.OvertakenStatusCoversRace | apps/sled/splash.py:534-579 | the second: two statuses reach Tk in the other order |
| AppsVisible.ReadApps | apps/sled/launcher.py:391-399 | the read loop; the last setting of a key counts |
| AppsVisible.MergeDefaults | apps/sled/launcher.py:401-410 | defaults go in where nothing is set |
| AppsVisible.WriteApps | apps/sled/launcher.py:412-415 | a header and the settings sorted by key |
| AppsVisible.FileReadsBack | apps/sled/launcher.py:391-415 | parsing the written file gives back the map it was written from |
| AppsVisible.CycleIsIdempotent | apps/sled/launcher.py:391-415 | a cycle keeps every setting, adds the missing defaults and nothing else, and a second cycle changes nothing |
| AppsVisible.WrittenFileRereads | apps/sled/launcher.py:394-395 | the next cycle reads the very lines this one wrote, whatever text came first |

## Left out

- Case folding outside ASCII: `upper()` maps a-z only; a section or key written with letters that Python folds to ASCII capitals counts as another name here.
- Line endings: files are decoded texts in which every line break is one newline.
- Disk failures, partial writes, undecodable characters and the encoding apps_visible.ini is written in: reads and writes succeed.
- Processes, sockets, HTTP retries, TCP dispatch, shared memory, Win32 and Tk drawing: only "the game runs", "a heartbeat is in flight" and "the window shows" are kept.
- The clock: a handler reads it once; the downgrade rule would see a stall of three seconds inside one handler, which the model excludes.
- LAUNCH_RACE, SYNC_MODS, UPDATE and the pull of "ready" on the sled: they appear as steps that write the status or start the game, not as methods.
- What a full update does besides setting the rigs idle: it stops the servers, sends commands and restarts the orchestrator. Group settings other than name, track and members.
- Aliasing of live records: `get_rig` and `get_group` hand out the stored objects; rigs and groups are values here, updated in the state object.
- Which fields a heartbeat carries besides status, address, car, temperature (present or not), lap count and lap time.
- Lap times as text: the parsed time is an input, since the source goes through floats; lap counts are integers.
- The read queries of the leaderboard, and SQLite itself.
- `ACServerManager.start_server` between port search and registration: validation, copying and the health check are one outcome; the slot list takes the validated pool and the cars on disk as inputs.
- Splash: the session timer, dev mode, topmost flag and video; a poll thread's comparison and write of one field are one step.
- Spectator: a file changed by something else while the spectator runs.
- Random choices: a test lap is any lap, and the aggression and level of offline opponents are not modelled.
- The Mumble service, telemetry sources, dashboards and INI templates.
