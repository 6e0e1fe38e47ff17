# A verified model of shard's guest supervisor, ext4 image editor, proxy budget and flow admission

Shard runs sandboxes in small virtual machines. This project models the four parts of it whose correctness is hardest to see by
reading, and proves what they promise.

- **The guest supervisor** (`cmd/shard-init`). One goroutine owns a table of named processes, the execs and the timers. `Guest` has its
  operations as functions on a value, `Supervise` the same operations as the methods of a class that keeps the guest's invariant,
  `GuestInvariant` and `GuestSteps` what each keeps, `GuestEffects` what each does to every field, and `GuestRuns` what holds over every
  run, with the kernel's view of which pid is whose beside it. `StatusBoard` is what a host reads of the processes, `Freeze` the freeze and
  thaw protocol, and `LogSink`, `LogHolder`, `LogOutputs`, `LogRuns` and `LogHost` are the log hold, as a value and as a class, and its
  protocol, first with any host and then with one that keeps its word. `LogDelivery` has that such a host can always read on to the end.
  `Restart` is the restart policy.
- **The ext4 image editor** (`pkg/ext4`). `Ext4Format` and `Ext4Layout` are the disk and its accounting invariant, `Ext4Growth` and
  `Ext4GrowthSound` describe a grown image and prove it sound, `Ext4JournalFile` has the journal's
  inode and first block and how they read back, `Ext4Grow`, `Ext4Journal`, `Ext4Inodes` and `Ext4Write` hold the methods that edit the disk, `Ext4PathIndependence` composes growths, `Ext4` is the whole of Grow, and `Ext4Examples` has images. The layout is that of the Linux kernel's
  "ext4 Data Structures and Algorithms", sections "Block Group Descriptors", "Block and inode Bitmaps" and "Journal (jbd2)".
- **The proxy's held-body budget** (`pkg/proxy`). `HeldBudget` has each path through a request, and `HeldRuns` any number of requests at
  once.
- **The network stack's flow admission** (`pkg/netstack`). `Flows` has each path of a flow, and `FlowRuns` all flows and closes at once.

A protocol is a machine over its atomic steps: a lock's critical section, or one command on the guest's goroutine, is one step, and a
theorem about it ranges over every run. The host, the kernel, the clock and the scheduler are environment: what they decide is an
argument of a step.

What the environment is taken to do:

- fork never returns the pid of an unreaped process, and a pid is reaped only while somebody has it;
- a thaw's ioctls and the flush of the disk succeed;
- for the results about an honest log host: it runs one logs connection at a time, its file changes only by its own writes, and it
  answers and acks only offsets its file holds. It may vanish at any step and its log may refuse output.

## Where the code does not keep what it promises

- **A short last group.** `LastGroupFits` compares the last group with the metadata of 8192 inodes a group, while `addGroups` lays what
  the superblock says. With more than 8208 inodes a group a size can be accepted whose last inode table runs past the end of the disk:
  `Ext4.LastGroupCheckIff` says for which shares of inodes the check is enough, `Ext4Examples.ShortLastGroupBreaks` has a sound image and an
  accepted size for every other share, and `Ext4.GrewSoundIff` says exactly when a growth keeps the invariant: the last group has room for
  its own metadata, or no group is added.
- **A descriptor block nobody marks.** Widening the inode tables can push the group count past a multiple of 128, so that descriptors
  fill one more block. `reserveInodes` never marks that block used, and an allocation could take it.
  `Ext4Write.WriteLeavesSoundIff` says the image keeps the invariant exactly when its inode table starts at or below block
  128 * (32768 - 514) for each descriptor block it has, which can be read off the image before the widening, and
  `Ext4Examples.WideningLeavesBlockUnmarked` says so of every image as the converter lays it whose table starts higher, of which
  `Ext4Examples.BigIsTooHigh` is one.
- **Directories past inode 2^24.** `reserveInodes` takes an inode's byte offset in 32 bits, so an inode numbered 2^24 or more is read as
  another one when directories are counted. `Ext4Write.DirsCountedIff` says the counts written are right in every group of every image of
  a size and descriptors exactly when its old tables take at most 2^20 blocks, `Ext4Write.DirMisread` has an image with a wrong count for
  each larger one, and `Ext4Examples.DirectoryGoesUncounted` is an image as the converter lays it.
- **A kill after the reap.** `collect` reaps every dead child before it kills what the first of them left, by the number its leader had.
  That number is free by then. `GuestRuns.KillMeetsIff` says the kill meets an unreaped process of that number exactly when the number was
  given out again since and not reaped in turn, and that it is then a process the guest never started, which the kill ends if it leads a
  group. `GuestRuns.StrangerIsKilled` is a run that does it, and `GuestRuns.KillCanMeetStranger` has one from every state with a process.
- **A close that does not wait for a dial.** `closeFlows` says nothing of the link runs on after its close, and waits for splices alone.
  `FlowRuns.DialOutlivesClose` is a run whose close returns with a flow still dialing, and `FlowRuns.CloseEndsAllIff` says a close returns
  with nothing of its link running, whatever happens meanwhile, exactly when no flow of the link dialed or was served as it began.
- **A thaw that comes late.** A thaw asked for by a host, and the one a stop does, clears the frozen mark in a second step that no lock
  ties to its ioctl. A freeze of another connection in between leaves the processes frozen and the mark clear: the next child starts into
  the frozen bound and the next host reads a running guest. `Freeze.RaceIsReal` is a run that does it, and
  `Freeze.LateBreaks` what such a thaw does in any state. The host has a rule that rules it out, to ask for a freeze only with every thaw
  answered, and `Freeze.OrderlyIsExactlySafe` says the rule is exact: a run is safe in each of its states, whatever the steps under way do
  next, if and only if it follows the rule.

## Model

| member | source | states |
|---|---|---|
| `Restart.ParseRestart` | cmd/shard-init/restart.go:26-43 | Each of the four names gives its own policy, with the retries, backoff and reset asked for. Refused exactly: as unknown for every other name, for negative retries and for a backoff that is not positive, the last two for `no` never |
| `Restart.RestartPolicy.Next` | cmd/shard-init/restart.go:46-72 | A process restarts, gives up or is exited, each exactly when: its policy applies to the exit with retries left or no limit; it applies with the limit spent; it does not apply |
| `Restart.Wait` | cmd/shard-init/restart.go:75-85 | The doubling loop gives min(backoff times two to the starts, cap) for every count, every value on the way in an int64 |
| `Restart.WaitRises` | cmd/shard-init/restart.go:74-85 | A longer streak of starts again never waits less |
| `Guest.Named` | cmd/shard-init/process.go:297-305 | Finds the first entry of the name, or none has it |
| `Guest.ByPid` | cmd/shard-init/process.go:307-315 | Finds the first entry with the pid, or none has it |
| `Guest.OldestEnded` | cmd/shard-init/process.go:317-325 | Finds the first entry that ended, or none has |
| `GuestInvariant.StreaksBoundRetries` | cmd/shard-init/process.go:149-158 | If the count since the last healthy exit never passes n, then in no stretch of the process's life without a healthy exit are there more than n starts again |
| `GuestSteps.RunKeeps` | cmd/shard-init/process.go:85-126 | A run of a name, started, refused or failed, keeps the whole invariant: one entry per name and at most sixteen, pids that are their entries' own, one live timer, requests and execs answered once, statuses numbered without a gap |
| `GuestSteps.RunMakesRoom` | cmd/shard-init/process.go:92-118 | A run that is not refused finds room: what it replaces has ended, and what is left holds no entry of the name and fewer than sixteen |
| `GuestSteps.RouteKeeps` | cmd/shard-init/main.go:338-364 | Routing one reaped child keeps the invariant, whoever's it was and whether or not the memory bound was hit, with its pid free again |
| `GuestSteps.RouteExitKeeps` | cmd/shard-init/process.go:129-159 | An exit of a named process keeps it, whether the sandbox stops, the process was stopped, or its policy decides |
| `GuestSteps.RouteSpentKeeps` | cmd/shard-init/main.go:356-362 | A process the memory bound took loses its pid, and nobody is left waiting for it |
| `GuestSteps.WakeKeeps` | cmd/shard-init/process.go:162-198 | A timer that comes due, stale or not, frozen or not, started or not, keeps it |
| `GuestSteps.MatchingDue` | cmd/shard-init/process.go:162-174 | A start-again due whose generation matches finds its process restarting with no pid, a matching kill finds a stop in flight on a process that runs, and it is the only due that matches |
| `GuestSteps.StopProcessKeeps` | cmd/shard-init/process.go:201-233 | A stop of one process keeps it, in every state the process can be in |
| `GuestSteps.StopKeeps` | cmd/shard-init/main.go:383-401 | A sandbox stop keeps it |
| `GuestSteps.StopTimersKeeps` | cmd/shard-init/main.go:369-374 | Cancelling every timer after the memory bound was hit restores it, with the bound recorded |
| `GuestSteps.SpawnKeeps` | cmd/shard-init/main.go:414-428 | An exec started under a pid nobody unreaped has keeps it |
| `GuestEffects.DueDoes` | cmd/shard-init/process.go:162-198 | What a matching due does to every field, outside a stop and an OOM: the kill sent, the start again armed again under a freeze, given up on without a fork, and else running under the new pid, run and number with one start more |
| `GuestEffects.OtherDueDoes` | cmd/shard-init/process.go:162-166 | Every due that matches no entry, or comes with a stop or an OOM recorded, is used up and does nothing else |
| `GuestEffects.RunAnswers` | cmd/shard-init/process.go:85-126 | Which of its seven answers a run gets, each exactly when, and what it leaves of every field |
| `GuestEffects.RunDoes` | cmd/shard-init/process.go:113-126 | A run that starts takes the place of the entry of its name, or, the table full, of the first that ended, and of nothing else |
| `GuestEffects.ExitDoes` | cmd/shard-init/process.go:129-159 | A run's end: stopped under a sandbox stop, killed under its own, else exited, given up or restarting, each exactly when; a start again is armed exactly if it restarts, the count starts over after a healthy run, its group is killed outside a sandbox stop, and everyone who waited is answered |
| `GuestEffects.SpentDoes` | cmd/shard-init/main.go:356-362 | An end under a spent memory bound takes only the pid, kills the group and answers who waited |
| `GuestEffects.BatchHits` | cmd/shard-init/main.go:338-345 | A batch hits the memory bound exactly if one of its deaths is a kill the probe owns up to |
| `GuestEffects.BatchReaps` | cmd/shard-init/main.go:346-364 | A batch counts as one that reaped a process exactly if a named process's run died in it, strangers and execs apart, however pids were given out again in it |
| `GuestEffects.CloseDoes` | cmd/shard-init/main.go:366-380 | A batch leaves the guest out of memory exactly if it was or the bound was hit, and then every entry has a fresh generation |
| `GuestEffects.StopProcessDoes` | cmd/shard-init/process.go:201-233 | What a stop of one process does to every field, for a name that does not run, waits to start again or runs |
| `GuestEffects.StopDoes` | cmd/shard-init/main.go:383-395 | A sandbox stop signals each run once and nobody else, with every entry under a fresh generation |
| `GuestRuns.NextKeeps` | cmd/shard-init/main.go:309-332 | Every step of the supervisor keeps the invariant, and ends it cleanly only with no process left |
| `GuestRuns.BatchKeeps` | cmd/shard-init/main.go:336-364 | A batch of deaths keeps it however strangers take the pids it frees, in the same batch too |
| `GuestRuns.RunsAreSound` | cmd/shard-init/main.go:309-401 | So does every run: any order of requests, deaths, timers, stops and freezes |
| `GuestRuns.EveryRun` | cmd/shard-init/process.go:85-248 | In every run from boot a name has one entry and at most one live pid, which is its own fork and no exec's; at most one of its timers is not stale; and an on-failure process starts again at most its retries in a row without a healthy run |
| `GuestRuns.ExitGoesToOwner` | cmd/shard-init/main.go:346-363 | A reaped exit goes to the exec that owns it, to the one process whose run it was, or, a stranger's, to nobody, in a batch that has hit the memory bound too; no other entry changes, and of signals only a kill goes out, for a run, to the number it had |
| `GuestRuns.EveryDeathGoesToOwner` | cmd/shard-init/main.go:336-364 | So does every death of every batch, to whoever owns the pid at that moment, however pids were given out again within the batch and from the death that hit the memory bound on |
| `GuestRuns.EveryExit` | cmd/shard-init/main.go:309-380 | And in every run from boot, every exit of every batch |
| `GuestRuns.CollectKills` | cmd/shard-init/main.go:338-364 | What a batch sends is kills, each for a named process's run that ended in it |
| `GuestRuns.KillMeetsIff` | cmd/shard-init/main.go:356-363 | A kill goes out once its batch is reaped; it meets an unreaped process of the number exactly when the number was given out again since and not reaped in turn, and then a stranger's, never a run or an exec of the guest |
| `GuestRuns.EveryKill` | cmd/shard-init/main.go:336-380 | So it is of every kill of every batch of every run from boot |
| `GuestRuns.KillCanMeetStranger` | cmd/shard-init/process.go:140-141 | Outside a sandbox stop every run's end can have its kill go to a number that is a stranger's by then |
| `GuestRuns.StrangerIsKilled` | cmd/shard-init/main.go:481-512 | A run from boot that does it |
| `GuestRuns.RunsAreUnreaped` | cmd/shard-init/process.go:328-330 | A process of the table has a pid exactly while the kernel has an unreaped run of a named process |
| `GuestRuns.SignalReachesOwnOnly` | cmd/shard-init/main.go:431-449 | A signal by pid is passed on exactly for unreaped children the guest started |
| `GuestRuns.KillReachesExecOnly` | cmd/shard-init/main.go:452-461 | The kill of an exec is sent exactly for unreaped processes of execs, so never for a reused pid |
| `GuestRuns.DueSignalsOwn` | cmd/shard-init/process.go:168-174 | A due signals only groups led by an unreaped run of the table |
| `GuestRuns.StopProcessSignalsOwn` | cmd/shard-init/process.go:220-230 | So does a stop of one process |
| `GuestRuns.StopSignalsOwn` | cmd/shard-init/main.go:389-395 | So does a sandbox stop, and it reaches every process that runs |
| `GuestRuns.StaleForever` | cmd/shard-init/process.go:236-248 | A due that no entry matches is matched by none in any later state |
| `GuestRuns.StaleDoesNothing` | cmd/shard-init/process.go:162-166 | A stale due changes nothing when it is delivered |
| `GuestRuns.StopProcessCancels` | cmd/shard-init/process.go:209-230 | A stop of a process makes every timer armed for its name stale |
| `GuestRuns.StopCancels` | cmd/shard-init/main.go:390-391 | A sandbox stop makes every timer stale |
| `GuestRuns.OomCancels` | cmd/shard-init/main.go:369-374 | So does a batch that hit the memory bound: every timer armed before the batch, and every one an earlier exit of the batch armed |
| `GuestRuns.ExitCancels` | cmd/shard-init/process.go:129-131 | An exit makes every timer armed before for that name stale |
| `GuestRuns.RunCancels` | cmd/shard-init/process.go:113-121 | A run of a name makes every timer of an earlier process of it stale |
| `GuestRuns.RunKeepsLive` | cmd/shard-init/process.go:113-118 | A run never drops an entry that runs or restarts |
| `GuestRuns.WaitingMeansRunning` | cmd/shard-init/process.go:218-219 | A stop request that waits is held by a process that runs, so no eviction loses it |
| `GuestRuns.EveryRequest` | cmd/shard-init/process.go:201-256 | In every run, at every step, a stop request not answered yet waits at a process whose run is unreaped, and the step answers it exactly if it reaps that run, which only a batch of deaths does; one answered before was answered once, and stays so |
| `GuestRuns.NextWaits` | cmd/shard-init/process.go:201-256 | Whatever the step, an eviction or a start again too, a waiting request goes on waiting at its run, or a batch of deaths let it go together with the run's pid |
| `GuestRuns.EveryExec` | cmd/shard-init/main.go:346-351 | In every run an exec is answered exactly once after its process is reaped, and never before |
| `GuestRuns.NothingStartsAfterStop` | cmd/shard-init/main.go:369-401 | Once a stop or an OOM is recorded, over every run no named process starts and live pids only shrink |
| `Supervise.Supervisor.constructor` | cmd/shard-init/main.go:286-295 | A new guest keeps the invariant, with no process anywhere and no pid unreaped |
| `Supervise.Supervisor.Named` | cmd/shard-init/process.go:297-305 | The scan finds the first entry of the name |
| `Supervise.Supervisor.ByPid` | cmd/shard-init/process.go:307-315 | The scan finds the first entry with the pid |
| `Supervise.Supervisor.OldestEnded` | cmd/shard-init/process.go:317-325 | The scan finds the first entry that ended |
| `Supervise.Supervisor.Running` | cmd/shard-init/process.go:328-330 | Says whether any process has a pid |
| `Supervise.Supervisor.RunProcess` | cmd/shard-init/process.go:85-126 | Each answer exactly when: stopping, out of memory, a live entry of the name, sixteen live entries of other names, no pipe, frozen or no fork, else started. A start leaves the table without the entry of the name, or of a full table without the first that ended, and behind it a running entry under the fork's pid and fresh numbers, both reported; a failed start reports the names again, a refusal changes nothing. The invariant is kept, with the pid the new run's own in the kernel |
| `Supervise.Supervisor.Exited` | cmd/shard-init/process.go:129-159 | The entry ends stopped, killed or as its policy says, under a fresh generation and number, with a start again armed exactly when it restarts and everyone who waited released |
| `Supervise.Supervisor.Release` | cmd/shard-init/process.go:251-256 | Every request that waited is released once, and none is left |
| `Supervise.Supervisor.Wake` | cmd/shard-init/process.go:162-198 | A due that matches an entry, outside a stop and an OOM: a kill goes to the run's group; a start again is armed again under a freeze, gives up if the fork fails, and else runs under the new pid with one start more, the status reported. Every other due is only used up. The invariant is kept, and only an unreaped run of the table is signalled |
| `Supervise.Supervisor.StopProcess` | cmd/shard-init/process.go:201-233 | With no live entry of the name the request is answered at once; one that waits to start again ends killed, answered and reported; one that runs is told to end with SIGTERM or SIGKILL, the request waits with it, and a kill is armed under the entry's new generation exactly with a grace. The invariant is kept, and only an unreaped run of the table is signalled |
| `Supervise.Supervisor.Changed` | cmd/shard-init/process.go:265-276 | The entry gets the next number, and its status is reported under it |
| `Supervise.Supervisor.Stop` | cmd/shard-init/main.go:383-401 | The loop gives every entry a fresh generation, which cancels every timer, and signals every run exactly once and nobody else; nothing else of the guest changes. It keeps the invariant, and says done exactly on a failed signal or with no run of a named process left unreaped |
| `Supervise.Supervisor.Collect` | cmd/shard-init/main.go:336-380 | The batch is routed death by death, each to its owner, a hit of the memory bound from the death that found it on; what is sent is kills for runs that ended in it; the invariant is kept. Done exactly if the sandbox stops, no run of a named process is left unreaped, one died in the batch and none of its kills was the memory bound's |
| `Supervise.Supervisor.CollectOne` | cmd/shard-init/main.go:338-364 | One death goes to the exec that waits for the pid, else to the process that runs as it, else nowhere, and says whether a process was reaped |
| `Supervise.Supervisor.Spawn` | cmd/shard-init/main.go:414-428 | An exec that started is waited for under its pid, which is the exec's own in the kernel, and the invariant is kept |
| `Supervise.Supervisor.Signal` | cmd/shard-init/main.go:431-449 | Passed on exactly for an unreaped child the guest started, so never for a reused pid |
| `Supervise.Supervisor.Kill` | cmd/shard-init/main.go:452-461 | Sent exactly for an unreaped process of an exec, so never for a reused pid |
| `StatusBoard.NextKeeps` | cmd/shard-init/transport.go:371-446 | Every status, delayed end and keep leaves a board where only live names are shown, only under numbers that were given out, and a name's newest status is shown or is an end that still waits |
| `StatusBoard.RunsKeep` | cmd/shard-init/transport.go:371-446 | So does every run |
| `StatusBoard.NeverGoesBack` | cmd/shard-init/transport.go:394-400 | While a name stays live its shown status never goes back to an older number, however late an end lands |
| `StatusBoard.NewestIsShown` | cmd/shard-init/transport.go:371-411 | With none of its ends waiting, a name's newest status is what a host reads |
| `StatusBoard.NumbersDiffer` | cmd/shard-init/transport.go:348-353 | Two shown names never have one number |
| `StatusBoard.GuestDrivesBoard` | cmd/shard-init/process.go:265-272 | Whatever a guest that keeps its invariant reports, with its ends delayed however, is a run of the board |
| `StatusBoard.BoardOfGuest` | cmd/shard-init/transport.go:348-446 | So such a guest's board shows only names the guest holds, under numbers that differ |
| `StatusBoard.RisingListIsUnique` | cmd/shard-init/transport.go:348-353 | There is one strictly rising list of a set of statuses |
| `StatusBoard.Shown.ShowStatus` | cmd/shard-init/transport.go:394-400 | A status is kept only for a live name and only over an older one |
| `StatusBoard.Shown.KeepNames` | cmd/shard-init/transport.go:442-446 | Exactly the kept names stay shown |
| `StatusBoard.Shown.Replay` | cmd/shard-init/transport.go:348-353 | The replay lists every shown status once, in strictly rising order of its number |
| `Freeze.StepKeeps` | cmd/shard-init/transport.go:301-328 | Every step but a late thaw keeps: with no freeze in progress a frozen guest's attached host was told of it, a frozen bound is marked, and no child was started into one |
| `Freeze.RunsAreSound` | cmd/shard-init/transport.go:503-514 | So every run without a late thaw keeps it, however hosts replace each other |
| `Freeze.LateBreaks` | cmd/shard-init/transport.go:556-574 | After any late thaw the next start lands in a frozen bound, and the next host reads a frozen guest as running |
| `Freeze.OrderlyRunsAreSound` | cmd/shard-init/transport.go:590-632 | Every run in which a freeze is asked for only with every thaw answered keeps it, and leaves no thaw that a freeze could overtake |
| `Freeze.FreezeOverThawIsUnsafe` | cmd/shard-init/transport.go:590-642 | A freeze asked for while a thaw is unanswered is unsafe in every state: steps already under way break the guarantees, with no other freeze |
| `Freeze.OrderlyIsExactlySafe` | cmd/shard-init/transport.go:590-642 | A run is safe in each of its states, whatever the steps under way do next, if and only if every freeze in it was asked for with every thaw answered |
| `Freeze.RaceIsReal` | cmd/shard-init/transport.go:635-642 | A run of the machine from its start that breaks both guarantees |
| `LogHolder.Holder.constructor` | cmd/shard-init/transport.go:691-706 | A new sink has a buffer of 1 MiB, holds nothing and numbers its output from where the last of the name stopped |
| `LogHolder.Holder.Take` | cmd/shard-init/transport.go:750-772 | A new host replaces the old, a stop is forgotten, and it is offered exactly what is held; a closed sink takes none and changes nothing |
| `LogHolder.Holder.Close` | cmd/shard-init/transport.go:775-795 | The sink lets go, and says where its numbering ends |
| `LogHolder.Holder.Copy` | cmd/shard-init/transport.go:798-845 | What fits of the pipe goes behind what is held, in place, and a closed sink takes nothing |
| `LogHolder.Holder.End` | cmd/shard-init/transport.go:848-860 | The mark is the number after every byte the process wrote, held, acked or still in the pipe; none when the pipe cannot be measured |
| `LogHolder.Holder.Release` | cmd/shard-init/transport.go:952-967 | The shift in place leaves exactly the bytes from the acked one on; an ack outside the hold is refused, another host's ignored |
| `LogHolder.Holder.Stop` | cmd/shard-init/transport.go:970-979 | Only the live host's word stops the wait |
| `LogHolder.Holder.Abandon` | cmd/shard-init/transport.go:982-988 | Nothing waits for an ack any more |
| `LogHolder.Holder.Drop` | cmd/shard-init/transport.go:991-1001 | Only the live host's connection is dropped |
| `LogHolder.Holder.Next` | cmd/shard-init/transport.go:915-928 | The sender waits exactly at the end of the hold while it is live; it is over exactly if another host took its place or its byte was let go of; and else it gets the bytes from where it stands, all of them or 32 KiB |
| `LogHolder.Holder.Landed` | cmd/shard-init/transport.go:863-870 | The end may be shown exactly if every byte written before it was recorded is acked, or the sink was stopped, or the name has another sink; and then those bytes are in the stream and acked, or the sink was stopped or let go of |
| `LogOutputs.NumberingGoesOn` | cmd/shard-init/transport.go:414-440 | However names are let go of and run again, no name's next number moves |
| `LogOutputs.Table.OutputOf` | cmd/shard-init/transport.go:414-429 | A name's sink is found or made, and every name's numbering goes on |
| `LogOutputs.Table.KeepNames` | cmd/shard-init/transport.go:431-440 | Exactly the names not kept lose their sink, each leaving where its numbering stopped |
| `LogRuns.NextKeeps` | cmd/shard-init/transport.go:673-1001 | With any hosts, every step keeps: held is exactly the output from `from` on and within its bound, and every connection carries a contiguous run of its own sink's output from the byte its host answered |
| `LogRuns.RunsKeep` | cmd/shard-init/transport.go:673-1001 | So does every interleaving of writes, copies, answers, acks, replacements, hang-ups and closes |
| `LogRuns.AnsweredKeeps` | cmd/shard-init/transport.go:888-899 | An answer in the offered range is never refused: while its connection is live the range still holds |
| `LogRuns.OnlyLiveWordsRelease` | cmd/shard-init/transport.go:952-967 | Bytes leave the hold only by a word of the live host that names an offset the hold reaches, and then exactly those before it |
| `LogRuns.NumbersAreKept` | cmd/shard-init/transport.go:414-440 | What was numbered keeps its number over every run and every later sink of the name |
| `LogRuns.ClosedEndIsFixed` | cmd/shard-init/transport.go:775-781 | No step moves a closed sink's end, and the next sink starts there |
| `LogRuns.ClosedEndIsFixedForever` | cmd/shard-init/transport.go:815-818 | Nor does any run |
| `LogRuns.OutputIsKept` | cmd/shard-init/transport.go:798-845 | Until its sink is let go of, what a process wrote stays in order, in the stream or behind it in the pipe |
| `LogRuns.EndWaitsForItsOutput` | cmd/shard-init/transport.go:371-391 | An end goes out only after a host acked every byte written before it was recorded, unless its sink was stopped or let go of |
| `LogHost.ResumesWhereFileEnds` | services/supervisor/logs.go:243-266 | Whatever its cursor says, a host that keeps its word goes on exactly where its file holds the sink's output up to |
| `LogHost.ReadsOn` | services/supervisor/logs.go:88-110 | What such a host reads is the output right behind where its file ends |
| `LogHost.NextKeeps` | services/supervisor/logs.go:50-110 | Every step of guest or host keeps: the file is made of one prefix per sink, holds all the guest let go of, and the words under way name only bytes it holds |
| `LogHost.RunsKeep` | services/supervisor/logs.go:50-110 | So does every run, however often the host vanishes and comes back |
| `LogHost.FileIsPrefixes` | cmd/shard-init/transport.go:872-967 | In every run from boot the file is, sink after sink, a gap-free and repeat-free prefix of what each sink took in, and holds every byte the current sink let go of |
| `LogHost.WordsAreTaken` | cmd/shard-init/transport.go:943-961 | The guest never refuses a word of such a host |
| `LogDelivery.BytesAhead` | cmd/shard-init/transport.go:915-928 | A live sender with output ahead of it is given bytes, never none: all there are, or 32 KiB |
| `LogDelivery.Connect` | services/supervisor/logs.go:50-87 | From every state with an open sink a host can open a connection and be answered, and then the guest sends from where its file ends |
| `LogDelivery.CatchUp` | cmd/shard-init/transport.go:873-928 | A host that follows the live connection can read on until its file holds all the output there is |
| `LogDelivery.AckAll` | cmd/shard-init/transport.go:931-967 | And then an ack leaves the guest holding nothing, with file and stream as they were |
| `LogDelivery.EveryByteCanLand` | cmd/shard-init/transport.go:873-967 | From every state with an open sink there is a run that leaves the file with every byte of the sink behind what it held, once and in order, and the guest holding nothing |
| `LogDelivery.NothingIsLost` | cmd/shard-init/transport.go:673-1001 | So after every run from boot, whatever hosts came and went |
| `Bitmaps.ClearClaim` | pkg/ext4/journal.go:150-156 | Marking a wholly free range used takes exactly its length off the free count |
| `Bitmaps.RunNeedsFree` | pkg/ext4/journal.go:108-110 | A bitmap with a clear range has at least that many clear bits |
| `Ext4Format.ReadWritten` | pkg/ext4/grow.go:214-216 | A descriptor write reads back, and leaves every other descriptor and block as it was |
| `Ext4Layout.EditMapEffect` | pkg/ext4/grow.go:219-240 | One bitmap edit with its count reads back, and no other block or descriptor changes |
| `Ext4Growth.GrowsUnique` | pkg/ext4/grow.go:94-191 | The description of a grown image is complete: one image meets it |
| `Ext4Growth.GrowsGroup` | pkg/ext4/grow.go:146-168 | A laid group joins the growth at the start of its own blocks |
| `Ext4Growth.StagesMakeGrowMaps` | pkg/ext4/grow.go:116-184 | Claiming the table, giving back the old tail, laying groups and marking the new tail together make the bitmaps of the grown image |
| `Ext4GrowthSound.GrownSound` | pkg/ext4/grow.go:94-191 | Grown blocks keep the accounting invariant when every new group has room for its metadata |
| `Ext4GrowthSound.ClaimApart` | pkg/ext4/grow.go:113-118 | No metadata lies in the free blocks the descriptor table grows into |
| `Ext4Grow.SetTail` | pkg/ext4/grow.go:219-240 | Every bit from the given one on has the value, the rest are untouched, and the count says how many changed; a whole group changes nothing |
| `Ext4Grow.ClaimBlocks` | pkg/ext4/grow.go:194-212 | Either all the blocks were free and are used and zeroed after, or the first used one is named and nothing changed |
| `Ext4Grow.MoveTail` | pkg/ext4/grow.go:131-142 | The tail moves and the group's free count follows without a wrap |
| `Ext4Grow.SetInodePadding` | pkg/ext4/write.go:61-65 | Exactly the bits past the group's share are set |
| `Ext4Grow.LayGroup` | pkg/ext4/grow.go:146-166 | A new group's bitmaps, hole of a table and descriptor are what the description of a growth says |
| `Ext4Grow.ClaimTable` | pkg/ext4/grow.go:113-126 | The descriptor blocks a growth needs are claimed off the first group, or the first used one is named with nothing changed |
| `Ext4Grow.MoveEnd` | pkg/ext4/grow.go:131-143 | The last group's tail moves with descriptor and total following |
| `Ext4Grow.LayGroups` | pkg/ext4/grow.go:145-168 | All new groups are laid and the total grows by what they leave free, under 32 bits |
| `Ext4Grow.AddBlocks` | pkg/ext4/grow.go:127-184 | The stages together make the grown bitmaps, and the total is their clear bits |
| `Ext4Grow.TakenMaxExact` | pkg/ext4/grow.go:22-30 | The size the error names passes every check, and no larger size does |
| `Ext4Grow.EnlargeSound` | pkg/ext4/grow.go:113-184 | The disk is enlarged exactly when the table's new blocks are free; otherwise nothing changed, the block named is the lowest of them in use, and the named maximum is the largest disk whose descriptors end below it |
| `Ext4Grow.AddGroups` | pkg/ext4/grow.go:94-191 | Groups are added exactly when every check passes. Each refusal exactly when: the descriptors would reach the first bitmap; they would not, and a new last group has under 514 blocks; neither, and a block they need is in use, which is then named, the lowest, with the exact maximum. A refusal leaves disk and superblock untouched, and what is added is the grown image with its counts, no 16- or 32-bit step wrapping |
| `Ext4.GrewBits` | pkg/ext4/grow.go:113-184 | A block of a grown image is in use exactly if it was, or is one of the descriptor blocks taken, or lies in the bitmaps or table of a new group |
| `Ext4.GrewBlocks` | pkg/ext4/grow.go:94-191 | Every block keeps what it held but the descriptors and the block bitmaps, and past the old end there are zeros but for the new bitmaps |
| `Ext4.GrewSuper` | pkg/ext4/grow.go:170-190 | Of the superblock only the totals change: blocks, a share of inodes for each group, and a new group's inodes all free |
| `Ext4PathIndependence.GrownMapTwice` | pkg/ext4/grow.go:131-143 | Clearing the first step's tail brings back exactly the bits the tail covered |
| `Ext4PathIndependence.FreshMapGrown` | pkg/ext4/grow.go:12-17 | A group's metadata lies below the first step's end, so clearing that tail never frees it |
| `Ext4PathIndependence.GrowsCompose` | pkg/ext4/grow.go:94-191 | A growth of a growth is a growth of the image both began from |
| `Ext4.SmallGroupsRoomy` | pkg/ext4/grow.go:12-17 | With at most 8192 inodes a group, a growth the checks accept adds no last group without room for its metadata |
| `Ext4.SmallSharesHaveRoom` | pkg/ext4/grow.go:108-112 | So with at most 8192 inodes a group every growth of a sound image the checks accept has that room |
| `Ext4.GrewSound` | pkg/ext4/grow.go:94-191 | Growing keeps the invariant, totals included, whenever the last group has room |
| `Ext4.GrewSoundIff` | pkg/ext4/grow.go:108-112 | And only then, or with no group added |
| `Ext4.LastGroupCheckIff` | pkg/ext4/grow.go:12-17 | The size check is enough for exactly the shares of inodes whose table takes at most 513 blocks |
| `Ext4Examples.SmallIsSound` | pkg/ext4/grow.go:145-168 | The invariant can be met with every share of inodes: the smallest image meets it |
| `Ext4Examples.ShortLastGroupBreaks` | pkg/ext4/grow.go:108-112 | For every share past 8208 inodes, a sound image and a size the checks accept whose growth is not sound |
| `Ext4.GrewToUnique` | pkg/ext4/grow.go:33-91 | One image is the growth of another to a size |
| `Ext4.GrowthIsPathIndependent` | pkg/ext4/grow.go:33-191 | Whenever growing to a and then to b both go through, growing straight to b does, and leaves the same image in every bitmap, descriptor, block and superblock field |
| `Ext4.GrewJournalable` | pkg/ext4/grow.go:74-82 | Growing leaves inode 8 and the checksum flag as they were, and bitmaps that are those described, whatever the room of the last group, so what decides the journal can be read off the image before it grows |
| `Ext4.GrownPlaceable` | pkg/ext4/grow.go:74-82 | A grown image, its last group short of its metadata or not, has its bitmaps in blocks of their own, counted and in use, and its first table where it was, which is what placing a journal rests on |
| `Ext4.PlacedSoundIff` | pkg/ext4/grow.go:77-82 | The grown image with its journal is sound exactly where its last group has room: the journal mends no table and breaks none |
| `Ext4.Grow` | pkg/ext4/grow.go:33-91 | For every size and every sound image: it succeeds exactly when size and image pass every check and, without a journal, no checksums are kept, inode 8 is empty and some bitmap of the grown image has a run long enough. Each refusal is for its own cause with every earlier check passed: not whole blocks, past the maximum, not laid out by the writer, smaller, in need of recovery, each way of not adding groups, each way of not placing a journal. What it leaves is the grown image, then the journal, sound exactly where the last group has room; a refusal before the journal leaves the file as it was, and the named maximum is exact |
| `Ext4Journal.JournalBlocks` | pkg/ext4/journal.go:88-99 | 1024, 4096, 8192 or 16384 blocks, exactly for disks under 128 MiB, under 1 GiB, under 2 GiB and from there on, so that one extent in one group holds it |
| `Ext4Journal.FreeRun` | pkg/ext4/journal.go:124-138 | The pass with a running count finds the first run of free blocks, or there is none |
| `Ext4Journal.FindRun` | pkg/ext4/journal.go:102-121 | With its free-count skip it finds the same first group and offset a scan of every bitmap would, and finds none only if no bitmap has a run |
| `Ext4Journal.SkipSafe` | pkg/ext4/journal.go:108-110 | A group whose free count is under the run's length has no run |
| `Ext4Journal.FirstFitUnique` | pkg/ext4/journal.go:101-121 | There is one first fit |
| `Ext4Journal.ClaimRun` | pkg/ext4/journal.go:141-162 | Exactly the run becomes used, and the free count drops by its length |
| `Ext4Journal.FreeBlockApart` | pkg/ext4/journal.go:46-59 | A free block is none of the image's metadata and lies on the disk |
| `Ext4JournalFile.JournalInodeReads` | pkg/ext4/journal.go:165-199 | The inode written reads back as a regular file 0600 of one link: its size, sectors and flags, and one extent, the run; every other word is zero |
| `Ext4JournalFile.PutInodeEffect` | pkg/ext4/journal.go:193-196 | Writing one inode of a table block leaves its other fifteen |
| `Ext4JournalFile.JournalSuperReads` | pkg/ext4/journal.go:202-216 | The journal's first block, read byte by byte with the highest byte first, is a jbd2 superblock of an empty journal: magic c0 3b 39 98, version 2, blocks of 4096, its length, the log from block 1, commit 1 next, nothing to recover, the uuid, one user and zeros everywhere else |
| `Ext4Journal.PlacedBlock` | pkg/ext4/journal.go:52-59 | Placed on the disk, the run's first block reads back as that superblock, with the journal's length and the image's uuid |
| `Ext4Journal.PlacedRecord` | pkg/ext4/journal.go:61-71 | The file system's superblock names inode 8 and keeps a copy of its extent and size, its free blocks fall by the length, and nothing else of it changes |
| `Ext4Journal.LayJournal` | pkg/ext4/journal.go:52-61 | The journal's superblock, its inode and the claim of its run are on the disk and nothing else is; as read back, the first block is the superblock of an empty journal and inode 8 its file |
| `Ext4Journal.JournaledSound` | pkg/ext4/journal.go:43-71 | The image with its journal keeps the invariant, the superblock's total included |
| `Ext4Journal.EnsureJournal` | pkg/ext4/journal.go:31-71 | Refuses exactly checksummed and half-built images and those without a run, untouched; otherwise the journal lies in the first run that was wholly free, its first block reads back as the jbd2 superblock of an empty journal of the right length and uuid, inode 8 read through the descriptors left reads back as its file with the other inodes of the block as they were, the superblock records it, and a sound image stays sound |
| `Ext4Inodes.Widen` | pkg/ext4/inodes.go:143-158 | The loop ends, with the least group count from the old one up that covers its own metadata, and errs only when no count fits under the limit |
| `Ext4Inodes.InodePlace` | pkg/ext4/inodes.go:37-44 | Tables laid end to end number their inodes as one array |
| `Ext4Inodes.WidenBlockMap` | pkg/ext4/inodes.go:82-99 | Bits below the table are kept, above it exactly new metadata and what lies past the end is used, and the count is of the used bits |
| `Ext4Inodes.InodeUsed` | pkg/ext4/inodes.go:72-78 | An inode is used as its old group's bitmap says, and a number past the old tables is not |
| `Ext4Inodes.InodeIsDir` | pkg/ext4/inodes.go:108-110 | The mode read is that of the inode whose offset 32 bits hold: the inode's own below number 2^24, another's past it |
| `Ext4Inodes.DirBits` | pkg/ext4/inodes.go:108-110 | An inode counts as a directory exactly with bit 14 of its mode set and bits 12, 13 and 15 clear |
| `Ext4Inodes.WidenInodeMap` | pkg/ext4/inodes.go:100-111 | The wider inode bitmap has the used bit of every number, with the used inodes and the directories among them counted |
| `Ext4Inodes.WidenGroup` | pkg/ext4/inodes.go:81-127 | One group's bitmaps and descriptor are those of the widened image |
| `Ext4Inodes.WidenGroups` | pkg/ext4/inodes.go:79-128 | All groups are, and the totals are the sums of their descriptors |
| `Ext4Inodes.RewriteTables` | pkg/ext4/inodes.go:62-70 | The new metadata is cleared and the old tables are back at their start, everything else kept |
| `Ext4Inodes.ReserveInodes` | pkg/ext4/inodes.go:20-140 | Widens exactly the images of fewer than 8192 inodes a group that are laid out as the writer lays them, bitmaps within the file, and for which some group count covers its own metadata within the largest disk; each error is for the first of these that fails and comes before any write; what is left is the widened image, its superblock totals the sums of its descriptors |
| `Ext4Write.InodesKeepMeaning` | pkg/ext4/inodes.go:20-140 | Every inode number reads the same bytes and the same used bit through the new descriptors as through the old, and every new number is free and zero |
| `Ext4Write.BlocksKeepMeaning` | pkg/ext4/inodes.go:81-99 | Every block below the table keeps content and used bit; above it exactly the metadata is used, and all past the end |
| `Ext4Write.DirsCounted` | pkg/ext4/inodes.go:100-111 | With old tables of at most 2^20 blocks the directories counted in each group are the used inodes that are directories |
| `Ext4Write.DirMisread` | pkg/ext4/inodes.go:108-110 | For every larger image there is one of its size and descriptors whose group 2048 is written with no directory and has one |
| `Ext4Write.DirsCountedIff` | pkg/ext4/inodes.go:100-111 | So the counts written are those of the directories in use, in every group of every image of a size and descriptors, exactly when its old tables take at most 2^20 blocks |
| `Ext4Write.SameHeadPlanned` | pkg/ext4/inodes.go:35-66 | Images of one size and descriptors are accepted alike and widened by one plan |
| `Ext4Write.Writable` | pkg/ext4/write.go:27-58 | The read-only flag goes and every group's padding bits are set, nothing else; a wrong magic changes nothing |
| `Ext4Write.WriteLeavesSound` | pkg/ext4/write.go:12-58 | A widened image made writable keeps the invariant exactly when the blocks of its descriptor table were marked used |
| `Ext4Write.WritableIsSound` | pkg/ext4/write.go:27-58 | An image as the converter leaves it, made writable with its own share of inodes, is one Grow takes, its totals included |
| `Ext4Write.KeepWide` | pkg/ext4/inodes.go:25-28 | An image of 8192 inodes a group or more is made writable as it is, and is sound if it was as the converter leaves one |
| `Ext4Write.WriteLeavesSoundIff` | pkg/ext4/inodes.go:57-140 | With the writer's marks, exactly when the image's inode table starts low enough for the descriptor blocks it has |
| `Ext4Write.PlannedOpensNoneIff` | pkg/ext4/inodes.go:143-158 | A widening needs no new descriptor block exactly when the old table starts at or below 128 * (32768 - 514) blocks for each one the image has, whatever else the image holds |
| `Ext4Examples.WideningLeavesBlockUnmarked` | pkg/ext4/inodes.go:57-140 | Every image as the converter lays it whose tables start too high for the descriptor blocks it fills: the widening opens one that nothing marks, so that what Write leaves is not sound |
| `Ext4Examples.BigIsTooHigh` | pkg/ext4/inodes.go:56-61 | There is one: 128 groups whose widening takes 131 |
| `Ext4Examples.LaidIsConverted` | pkg/ext4/inodes.go:35-48 | Such images have all below the end of their bitmaps used but the descriptor blocks they have no use for, the reserved inodes used and the root a directory, and every count and total is that of the bitmaps |
| `Ext4Examples.DirectoryGoesUncounted` | pkg/ext4/inodes.go:100-111 | One of them with 2^24 inodes and more: the widening leaves a descriptor that counts no directory where there is one |
| `Ext4Write.FinishWrite` | pkg/ext4/write.go:12-24 | Write goes through exactly with the magic right and nothing in the way of the widening; a widened image is then one Grow takes exactly when its inode table started low enough for its descriptor blocks, given the writer's marks, one that was wide already if it was as the converter leaves it, and a widening refused leaves the image untouched |
| `HeldBudget.GiveBack` | pkg/proxy/server.go:522-530 | Giving back what was charged leaves every source with what it held before |
| `HeldBudget.Budget.Reserve` | pkg/proxy/server.go:510-520 | Taken exactly when it fits the limit, and then for that source alone |
| `HeldBudget.Budget.Give` | pkg/proxy/server.go:522-530 | Given back, and a source with nothing left is dropped |
| `HeldBudget.Room` | pkg/proxy/server.go:475-488 | A buffer with room stays; a full one is charged exactly its growth to twice its size, at least the first size and at most the limit, or refused, which charges nothing, exactly if that growth is past the source's limit |
| `HeldBudget.Read` | pkg/proxy/server.go:444-472 | On every path the charge is the buffer's whole capacity and no byte of the body is lost; a read that ends well read it all, or to its length, or to one byte past the cap; it is over budget only with a full buffer whose growth does not fit, and broken only if a read broke |
| `HeldBudget.HoldBody` | pkg/proxy/server.go:413-441 | A failure leaves nothing charged; unless it fails, a body is left alone exactly if no hold is wanted or its length is past the cap, streamed exactly when it names no length and is past the cap, and else held whole; what was read and the rest are always the guest's bytes, and a deadline that cannot be set or cleared always fails |
| `HeldBudget.ReserveAll` | pkg/proxy/server.go:380-388 | Each of the rewrite's reservations goes through exactly if it fits beside what the source holds by then, and what went through is what is charged |
| `HeldBudget.Outbound` | pkg/proxy/server.go:366-410 | The caller owes exactly what was charged and a failure nothing. Unless it fails: the body goes as it is exactly if none is wanted, its length is past the cap or none; joined again exactly if it names no length and is past the cap, and then as the guest's bytes; and else rewritten, as exactly what the rewrite gave. A rewrite that fails always fails the request, and only then is it not rewritten |
| `HeldBudget.Handle` | pkg/proxy/server.go:311-318 | A request leaves every source with exactly what it held before, on every path |
| `HeldRuns.NextKeeps` | pkg/proxy/server.go:366-530 | At every step a source's entry is the sum of what its requests in flight hold, and within the limit |
| `HeldRuns.RunsKeep` | pkg/proxy/server.go:366-530 | So over every run of any number of requests |
| `HeldRuns.StagesInOrder` | pkg/proxy/server.go:311-410 | A request is read, then rewritten, then forwarded, then gives back; into each stage there is one way, and giving back follows the forwarding, a failure or a growth past the budget, and nothing else |
| `HeldRuns.AllDoneHoldNothing` | pkg/proxy/server.go:311-318 | With every request done nothing is counted for anyone |
| `Flows.Stack.Admit` | pkg/netstack/forward.go:261-271 | One more of the link and of the stack, exactly when the link is open and has under 1024 flows and the stack under 4096 |
| `Flows.Stack.Release` | pkg/netstack/forward.go:274-279 | One less of both |
| `Flows.Stack.Track` | pkg/netstack/forward.go:282-298 | Both sides are kept and the splice counted; a closing link keeps none and ends both |
| `Flows.Stack.Untrack` | pkg/netstack/forward.go:300-307 | Both sides go and the splice is uncounted |
| `Flows.Stack.SpliceTcp` | pkg/netstack/forward.go:124-164 | However it ends, an admitted flow gives back one share and leaves no side tracked; it is spliced, once, exactly if it dialed and its link is not closing |
| `Flows.Stack.SpliceUdp` | pkg/netstack/forward.go:197-223 | So does a UDP flow |
| `Flows.Stack.ForwardTcp` | pkg/netstack/forward.go:93-122 | Refused, out of room or carried to its end, a flow leaves every count as before |
| `Flows.Stack.ForwardUdp` | pkg/netstack/forward.go:167-195 | So does a UDP flow, its endpoint's failure included |
| `Flows.Stack.BeginClose` | pkg/netstack/forward.go:322-329 | The link is closing, and what is to be ended is all it tracks |
| `Flows.Served.Close` | pkg/netstack/netstack.go:423-433 | The share goes back on the first close and on no later one |
| `FlowRuns.NextKeeps` | pkg/netstack/forward.go:93-338 | Every step keeps: each link counts its flows that still owe a share and tracks exactly the sides of its splices, the stack counts the sum over all links ever made, and neither bound is passed |
| `FlowRuns.RunsKeep` | pkg/netstack/forward.go:93-338 | So does every run of any number of flows and closes |
| `FlowRuns.CloseEndsEverySplice` | pkg/netstack/forward.go:322-334 | A close sets out to end both sides of every splice of its link |
| `FlowRuns.TrackSplices` | pkg/netstack/forward.go:282-298 | A flow that dialed runs, with both its sides tracked and counted, exactly if no close of its link began, and else leaves with neither |
| `FlowRuns.NothingAfterClose` | pkg/netstack/forward.go:321-338 | Once a close returned, over every run no splice of the link runs |
| `FlowRuns.CloseEndsAllIff` | pkg/netstack/forward.go:321-338 | A close returns with no flow of its link dialing, spliced or served, however the run goes on, exactly when none dialed or was served as it began |
| `FlowRuns.CanReturn` | pkg/netstack/forward.go:322-338 | A close under way can always return with a flow that is not spliced where it was |
| `FlowRuns.DialOutlivesClose` | pkg/netstack/forward.go:125-134 | A run whose close returns with a flow still dialing and counted |
| `FlowRuns.DialOnlyLeaves` | pkg/netstack/forward.go:283-300 | Of a link that is closing a flow that dials can only leave: no track of it succeeds |
| `FlowRuns.AllGoneCountsNothing` | pkg/netstack/netstack.go:367-394 | With every flow gone every count is back to nothing |

## Left out

- Encoding: messages, descriptors and superblocks are values; JSON, frames and the byte order of the ext4 structures are not modelled, but
  for the journal inode and the jbd2 superblock, which are built bit by bit. A block is read as bits or as descriptors, never both.
- Failing reads and writes of the image file, and of anything else the kernel does for the program, apart from the failures named above.
- `Ext4.Grow`: the image is one Write made sound, and a mount that changed it is modelled only by which blocks and inodes are used.
- `Ext4Write.FinishWrite`: the converter itself. Its image is assumed to keep 1024 blocks for descriptors below all else, and one of 8192
  inodes a group or more, whose layout nothing checks, to be laid out as `reserveInodes` checks the others.
- `Supervise.Supervisor.RunProcess`: a process's command, environment and user, and what the kernel does with them; the process entries are
  values in a table, so two pointers to one entry are not modelled. A cancelled timer may always still fire.
- `Restart.Wait`: how long a wait takes. Deadlines are events that may happen at any step, and only the healthy-run comparison is an input.
- `GuestRuns.EveryRun`: counters are unbounded, so 64-bit wrap-around of generation and status numbers is not modelled.
- `GuestRuns.KillMeetsIff`: process groups. A kill is modelled by the number it names, not by who has joined that group.
- `Freeze.StepKeeps`: the freeze of the root disk, which goes with that of the processes, and the flag that marks a forced stop.
- `LogHost.FileIsPrefixes`: rotation of the host's file, and a file somebody else changed.
- `HeldBudget.Outbound`: what the director decides and how it rewrites; its reservations and its result are arguments.
- `FlowRuns.NextKeeps`: bytes carried by a splice, NAT and connection tracking, and that a close does return.
- Waiting and liveness: that a wait ends, a request is answered or a host comes back. Only what may happen is modelled.
- The command line; the drivers of the virtual machines and containers, which call other programs and the kernel; certificates, TLS and HTTP
  forwarding, which are library code; and the small packages with one fact each: sizes, log rates, DNS answers, registry names, archives
  and the cache of leaf certificates.
