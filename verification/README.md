# Verification of the UPS watcher, the overlay doctor and the DNS pipeline

A Dafny 4.11 model of three parts of this repository, with proofs about it.
`dafny verify dfyconfig.toml` checks everything.

**The drain and recovery protocol of the UPS watcher** (`cmd/ups-watcher/main.go`, `internal/ups/`).
The decision machine is a class whose fields and decisions are specified by the probes it has seen
(`UpsMachine`); `UpsRuns` says what it does over whole traces. `Protocol` is the watch daemon and the
boot-time undrain as one transition system over the marker file, the swarm availability and the lock
file: three threads (watch's main thread, its drain goroutine, the undrain process), each section that
takes the lock cut into its atomic steps. A run is a list of labels; labels carry every choice of the
environment: probe results, lock failures, commands that fail with or without effect, crashes between
any two steps. `ProtocolSafety` has the invariants; `ProtocolRuns` says what they give for whole runs,
`ProtocolFlow` exactly where watch goes, `ProtocolDrains` what is behind a drained or a stranded node,
`ProtocolReboot` what a reboot restores.
`Sections` has the lock-protected functions as imperative code on a class and shows that each call walks
along the transition system's steps; `ProtocolSafety.SectionsRunAlone` is why running them without
interference is enough. `RunDrain` is the drain loop itself with its goroutine, `Services` the
convergence test over docker listings, `StatusText` the reading of a NUT status (the escapes are those
of section 4.2 of RFC 9271), and `Deadlines` looks at the same functions for their duration only.

**The overlay doctor** (`stacks/overlay-doctor/reconcile.sh`). `Truth` is the shell pipeline that builds
the truth table, `Plan` the two awk programs and what applying their plans does to a forwarding
database, `Cycle` the whole cycle behind its gate, over a cluster of nodes.

**The DNS pipeline** (`stacks/dns/`). `DnsGenerator` is the publisher that reads its own last output
back, `DnsResolver` the consumer that checks, installs, reloads and rolls back, `DnsPipeline` what the one
makes of the other's files.

`Text` has the string functions, the byte order and sorting, and sizes of sets.

## Where the code falls short of a plain reading

- A failed marker write is only logged, so the drain command behind it strands the node. On every run a
  landing drain strands the node if and only if its thread's last marker write left no marker, and
  nothing else strands one (`ProtocolDrains.StrandsIffWriteLeftNoMarker`). Some run does so if and only if
  the node is a peer (`ProtocolDrains.CanStrandIffPeer`, with the run in
  `ProtocolDrains.UrgentDrainMayStrand`).
- The undrain can exit on a drained node, because watch may drain between the release of the lock and
  the exit. Whether that can happen is settled by the role: some run does it if and only if the node is
  a peer (`ProtocolReboot.ExitsOnDrainedNodeIffPeer`, with the run in
  `ProtocolReboot.UndrainMayExitOnDrainedNode`). A run that does it has released the node in the same
  boot and then drained it again on a decision of watch (`ProtocolReboot.NewerDrainBehindExit`).
- The timeouts do not bound `monitoredDrain` for a daemon that logs in to NUT. Its probes may take 17
  seconds, longer than the interval of its ticks, so a tick may wait beside the result every time, and
  the select may take it. The bound exists if and only if a probe is shorter than the interval
  (`Deadlines.MonitoredDrainIsBoundedIff`), which for the timeouts in the code means no login
  (`Deadlines.TimeoutsBoundMonitoredDrainIffNoLogin`).
- The two readings of a status differ on white space other than the plain space: after a tab, `OB`
  holds back a release while the decision machine counts mains (`StatusText.TabSeparatesTheReadings`).
  They differ on exactly the statuses with the token OL in which OB or LB stands between white space
  but neither is a token (`StatusText.ReadingsAgreeIff`), always on the safe side
  (`StatusText.SafeIsMains`).
- A VAR reply that ends right after its opening quote crosses the slice bounds, and only that line does
  (`StatusText.ParseStopsExactlyOnBarePrefix`).
- The comment at the head of `reconcile.sh` says that repairs are limited to MACs of the truth table.
  With an empty table, which a minimum of 0 lets through, awk takes the listing for the table;
  `Plan.StaysInTableIffNotEmpty` says exactly when the promise holds and
  `Plan.EmptyTruthRewritesForeignRow` shows a row for which it does not.

- The resolver's record check names the address 10.10.10.20, while the publisher takes its address from
  the environment: what it publishes for any other address is never acceptable
  (`DnsPipeline.PublishedIsAcceptableIff`).

## Assumptions

- A docker command takes effect, if it does, between its start and its return, and success means that
  it took effect. A stat error means that the marker is absent. A flock excludes every other holder and
  is dropped by the kernel when its process dies.
- The doctor's nodes have distinct, non-empty addresses without colons that do not look like numbers to
  awk; endpoint MACs have one length and contain colons but no space. A listing shows the tunnel's
  destinations, at most one for each MAC, and the databases change only by the doctor's own writes
  during a cycle.
- The DNS configuration check is deterministic, the hash has no collisions, the generated file does not
  change within one call, a failed reload leaves the server's loaded data alone, and the server loads
  the installed file when it starts.

## Model

| member | source | states |
|---|---|---|
| StatusText.ContainsWord | internal/ups/machine.go:85-97 | The index loop finds a word exactly if it stands somewhere between spaces or ends of the text. |
| StatusText.WordIsToken | internal/ups/machine.go:85-97 | For a space-free word that is the same as being one of the tokens of a split at single spaces. |
| StatusText.ClassifyByWords | internal/ups/machine.go:110-140 | A status is low battery if and only if it contains LB, on battery if it contains OB but no LB, and mains with neither. |
| StatusText.SafeIsMains | cmd/ups-watcher/main.go:416-426 | A status that releases a node is one the decision machine counts as mains, whatever white space it contains. |
| StatusText.SafeIffMainsWithOL | cmd/ups-watcher/main.go:416-426 | Where plain spaces are the only white space, the release guard is exactly mains together with OL. |
| StatusText.FieldsAreBlankWords | cmd/ups-watcher/main.go:420-424 | The fields of a status are exactly its words between white space or ends. |
| StatusText.ReadingsAgreeIff | cmd/ups-watcher/main.go:416-426 | Guard and machine agree on a status if and only if it is not one with the token OL in which OB or LB stands between other white space and neither is a token. |
| StatusText.TabSeparatesTheReadings | cmd/ups-watcher/main.go:416-426 | A status with a tab that the machine reads as mains and the guard refuses. |
| StatusText.UnescapeNUT | internal/ups/nut.go:99-120 | The index loop computes the recursive resolution of escapes. |
| StatusText.UnescapeDropsBackslash | internal/ups/nut.go:104-118 | Behind a backslash any character stands for itself, and a backslash at the end stays. |
| StatusText.UnescapeInvertsEscape | internal/ups/nut.go:99-120 | Resolving the escapes gives back every text that was escaped. |
| StatusText.ParseInvertsPrint | internal/ups/nut.go:89-96 | Parsing a printed VAR line gives back every status, for every UPS name. |
| StatusText.PlainReplyParses | internal/ups/nut.go:86-96 | The reply written out for a UPS and a status without a backslash gives that status. |
| StatusText.ParseStopsExactlyOnBarePrefix | internal/ups/nut.go:89-96 | The slice goes out of range on one line only, the prefix itself; every other line gives a value or an error. |
| UpsMachine.Machine.constructor | internal/ups/machine.go:61-69 | A new machine has the defaults and knows no probe. |
| UpsMachine.WithDefaults | internal/ups/machine.go:61-69 | Positive policy numbers are kept, others become 3 probes and 900 seconds. |
| UpsMachine.Machine.OnProbe | internal/ups/machine.go:102-169 | Decision and event are closed forms of the probe history, and every field stays the function of the history that Valid names. |
| UpsMachine.ProbeKinds | internal/ups/machine.go:110-140 | What makes a probe low battery, on battery or mains, by the words of its status. |
| UpsMachine.BatteryRunCountsProbes | internal/ups/machine.go:122-153 | The counter is the number of on-battery probes that no mains probe follows; failed probes count for nothing. |
| UpsMachine.FailedProbeIsInvisible | internal/ups/machine.go:155-167 | A failed probe that does not end the silent window changes nothing the machine knows, then or later. |
| UpsMachine.DeletingFailedProbe | internal/ups/machine.go:102-169 | Deleting such a probe from a trace changes no later decision and no later event. |
| UpsRuns.SwitchesAlternate | internal/ups/machine.go:122-153 | On every trace Drain and Undrain alternate, Drain first; a survivor emits neither; an odd number so far means a confirmed outage. |
| UpsRuns.FiresMeansLowOrSilent | internal/ups/machine.go:155-167 | The watchdog condition on the last-seen field is a statement about the trace: the latest status is at least the window old. |
| UpsRuns.ShutdownExactlyAtFirst | internal/ups/machine.go:102-169 | Shutdown comes at exactly the first probe whose status says LB or that ends the silent window. |
| UpsRuns.SwitchExactlyAt | internal/ups/machine.go:122-153 | Drain comes exactly at a peer's probe that says OB and not LB and completes the count of such probes since mains, Undrain exactly at the first one that says neither after a completed count; neither after a shutdown. |
| UpsRuns.EventExactlyAt | internal/ups/machine.go:99-169 | The event of every probe of a trace, for both roles, by the words of its status and the count before it. |
| UpsRuns.NothingAfterShutdown | internal/ups/machine.go:102-105 | After a Shutdown every decision is none, so there is at most one. |
| UpsRuns.SilenceShutsDownInTime | internal/ups/machine.go:155-167 | With probes at most a gap apart, silence shuts down between the window and the window plus one gap after the last status. |
| UpsRuns.DrainingStep | internal/ups/machine.go:122-163 | During a drain a probe either stops it, as Shutdown or as Undrain on mains, or decides nothing and leaves the drain confirmed; never a second Drain. |
| ProtocolSafety.RunKeepsExclusive | cmd/ups-watcher/main.go:349-374 | On every run the lock's owner is exactly the thread inside a section, and each thread is only in sections of its own kind. |
| ProtocolSafety.SectionsRunAlone | cmd/ups-watcher/main.go:305-394 | While a thread is inside a section no step of another thread changes the node or that thread. |
| ProtocolSafety.StepKeepsSafe | cmd/ups-watcher/main.go:305-394 | Every step, crashes included, keeps the marker on a drained node and what each thread inside a section relies on. |
| ProtocolSafety.NoStrandedDrain | cmd/ups-watcher/main.go:305-463 | In every interleaving with successful marker writes, a drained node carries the marker. |
| ProtocolDrains.StrandsIffWriteLeftNoMarker | cmd/ups-watcher/main.go:329-332 | On every run a landing drain strands the node if and only if its thread's last marker write left no marker, and no other step strands a node. |
| ProtocolDrains.WriteBehind | cmd/ups-watcher/main.go:329-332 | A thread that is about to drain finds the marker as its own last write left it, whatever the others do. |
| ProtocolDrains.DrainFollowsDecision | cmd/ups-watcher/main.go:173-186 | Every change from active to drained is a peer's command under its own lock that its own episode has called for: the goroutine's in a drain that goes on or that only the last probe has ended, the main thread's after the last probe decided Shutdown; the undrain never drains. |
| ProtocolDrains.SurvivorStaysActive | cmd/ups-watcher/main.go:173-186 | A survivor's node is active on every run, failed marker writes and crashes included. |
| ProtocolDrains.UrgentDrainMayStrand | cmd/ups-watcher/main.go:459-462 | On a peer, a run at whose end an urgent drain behind a failed marker write has stranded the node. |
| ProtocolDrains.CanStrandIffPeer | cmd/ups-watcher/main.go:459-462 | Some run strands the node if and only if the role is peer. |
| ProtocolRuns.AvailabilityMoves | cmd/ups-watcher/main.go:332-338 | Availability changes only when a drain or an activate command lands, and to the value of that command. |
| ProtocolRuns.ReleaseFollowsSafeProbe | cmd/ups-watcher/main.go:376-394 | Every change from drained to active is an activate command whose thread saw OL and neither OB nor LB after taking the lock and held the lock ever since. |
| ProtocolRuns.SuccessfulRecoveryLeavesReleased | cmd/ups-watcher/main.go:376-394 | Whenever a recovery reports success, also without a marker, the node is active and unmarked as the lock is released. |
| ProtocolRuns.SuccessfulDrainLeavesDrained | cmd/ups-watcher/main.go:440-463 | Whenever a drain reports success, urgent or not, the node is drained as the lock is released, and marked if the marker writes succeeded. |
| ProtocolRuns.BootExitSawRelease | cmd/ups-watcher/main.go:582-601 | When the undrain has exited, the node was active and unmarked at some moment since that process started. |
| ProtocolReboot.ExitsOnDrainedNodeIffPeer | cmd/ups-watcher/main.go:582-601 | Some run of successful marker writes ends with the undrain's exit on a drained node if and only if the role is peer. |
| ProtocolReboot.NewerDrainBehindExit | cmd/ups-watcher/main.go:582-601 | On every such run the node was active and unmarked in that boot, and then a drain landed that watch had decided on. |
| ProtocolReboot.UndrainMayExitOnDrainedNode | cmd/ups-watcher/main.go:595-600 | On a peer, a run of successful marker writes at whose end the undrain exits and the node is drained. |
| ProtocolRuns.RunKeepsMonitors | cmd/ups-watcher/main.go:198-303 | Throughout runDrain the machine is confirmed on battery and undecided since one Drain decision, and a join waits to return the decision of the latest probe. |
| ProtocolRuns.MonitoredDrainReturns | cmd/ups-watcher/main.go:280-303 | For every schedule: the goroutine starts once from an empty slot, monitoredDrain returns only with it finished, a result means no decision, and a decision that ended the select is acted on: Undrain recovers, Shutdown powers off. |
| ProtocolRuns.NoPoweroffAfterMains | cmd/ups-watcher/main.go:241-276 | A poweroff through the converged or the deadline exit means that no probe since the Drain decision saw mains or decided anything, and that the attempt is over. |
| ProtocolFlow.PoweroffIff | cmd/ups-watcher/main.go:173-276 | On every run watch powers off exactly at the end of an urgent drain, at a conclusion that the test mode does not suppress, or on a Shutdown: a survivor's at the top of the loop, or one in a drain, at once or behind the join. |
| ProtocolFlow.RecoveryIff | cmd/ups-watcher/main.go:173-276 | On every run a recovery starts exactly on a top probe that neither drains nor shuts down, at a suppressed conclusion, or on an Undrain in a drain, at once or behind the join; one from runDrain is followed by the loop's own. |
| ProtocolFlow.DrainIff | cmd/ups-watcher/main.go:173-303 | runDrain starts exactly on a Drain decision at the top of the loop, attempts again exactly while no attempt has reported success, and cancels an attempt exactly on a tick that decides; an urgent drain exactly follows a peer's Shutdown at the top. |
| ProtocolFlow.CancelStopsDrains | cmd/ups-watcher/main.go:296-299 | Once a decision waits for the attempt, the attempt starts no drain command, and the decision stands until the attempt is over. |
| ProtocolFlow.ReportBehind | cmd/ups-watcher/main.go:211-213 | Behind every drain that runDrain takes for done there is a drain command of the same watch process that took effect and reported success. |
| ProtocolFlow.ConvergedNeedsReport | cmd/ups-watcher/main.go:241-260 | So there is one behind every conclusion as converged. |
| ProtocolFlow.UndrainExitsIff | cmd/ups-watcher/main.go:590-600 | The undrain exits exactly without a marker or behind a successful recovery, and otherwise tries again. |
| ProtocolReboot.EveryRebootReleases | cmd/ups-watcher/main.go:582-601 | Whatever happens after a reboot of a node that was not stranded, once the undrain has exited there was a moment of that boot at which the node was active and unmarked. |
| ProtocolReboot.RebootReleasesUnlessStranded | cmd/ups-watcher/main.go:582-601 | From any state at all a reboot can end the undrain without a marker; on its undisturbed run the node is active then if and only if it was not stranded. |
| Sections.LocalNode.MarkAndDrain | cmd/ups-watcher/main.go:329-332 | Marker before command: the marker is there unless the write failed, the node is drained exactly if the command landed, and the steps are the protocol's. |
| Sections.LocalNode.UndrainNow | cmd/ups-watcher/main.go:336-347 | Active before removal: the marker goes only after a reported success. |
| Sections.LocalNode.RecoverDrain | cmd/ups-watcher/main.go:376-394 | The whole effect on node, marker and lock; success means the node is unmarked, and active if it was marked whenever drained. |
| Sections.LocalNode.PrepareUrgentDrain | cmd/ups-watcher/main.go:440-463 | The whole effect, with the skip for a node that is marked and confirmed drained; a marked-if-drained node stays so if the write succeeds. |
| Services.LongestServicePrefix | internal/ups/drain.go:78-86 | For every iteration order the result is the longest wanted service that is a dotted prefix of the task name, or none. |
| Services.CreditIsUnique | internal/ups/drain.go:78-86 | A task is credited to at most one service. |
| Services.LongerNameWins | internal/ups/drain.go:67-69 | Of two services of which one's name extends the other's by a component, the shorter one is not credited with the longer one's tasks. |
| Services.RunningTaskMeans | internal/ups/drain.go:51-59 | The line of a task counts, under the task's name, if and only if its state begins with Running. |
| Services.MissingServices | internal/ups/drain.go:41-73 | The result is sorted, without repetition, and has exactly the snapshot services that no Running line is credited to; for a listing of names and states, exactly those of which no listed task runs. |
| Services.MissingIsDetermined | internal/ups/drain.go:41-73 | Two results for listings with the same lines are equal, whatever the map iteration order. |
| Services.MoreLinesSatisfyMore | internal/ups/drain.go:41-73 | Adding lines for a fixed snapshot never makes a satisfied service missing. |
| Services.DotFreeCredit | internal/ups/drain.go:75-86 | With dot-free names the credited service is exactly the first component of the task name. |
| Services.ParseNames | internal/ups/drain.go:90-106 | The distinct non-blank lines, trimmed, sorted. |
| Services.NamesOfLined | internal/ups/drain.go:90-106 | For a text with one clean name on each line these are exactly the names. |
| RunDrain.DrainState.DrainAttempt | cmd/ups-watcher/main.go:305-333 | Result and effect are exact; the snapshot is taken at most once, before every drain command, and never overwritten on retry. |
| RunDrain.AttemptMeans | cmd/ups-watcher/main.go:305-333 | The node is touched only under the lock, with both context checks passed and a snapshot at hand, and then exactly as the marker write and the command turn out. |
| RunDrain.MonitoredDrain | cmd/ups-watcher/main.go:280-303 | Wherever among the ticks the attempt runs: without a decision its result is returned and its effect is exact; a decision comes from a probe of this call, without a result, and the attempt has run to its end unless the opening probe decided. |
| RunDrain.SurvivorMissing | cmd/ups-watcher/main.go:498-510 | Nothing is missing if and only if the snapshot is empty or one successful listing has a Running line for each of its services. |
| RunDrain.WorkMovedMeans | cmd/ups-watcher/main.go:498-510 | For a listing of names and states the work has moved if and only if each service has a task that runs; without a listing only if there was nothing to move. |
| RunDrain.DrainedHasSnapshot | cmd/ups-watcher/main.go:305-333 | Whatever the attempts do, none has reported a drain before one has taken the snapshot. |
| RunDrain.DrainPass | cmd/ups-watcher/main.go:208-277 | A decision of the machine outranks convergence and convergence outranks the deadline; the drained flag is set exactly by a successful attempt and never cleared without a decision; a pass that goes on took at least 15 seconds. |
| RunDrain.TimelyTurnEnds | cmd/ups-watcher/main.go:208-277 | With probes within a limit below the poll interval, a pass takes at most the attempt's 67 seconds, three probes, the sleep and two listings of 11 seconds. |
| RunDrain.RunDrain | cmd/ups-watcher/main.go:198-278 | The last decision fixes the poweroff: Shutdown powers off, Undrain never does, and without one no probe saw mains; the converged exit is taken at exactly the first pass with a reported drain, no container and all work of the first snapshot moved; an episode without a poweroff recovers; at most 41 passes, the deadline exit only after 600 seconds, and timely passes end by 704 seconds and three probes. |
| Deadlines.CommandEnd | cmd/ups-watcher/main.go:554-579 | A command ends within its own timeout and within the caller's deadline, each plus the wait delay; a dead context starts nothing. |
| Deadlines.Lock | cmd/ups-watcher/main.go:357-372 | The lock is known to be taken or lost by the deadline; it is lost only on an error or at the deadline. |
| Deadlines.LockDrain | cmd/ups-watcher/main.go:349-374 | The polling loop takes exactly that long, with that result. |
| Deadlines.UrgentEnd | cmd/ups-watcher/main.go:429-463 | The urgent path is over within 15 seconds plus one wait delay, whichever nested limit ends first. |
| Deadlines.PrepareUrgentDrain | cmd/ups-watcher/main.go:440-463 | The steps of the urgent path end exactly then. |
| Deadlines.UrgentBoundIsTight | cmd/ups-watcher/main.go:429-463 | The urgent path attains its bound, with a free lock and an update that hangs. |
| Deadlines.AttemptEnd | cmd/ups-watcher/main.go:305-333 | An attempt ends within 67 seconds, and within one wait delay of a cancellation. |
| Deadlines.AttemptLimitsAreTight | cmd/ups-watcher/main.go:27-34 | Each limit of an attempt is attained: 10 seconds for a busy lock, 57 and 46 with hanging commands, one wait delay after a cancellation. |
| Deadlines.DrainAttempt | cmd/ups-watcher/main.go:305-333 | The steps of an attempt end exactly then. |
| Deadlines.MonitoredDrainEnds | cmd/ups-watcher/main.go:280-303 | With probes shorter than the interval, every return, with a result or with a decision, comes within 67 seconds and two probes of the call, the opening one and one that overlaps the attempt's end. |
| Deadlines.MonitoredDrainIsBoundedIff | cmd/ups-watcher/main.go:290-301 | Some bound holds for all returns if and only if the probes are shorter than the interval: otherwise the select may take a waiting tick beside the result for ever. |
| Deadlines.TimeoutsBoundMonitoredDrainIffNoLogin | internal/ups/nut.go:26-84 | The timeouts of a NUT probe bound the whole call, opening probe included, if and only if the daemon does not log in, and then by 83 seconds. |
| Truth.GrepV | stacks/overlay-doctor/reconcile.sh:160 | Keeps exactly the lines without any of the patterns; a sorted list stays sorted. |
| Truth.UniqDListsRepeated | stacks/overlay-doctor/reconcile.sh:112 | On lines whose equal keys are adjacent, uniq -d lists each repeated one once. |
| Truth.SortedKeysAreGrouped | stacks/overlay-doctor/reconcile.sh:156-159 | In byte-sorted claim lines equal MACs are adjacent. |
| Truth.MacOccursOnlyAsKey | stacks/overlay-doctor/reconcile.sh:160 | A MAC occurs in another claim's line only as that claim's own MAC, so the fixed-string grep removes no other line. |
| Truth.ConflictsAreContestedMacs | stacks/overlay-doctor/reconcile.sh:112 | The conflict list is exactly the MACs that two or more nodes claim, and its length their number. |
| Truth.TruthIsUncontested | stacks/overlay-doctor/reconcile.sh:156-163 | The final table has exactly the claims that no other node contradicts. |
| Truth.TruthIsAFunction | stacks/overlay-doctor/reconcile.sh:156-163 | No MAC occurs twice in the final table. |
| Plan.PlanBody | stacks/overlay-doctor/reconcile.sh:79-90 | The two-file awk loop prints, once each, exactly the operations that a difference between the tables it has read calls for. |
| Plan.RowsAsPrinted | stacks/overlay-doctor/reconcile.sh:76-95 | A printed destination row gives its MAC and address on any device, a master row counts on the tunnel device only. |
| Plan.MasterPlan | stacks/overlay-doctor/reconcile.sh:92-98 | Exactly the local MACs with a master row on the tunnel device, once each, and nothing for an empty table. |
| Plan.NodePlan | stacks/overlay-doctor/reconcile.sh:176-182 | For every database that the listing shows, the plan is exactly the operations it needs. |
| Plan.ShownIffAddressed | stacks/overlay-doctor/reconcile.sh:75-76 | Some listing shows a database if and only if each of its destinations is an address. |
| Plan.PlanRepairs | stacks/overlay-doctor/reconcile.sh:79-98 | Applying a plan in any order makes the node agree with the table and leaves every other MAC and every remote master row as it was. |
| Plan.NothingPlannedIffAgrees | stacks/overlay-doctor/reconcile.sh:79-98 | The plan is empty if and only if the node agrees with the table. |
| Plan.PlanHasOneLineEach | stacks/overlay-doctor/reconcile.sh:180-184 | The number of lines is the number of wrong destinations plus that of wrong local master rows. |
| Plan.NoShorterRepair | stacks/overlay-doctor/reconcile.sh:79-98 | No sequence of n operations settles more than n disagreements. |
| Plan.PlanSettlesOneEach | stacks/overlay-doctor/reconcile.sh:185-204 | After the first k operations of a plan exactly k disagreements fewer are left. |
| Plan.PlanIsShortest | stacks/overlay-doctor/reconcile.sh:79-98 | Every sequence of operations that makes the node agree is at least as long as the plan. |
| Plan.StaysInTableIffNotEmpty | stacks/overlay-doctor/reconcile.sh:79-90 | Every operation is about a MAC of the truth file if and only if the file is not empty or the listing has no destination of another node. |
| Plan.EmptyTruthRewritesForeignRow | stacks/overlay-doctor/reconcile.sh:79-90 | An empty truth file and a one-row listing for which the promise fails. |
| Cycle.TableIsUncontestedClaims | stacks/overlay-doctor/reconcile.sh:137-163 | The table maps a MAC to a node if and only if that node claims it and no other does. |
| Cycle.AllClaimsMean | stacks/overlay-doctor/reconcile.sh:69-145 | A node claims a MAC if and only if it was reached, has one sandbox and a live endpoint with that MAC beginning with 02:42:. |
| Cycle.AllGatheredMeans | stacks/overlay-doctor/reconcile.sh:40-65 | Every gather succeeded if and only if every node was reached and runs one matching sandbox, or none and no endpoint. |
| Cycle.TableSize | stacks/overlay-doctor/reconcile.sh:156-165 | The table has as many lines as there are MACs that exactly one node claims. |
| Cycle.GateMeans | stacks/overlay-doctor/reconcile.sh:151-169 | The cycle may write if and only if every node has answered and at least the minimum of MACs is claimed by exactly one node each. |
| Cycle.OnlyUncontestedMacsAreWritten | stacks/overlay-doctor/reconcile.sh:156-205 | With a minimum of at least one, every planned operation is about a MAC that exactly one node claims. |
| Cycle.Overlay.ApplyPlan | stacks/overlay-doctor/reconcile.sh:185-204 | Runs the plan up to its first failure; the database is the effect of the writes that landed; a dry run changes nothing. |
| Cycle.Overlay.GatherAll | stacks/overlay-doctor/reconcile.sh:137-154 | All nodes are counted if and only if every node was reached with one sandbox, or with none and no endpoint, and then the claims are those of all nodes. |
| Cycle.Overlay.RunPlans | stacks/overlay-doctor/reconcile.sh:171-205 | The writes run through the nodes' plans in order up to the first failure, and the databases are the effect of those that landed. |
| Cycle.Overlay.Cycle | stacks/overlay-doctor/reconcile.sh:130-209 | Nothing happens unless every node has answered; no write behind a closed gate or in a dry run; the writes are a prefix of the plans in node order, ended by the first failure; the heartbeat counts exactly the complete cycles; the databases are exactly the effect of the landed writes; a complete cycle makes every participating node agree with the table with one write for each disagreement, an incomplete one has settled one disagreement with each landed write, and a cycle that finds agreement writes nothing. |
| Cycle.Overlay.CycleTwice | stacks/overlay-doctor/reconcile.sh:221-224 | After a complete cycle with stable endpoints the next one completes without a write, and every participating node agrees with the table. |
| Cycle.OutsideTableUntouched | stacks/overlay-doctor/reconcile.sh:9-11 | However a cycle ends, nothing about a MAC outside the table has changed on any node. |
| Cycle.ClusterAgrees | stacks/overlay-doctor/reconcile.sh:171-205 | After all writes of all plans every participating node agrees with the table. |
| Cycle.ClusterIdle | stacks/overlay-doctor/reconcile.sh:171-205 | Where every participating node agrees with the table, no node has a plan. |
| Cycle.SameTable | stacks/overlay-doctor/reconcile.sh:137-169 | Table and gate depend only on which nodes answered and on their endpoints, not on the forwarding rows. |
| Cycle.WritesSettleOneEach | stacks/overlay-doctor/reconcile.sh:171-205 | However far a cycle comes, every write that landed has settled one disagreement of the participating nodes. |
| Cycle.FlattenInOrder | stacks/overlay-doctor/reconcile.sh:173-205 | The plans are carried out node by node, in the order of the nodes. |
| Cycle.PlansHaveOneLineEach | stacks/overlay-doctor/reconcile.sh:180-184 | The plans have as many lines as the participating nodes have disagreements; nodes without a sandbox have neither. |
| Cycle.CyclePlanIsShortest | stacks/overlay-doctor/reconcile.sh:171-205 | And no list of writes that makes every participating node agree is shorter. |
| DnsGenerator.HostsFromRouters | stacks/dns/generator.py:20-38 | Exactly the valid names that some router with status enabled or warning names, up to case and trailing dots. |
| DnsGenerator.ValidHostMeans | stacks/dns/generator.py:13-15 | A name is valid if and only if it has at most 253 characters, each component has the shape of the pattern, and the last two are danhughes and dev. |
| DnsGenerator.NameMeans | stacks/dns/generator.py:35 | A text gives a name if and only if it is that name character by character up to case, with dots behind it. |
| DnsGenerator.DecimalMeans | stacks/dns/generator.py:42 | A byte of an address is a number from 0 to 255 written without leading zeros. |
| DnsGenerator.FindZonesInvertsRender | stacks/dns/generator.py:41-46 | Reading back a rendered list of hosts gives that list. |
| DnsGenerator.ParsedIsWhatItHolds | stacks/dns/generator.py:100-101 | Whatever set a file holds, the publisher's own pattern finds exactly that set in it. |
| DnsGenerator.Generator.Publish | stacks/dns/generator.py:49-76 | Replaces the file or leaves it, and never writes unchanged content. |
| DnsGenerator.Generator.Plausible | stacks/dns/generator.py:100-105 | The guard compares with the set that was really published last, and lets it lose at most a quarter of five or more hosts. |
| DnsGenerator.Generator.PollOnce | stacks/dns/generator.py:94-111 | The file becomes the text of the accepted hosts exactly if home is among them, the change is plausible and the replacement works; otherwise it stays. |
| DnsGenerator.Generator.Run | stacks/dns/generator.py:87-111 | On every run of polls the file is absent or some rendered set of valid names with home, and successive sets are plausible changes. |
| DnsGenerator.GeometricBound | stacks/dns/generator.py:100-105 | After k publishes the records number at least (3/4)^k of the first ones while no earlier set had fewer than five. |
| DnsResolver.Resolver.Startup | stacks/dns/entrypoint.sh:68-85 | The server starts if and only if one of the attempts finds an acceptable file, and with the first such file installed and loaded. |
| DnsResolver.Resolver.ApplyGenerated | stacks/dns/entrypoint.sh:28-55 | A poll installs exactly what a resolver without memory would, tries a reload exactly for an acceptable file that is not installed, and keeps installed, loaded and acceptable equal; a remembered hash is of a file that was empty, rejected or is installed. |
| DnsResolver.Resolver.Run | stacks/dns/entrypoint.sh:94-98 | The same for every sequence of files and reload outcomes, with the number of reloads. |
| DnsResolver.StableFileIsInstalled | stacks/dns/entrypoint.sh:28-55 | A stable acceptable file is installed from the first successful reload on, and not before. |
| DnsResolver.StableFileIsRetried | stacks/dns/entrypoint.sh:46-52 | It is tried at every poll up to that reload and never after it. |
| DnsPipeline.LinesOfRender | stacks/dns/generator.py:41-46 | The lines of a published file, written out: for each host in order its static zone and its address record, and an empty line at the end. |
| DnsPipeline.PublishedLines | stacks/dns/generator.py:41-46 | A file of a set of hosts has exactly those lines. |
| DnsPipeline.RecordIffHomeAtVip | stacks/dns/entrypoint.sh:25-27 | A published file passes the consumer's record check if and only if home is among its hosts and its address is the one the check names. |
| DnsPipeline.PublishedIsAcceptableIff | stacks/dns/entrypoint.sh:40-45 | Whatever the publisher has put into its file is acceptable to the consumer if and only if the address is that one and the configuration check accepts it. |
| DnsPipeline.PublishedIsInstalled | stacks/dns/entrypoint.sh:28-55 | A published file that stays and passes the configuration check is installed from the first successful reload on, and not before. |

## Left out

- TCP sessions with NUT, docker, ssh, systemctl and flock calls: oracles whose outcomes are inputs.
- The never-ending loops of runWatch and runUndrain in imperative form: they are transitions of the
  protocol, which interleaves them; RunDrain and Sections have the functions they call.
- RunDrain.MonitoredDrain: the attempt runs as one piece between two ticks; its single steps are
  interleaved with them in the protocol (ProtocolRuns.MonitoredDrainReturns).
- RunDrain.RunDrain: the second recovery that runWatch makes after an aborted drain, and the time that
  a recovery takes.
- The protocol leaves open what the listings say, so a Conclude label may claim convergence whenever
  the drain was reported; the exact gate is in RunDrain.
- Counting the lines of `docker ps -q`: the number of containers is an input.
- Poweroff is one step; the retries of the poweroff request and the wait for it are not modelled.
- UPS_TEST_OB: only as the flag that suppresses the converged and deadline poweroffs.
- Wrap-around of the 64-bit probe counter and of timestamps, and negative timestamps on failed probes.
- Deadlines.Lock: a try of the lock at the very instant of the deadline, where the select may go either way.
- Deadlines: time passes in commands, probes and sleeps only; writes to the NUT socket, which have no
  deadline, take none.
- Logging, its deduplication (lastMissing, emptyLogged, the recovery status), and configuration loading.
- The order and the text form of plan lines; every plan theorem holds for any order.
- Endpoint lines without an address, which docker does not print; several spaces between fields.
- The counters of the cycle's log line, unknown_of among them, and the --plan mode.
- The second look at the endpoints in repair_master: a write that it refuses is one that fails without effect.
- Truth tables with CR characters, and sort's locale: byte order is assumed, as LC_ALL=C gives.
- The regular expressions that pull back-quoted names out of Traefik rules: a router is its list of names.
- File modes, fsync and temporary files of publish: an atomic replacement or none.
- A records file that the publisher did not render itself is not a starting point of DnsGenerator.Generator.
- The trust anchor, signals, and failing copies in the resolver's entrypoint.
- internal/ups/config.go, contract.go, log.go, internal/wol, cmd/wol-on-boot and the deployment scripts:
  parsing of defaults, tables and plumbing that would add only easy members.
