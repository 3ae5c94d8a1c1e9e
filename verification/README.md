# deptui, verified

A Dafny model of the logic of deptui, a front end to deploy-rs, and of its auto-deploy
agent, with proofs of what the two promise. The agent watches git refs, polls them, plans
which hosts need a new revision, deploys those one after the other, and remembers how each
host ended. Everything it promises about hosts emerges from three pieces working together:
the planner in the daemon, the runner that turns each planned host into one outcome, and the
fold of outcomes into the stored state. The proofs are therefore about whole runs: any finite
sequence of polls, kicks, approvals, pauses, rechecks, validations, finished runs,
self-checks and restarts, each start loading a configuration of its own.

`dafny verify dfyconfig.toml` checks the project.

How the agent part is built, bottom up:

- `AgentState`, `Flake`, `Runner`, `Planner`: the stored state and its fold, profile order,
  one deploy run, and the two planners. What ssh, git, nix and the deploy child answer is an
  arbitrary input.
- `HostTrace`: the life of one host as a sequence of events (planned, folded, granted,
  revoked, paused, rechecked, probed), and the promises about one host as statements about
  all such sequences.
- `DaemonSteps`, `DaemonProofs`, `RunIdSteps`, `RunIds`: the daemon as a state machine with
  its queue, timers and self-restart, and what every step keeps.
- `Projection`, `Runs`: every step of the daemon, seen from one host, is a legal piece of
  that host's trace, so every run of the daemon is a valid host trace leading to the stored
  state. `Promises` puts the pieces together and states the README's rules over every run of
  the daemon; `Commands` says over every run what pauses, approvals, kicks, timers,
  histories and self-checks come to; `Counterexamples` gives runs from the first start on in
  which a documented promise fails.
- `Daemon`, `Check`: the daemon object and the oneshot `check`, as methods proved against
  the steps.

The rest: `StorePaths` and `VersionDiff` (closure diff), `DryRun` (plan parser),
`ShellQuote`, `Invocations` (splitting one deploy into children), `LineReader` (child
output), `Utf8` and `StripAnsi`, `Batch` (the TUI's deploy queue), and `Ordered` (key order
of the source's B-tree maps).

Five things the code does are not what its comments or documentation say. The model follows
the code:

- crates/deptui-agent/src/daemon.rs:1035 says that when a queued poll starts a run "the rest
  stays queued". The queue was moved out before the loop, so the rest is dropped.
  `DaemonProofs.DrainConserves` says exactly when nothing is lost,
  `DaemonProofs.DrainLosesTheRest` what is lost; `DaemonProofs.DrainLosesARequest` is a concrete case, and `Counterexamples.ARequestIsLost` a
  run of the daemon that ends in one;
  `DaemonProofs.RequeueingDrainConserves` shows that queueing the rest again would conserve
  every request.
- The repository's README.md:260-262 says a kick ends a park, too. It does not: a kick is a poll like any
  other, and the planner skips a host parked at the same revision unless it was approved
  (`DaemonProofs.KickEndsNoPark`).
- The repository's README.md:277-279 says a host that was down is deployed the moment it
  answers. The recheck takes the offline marker and the timer away before the catch-up poll
  has achieved anything (crates/deptui-agent/src/daemon.rs:784-811).
  `Promises.SleeperCatchesUp` says exactly when the host is deployed then,
  `Promises.SleeperForgottenExactly` when nothing is left that would bring the agent back to
  it before the next scheduled poll, and `Promises.QueuedCatchUpServedExactly` when a
  catch-up queued behind other work is served. In the run of
  `Counterexamples.ASleeperIsForgotten` the agent was paused when the host answered.
- crates/deptui-core/src/deploy.rs:1107-1110 presents `MAX_LINE` as a hard cap. The
  interactive reader's colon branch skips the check. `LineReader.CapHoldsExactly` says
  exactly when the cap holds, `LineReader.InteractiveOverruns` and
  `LineReader.ColonsExceedTheCap` how far it can be exceeded.
- crates/deptui/src/app.rs:4044 says the cached password is cleared when a deploy exits.
  `Batch.PasswordOutlivesBatchExactly` says when it is not, and `Batch.PasswordCanOutlive` is
  such a run.

The fallback that replaces undecodable slices by nothing in `strip_ansi`
(crates/deptui-core/src/deploy.rs:1014) can drop text; `StripAnsi.NothingLostExactly` says
exactly when.

## Model

| member | source | states |
|---|---|---|
| Promises.NoSameCommitRetryEver | crates/deptui-agent/src/daemon.rs:866-907 | Over every run of the daemon: between two rounds of a host at one revision, the first of which settled, an approval was granted or an outcome at another revision was recorded. |
| Promises.NoSecondDeployOfACommit | crates/deptui-agent/src/daemon.rs:874-882 | Over every run: between two pushes of one revision to a host, an approval was granted or an outcome at another revision was recorded. |
| Promises.ApprovalsBuyRounds | crates/deptui-agent/src/daemon.rs:660-722 | Over every run: deploys started under approval are at most the settled rounds planned under approval, and those at most the grants (flag going from false to true). |
| Promises.OverwritesOnlyItsOwn | crates/deptui-agent/src/runner.rs:613-750 | Over every run: whenever a round pushes, the host is configured, reachable (with catch-up), and either the round was planned under approval, or the agent succeeded there before (or may bootstrap) and the guard passes against the last success: off, no baseline, every profile unchanged, or the first changed one moved to an ancestor of the target. |
| Promises.FirstEncountersNeverDeploy | crates/deptui-agent/src/runner.rs:614-655 | Over every run: a host never deployed, not approved and not opted into bootstrap gets no push; its round ends adopted (then every managed profile was up to date), held, pending, failed or cancelled. |
| Promises.RecordsTellTheVerdict | crates/deptui-agent/src/runner.rs:785-827 | Over every run: a pushed host is recorded ok if and only if nobody cancelled, the child could be spawned and its last exit status is 0, cancelled if and only if the user cancelled, failed otherwise; and nobody else is recorded ok. |
| Promises.StoredStateIsTheLastOutcomes | crates/deptui-agent/src/state.rs:122-187 | At every moment of every run: each field of the stored host state is the closed form of the events that came last; never parked and pending at once; the reload migration is the identity; the baseline is empty or exactly the profiles managed in the last successful round. |
| Promises.MachineStaysSound | crates/deptui-agent/src/daemon.rs:821-828 | At every moment of every run: one run at most and never beside a validation; the queue has distinct watches and waits only behind one of the two; every watch of the configuration in force with an offline marker has its recheck armed. |
| Promises.RestartsOnlyAtRest | crates/deptui-agent/src/daemon.rs:325-353 | At every moment of every run: the process is down only with no run, validation or queued poll, and while a wanted restart is outstanding there is still a run or validation. |
| Promises.RunsAreForTheNeedy | crates/deptui-agent/src/daemon.rs:858-965 | Over every run, whatever step a run begins in: neither agent nor watch is paused, the revision is the one just seen, and its hosts are exactly the configured ones that their events make due for it. |
| Promises.IdlePollPlansTheDue | crates/deptui-agent/src/daemon.rs:866-907 | Over every run: a poll of an idle daemon, of an unpaused watch whose head is found, plans a host if and only if it is configured, its last pause event is not on, its last success is not at that revision, and an approval stands or neither the standing failure nor the standing hold is at that revision. |
| Promises.NewCommitIsPlanned | crates/deptui-agent/src/daemon.rs:874-889 | Over every run: such a poll plans every configured host that was never paused and has no outcome at that revision yet; parks and holds elsewhere block nobody. |
| Promises.QueuedRequestsArePolledExactlyWhen | crates/deptui-agent/src/daemon.rs:1029-1039 | Over every run, when a run or validation ends: nothing queued is lost if and only if no queued request but the last would start a run; lost requests leave their watches untouched. |
| Promises.SleeperCatchesUp | crates/deptui-agent/src/daemon.rs:738-818 | Over every run, whenever a recheck finds a pending host answering: its marker goes; it is planned in that step if and only if the daemon is idle, the watch unpaused, its head found, and the host configured and in need of that revision; a catch-up is queued exactly if the daemon is busy, and the recheck is armed again exactly if another host is still down. |
| Promises.SleeperForgottenExactly | crates/deptui-agent/src/daemon.rs:784-816 | Over every run: a sleeper that answers an idle daemon is left with no marker, no armed recheck, no queued poll and no run if and only if no other host of the watch is down and the watch is paused, its head not found, or the host not configured or not in need. |
| Promises.QueuedCatchUpServedExactly | crates/deptui-agent/src/daemon.rs:1029-1039 | Over every run: when the work in flight ends, a queued poll plans a host if and only if no request queued before it starts a run and the poll of its watch would plan that host. |
| Counterexamples.ARequestIsLost | crates/deptui-agent/src/daemon.rs:1034-1037 | There is a run from the first start on (three watches, one run in flight, two kicks) whose end of work leaves a queued request neither polled nor queued. |
| Counterexamples.ASleeperIsForgotten | crates/deptui-agent/src/daemon.rs:784-811 | There is a run from the first start on (a host down at its update, the agent paused, the host answering) in which a pending host that was never deployed answers its recheck and is forgotten. |
| Runs.EveryRunProjects | crates/deptui-agent/src/daemon.rs:409-489 | At every moment of every run of the daemon, under configurations that change from start to start, what a host has seen so far is a valid host trace, and leads to exactly the stored state of that host. |
| Runs.RunsGoOn | crates/deptui-agent/src/daemon.rs:306-353 | There is a run to begin with under any configuration, and every run goes on with any legal step, a start with a new configuration included: the promises are about all step sequences. |
| Projection.StepProjects | crates/deptui-agent/src/daemon.rs:409-489 | One step of the daemon, seen from one host, is a legal piece of that host's trace. |
| Projection.RunDoneProjects | crates/deptui-agent/src/daemon.rs:1007-1039 | The end of a run folds each planned host once and may plan hosts of the next run; seen from one host that is legal. |
| Projection.RecheckProjects | crates/deptui-agent/src/daemon.rs:742-818 | A recheck, with its catch-up poll and re-arming, seen from one host is legal. |
| Projection.RecheckPlans | crates/deptui-agent/src/daemon.rs:775-812 | A recheck that finds a pending host answering has a run of that watch with the host in it if and only if the daemon is idle, the watch unpaused, the head found, and the host configured and in need of the head once its marker is off. |
| Runs.RoundsRunUnderConfig | crates/deptui-agent/src/daemon.rs:306-324 | Over every run: every round in a host's trace ran under the configuration of its watch that was in force at some step of that run. |
| Commands.PausedIsTheLastWord | crates/deptui-agent/src/daemon.rs:613-658 | At every moment of every run: the agent, a watch or a host is paused if and only if it was told to pause and not told to resume since; commands for what is not configured count for nothing. |
| Commands.PauseSetsWhatItNames | crates/deptui-agent/src/daemon.rs:613-658 | A pause command sets what it names and nothing else, in every watch that has the host. |
| Commands.ApprovalIsForTheOneMeant | crates/deptui-agent/src/daemon.rs:663-722 | Over every run: an approval or revocation changes the flag of exactly the host it means, in the watch named or the only one that has it; ambiguous and unknown hosts change nothing. |
| Commands.HistoryIsTheNewestRuns | crates/deptui-agent/src/daemon.rs:1007-1023 | At every moment of every run: the history of a watch holds the records of its last 50 runs that ended, or of all, in order. |
| Commands.TimersFollowSleepers | crates/deptui-agent/src/daemon.rs:295-304 | Over every run: a configured watch has its recheck armed after a step if and only if one of its hosts sleeps, or the timer was armed before and the step neither fired it nor started the process. |
| Commands.ChangesAreActedOn | crates/deptui-agent/src/daemon.rs:225-255 | Over every run: from the self-check that finds a change on, until the next start, the process is gone or still busy. |
| Commands.NoChangeNoExit | crates/deptui-agent/src/daemon.rs:225-255 | Over every run: without such a find the process stays up from one start to the next. |
| Commands.BusyPollsQueueUp | crates/deptui-agent/src/daemon.rs:821-828 | Over every run: a poll of a busy daemon stands behind the queue as it was, unless its watch is queued already; nothing else happens. |
| Commands.KicksReachEveryWatch | crates/deptui-agent/src/daemon.rs:595-611 | Of the watches a kick polls in turn, each that is configured, unpaused and has its head found is seen at that head or waits in the queue. |
| Commands.DueRechecksAllHappen | crates/deptui-agent/src/daemon.rs:742-818 | When several rechecks are due, a host that answers in any of them is pending no more. |
| Commands.SilentSleepersStayPending | crates/deptui-agent/src/daemon.rs:784-804 | Over every run: a pending host that does not answer its recheck stays pending for its revision with what ssh says now, one that answers sheds its marker, and no other host changes. |
| Commands.StartupRemembersItsProbes | crates/deptui-agent/src/daemon.rs:357-404 | Over every run: a start writes down what ssh said of a host it probed once, and nothing else about it. |
| Commands.StartupKeepsTheRest | crates/deptui-agent/src/daemon.rs:357-404 | Over every run: a start keeps everything about hosts it does not probe. |
| Commands.ValidationsBeginAtRest | crates/deptui-agent/src/daemon.rs:438-469 | Over every run: a validation begins exactly when asked for with nothing in flight, and lasts until it ends. |
| Projection.ReloadIsIdentity | crates/deptui-agent/src/state.rs:299-307 | A host state with at most one of park and pending stamp survives the reload migration unchanged. |
| HostTrace.NoSameCommitRetry | crates/deptui-agent/src/daemon.rs:874-889 | On every valid host trace: a second round at a revision after a settled one was entitled by a grant or by an outcome at another revision in between. |
| HostTrace.NoSecondPush | crates/deptui-agent/src/daemon.rs:874-889 | On every valid host trace: two pushes of one revision have such an event between them. |
| HostTrace.PushBlocks | crates/deptui-agent/src/state.rs:127-187 | A push ends with the host deployed or parked at the revision and its approval spent. |
| HostTrace.BlockedStep | crates/deptui-agent/src/state.rs:127-187 | While nothing entitles the host, every event keeps it blocked at a revision it settled at. |
| HostTrace.ApprovalBudget | crates/deptui-agent/src/state.rs:127-187 | Pushes under approval are at most settled rounds under approval, which are at most grants. |
| HostTrace.BudgetInvariant | crates/deptui-agent/src/daemon.rs:699-719 | Sharper: a standing approval or an approved round in flight leaves one grant unspent. |
| HostTrace.ApprovedRound | crates/deptui-agent/src/state.rs:127-187 | A round planned under approval is never held; a pending one keeps the approval, every other outcome consumes it. |
| HostTrace.PushesExactlyWhenSafe | crates/deptui-agent/src/runner.rs:573-750 | A round that ran pushes if and only if the host is configured, known, reachable, and approved, or deployed before or bootstrappable with the guard passing against the last success. |
| HostTrace.NothingPushedWithoutRunning | crates/deptui-agent/src/runner.rs:335-379 | A round stopped by broken setup or by a cancel pushes nothing and is recorded as a failure or cancel. |
| HostTrace.FirstEncounterIsSafe | crates/deptui-agent/src/runner.rs:614-655 | A first encounter without approval or bootstrap pushes nothing, and is adopted if and only if the agent gets in and every managed profile is up to date. |
| HostTrace.StandingState | crates/deptui-agent/src/state.rs:122-187 | Closed form of the fold for deployed, held, failed, offline, unreachable, approved and paused; never parked and pending. |
| HostTrace.NeverParkedAndPending | crates/deptui-agent/src/state.rs:160-171 | `failed` and `offline` never stand together on a reachable state. |
| HostTrace.DeployedClosedForm | crates/deptui-agent/src/state.rs:129-142 | `deployed` and the baseline are those of the last ok or adopted outcome. |
| HostTrace.HeldClosedForm | crates/deptui-agent/src/state.rs:143-148 | `held` is the last hold with no later success. |
| HostTrace.FailedClosedForm | crates/deptui-agent/src/state.rs:149-183 | `failed` is the last failure or cancel with no later success or pending round, with its message. |
| HostTrace.OfflineClosedForm | crates/deptui-agent/src/state.rs:160-171 | `offline` is the last pending round with no later success, failure or answered recheck. |
| HostTrace.RemarksClosedForm | crates/deptui-agent/src/daemon.rs:381-403 | `unreachable` is the last complaint of ssh with no later success or answer; the kind shown is that of the latest complaint; `approved` and `paused` are the last words on them. |
| HostTrace.LatestStands | crates/deptui-agent/src/state.rs:122-187 | The closed forms mean what they say: the event they name is the one standing event, and there is none exactly when they name none. |
| HostTrace.NeedsExactly | crates/deptui-agent/src/daemon.rs:866-889 | On every valid host trace, the planner's rule holds if and only if the host is due by its events alone: pause, last success, standing approval, failure and hold. |
| HostTrace.FlightMatchesState | crates/deptui-agent/src/daemon.rs:890-906 | The adopt flag and baseline a round was planned with still agree with the stored state when it ends. |
| HostTrace.BaselineAllOrNothing | crates/deptui-agent/src/runner.rs:794-823 | The stored baseline is empty or covers exactly the profiles managed in the last successful round; empty while never deployed. |
| DaemonProofs.InvariantKept | crates/deptui-agent/src/daemon.rs:409-489 | Every command, timer and start keeps the machine invariant. |
| DaemonProofs.StartupEstablishesInvariant | crates/deptui-agent/src/daemon.rs:306-324 | Starting from any saved state establishes it: every configured watch with an offline marker is armed. |
| DaemonProofs.HandoverKept | crates/deptui-agent/src/daemon.rs:225-255 | Both self-restart exits happen only with nothing running, validating or queued, and a wanted restart is taken as soon as that is so. |
| DaemonProofs.FinishRunKeepsInvariant | crates/deptui-agent/src/daemon.rs:1007-1039 | Ending a run keeps the invariant: hosts left offline get their recheck armed. |
| DaemonProofs.RecheckKeepsInvariant | crates/deptui-agent/src/daemon.rs:742-818 | A recheck keeps it through partial success, re-arming and the catch-up poll. |
| DaemonProofs.RecheckedHosts | crates/deptui-agent/src/daemon.rs:784-804 | A recheck writes exactly the offline hosts of its watch. |
| DaemonProofs.AnswerLeadsTo | crates/deptui-agent/src/daemon.rs:784-816 | What an answer leads to in an arbitrary sound state: marker off, catch-up planned or queued, recheck armed again or not, each exactly when. |
| DaemonProofs.RequestPollPolls | crates/deptui-agent/src/daemon.rs:821-965 | A poll leaves every host state as it is, only queues while busy, and starts at most one, fitting, run. |
| DaemonProofs.PollStarts | crates/deptui-agent/src/daemon.rs:821-965 | A poll of an idle daemon starts a run exactly when somebody needs the head's revision; the head is remembered exactly when looked at and found; no other watch changes. |
| DaemonProofs.PollPlansTheNeedy | crates/deptui-agent/src/daemon.rs:862-907 | A poll of an idle, unpaused watch plans a host if and only if it is configured and needs the revision, whatever triggered the poll. |
| DaemonProofs.PollPlansExactly | crates/deptui-agent/src/daemon.rs:821-965 | A poll of an idle daemon ends with a run that holds the host if and only if the watch is unpaused, its head found, and the host configured and in need. |
| DaemonProofs.KickEndsNoPark | crates/deptui-agent/src/daemon.rs:880-882 | A kick does not plan a host parked at the head's revision without approval. |
| DaemonProofs.BegunRunsFit | crates/deptui-agent/src/daemon.rs:862-965 | In whatever step a run begins, it has a fresh run id, the revision last seen, and exactly the hosts that need it. |
| DaemonProofs.DrainPolls | crates/deptui-agent/src/daemon.rs:1031-1038 | Draining the queue leaves host states as they are and starts at most one run. |
| DaemonProofs.DrainExact | crates/deptui-agent/src/daemon.rs:1031-1038 | The drain polls exactly the requests up to the first that starts a run, and empties the queue. |
| DaemonProofs.DrainStarts | crates/deptui-agent/src/daemon.rs:1031-1038 | The drain starts a run if and only if some queued request would start one. |
| DaemonProofs.DrainPlansExactly | crates/deptui-agent/src/daemon.rs:1031-1038 | The drain plans a host on behalf of the i-th request if and only if no earlier request starts a run and the poll of that watch would plan the host. |
| DaemonProofs.DrainConserves | crates/deptui-agent/src/daemon.rs:1029-1039 | Every queued request is polled or stays queued if and only if no request but the last would start a run. |
| DaemonProofs.DrainLosesTheRest | crates/deptui-agent/src/daemon.rs:1029-1039 | What the written drain loses is exactly the suffix behind the first request that starts a run. |
| DaemonProofs.LostWithoutATrace | crates/deptui-agent/src/daemon.rs:1029-1039 | The watch of a lost request is left as it was. |
| DaemonProofs.DrainLosesARequest | crates/deptui-agent/src/daemon.rs:1034-1037 | A concrete configuration, state and queue in which a queued request is lost. |
| DaemonProofs.RequeueingDrainConserves | crates/deptui-agent/src/daemon.rs:1034-1037 | The drain the comment describes, which queues the rest again, conserves every request in order. |
| RunIds.RunsAreFoundById | crates/deptui-agent/src/daemon.rs:580-593 | Over every run: a stored run is the one found under its id, and no other watch has a run with that id. |
| RunIds.IdsKept | crates/deptui-agent/src/state.rs:244-256 | Every step keeps run ids ascending within a watch, distinct across watches and below the counter. |
| Daemon.Daemon.constructor | crates/deptui-agent/src/daemon.rs:306-324 | Loading, startup validation and resuming rechecks leave the state of the startup step, with the invariant. |
| Daemon.Daemon.RequestPoll | crates/deptui-agent/src/daemon.rs:821-965 | The method does exactly the poll step and keeps the invariant. |
| Daemon.Daemon.DrainPending | crates/deptui-agent/src/daemon.rs:1029-1038 | The early-returning loop does exactly the drain. |
| Daemon.Daemon.FoldRecord | crates/deptui-agent/src/daemon.rs:1007-1023 | Every outcome of the record is folded into its host in order and the record is pushed to the history. |
| Daemon.Daemon.FinishRun | crates/deptui-agent/src/daemon.rs:1007-1039 | Fold, clear the run, arm if somebody was offline, drain: the state is that of the finish step. |
| Daemon.Daemon.ScheduleRecheck | crates/deptui-agent/src/daemon.rs:295-304 | Arms the recheck exactly for a configured watch. |
| Daemon.Daemon.Validate | crates/deptui-agent/src/daemon.rs:438-459 | Accepted exactly when neither a run nor a validation is in flight. |
| Daemon.Daemon.ValidateDone | crates/deptui-agent/src/daemon.rs:460-469 | Ends the validation and drains the queue. |
| Daemon.Daemon.Kick | crates/deptui-agent/src/daemon.rs:595-611 | Polls the named watch or all of them in order; unknown names change nothing. |
| Daemon.Daemon.PollEach | crates/deptui-agent/src/daemon.rs:724-736 | Polls the due watches in order. |
| Daemon.Daemon.RecheckDue | crates/deptui-agent/src/daemon.rs:742-818 | Rechecks each due watch once, in order. |
| Daemon.Daemon.RecheckWatch | crates/deptui-agent/src/daemon.rs:750-817 | Disarm, probe, record verdicts, catch up, re-arm: the state is that of the recheck step. |
| Daemon.Daemon.ProbeOffline | crates/deptui-agent/src/daemon.rs:775-783 | Sorts exactly the offline hosts into those that answered and those that did not. |
| Daemon.Daemon.RecordVerdicts | crates/deptui-agent/src/daemon.rs:784-804 | Hosts that answered shed their marker; the others keep it with the freshest reason and kind; nobody else changes. |
| Daemon.Daemon.SetPaused | crates/deptui-agent/src/daemon.rs:613-658 | Pauses or resumes the agent, one watch, or one host in every watch that has it; unknown names change nothing. |
| Daemon.Daemon.Approve | crates/deptui-agent/src/daemon.rs:663-722 | Grants or revokes exactly the approval of the one host meant; ambiguous or unknown hosts change nothing. |
| Daemon.Daemon.CommandDone | crates/deptui-agent/src/daemon.rs:328-337 | The process exits after a command exactly when a restart is wanted and nothing is left to do. |
| Daemon.Daemon.SelfCheckDue | crates/deptui-agent/src/daemon.rs:225-255 | A changed binary or config exits at once at rest, and is remembered otherwise. |
| Planner.PlanExact | crates/deptui-agent/src/daemon.rs:862-907 | A host is planned if and only if it is configured and neither paused, nor running the revision, nor parked or held at that very revision without approval; once, in key order, adoptable only if never deployed and not approved, guarded by the recorded paths unless approved. |
| Planner.PlannersAgree | crates/deptui-agent/src/main.rs:524-555 | The filter of `check` selects the same plan as the daemon's loop, for every state and revision. |
| Planner.Consider | crates/deptui-agent/src/daemon.rs:866-906 | One pass of the host loop: it passes a host over exactly when it is paused, runs the revision, or is parked or held at that very revision without approval. |
| Planner.DaemonPlan | crates/deptui-agent/src/daemon.rs:862-907 | The host loop builds exactly the plan. |
| Check.CheckIsAnIdlePoll | crates/deptui-agent/src/main.rs:494-588 | `check` on one watch leaves exactly the state the idle daemon reaches by polling it and finishing the run it starts. |
| Check.CheckOnce | crates/deptui-agent/src/main.rs:483-593 | The loop over the watches reaches the state and failure flag of watch-by-watch checking. |
| Check.CheckFailsExactly | crates/deptui-agent/src/main.rs:494-593 | The command reports failure if and only if some selected, unpaused watch breaks its poll or has a host that ends failed, each judged from the state the command started with; watches not selected are left as they were. |
| Check.FoldRecord | crates/deptui-agent/src/main.rs:574-586 | Its own fold loop agrees with the daemon's, and reports exactly whether a host failed. |
| Check.DeployInline | crates/deptui-agent/src/main.rs:561-586 | Runs the plan inline and folds what became of it. |
| AgentState.PendingOutcomesAreKinds | crates/deptui-core/src/agentwire.rs:79-95 | The pending outcomes and the offline kinds name each other both ways, and no pending outcome settles a round. |
| AgentState.HostEntry.ApplyOutcome | crates/deptui-agent/src/state.rs:127-187 | The field assignments amount to the fold. |
| AgentState.PushRun | crates/deptui-agent/src/state.rs:250-256 | Pushing and popping in a loop keeps the last 50 records, or all there are, in order. |
| AgentState.HistoryKeepsTheLatest | crates/deptui-agent/src/state.rs:250-256 | Pruning at every push keeps what pruning once at the end keeps: the last 50. |
| AgentState.MigrationKeepsThePending | crates/deptui-agent/src/state.rs:299-307 | Reloading: a host both pending and parked stays pending and is parked no more; everything else stays as it was. |
| Runner.Execute | crates/deptui-agent/src/runner.rs:279-547 | The run ends with the specified record, reaches `deploy::run` for exactly the specified hosts, stores the first 2000 broadcast lines, and ends its log with the end of the run or the broken setup. |
| Runner.RunAccounting | crates/deptui-agent/src/runner.rs:335-547 | Exactly one outcome per planned host, in plan order, on every path; broken setup fails them all with nothing pushed. |
| Runner.NothingAfterCancel | crates/deptui-agent/src/runner.rs:364-379 | Once a cancel is seen, at a host boundary or while a host deploys, every later host is recorded cancelled and nothing is pushed to it. |
| Runner.HostRunsExactly | crates/deptui-agent/src/runner.rs:364-379 | A planned host gets its turn if and only if the setup worked, no cancel was seen at its boundary, and the user cancelled no deploy before it: failures, holds and unreachable hosts never keep later ones from running. |
| Runner.RecordAt | crates/deptui-agent/src/runner.rs:365-538 | Entry k of the record, and of the list of pushes, is about planned host k and nothing else. |
| Runner.RunHost | crates/deptui-agent/src/runner.rs:365-538 | One pass of the host loop: outcome, push, and whether the run is stopped from here on. |
| Runner.RunHosts | crates/deptui-agent/src/runner.rs:364-538 | The host loop over the whole plan. |
| Runner.FailAll | crates/deptui-agent/src/runner.rs:337-361 | Broken setup: the loop records what the specification says of every host, and pushes to none. |
| Runner.RunLog.Log | crates/deptui-agent/src/runner.rs:296-302 | Every line is broadcast; the stored log is the first 2000 of them. |
| Runner.DeployHost | crates/deptui-agent/src/runner.rs:550-828 | The branches of `deploy_host` end as specified. |
| Runner.PushedExactly | crates/deptui-agent/src/runner.rs:562-750 | `deploy::run` is reached if and only if the host is configured and known, the probe gets in, first encounters may deploy, and the guard passes. |
| Runner.GuardExact | crates/deptui-agent/src/runner.rs:665-716 | The guard lets a push through if and only if every profile is as recorded, or the first one that is not, in key order, was moved and the running revision is an ancestor of the target. |
| Runner.GuardProfiles | crates/deptui-agent/src/runner.rs:665-716 | The guard loop computes that verdict. |
| Runner.ProbeExact | crates/deptui-agent/src/runner.rs:619-655 | The first-encounter probe adopts if and only if every profile is up to date, and records the paths it saw for all of them, or nothing if one was not told. |
| Runner.ProbeProfiles | crates/deptui-agent/src/runner.rs:622-654 | The probe loop with its size check computes that. |
| Runner.ReadBackExact | crates/deptui-agent/src/runner.rs:801-816 | The read-back records the paths of all profiles, or nothing if one could not be read. |
| Runner.Push | crates/deptui-agent/src/runner.rs:750-827 | The event loop and read-back: stopped if and only if the user cancelled; else failed by the last spawn error; else deployed if and only if the last exit status is 0, failed by its code or by having none. |
| Runner.FirstEncounterNeverPushes | crates/deptui-agent/src/runner.rs:619-655 | A first encounter that may not bootstrap is never pushed to, and adopted if and only if reachable with every managed profile up to date. |
| Runner.UnguardedNeverHeld | crates/deptui-agent/src/runner.rs:619-716 | With nothing to adopt and no baseline a host is never held. |
| Runner.PushOutcomes | crates/deptui-agent/src/runner.rs:788-827 | A push ends ok, failed or cancelled, only a pushed host ends ok, and no host is skipped. |
| Runner.PushVerdict | crates/deptui-agent/src/runner.rs:785-827 | The record of a pushed host, read off the event list: cancelled, ok and failed each exactly when, with the last spawn error or exit code as its reason. |
| Runner.UnpushedVerdict | crates/deptui-agent/src/runner.rs:550-660 | The record of a host that was not pushed to: failed exactly if not configured or not in the flake; offline, denied or stalled exactly as ssh found it down, refusing or hung, in its words. |
| Runner.BaselineIsWhole | crates/deptui-agent/src/runner.rs:599-655 | What a success records covers exactly the profiles managed at that revision, with the paths read back or probed; or nothing. |
| Flake.OrderedProfilesExact | crates/deptui-core/src/flake.rs:59-81 | Every declared profile exactly once; names the node orders first, in order of first mention, else `system`; the rest alphabetically. |
| Flake.ComputeOrderedProfiles | crates/deptui-core/src/flake.rs:64-81 | The two loops compute that order. |
| Flake.ManagedExact | crates/deptui-agent/src/runner.rs:596-612 | The managed profiles are exactly the declared ones, or of them `system` or `home` alone, as selected; without repeats, in push order. |
| VersionDiff.DiffPatchesRemoteToLocal | crates/deptui-core/src/host.rs:809-844 | Read as a patch, the diff turns the remote name-to-rendered-versions map into the local one, every entry fitting what it finds. |
| VersionDiff.DiffDeterminesLocal | crates/deptui-core/src/host.rs:809-876 | The remote paths and the diff determine which versions of each name the local closure holds: local closures with the same diff against the same remote have the same version sets, as long as no version reads like the separator or the placeholder. |
| VersionDiff.DiffEmptyIffSame | crates/deptui-core/src/host.rs:809-876 | The diff is empty if and only if the two path sets are equal. |
| VersionDiff.ContentOnlyExact | crates/deptui-core/src/host.rs:846-876 | The content-only form appears if and only if the version maps agree and the path sets differ; its count is the larger side, its samples the first of each side in order, and samples and remainder count exactly the paths on one side only. |
| VersionDiff.DiffNamesAscend | crates/deptui-core/src/host.rs:813-844 | Each name appears at most once, in order. |
| VersionDiff.BucketExact | crates/deptui-core/src/host.rs:911-923 | A version is in a name's bucket if and only if some path splits into the two; no bucket is empty or nameless. |
| VersionDiff.BucketsReadBuilt | crates/deptui-core/src/host.rs:911-923 | The buckets of a closure of such paths are exactly its names, each with the versions it occurs in. |
| VersionDiff.BucketOfSet | crates/deptui-core/src/host.rs:911-923 | Buckets depend on the set of paths only, not on order or repetition. |
| StorePaths.SplitKeepsText | crates/deptui-core/src/host.rs:945-971 | Behind the first dash, the split cuts at the first dash before a digit and loses nothing but that dash, moving at most one wrapper suffix back to the name. |
| StorePaths.SplitReadsBuilt | crates/deptui-core/src/host.rs:933-971 | Of any path put together as `<dir>/<hash>-<name>-<version>`, with or without version and wrapper suffix, the split gives back the name, wrapper included, and the version. |
| StorePaths.HashNeverMatters | crates/deptui-core/src/host.rs:945-949 | Neither the hash nor the directory of a path makes a difference to its split. |
| VersionDiff.VersionsShownApart | crates/deptui-core/src/host.rs:972-990 | Different version sets never render alike, as long as no version reads like the separator or the placeholder. |
| VersionDiff.ShownLeastFirst | crates/deptui-core/src/host.rs:973-990 | Versions are listed least first with a comma between them, an empty one spelled out. |
| VersionDiff.OnePackageShown | crates/deptui-core/src/host.rs:809-876 | One package on either side: a new version shows as an update from the remote version to the local one, a rebuild as one changed path with both base names, the same path as nothing. |
| VersionDiff.TwoPackagesShown | crates/deptui-core/src/host.rs:823-843 | Two packages of different names show as one removed and one added, in order of their names. |
| VersionDiff.ComputeVersionDiff | crates/deptui-core/src/host.rs:809-876 | The method computes the diff. |
| VersionDiff.ContentFallback | crates/deptui-core/src/host.rs:846-874 | The fallback with its capped samples. |
| VersionDiff.ComputeBuckets | crates/deptui-core/src/host.rs:911-923 | The bucketing loop. |
| StorePaths.ComputeSplit | crates/deptui-core/src/host.rs:945-971 | The byte scan and suffix peeling compute the split that `SplitReadsBuilt` reads paths back with. |
| StripAnsi.StripKeepsExactlyTheText | crates/deptui-core/src/deploy.rs:938-1031 | Whatever control sequences, operating system commands, escapes and control bytes stand between, and even if the last is cut off, stripping keeps exactly the text, less variation selectors. |
| StripAnsi.OnlySelectorsDrop | crates/deptui-core/src/deploy.rs:1019-1030 | Of any text, dropping the variation selectors leaves every other character in its place. |
| StripAnsi.StripIsClean | crates/deptui-core/src/deploy.rs:938-1031 | Output is valid UTF-8 without ESC, DEL, variation selectors or control bytes other than tab. |
| StripAnsi.StripKeepsClean | crates/deptui-core/src/deploy.rs:953-1031 | Clean text passes unchanged. |
| StripAnsi.StripIdempotent | crates/deptui-core/src/deploy.rs:953-1031 | Stripping twice is stripping once. |
| StripAnsi.StripIsSubsequence | crates/deptui-core/src/deploy.rs:953-1031 | Output is a subsequence of the input. |
| StripAnsi.NothingLostExactly | crates/deptui-core/src/deploy.rs:1002-1016 | The `unwrap_or("")` fallback drops text if and only if the scanner meets an ESC directly followed by a non-ASCII byte. |
| StripAnsi.NothingLostOnOrdinaryEscapes | crates/deptui-core/src/deploy.rs:1002-1016 | In particular it never does when no ESC is followed by a non-ASCII byte. |
| StripAnsi.TextCanBeLost | crates/deptui-core/src/deploy.rs:995-1014 | A concrete text that loses a letter. |
| StripAnsi.StripAnsi | crates/deptui-core/src/deploy.rs:953-1031 | The method computes the specification, and terminates. |
| StripAnsi.KeepText | crates/deptui-core/src/deploy.rs:953-1018 | The scanning loop. |
| LineReader.ForwardIsReference | crates/deptui-core/src/deploy.rs:1126-1155 | The chunk-fed reader sends exactly what splitting the whole input at terminators and cutting lines at the cap gives. |
| LineReader.ForwardLines | crates/deptui-core/src/deploy.rs:1126-1155 | Any chunking gives the lines of the concatenated input. |
| LineReader.ReadInteractive | crates/deptui-core/src/deploy.rs:1055-1101 | The same for the prompt-aware reader, which sends as prompts exactly what asks for a secret. |
| LineReader.FeedTwice | crates/deptui-core/src/deploy.rs:1062-1097 | Feeding two chunks is feeding their concatenation. |
| LineReader.NothingLost | crates/deptui-core/src/deploy.rs:1157-1176 | For both readers the raw segments concatenated are the input minus CR and LF. |
| LineReader.ForwardSound | crates/deptui-core/src/deploy.rs:1107-1150 | Every segment `forward_lines` sends for any input is non-empty, within the cap and free of terminators. |
| LineReader.NoPromptWaits | crates/deptui-core/src/deploy.rs:1078-1093 | After every byte the buffer of the interactive reader holds no sudo prompt. |
| LineReader.PromptsExactly | crates/deptui-core/src/deploy.rs:1078-1093 | Of everything the interactive reader sends, exactly the segments that say "password" or "passphrase" in any case and end with a colon, or colon and space, are prompts; `forward_lines` sends none. |
| LineReader.PromptAtItsColon | crates/deptui-core/src/deploy.rs:1083-1092 | Text below the cap that names a secret is sent as one prompt the moment its first colon arrives, and reading starts afresh behind it. |
| LineReader.HarmlessLine | crates/deptui-core/src/deploy.rs:1080-1101 | A line below the cap no part of which asks for a secret is sent as one line. |
| LineReader.TerminatorSeparates | crates/deptui-core/src/deploy.rs:1071-1077 | For both readers, a CR or LF cuts the input in two that are read apart. |
| LineReader.InteractiveOverruns | crates/deptui-core/src/deploy.rs:1080-1096 | Beyond the cap the interactive reader only ever carries bytes that could complete a prompt, but for the last. |
| LineReader.CapHoldsExactly | crates/deptui-core/src/deploy.rs:1080-1097 | The interactive reader keeps every segment within the cap if and only if its full buffer never meets another byte that is not a terminator. |
| LineReader.FullMeansColon | crates/deptui-core/src/deploy.rs:1080-1096 | The buffer of the interactive reader is only ever full after a colon. |
| LineReader.ColonsExceedTheCap | crates/deptui-core/src/deploy.rs:1083-1096 | Any number of colons is sent as one segment: the cap does not hold of the interactive reader. |
| LineReader.ReadersAgreeWithoutColons | crates/deptui-core/src/deploy.rs:1055-1155 | Without colons the two readers agree, and every segment of both is non-empty, within the cap and free of terminators. |
| Invocations.PlanPreservesMeaning | crates/deptui-core/src/deploy.rs:298-360 | With distinct names, expanding the invocations pushes exactly the selected profiles in order, each as the override user if and only if that fits. |
| Invocations.PushesExactly | crates/deptui-core/src/deploy.rs:298-360 | Profile by profile: the plan pushes exactly the chosen profiles, in the node's order, each as the override user if it is activated as nobody in particular, as that user or as root, and without override otherwise. |
| Invocations.DeployPushesWhatIsManaged | crates/deptui-agent/src/runner.rs:729-748 | For every node the invocations push exactly the profiles its drift baseline covers, once each and in that order. |
| Invocations.SplitsOnlyOnDisagreement | crates/deptui-core/src/deploy.rs:327-360 | The request is split if and only if the verdicts disagree, then into one invocation per selected profile. |
| Invocations.RunPlan | crates/deptui-core/src/deploy.rs:528-577 | The children run are a prefix of the plan in which all but the last exited 0 uncancelled; the loop stops early only on a failure, error or cancel. |
| Invocations.StoppedRunIsAPrefix | crates/deptui-core/src/deploy.rs:528-577 | Wherever the loop stops, what was pushed is a first part of what was asked for. |
| Batch.BatchesRunInOrder | crates/deptui/src/app.rs:4045-4463 | Over every run of the TUI, discoveries of new nodes included: hosts are taken in confirmed order, and done + 1 + queue length = total while a session lives. |
| Batch.StepKeepsInvariant | crates/deptui/src/app.rs:4003-4463 | Every step keeps the session in line with its batch, and no confirmation is open over a live session. |
| Batch.StepAdds | crates/deptui/src/app.rs:3182-3192 | Every step only adds to the record of what happened, judges each host it takes by the nodes known then, and never forgets or changes a node. |
| Batch.DiscoveryLearnsAll | crates/deptui/src/app.rs:3182-3192 | Discovery makes every node it finds known, the first of a name counting, and leaves those known before as they are. |
| Batch.StopMeansStop | crates/deptui/src/app.rs:4405-4461 | Over every run of the TUI: when a live session exits non-zero, cannot spawn or is cancelled, that end, with its exit code, is all that happens, the session is gone, and the next thing that happens to any host, in any continuation, is a new confirmation. |
| Batch.SuccessGoesOn | crates/deptui/src/app.rs:4390-4406 | Over every run of the TUI: after exit 0 the next session is for the first queued host that can be deployed, in the same mode and profile; there is none exactly if no queued host can be. |
| Batch.OneAtATime | crates/deptui/src/app.rs:4003-4007 | Over every run of the TUI: what follows a start is the end of that same host; no session is installed over a live one. |
| Batch.TakenInConfirmedOrder | crates/deptui/src/app.rs:4091-4214 | Over every run of the TUI: the hosts taken since a confirmation are a prefix of the confirmed list. |
| Batch.StartedExactlyWhenDeployable | crates/deptui/src/app.rs:4092-4121 | Over every run of the TUI: a host taken is started if and only if it is known at that moment and has the chosen profile, and then in the confirmed mode and profile. |
| Batch.ResultsAreTheLast | crates/deptui/src/app.rs:4356-4363 | Over every run: a host has a last-deploy entry exactly if a deploy of it ended, and the entry has the mode and profile of the last such batch and its exit code. |
| Batch.RequestOpensExactly | crates/deptui/src/app.rs:4003-4035 | A request opens the confirmation for the marked hosts, or else the one under the cursor, with its mode and the selected profile, or does nothing at all, exactly when. |
| Batch.PlansAreAskedFor | crates/deptui/src/app.rs:4003-4072 | Over every run of the TUI: an open confirmation, a stashed plan, every confirmed batch and the live session carry the hosts, mode and profile of a request that was made, could be made, and found them so. |
| Batch.ConfirmationIsTheLastAsked | crates/deptui/src/app.rs:4029-4034 | Over every run of the TUI: an open confirmation shows what the request that opened it asked for, and has stayed open unchanged since. |
| Batch.StepConfirmsWhatIsShown | crates/deptui/src/app.rs:2090-2111 | Every batch a step confirms is the one shown in the confirmation or stashed behind the password prompt; with interactive sudo none begins without a password. |
| Batch.ConfirmationsCount | crates/deptui/src/app.rs:2090-2111 | And it does begin: at once as shown, or stashed as shown exactly if a password is still needed; the password then confirms what was stashed. |
| Batch.DismissalDropsTheBatch | crates/deptui/src/app.rs:2288-2321 | Leaving the password prompt starts nothing, forgets the password, and no password given later starts the stashed batch. |
| Batch.PasswordOutlivesBatchExactly | crates/deptui/src/app.rs:4390-4406 | A session ends with none after it and the cached password left behind if and only if a password was cached, the session exited 0, hosts were queued, and none of them can be deployed. |
| Batch.PasswordCanOutlive | crates/deptui/src/app.rs:4390-4406 | A concrete run of the TUI (a startable host followed by an unknown one) that ends idle with the password still cached. |
| Batch.App.RequestDeploy | crates/deptui/src/app.rs:4003-4035 | Opens the confirmation for the marked hosts or else the cursor, with the mode asked for and the profile selected; does nothing over a live session, for nobody, or for a boot of home-manager. |
| Batch.App.Discover | crates/deptui/src/app.rs:3182-3192 | Merging discovered nodes adds exactly the unknown ones and changes nothing else. |
| Batch.App.ConfirmYes | crates/deptui/src/app.rs:2090-2111 | Starts the batch, or asks for the sudo password first. |
| Batch.App.SubmitPassword | crates/deptui/src/app.rs:2256-2287 | Starts the stashed batch. |
| Batch.App.StartConfirmed | crates/deptui/src/app.rs:4045-4072 | Confirmation starts the first startable host. |
| Batch.App.StartNextInQueue | crates/deptui/src/app.rs:4080-4217 | Passes over what cannot be deployed, then installs one session, or none. |
| Batch.App.HandleExit | crates/deptui/src/app.rs:4331-4419 | Success continues the batch; failure ends it. |
| Batch.App.HandleError | crates/deptui/src/app.rs:4420-4461 | A spawn error ends the batch. |
| Batch.App.CancelDeploy | crates/deptui/src/app.rs:4219-4277 | A cancel ends the session and drops its queue. |
| Batch.App.DismissPrompt | crates/deptui/src/app.rs:2288-2321 | Leaving the prompt drops a stashed batch. |
| ShellQuote.QuotedListRoundTrips | crates/deptui-core/src/host.rs:2012-2051 | A POSIX shell reads the space-joined quoted list back as exactly the original strings, for every list. |
| ShellQuote.QuoteReads | crates/deptui-core/src/host.rs:2049-2051 | A quoted string reads as that one word, whatever follows. |
| ShellQuote.QuoteListInjective | crates/deptui-core/src/host.rs:2012-2021 | Different lists never quote alike. |
| DryRun.ParseInvertsPrint | crates/deptui-core/src/host.rs:1782-1853 | From any blocks of headers, store paths and noise, parsing reads back the paths under build and fetch headers, without repeats in first-occurrence order, and attributes nothing across another header. |
| DryRun.DedupExact | crates/deptui-core/src/host.rs:1836-1848 | Without repeats, nothing lost or invented, first occurrences first. |
| DryRun.HeadersAreRecognised | crates/deptui-core/src/host.rs:1799-1828 | A header opens the build section if and only if it says "will be built" in any case, else the fetch section if and only if it says "will be fetched", else none. |
| DryRun.OtherHeadersCountForNothing | crates/deptui-core/src/host.rs:1823-1828 | What is printed under a header that says neither is attributed to nothing. |
| DryRun.ParseDryRun | crates/deptui-core/src/host.rs:1794-1849 | The line loop computes the two lists. |

## Left out

- Texts: outcome strings and messages are datatype constructors; the wording of log lines and notifications is not modelled, so of the run log only its cap and its two ways of ending are.
- Clocks and cadence: a timer is armed or not, and the environment chooses which armed timer fires; poll scheduling, cron and the self-check interval are inputs.
- Crashes and SIGTERM while a run is in flight, outside edits of the state file and schema mismatches: a restart happens when the process exited by itself or is idle, and loads the state that was saved.
- `CancelRun` as a command of its own: a cancel is an input of the run it stops, at a host boundary or while a host deploys.
- ssh, git, nix, checkout, discovery and child processes: their answers are inputs; `classify_miss`, `tidy_stderr` and the self-target note are not modelled.
- Invalid `profile` or `mode` values in a host's configuration: taken as rejected when the configuration is loaded.
- `status`, `history` and the HTTP and unix-socket routing: views and plumbing; the lookup behind `run_log` is modelled only as far as ids go.
- Wrap-around of the 64-bit run counter, and of the progress counters that saturate.
- `check` in the cadence of systemd, its printed output and its exit code beyond the failure flag; a watch named that does not exist is refused by the source before anything happens.
- `parse_dry_run`: the sizes in the fetch header, `nothing_to_do`, and `str::lines`, which hands the parser its lines.
- `compute_version_diff`: how closures are queried; names and versions are compared as the source's byte strings would, on characters.
- Lossy decoding and the dropping of blank lines behind the raw segments of the readers, and the early return when the receiver is gone.
- `is_sudo_prompt` works on the lossily decoded line in the source and on its bytes here; its keywords and colons are ASCII.
- `seed_substituters` beyond the quoted lists in its script; the seeding step of `run_inner` and its early return on a cancel before the first child.
- TUI: keys, rendering, the contents of the password, probes, logs, the `last_deploy` banner, and the cached plan and update marks.
- Ordered, Utf8: library facts the models rest on; no rows.
