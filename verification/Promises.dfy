/** The README's promises about the agent, over every run of the daemon: any finite
    sequence of polls, kicks, approvals, pauses, rechecks, validations, runs and restarts,
    each of which may load another configuration. */
module Promises {
  import opened AgentState
  import opened Runner
  import opened Planner
  import opened DaemonSteps
  import opened DaemonProofs
  import opened Projection
  import opened Runs
  import HT = HostTrace

  /** No same-commit retry: between two rounds of a host at one revision, the first of which
      settled, an approval was granted or an outcome at another revision was recorded. */
  lemma NoSameCommitRetryEver(run: Run, w: Name, h: Name, i: nat, m: nat, j: nat)
    requires ValidRun(run) && i < m < j < |TraceOf(run, w, h)|
    requires var tr := TraceOf(run, w, h);
             tr[i].Planned? && HT.Settles(tr[m]) && tr[j].Planned? && tr[j].rev == tr[i].rev
    ensures var tr := TraceOf(run, w, h);
            exists k | i < k < j :: HT.Entitles(tr[k], tr[i].rev)
  {
    EveryRunProjects(run, |run.steps|, w, h);
    HT.NoSameCommitRetry(h, TraceOf(run, w, h), i, m, j);
  }

  /** No second deploy of a commit: between two pushes of one revision to a host, an approval
      was granted or an outcome at another revision was recorded. */
  lemma NoSecondDeployOfACommit(run: Run, w: Name, h: Name, i: nat, j: nat)
    requires ValidRun(run) && i < j < |TraceOf(run, w, h)|
    requires var tr := TraceOf(run, w, h);
             && tr[i].Folded? && tr[i].pushed && tr[j].Folded? && tr[j].pushed && tr[j].rev == tr[i].rev
    ensures var tr := TraceOf(run, w, h);
            exists k | i < k < j :: HT.Entitles(tr[k], tr[i].rev)
  {
    EveryRunProjects(run, |run.steps|, w, h);
    HT.NoSecondPush(h, TraceOf(run, w, h), i, j);
  }

  /** One approval buys one round. */
  lemma ApprovalsBuyRounds(run: Run, w: Name, h: Name)
    requires ValidRun(run)
    ensures var tr := TraceOf(run, w, h);
            HT.PushesUnderApproval(h, tr) <= HT.Spent(h, tr) <= HT.Grants(tr)
  {
    EveryRunProjects(run, |run.steps|, w, h);
    HT.ApprovalBudget(h, TraceOf(run, w, h));
  }

  /** The agent only overwrites what it deployed: whenever a round pushes to a host, it was
      planned under approval, or the agent deployed the host before (or may bootstrap it)
      and the host still runs what the last success left, or was moved within the watched
      history, or the guard is off or has no baseline. */
  lemma OverwritesOnlyItsOwn(run: Run, w: Name, h: Name, n: nat)
    requires ValidRun(run)
    requires n < |TraceOf(run, w, h)| && TraceOf(run, w, h)[n].Folded? && TraceOf(run, w, h)[n].pushed
    ensures var tr := TraceOf(run, w, h);
            var hosts := tr[n].under.hosts;
            && h in hosts && tr[n].fate.Ran?
            && (hosts[h].catchUp ==> tr[n].fate.answers.reach.None?)
            && (|| HT.UnderApproval(HT.After(h, tr[..n]))
                || ((HT.EverSucceeded(tr[..n]) || hosts[h].bootstrap)
                    && GuardPasses(hosts[h], HT.Baseline(tr[..n]), tr[n].fate.answers)))
  {
    var tr := TraceOf(run, w, h);
    EveryRunProjects(run, |run.steps|, w, h);
    if tr[n].fate.Ran? {
      HT.PushesExactlyWhenSafe(h, tr, n);
    } else {
      HT.NothingPushedWithoutRunning(h, tr, n);
    }
  }

  /** What the record says of a deploy is what the child did: over every run, a host that was
      pushed to is recorded ok exactly if nobody cancelled, the child could be spawned and
      the last exit status it reported is 0; cancelled exactly if the user cancelled; failed
      otherwise. And nobody else is ever recorded ok. */
  lemma RecordsTellTheVerdict(run: Run, w: Name, h: Name, n: nat)
    requires ValidRun(run) && n < |TraceOf(run, w, h)| && TraceOf(run, w, h)[n].Folded?
    ensures var e := TraceOf(run, w, h)[n];
            && (e.run.outcome.Ok? ==> e.pushed)
            && (e.pushed ==>
                  && e.fate.Ran?
                  && var a := e.fate.answers;
                     && (e.run.outcome.Cancelled? <==> UserCancelled(a))
                     && (e.run.outcome.Ok? <==>
                           !UserCancelled(a) && !SpawnFailure(a.events) && ExitedWith(a.events, 0))
                     && (e.run.outcome.Ok? || e.run.outcome.Cancelled? || e.run.outcome.Failed?))
  {
    var tr := TraceOf(run, w, h);
    EveryRunProjects(run, |run.steps|, w, h);
    HT.PrefixValid(h, tr, n);
    var ph := HT.After(h, tr[..n]).flight.value.ph;
    PushOutcomes(tr[n].under, ph, tr[n].fate);
    if tr[n].pushed {
      PushVerdict(tr[n].under, ph, tr[n].fate);
    }
  }

  /** First encounters adopt, never blind-deploy. */
  lemma FirstEncountersNeverDeploy(run: Run, w: Name, h: Name, n: nat)
    requires ValidRun(run) && n < |TraceOf(run, w, h)| && TraceOf(run, w, h)[n].Folded?
    requires var tr := TraceOf(run, w, h);
             && !HT.EverSucceeded(tr[..n]) && !HT.UnderApproval(HT.After(h, tr[..n]))
             && (h in tr[n].under.hosts ==> !tr[n].under.hosts[h].bootstrap)
    ensures var e := TraceOf(run, w, h)[n];
            && !e.pushed
            && (e.run.outcome.Adopted? || HT.Holds(e) || HT.Pends(e) || HT.Fails(e))
            && (e.run.outcome.Adopted? ==>
                  e.fate.Ran? && forall p | p in HT.ManagedIn(e.under, h, e.fate) :: e.fate.answers.check(p).UpToDate?)
  {
    EveryRunProjects(run, |run.steps|, w, h);
    HT.FirstEncounterIsSafe(h, TraceOf(run, w, h), n);
  }

  /** At every moment of every run, the stored state of a host is exactly what its last
      outcomes say, its drift baseline is empty or complete, and reloading the state file
      would not change it. */
  lemma StoredStateIsTheLastOutcomes(run: Run, n: nat, w: Name, h: Name)
    requires ValidRun(run) && n <= |run.steps|
    ensures var tr := TraceUpTo(run, n, w, h);
            var hs := HostOf(run.states[n].agent, w, h);
            && HT.DeployedForm(tr, hs) && HT.HeldForm(tr, hs) && HT.FailedForm(tr, hs) && HT.OfflineForm(tr, hs)
            && HT.RemarksForm(tr, hs)
            && (hs.failed.None? || hs.offline.None?) && DropSupersededPark(hs) == hs
            && match HT.Latest(tr, HT.Succeeds, HT.Never)
               case None => hs.deployed == None && hs.deployedToplevels == map[]
               case Some(e) => WholeBaseline(hs.deployedToplevels, HT.ManagedIn(e.under, h, e.fate))
  {
    var tr := TraceUpTo(run, n, w, h);
    EveryRunProjects(run, n, w, h);
    HT.StandingState(h, tr);
    HT.BaselineAllOrNothing(h, tr);
  }

  /** At every moment of every run: one run at most, never beside a validation; the queue
      is duplicate-free and waits only behind one of them; every host with an offline marker,
      of a watch in the configuration in force, has its recheck armed. */
  lemma MachineStaysSound(run: Run, n: nat)
    requires ValidRun(run) && n <= |run.steps|
    ensures var s := run.states[n];
            && !(s.running.Some? && s.validating)
            && DistinctWatches(s.pending)
            && (s.pending != [] ==> Busy(s))
            && (forall w, h | Configured(run.cfgs[n], w) && HostOf(s.agent, w, h).offline.Some? :: w in s.armed)
  {
    RunKeepsInvariant(run, n);
    var s := run.states[n];
    forall w, h | Configured(run.cfgs[n], w) && HostOf(s.agent, w, h).offline.Some? ensures w in s.armed {
      assert h in WatchOf(s.agent, w).hosts;
      assert HasOffline(s.agent, w);
    }
  }

  /** The daemon exits for a restart only with no run, validation or queued poll, and a
      restart it wants is never forgotten: while the process is up there is still work. */
  lemma RestartsOnlyAtRest(run: Run, n: nat)
    requires ValidRun(run) && n <= |run.steps|
    ensures var s := run.states[n];
            (!s.up ==> Idle(s)) && (s.up && s.restartWanted ==> s.running.Some? || s.validating)
  {
    RunKeepsInvariant(run, n);
  }

  /** Whenever a run begins, whatever step it begins in, nothing about it is paused, and it is
      for exactly the configured hosts that their events make due for the revision just seen. */
  lemma RunsAreForTheNeedy(run: Run, n: nat, h: Name)
    requires ValidRun(run) && n < |run.steps|
    requires Begins(run.states[n], run.steps[n], run.states[n + 1])
    ensures var cfg, s := run.cfgs[n], run.states[n + 1];
            var r := s.running.value;
            && Configured(cfg, r.watch) && !s.agent.paused && !WatchOf(s.agent, r.watch).paused
            && WatchOf(s.agent, r.watch).lastSeen == Some(r.plan.rev)
            && ((exists ph :: ph in r.plan.hosts && ph.name == h) <==>
                  h in WatchCfg(cfg, r.watch).value.hosts && HT.Due(TraceUpTo(run, n + 1, r.watch, h), r.plan.rev))
  {
    var r := run.states[n + 1].running.value;
    assert StepOk(run, n);
    BegunRunsFit(run.cfgs[n], run.states[n], run.steps[n]);
    FitMeansNeedy(run.cfgs[n], run.states[n + 1].agent, r, h);
    EveryRunProjects(run, n + 1, r.watch, h);
    HT.NeedsExactly(h, TraceUpTo(run, n + 1, r.watch, h), r.plan.rev);
  }

  /** What a poll plans, told from the host's events: a poll of an idle daemon, of a watch
      that is not paused and whose head is found, ends with the host in its run if and only
      if the host is configured and due for that revision. */
  lemma IdlePollPlansTheDue(run: Run, n: nat, h: Name)
    requires ValidRun(run) && n < |run.steps| && run.steps[n].Poll? && run.steps[n].head.Found?
    requires var s, w := run.states[n], run.steps[n].watch;
             s.running.None? && !s.validating && !s.agent.paused && !WatchOf(s.agent, w).paused
    ensures Configured(run.cfgs[n], run.steps[n].watch)
    ensures var s', e := run.states[n + 1], run.steps[n];
            && (Plans(s', e.watch, h) <==>
                  && h in WatchCfg(run.cfgs[n], e.watch).value.hosts
                  && HT.Due(TraceUpTo(run, n, e.watch, h), e.head.rev))
            && (Plans(s', e.watch, h) ==> s'.running.value.plan.rev == e.head.rev)
            && WatchOf(s'.agent, e.watch).lastSeen == Some(e.head.rev)
  {
    var cfg, s, e := run.cfgs[n], run.states[n], run.steps[n];
    var tr := TraceUpTo(run, n, e.watch, h);
    assert StepOk(run, n);
    EveryRunProjects(run, n, e.watch, h);
    HT.NeedsExactly(h, tr, e.head.rev);
    PollPlansExactly(cfg, s, e.watch, e.trigger, e.head, h);
    PollStarts(cfg, s, e.watch, e.trigger, e.head);
  }

  /** A new commit always gets its round: a park or a hold at another revision blocks
      nobody, and neither does any other outcome there. */
  lemma NewCommitIsPlanned(run: Run, n: nat, h: Name)
    requires ValidRun(run) && n < |run.steps| && run.steps[n].Poll? && run.steps[n].head.Found?
    requires var s, w := run.states[n], run.steps[n].watch;
             s.running.None? && !s.validating && !s.agent.paused && !WatchOf(s.agent, w).paused
    requires Configured(run.cfgs[n], run.steps[n].watch)
             && h in WatchCfg(run.cfgs[n], run.steps[n].watch).value.hosts
    requires forall e | e in TraceUpTo(run, n, run.steps[n].watch, h) ::
               !(e.Paused? && e.on) && !(e.Folded? && e.rev == run.steps[n].head.rev)
    ensures Plans(run.states[n + 1], run.steps[n].watch, h)
  {
    IdlePollPlansTheDue(run, n, h);
    HT.DueWhenNew(TraceUpTo(run, n, run.steps[n].watch, h), run.steps[n].head.rev);
  }

  // ---- promises the daemon keeps only under a condition ----

  /** The daemon with its work done and its queue moved out, about to drain it. */
  function WorkDone(cfg: Config, s: Sys, e: Step): Sys
    requires Legal(cfg, s, e) && (e.RunDone? || e.ValidateDone?)
  {
    if e.RunDone? then
      Conclude(cfg, s, s.running.value.watch, RunRecordOf(cfg, s, e.env)).(pending := [])
    else s.(validating := false, pending := [])
  }

  predicate EndsWork(e: Step) { e.RunDone? || e.ValidateDone? }

  lemma WorkEnds(run: Run, n: nat)
    requires ValidRun(run) && n < |run.steps| && EndsWork(run.steps[n])
    ensures Legal(run.cfgs[n], run.states[n], run.steps[n]) && DistinctWatches(run.states[n].pending)
    ensures var cfg, s, e := run.cfgs[n], run.states[n], run.steps[n];
            var done := WorkDone(cfg, s, e);
            && !Busy(done) && done.pending == []
            && run.states[n + 1] == AfterCommand(Drain(cfg, done, s.pending, e.heads).sys)
  {
    assert StepOk(run, n);
    RunKeepsInvariant(run, n);
  }

  /** "The rest stays queued" is not what the daemon does: whenever a run or a validation
      ends, every queued request was polled if and only if none but the last would start a
      run; otherwise those behind the first that does are gone, without a trace in their
      watches' state. */
  lemma QueuedRequestsArePolledExactlyWhen(run: Run, n: nat)
    requires ValidRun(run) && n < |run.steps| && EndsWork(run.steps[n])
    ensures Legal(run.cfgs[n], run.states[n], run.steps[n])
    ensures var cfg, q, e := run.cfgs[n], run.states[n].pending, run.steps[n];
            var done, after := WorkDone(cfg, run.states[n], e), run.states[n + 1];
            var lost := Lost(cfg, done, q, e.heads);
            && after.pending == []
            && (lost == [] <==> forall i | 0 <= i < |q| - 1 :: !Starts(cfg, done.agent, q[i].watch, e.heads(q[i].watch)))
            && forall x | x in lost :: WatchOf(after.agent, x.watch) == WatchOf(done.agent, x.watch)
  {
    WorkEnds(run, n);
    var cfg, s, e := run.cfgs[n], run.states[n], run.steps[n];
    var done := WorkDone(cfg, s, e);
    DrainConserves(cfg, done, s.pending, e.heads);
    DrainExact(cfg, done, s.pending, e.heads);
    forall x | x in Lost(cfg, done, s.pending, e.heads)
      ensures WatchOf(run.states[n + 1].agent, x.watch) == WatchOf(done.agent, x.watch)
    {
      LostWithoutATrace(cfg, done, s.pending, e.heads, x);
    }
  }

  /** This step planned the host. */
  predicate PlannedIn(s: Sys, s': Sys, w: Name, h: Name) { s.running.None? && Plans(s', w, h) }

  /** A pending host that has just answered needs this revision. */
  predicate NeedsCaughtUp(hs: HostState, rev: Rev) {
    !hs.paused && !StampAt(hs.deployed, rev) && (hs.approved || !StampAt(hs.held, rev))
  }

  /** "Deploys the moment it answers": whenever a recheck finds a pending host answering, its
      marker goes, and the host is planned in that very step if and only if the daemon is
      idle, the watch is not paused, its head is found, and the host is configured and needs
      that revision. A catch-up poll is queued exactly if the daemon is busy, and the
      recheck is armed again exactly if another host of the watch is still down. */
  lemma SleeperCatchesUp(run: Run, n: nat, h: Name)
    requires ValidRun(run) && n < |run.steps| && run.steps[n].RecheckDue?
    requires HostOf(run.states[n].agent, run.steps[n].watch, h).offline.Some? && run.steps[n].verdicts(h).None?
    ensures Configured(run.cfgs[n], run.steps[n].watch)
    ensures var s, s', e := run.states[n], run.states[n + 1], run.steps[n];
            var w, hs := e.watch, HostOf(s.agent, e.watch, h);
            && HostOf(s'.agent, w, h).offline.None?
            && (PlannedIn(s, s', w, h) <==>
                  && !Busy(s) && !WatchPaused(s.agent, w) && e.head.Found?
                  && h in WatchCfg(run.cfgs[n], w).value.hosts && NeedsCaughtUp(hs, e.head.rev))
            && (PlannedIn(s, s', w, h) ==> s'.running.value.plan.trigger == "catch-up")
            && (IsQueued(s'.pending, w) <==> Busy(s))
            && (w in s'.armed <==> SomeStillDown(s.agent, w, e.verdicts))
  {
    var cfg, s, e := run.cfgs[n], run.states[n], run.steps[n];
    assert StepOk(run, n);
    RunKeepsInvariant(run, n);
    StoredStateIsTheLastOutcomes(run, n, e.watch, h);
    assert h in WatchOf(s.agent, e.watch).hosts;
    assert SomeBack(s.agent, e.watch, e.verdicts);
    AnswerLeadsTo(cfg, s, e.watch, e.verdicts, e.head, h);
    ProbedHost(s, e.watch, e.verdicts, e.watch, h);
    RecheckPlans(cfg, s, e.watch, e.verdicts, e.head, h);
    if !Busy(s) {
      PollStarts(cfg, AfterProbes(s, e.watch, e.verdicts), e.watch, "catch-up", e.head);
    }
  }

  /** Nothing is left that would bring the agent back to the host before its next scheduled
      poll: no marker, no armed recheck, no queued catch-up, no run it is part of. */
  predicate Forgotten(s: Sys, w: Name, h: Name) {
    HostOf(s.agent, w, h).offline.None? && w !in s.armed && !IsQueued(s.pending, w) && !Plans(s, w, h)
  }

  /** A sleeper that answers an idle daemon is forgotten, undeployed, if and only if no other
      host of its watch is still down and the catch-up poll cannot plan it: the watch or the
      agent is paused, the head is not found, or the host does not need it. */
  lemma SleeperForgottenExactly(run: Run, n: nat, h: Name)
    requires ValidRun(run) && n < |run.steps| && run.steps[n].RecheckDue? && !Busy(run.states[n])
    requires HostOf(run.states[n].agent, run.steps[n].watch, h).offline.Some? && run.steps[n].verdicts(h).None?
    ensures Configured(run.cfgs[n], run.steps[n].watch)
    ensures var s, e := run.states[n], run.steps[n];
            Forgotten(run.states[n + 1], e.watch, h) <==>
            && !SomeStillDown(s.agent, e.watch, e.verdicts)
            && (|| WatchPaused(s.agent, e.watch) || !e.head.Found?
                || h !in WatchCfg(run.cfgs[n], e.watch).value.hosts
                || !NeedsCaughtUp(HostOf(s.agent, e.watch, h), e.head.rev))
  {
    SleeperCatchesUp(run, n, h);
  }

  /** What becomes of a queued catch-up, or any queued poll, when the work in flight ends: it
      plans a host if and only if no request queued before it starts a run, and the poll of
      its watch plans that host. */
  lemma QueuedCatchUpServedExactly(run: Run, n: nat, i: nat, h: Name)
    requires ValidRun(run) && n < |run.steps| && EndsWork(run.steps[n]) && i < |run.states[n].pending|
    ensures Legal(run.cfgs[n], run.states[n], run.steps[n])
    ensures var cfg, q, e := run.cfgs[n], run.states[n].pending, run.steps[n];
            var a := WorkDone(cfg, run.states[n], e).agent;
            Plans(run.states[n + 1], q[i].watch, h) <==>
            && NoneStarts(cfg, a, q, e.heads, i)
            && WouldPlan(cfg, a, q[i].watch, e.heads(q[i].watch), h)
  {
    WorkEnds(run, n);
    var cfg, s, e := run.cfgs[n], run.states[n], run.steps[n];
    DrainPlansExactly(cfg, WorkDone(cfg, s, e), s.pending, e.heads, i, h);
  }
}
