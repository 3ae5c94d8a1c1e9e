/** Concrete runs of the daemon, from its first start on, in which a documented promise
    fails: a queued request is dropped, and a sleeper that answers is not deployed. */
module Counterexamples {
  import opened AgentState
  import opened Flake
  import opened Runner
  import opened Planner
  import opened DaemonSteps
  import opened DaemonProofs
  import opened Projection
  import opened Runs
  import opened Promises

  const HOST := HostConfig(All, false, true, true)

  /** The run with one more step at its end. */
  lemma Extend(run: Run, e: Step) returns (longer: Run)
    requires ValidRun(run) && Legal(InForce(run), Now(run), e)
    ensures ValidRun(longer) && |longer.steps| == |run.steps| + 1 && longer.steps[|run.steps|] == e
    ensures longer.states[|run.steps|] == Now(run) && longer.cfgs[|run.steps|] == InForce(run)
    ensures Now(longer) == Next(InForce(run), Now(run), e) && InForce(longer) == ConfigAfter(InForce(run), e)
  {
    RunsGoOn(InForce(run), run, e);
    longer := Continued(run, e);
  }

  /** A start on an empty state, and the poll of a watch with one host, which starts a run. */
  lemma StartAndPoll(cfg: Config, w: Name, h: Name) returns (run: Run)
    requires Configured(cfg, w) && WatchCfg(cfg, w).value.hosts == map[h := HOST]
    ensures ValidRun(run) && |run.steps| == 2 && InForce(run) == cfg
    ensures var s := Now(run);
            && s.up && !s.validating && s.pending == [] && !s.restartWanted && s.armed == {}
            && !s.agent.paused && (forall v | v != w :: WatchOf(s.agent, v) == FRESH_WATCH)
            && WatchOf(s.agent, w) == FRESH_WATCH.(lastSeen := Some("r"))
            && s.running.Some? && s.running.value.watch == w
            && |s.running.value.plan.hosts| == 1 && s.running.value.plan.hosts[0].name == h
            && s.running.value.plan.rev == "r"
  {
    RunsGoOn(cfg, Unborn(cfg), SelfCheck(false));
    run := Extend(Unborn(cfg), Restart(cfg, []));
    var started := Now(run);
    assert DropSupersededParks(FRESH_AGENT) == FRESH_AGENT;
    assert started.agent == FRESH_AGENT && !Busy(started);
    assert started.armed == {};
    run := Extend(run, Poll(w, "poll", Found("r")));
    PollPlansTheNeedy(cfg, started, w, "poll", "r", h);
    PollStarts(cfg, started, w, "poll", Found("r"));
    RequestPollPolls(cfg, started, w, "poll", Found("r"));
    OnePlanned(cfg, Now(run).agent, Now(run).running.value, h);
  }

  lemma OnePlanned(cfg: Config, a: Agent, r: Running, h: Name)
    requires PlanFits(cfg, a, r) && WatchCfg(cfg, r.watch).value.hosts == map[h := HOST]
    ensures |r.plan.hosts| == 1 && r.plan.hosts[0].name == h
  {
    var last := |r.plan.hosts| - 1;
    assert r.plan.hosts[0].name == h && r.plan.hosts[last].name == h;
  }

  lemma FoldOne(a: Agent, w: Name, hr: HostRun, rev: Rev, time: nat)
    ensures FoldAll(a, w, [hr], rev, time) == SetHost(a, w, hr.host, Fold(HostOf(a, w, hr.host), hr, rev, time))
  {
    assert [hr][1..] == [];
  }

  // ---- a queued request is dropped ----

  /** The work that ends in step n leaves a queued request neither polled nor queued. */
  ghost predicate LosesARequest(run: Run, n: nat) {
    && ValidRun(run) && n < |run.steps| && EndsWork(run.steps[n]) && Legal(run.cfgs[n], run.states[n], run.steps[n])
    && Lost(run.cfgs[n], WorkDone(run.cfgs[n], run.states[n], run.steps[n]), run.states[n].pending,
            run.steps[n].heads) != []
  }

  const A := WatchConfig("a", map["x" := HOST])
  const B := WatchConfig("b", map["y" := HOST])
  const C := WatchConfig("c", map["z" := HOST])
  const THREE: Config := [A, B, C]
  const KICKS := [Queued("a", "kick"), Queued("b", "kick")]

  lemma ThreeWatches()
    ensures WatchCfg(THREE, "a") == Some(A) && WatchCfg(THREE, "b") == Some(B) && WatchCfg(THREE, "c") == Some(C)
  {
    assert THREE[1..] == [B, C] && [B, C][1..] == [C];
    assert WatchCfg([C], "c") == Some(C);
    assert WatchCfg([B, C], "c") == Some(C) && WatchCfg([B, C], "b") == Some(B);
  }

  /** A run of the third watch is in flight, and the other two were kicked meanwhile. */
  lemma KickedWhileBusy() returns (run: Run)
    ensures ValidRun(run) && |run.steps| == 4 && InForce(run) == THREE
    ensures var s := Now(run);
            && s.up && s.running.Some? && s.running.value.watch == "c" && s.pending == KICKS
            && !s.agent.paused && WatchOf(s.agent, "a") == FRESH_WATCH
  {
    ThreeWatches();
    run := StartAndPoll(THREE, "c", "z");
    var busy := Now(run);
    run := Extend(run, Poll("a", "kick", Found("r")));
    assert Now(run) == busy.(pending := [Queued("a", "kick")]);
    run := Extend(run, Poll("b", "kick", Found("r")));
    assert [Queued("a", "kick")] + [Queued("b", "kick")] == KICKS;
    assert Now(run) == busy.(pending := KICKS);
  }

  /** Three watches; while one is being deployed, the other two are kicked. When its run
      ends, the poll of the first starts a run, and the request for the second is gone. */
  lemma ARequestIsLost()
    ensures exists run: Run, n: nat :: LosesARequest(run, n)
  {
    ThreeWatches();
    var before := KickedWhileBusy();
    var s := Now(before);
    var heads: Name -> Head := w => Found("r");
    var e := RunDone(RunEnv(SetupBroken("no clone"), 0, k => ANSWERS, 0), heads);
    var run := Extend(before, e);
    WorkEnds(run, 4);
    FirstKickStarts(s, e);
    assert DistinctWatches(KICKS);
    DrainConserves(THREE, WorkDone(THREE, s, e), KICKS, heads);
    assert Starts(THREE, WorkDone(THREE, s, e).agent, KICKS[0].watch, heads(KICKS[0].watch));
    assert LosesARequest(run, 4);
  }

  lemma FirstKickStarts(s: Sys, e: Step)
    requires WatchCfg(THREE, "a") == Some(A) && WatchCfg(THREE, "c") == Some(C)
    requires e.RunDone? && Legal(THREE, s, e) && s.running.value.watch == "c"
    requires !s.agent.paused && WatchOf(s.agent, "a") == FRESH_WATCH
    ensures Starts(THREE, WorkDone(THREE, s, e).agent, "a", Found("r"))
  {
    var record := RunRecordOf(THREE, s, e.env);
    var done := WorkDone(THREE, s, e);
    FoldUntouched(s.agent, "c", record.hosts, record.rev, record.finished, "a");
    assert WatchOf(done.agent, "a") == FRESH_WATCH && !done.agent.paused;
    assert "x" in A.hosts && Needs(HostOf(done.agent, "a", "x"), "r");
  }

  // ---- a sleeper is forgotten ----

  /** What the outside answers about a host that is down. */
  const ANSWERS := Answers("x", Some(Unreachable(Down, "no route")), p => Stale, p => Absent, None, {}, false, [], p => Absent)

  const ONE: Config := [A]

  /** A pending host that was never deployed answers in step n, and is forgotten. */
  ghost predicate ForgetsASleeper(run: Run, n: nat, w: Name, h: Name) {
    && ValidRun(run) && n < |run.steps| && run.steps[n].RecheckDue? && run.steps[n].watch == w
    && HostOf(run.states[n].agent, w, h).offline.Some? && run.steps[n].verdicts(h).None?
    && HostOf(run.states[n].agent, w, h).deployed.None?
    && Forgotten(run.states[n + 1], w, h)
  }

  /** The host was down when its update arrived, and then the agent was paused. */
  lemma PausedSleeper() returns (run: Run)
    ensures ValidRun(run) && |run.steps| == 4 && InForce(run) == ONE && WatchCfg(ONE, "a") == Some(A)
    ensures var s := Now(run);
            && s.up && !Busy(s) && s.agent.paused && "a" in s.armed
            && HostOf(s.agent, "a", "x").offline.Some? && HostOf(s.agent, "a", "x").deployed.None?
  {
    assert WatchCfg(ONE, "a") == Some(A);
    run := StartAndPoll(ONE, "a", "x");
    var s := Now(run);
    var env := RunEnv(Ready([Node("x", map[], None)]), 1, k => ANSWERS, 0);
    run := Extend(run, RunDone(env, w => Missing));
    PendingRun(ONE, s, A, env);
    var slept := Now(run);
    run := Extend(run, PauseCmd(Global, true));
    assert Now(run) == slept.(agent := slept.agent.(paused := true));
  }

  /** A host is down when its update arrives, the agent is paused, and the host comes back:
      the recheck takes its marker and its timer away, and nothing deploys it. */
  lemma ASleeperIsForgotten()
    ensures exists run: Run, n: nat :: ForgetsASleeper(run, n, "a", "x")
  {
    var before := PausedSleeper();
    var run := Extend(before, RecheckDue("a", h => None, Found("r")));
    SleeperForgottenExactly(run, 4, "x");
    assert ForgetsASleeper(run, 4, "a", "x");
  }

  /** The run of one host that is down ends with the host pending and its recheck armed. */
  lemma PendingRun(cfg: Config, s: Sys, w: WatchConfig, env: RunEnv)
    requires cfg == [w] && w == A && WatchCfg(cfg, "a") == Some(w)
    requires s.running.Some? && s.running.value.watch == "a" && s.pending == [] && !s.validating && s.up && !s.restartWanted
    requires |s.running.value.plan.hosts| == 1 && s.running.value.plan.hosts[0].name == "x"
    requires env.setup == Ready([Node("x", map[], None)]) && env.cancelAt == 1 && env.answers(0) == ANSWERS
    requires HostOf(s.agent, "a", "x") == FRESH_HOST
    ensures var s' := Next(cfg, s, RunDone(env, w => Missing));
            && s'.up && s'.running.None? && !s'.validating && s'.pending == [] && !s'.restartWanted
            && "a" in s'.armed
            && HostOf(s'.agent, "a", "x").offline.Some? && HostOf(s'.agent, "a", "x").deployed.None?
  {
    var plan, record := s.running.value.plan, RunRecordOf(cfg, s, env);
    DownHost(w, plan, env);
    var hr := record.hosts[0];
    assert record.hosts == [hr];
    FoldOne(s.agent, "a", hr, record.rev, record.finished);
    assert IsPending(record.hosts[0].outcome) && HadOffline(record);
    ConcludedHost(cfg, s, "a", record, "a", "x");
  }

  lemma DownHost(w: WatchConfig, plan: RunPlan, env: RunEnv)
    requires w == A && |plan.hosts| == 1 && plan.hosts[0].name == "x"
    requires env.setup == Ready([Node("x", map[], None)]) && env.cancelAt == 1 && env.answers(0) == ANSWERS
    ensures RecordOf(w, plan, env).hosts[0] == HostRunOf("x", Unreached("x", "no route", Down))
  {
    RecordAt(w, plan, env, 0);
    assert FindNode([Node("x", map[], None)], "x").Some?;
  }
}
