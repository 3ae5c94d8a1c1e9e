/** What commands and timers do to the daemon over whole runs: pauses and approvals mean the
    last word said about them, histories hold the newest runs, timers follow sleepers, a
    changed binary or configuration is acted on, and requests queue in order. */
module Commands {
  import opened AgentState
  import opened Runner
  import opened Planner
  import opened DaemonSteps
  import opened DaemonProofs
  import opened Projection
  import opened Runs
  import opened RunIdSteps
  import I = RunIds
  import HT = HostTrace

  // ---- pauses ----

  /** What can be paused: the agent, a watch, or a host in a watch. */
  datatype Switch = TheAgent | TheWatch(watch: Name) | TheHost(watch: Name, host: Name)

  predicate IsPaused(a: Agent, sw: Switch) {
    match sw
    case TheAgent => a.paused
    case TheWatch(w) => WatchOf(a, w).paused
    case TheHost(w, h) => HostOf(a, w, h).paused
  }

  predicate Names(cfg: Config, w: Name) { exists i :: 0 <= i < |cfg| && cfg[i].name == w }

  /** Some watch of that name has the host. */
  predicate Lists(cfg: Config, w: Name, h: Name) {
    exists i :: 0 <= i < |cfg| && cfg[i].name == w && h in cfg[i].hosts
  }

  /** The step is a command that pauses (or resumes) this very thing. */
  predicate Says(cfg: Config, e: Step, sw: Switch, on: bool) {
    && e.PauseCmd? && e.on == on
    && match sw
       case TheAgent => e.scope.Global?
       case TheWatch(w) => e.scope == OneWatch(w) && Names(cfg, w)
       case TheHost(w, h) => e.scope == OneHost(h) && Lists(cfg, w, h)
  }

  ghost predicate SameSwitches(a: Agent, b: Agent) { forall sw :: IsPaused(a, sw) == IsPaused(b, sw) }

  lemma SameFlags(a: Agent, b: Agent)
    requires a.paused == b.paused && forall w :: WatchOf(a, w).paused == WatchOf(b, w).paused
    requires forall w, h :: HostOf(a, w, h).paused == HostOf(b, w, h).paused
    ensures SameSwitches(a, b)
  {
  }

  lemma PollSwitches(cfg: Config, s: Sys, watch: Name, trigger: string, head: Head)
    ensures SameSwitches(s.agent, RequestPoll(cfg, s, watch, trigger, head).agent)
  {
    if !Busy(s) && head.Found? {
      SameFlags(s.agent, See(s.agent, watch, head.rev));
    }
  }

  lemma {:induction false} DrainSwitches(cfg: Config, s: Sys, q: seq<Queued>, heads: Name -> Head)
    ensures SameSwitches(s.agent, Drain(cfg, s, q, heads).sys.agent)
    decreases |q|
  {
    if q != [] {
      var s' := RequestPoll(cfg, s, q[0].watch, q[0].trigger, heads(q[0].watch));
      PollSwitches(cfg, s, q[0].watch, q[0].trigger, heads(q[0].watch));
      if s'.running.None? {
        DrainSwitches(cfg, s', q[1..], heads);
      }
    }
  }

  lemma SetHostSwitches(a: Agent, w: Name, h: Name, hs: HostState)
    requires hs.paused == HostOf(a, w, h).paused
    ensures SameSwitches(a, SetHost(a, w, h, hs))
  {
    SameFlags(a, SetHost(a, w, h, hs));
  }

  lemma {:induction false} FoldSwitches(a: Agent, w: Name, runs: seq<HostRun>, rev: Rev, time: nat)
    ensures SameSwitches(a, FoldAll(a, w, runs, rev, time))
    decreases |runs|
  {
    if runs != [] {
      var hs := Fold(HostOf(a, w, runs[0].host), runs[0], rev, time);
      SetHostSwitches(a, w, runs[0].host, hs);
      FoldSwitches(SetHost(a, w, runs[0].host, hs), w, runs[1..], rev, time);
    }
  }

  lemma {:induction false} ProbesSwitches(a: Agent, probes: seq<Probe>)
    ensures SameSwitches(a, ProbeAll(a, probes))
    decreases |probes|
  {
    if probes != [] {
      var p := probes[0];
      var hs := HT.AfterProbe(HostOf(a, p.watch, p.host), p.verdict);
      SetHostSwitches(a, p.watch, p.host, hs);
      ProbesSwitches(SetHost(a, p.watch, p.host, hs), probes[1..]);
    }
  }

  lemma RecheckSwitches(cfg: Config, s: Sys, watch: Name, verdicts: Name -> Option<Unreachable>, head: Head)
    ensures SameSwitches(s.agent, Recheck(cfg, s, watch, verdicts, head).agent)
  {
    var probed := AfterProbes(s, watch, verdicts);
    forall w, h ensures HostOf(probed.agent, w, h).paused == HostOf(s.agent, w, h).paused {
      ProbedHost(s, watch, verdicts, w, h);
    }
    SameFlags(s.agent, probed.agent);
    PollSwitches(cfg, probed, watch, "catch-up", head);
  }

  lemma MigrationSwitches(a: Agent)
    ensures SameSwitches(a, DropSupersededParks(a))
  {
    SameFlags(a, DropSupersededParks(a));
  }

  lemma FinishSwitches(cfg: Config, s: Sys, watch: Name, record: RunRecord, heads: Name -> Head)
    ensures SameSwitches(s.agent, FinishRun(cfg, s, watch, record, heads).agent)
  {
    var a := FoldAll(s.agent, watch, record.hosts, record.rev, record.finished);
    FoldSwitches(s.agent, watch, record.hosts, record.rev, record.finished);
    SameFlags(a, Record(a, watch, record));
    DrainSwitches(cfg, Conclude(cfg, s, watch, record).(pending := []), s.pending, heads);
  }

  lemma StepSwitches(cfg: Config, s: Sys, e: Step)
    requires Legal(cfg, s, e) && !e.PauseCmd?
    ensures SameSwitches(s.agent, Next(cfg, s, e).agent)
  {
    match e {
      case Poll(w, trigger, head) => PollSwitches(cfg, s, w, trigger, head);
      case ApproveCmd(owner, host, revoke) =>
        var target := ApprovalTarget(cfg, owner, host);
        if target.Some? {
          SetHostSwitches(s.agent, target.value, host, HostOf(s.agent, target.value, host).(approved := !revoke));
        }
      case Validate =>
      case ValidateDone(heads) => DrainSwitches(cfg, s.(validating := false, pending := []), s.pending, heads);
      case RunDone(env, heads) => FinishSwitches(cfg, s, s.running.value.watch, RunRecordOf(cfg, s, env), heads);
      case RecheckDue(w, verdicts, head) => RecheckSwitches(cfg, s, w, verdicts, head);
      case SelfCheck(_) =>
      case Restart(_, probes) =>
        MigrationSwitches(s.agent);
        ProbesSwitches(DropSupersededParks(s.agent), probes);
    }
  }

  lemma {:induction false} PausedHosts(cfg: Config, a: Agent, h: Name, on: bool)
    ensures var b := PauseHost(cfg, a, h, on);
            && b.paused == a.paused && (forall w :: WatchOf(b, w).paused == WatchOf(a, w).paused)
            && (forall w, x :: HostOf(b, w, x) ==
                  if x == h && Lists(cfg, w, h) then HostOf(a, w, x).(paused := on) else HostOf(a, w, x))
    decreases |cfg|
  {
    if cfg != [] {
      var rest := cfg[1..];
      var a' := if h in cfg[0].hosts
                then SetHost(a, cfg[0].name, h, HostOf(a, cfg[0].name, h).(paused := on)) else a;
      PausedHosts(rest, a', h, on);
      forall w ensures Lists(cfg, w, h) <==> (cfg[0].name == w && h in cfg[0].hosts) || Lists(rest, w, h) {
        ListsStep(cfg, w, h);
      }
    }
  }

  lemma ListsStep(cfg: Config, w: Name, h: Name)
    requires cfg != []
    ensures Lists(cfg, w, h) <==> (cfg[0].name == w && h in cfg[0].hosts) || Lists(cfg[1..], w, h)
  {
    var rest := cfg[1..];
    assert forall i | 0 <= i < |rest| :: rest[i] == cfg[i + 1];
    if i :| 0 < i < |cfg| && cfg[i].name == w && h in cfg[i].hosts {
      assert rest[i - 1] == cfg[i];
    }
  }

  lemma {:induction false} ConfiguredIsNamed(cfg: Config, w: Name)
    ensures Configured(cfg, w) <==> Names(cfg, w)
  {
    if cfg != [] {
      var rest := cfg[1..];
      ConfiguredIsNamed(rest, w);
      assert forall i | 0 <= i < |rest| :: rest[i] == cfg[i + 1];
      if i :| 0 < i < |cfg| && cfg[i].name == w {
        assert rest[i - 1] == cfg[i];
      }
    }
  }

  /** A pause command sets what it names and nothing else. */
  lemma PauseSetsWhatItNames(cfg: Config, s: Sys, scope: Scope, on: bool, sw: Switch)
    ensures var e, a, b := PauseCmd(scope, on), s.agent, SetPaused(cfg, s, scope, on).agent;
            IsPaused(b, sw) == if Says(cfg, e, sw, on) then on else IsPaused(a, sw)
  {
    match scope {
      case Global =>
      case OneWatch(w) => ConfiguredIsNamed(cfg, w);
      case OneHost(h) => PausedHosts(cfg, s.agent, h, on);
    }
  }

  /** Paused is what was last told to pause: at every moment of every run, the agent, a watch
      or a host is paused exactly if it was told to pause and not told to resume since. */
  lemma {:induction false} PausedIsTheLastWord(run: Run, n: nat, sw: Switch)
    requires ValidRun(run) && n <= |run.steps|
    ensures IsPaused(run.states[n].agent, sw) <==>
            exists k | 0 <= k < n :: Says(run.cfgs[k], run.steps[k], sw, true)
                                     && forall j | k < j < n :: !Says(run.cfgs[j], run.steps[j], sw, false)
  {
    if n > 0 {
      var cfg, s, e := run.cfgs[n - 1], run.states[n - 1], run.steps[n - 1];
      PausedIsTheLastWord(run, n - 1, sw);
      assert StepOk(run, n - 1);
      if e.PauseCmd? {
        PauseSetsWhatItNames(cfg, s, e.scope, e.on, sw);
      } else {
        StepSwitches(cfg, s, e);
      }
      assert IsPaused(run.states[n].agent, sw) ==
             if Says(cfg, e, sw, true) then true else if Says(cfg, e, sw, false) then false else IsPaused(s.agent, sw);
      LastWordStep(run, n, sw);
    }
  }

  lemma LastWordStep(run: Run, n: nat, sw: Switch)
    requires Shaped(run) && 0 < n <= |run.steps|
    ensures var cfg, e := run.cfgs[n - 1], run.steps[n - 1];
            (exists k | 0 <= k < n :: Says(run.cfgs[k], run.steps[k], sw, true)
                                      && forall j | k < j < n :: !Says(run.cfgs[j], run.steps[j], sw, false)) <==>
            || Says(cfg, e, sw, true)
            || (!Says(cfg, e, sw, false)
                && exists k | 0 <= k < n - 1 :: Says(run.cfgs[k], run.steps[k], sw, true)
                                                && forall j | k < j < n - 1 :: !Says(run.cfgs[j], run.steps[j], sw, false))
  {
    if k :| 0 <= k < n - 1 && Says(run.cfgs[k], run.steps[k], sw, true)
            && forall j | k < j < n - 1 :: !Says(run.cfgs[j], run.steps[j], sw, false) {
    }
  }

  // ---- approvals ----

  /** The only watch that has the host. */
  predicate OnlyOwner(cfg: Config, host: Name, i: int) {
    0 <= i < |cfg| && host in cfg[i].hosts && forall j | 0 <= j < |cfg| && host in cfg[j].hosts :: j == i
  }

  /** The command means the host in this watch: it names the watch, or none is named and no
      other watch has the host. */
  predicate Means(cfg: Config, owner: Option<Name>, host: Name, w: Name) {
    && (exists i :: 0 <= i < |cfg| && cfg[i].name == w && host in cfg[i].hosts && (owner.None? ==> OnlyOwner(cfg, host, i)))
    && (owner.Some? ==> owner.value == w)
  }

  lemma {:induction false} OwnersExact(cfg: Config, host: Name)
    ensures Owners(cfg, host) == [] <==> forall i | 0 <= i < |cfg| :: host !in cfg[i].hosts
    ensures |Owners(cfg, host)| == 1 <==> exists i :: OnlyOwner(cfg, host, i)
    ensures forall i | OnlyOwner(cfg, host, i) :: Owners(cfg, host) == [cfg[i].name]
  {
    if cfg != [] {
      var rest := cfg[1..];
      OwnersExact(rest, host);
      assert forall i | 0 <= i < |rest| :: rest[i] == cfg[i + 1];
      if host in cfg[0].hosts {
        FirstOwner(cfg, host);
      } else {
        assert [] + Owners(rest, host) == Owners(rest, host);
        forall i ensures OnlyOwner(cfg, host, i) <==> OnlyOwner(rest, host, i - 1) {
          if OnlyOwner(rest, host, i - 1) {
            assert forall j | 0 < j < |cfg| && host in cfg[j].hosts :: host in rest[j - 1].hosts;
          }
        }
        if i :| OnlyOwner(rest, host, i) {
          assert OnlyOwner(cfg, host, i + 1);
        }
      }
    }
  }

  lemma FirstOwner(cfg: Config, host: Name)
    requires cfg != [] && host in cfg[0].hosts
    requires Owners(cfg[1..], host) == [] <==> forall i | 0 <= i < |cfg| - 1 :: host !in cfg[1..][i].hosts
    ensures |Owners(cfg, host)| == 1 <==> exists i :: OnlyOwner(cfg, host, i)
    ensures forall i | OnlyOwner(cfg, host, i) :: Owners(cfg, host) == [cfg[i].name]
  {
    var rest := cfg[1..];
    assert forall i | 0 <= i < |rest| :: rest[i] == cfg[i + 1];
    assert Owners(cfg, host) == [cfg[0].name] + Owners(rest, host);
    if Owners(rest, host) == [] {
      forall j | 0 < j < |cfg| ensures host !in cfg[j].hosts {
        assert cfg[j] == rest[j - 1];
      }
      assert OnlyOwner(cfg, host, 0);
    }
  }

  lemma TargetExact(cfg: Config, owner: Option<Name>, host: Name, w: Name)
    requires ValidConfig(cfg)
    ensures ApprovalTarget(cfg, owner, host) == Some(w) <==> Means(cfg, owner, host, w)
  {
    if owner.None? {
      OwnersExact(cfg, host);
    } else {
      FoundByName(cfg, owner.value, host);
    }
  }

  lemma {:induction false} FoundByName(cfg: Config, w: Name, host: Name)
    requires ValidConfig(cfg)
    ensures (Configured(cfg, w) && host in WatchCfg(cfg, w).value.hosts) <==> Lists(cfg, w, host)
  {
    if cfg != [] {
      FoundByName(cfg[1..], w, host);
      ListsStep(cfg, w, host);
    }
  }

  /** An approval is about one host in one watch: the command grants or revokes it exactly for
      the host it means, an ambiguous or unknown host leaves everything as it is, and nothing
      else about any host changes. (Configurations name each watch once; loading refuses
      others.) */
  lemma ApprovalIsForTheOneMeant(run: Run, n: nat, w: Name, h: Name)
    requires ValidRun(run) && n < |run.steps| && run.steps[n].ApproveCmd? && ValidConfig(run.cfgs[n])
    ensures var e := run.steps[n];
            HostOf(run.states[n + 1].agent, w, h) ==
            if h == e.host && Means(run.cfgs[n], e.owner, e.host, w)
            then HostOf(run.states[n].agent, w, h).(approved := !e.revoke)
            else HostOf(run.states[n].agent, w, h)
  {
    assert StepOk(run, n);
    TargetExact(run.cfgs[n], run.steps[n].owner, run.steps[n].host, w);
  }

  // ---- histories ----

  /** The records of the runs of a watch that ended in the first n steps, in order. */
  ghost function EndedRuns(run: Run, n: nat, w: Name): seq<RunRecord>
    requires ValidRun(run) && n <= |run.steps|
  {
    if n == 0 then []
    else
      var before := EndedRuns(run, n - 1, w);
      var cfg, s, e := run.cfgs[n - 1], run.states[n - 1], run.steps[n - 1];
      assert StepOk(run, n - 1);
      if e.RunDone? && s.running.value.watch == w then before + [RunRecordOf(cfg, s, e.env)] else before
  }

  lemma NewestAndOneMore<T>(kept: seq<T>, all: seq<T>, x: T)
    requires NewestOf(kept, all)
    ensures NewestOf(Latest(kept + [x]), all + [x])
  {
    var cut := |all| - |kept|;
    assert kept + [x] == (all + [x])[cut..];
  }

  lemma FinishHistory(cfg: Config, s: Sys, watch: Name, record: RunRecord, heads: Name -> Head, w: Name)
    ensures HistoryOf(FinishRun(cfg, s, watch, record, heads).agent, w) ==
            if w == watch then Latest(HistoryOf(s.agent, w) + [record]) else HistoryOf(s.agent, w)
  {
    FoldKeepsIds(s.agent, watch, record.hosts, record.rev, record.finished);
    DrainKeepsIds(cfg, Conclude(cfg, s, watch, record).(pending := []), s.pending, heads);
  }

  /** At every moment of every run, the history of a watch is that of its newest runs: the
      records of the last fifty that ended, or of all, in the order they ended. */
  lemma {:induction false} HistoryIsTheNewestRuns(run: Run, n: nat, w: Name)
    requires ValidRun(run) && n <= |run.steps|
    ensures NewestOf(HistoryOf(run.states[n].agent, w), EndedRuns(run, n, w))
  {
    if n > 0 {
      var cfg, s, e := run.cfgs[n - 1], run.states[n - 1], run.steps[n - 1];
      HistoryIsTheNewestRuns(run, n - 1, w);
      RunKeepsInvariant(run, n - 1);
      assert StepOk(run, n - 1);
      HistoryStep(cfg, s, e, w);
      if e.RunDone? {
        NewestAndOneMore(HistoryOf(s.agent, w), EndedRuns(run, n - 1, w), RunRecordOf(cfg, s, e.env));
      }
    }
  }

  lemma HistoryStep(cfg: Config, s: Sys, e: Step, w: Name)
    requires Invariant(cfg, s) && Legal(cfg, s, e)
    ensures HistoryOf(Next(cfg, s, e).agent, w) ==
            if e.RunDone? && s.running.value.watch == w
            then Latest(HistoryOf(s.agent, w) + [RunRecordOf(cfg, s, e.env)]) else HistoryOf(s.agent, w)
  {
    if e.RunDone? {
      FinishHistory(cfg, s, s.running.value.watch, RunRecordOf(cfg, s, e.env), e.heads, w);
    } else {
      I.StepKeepsIds(cfg, s, e);
    }
  }

  // ---- timers ----

  lemma {:induction false} FoldedHost(a: Agent, w: Name, runs: seq<HostRun>, rev: Rev, time: nat, h: Name)
    ensures (forall i | 0 <= i < |runs| :: runs[i].host != h) ==>
              HostOf(FoldAll(a, w, runs, rev, time), w, h) == HostOf(a, w, h)
    decreases |runs|
  {
    if runs != [] {
      FoldedHost(SetHost(a, w, runs[0].host, Fold(HostOf(a, w, runs[0].host), runs[0], rev, time)),
                 w, runs[1..], rev, time, h);
      assert forall i | 0 <= i < |runs| - 1 :: runs[1..][i] == runs[i + 1];
    }
  }

  /** Folding several outcomes leaves each host with its own. */
  lemma {:induction false} FoldedOwn(a: Agent, w: Name, runs: seq<HostRun>, rev: Rev, time: nat, k: nat)
    requires k < |runs| && forall i, j | 0 <= i < j < |runs| :: runs[i].host != runs[j].host
    ensures HostOf(FoldAll(a, w, runs, rev, time), w, runs[k].host) == Fold(HostOf(a, w, runs[k].host), runs[k], rev, time)
    decreases |runs|
  {
    var b := SetHost(a, w, runs[0].host, Fold(HostOf(a, w, runs[0].host), runs[0], rev, time));
    assert forall i | 0 <= i < |runs| - 1 :: runs[1..][i] == runs[i + 1];
    if k == 0 {
      FoldedHost(b, w, runs[1..], rev, time, runs[0].host);
    } else {
      FoldedOwn(b, w, runs[1..], rev, time, k - 1);
    }
  }

  /** A run in which a host ended pending leaves a sleeper behind. */
  lemma PendingLeavesASleeper(cfg: Config, s: Sys, env: RunEnv)
    requires Invariant(cfg, s) && s.running.Some? && HadOffline(RunRecordOf(cfg, s, env))
    ensures var watch, record := s.running.value.watch, RunRecordOf(cfg, s, env);
            HasOffline(Conclude(cfg, s, watch, record).agent, watch)
  {
    var watch, record := s.running.value.watch, RunRecordOf(cfg, s, env);
    var plan := s.running.value.plan;
    var a := FoldAll(s.agent, watch, record.hosts, record.rev, record.finished);
    RunAccounting(WatchCfg(cfg, watch).value, plan, env);
    var k :| 0 <= k < |record.hosts| && IsPending(record.hosts[k].outcome);
    FoldedOwn(s.agent, watch, record.hosts, record.rev, record.finished, k);
    ConcludedHost(cfg, s, watch, record, watch, record.hosts[k].host);
    assert record.hosts[k].host in WatchOf(Conclude(cfg, s, watch, record).agent, watch).hosts;
  }

  lemma SleepersAsBefore(a: Agent, b: Agent, w: Name)
    requires forall h :: HostOf(a, w, h) == HostOf(b, w, h)
    ensures HasOffline(a, w) == HasOffline(b, w)
  {
    if HasOffline(a, w) {
      OfflineFollowsHosts(a, b, w);
    }
    if HasOffline(b, w) {
      OfflineFollowsHosts(b, a, w);
    }
  }

  lemma RunDoneTimers(cfg: Config, s: Sys, env: RunEnv, heads: Name -> Head, w: Name)
    requires Invariant(cfg, s) && s.running.Some?
    ensures var watch, record := s.running.value.watch, RunRecordOf(cfg, s, env);
            var s' := FinishRun(cfg, s, watch, record, heads);
            w in s'.armed ==> w in s.armed || HasOffline(s'.agent, w)
  {
    var watch, record := s.running.value.watch, RunRecordOf(cfg, s, env);
    var s1 := Conclude(cfg, s, watch, record).(pending := []);
    DrainPolls(cfg, s1, s.pending, heads);
    if HadOffline(record) {
      PendingLeavesASleeper(cfg, s, env);
      SleepersAsBefore(s1.agent, Drain(cfg, s1, s.pending, heads).sys.agent, watch);
    }
  }

  lemma RecheckTimers(cfg: Config, s: Sys, watch: Name, verdicts: Name -> Option<Unreachable>, head: Head, w: Name)
    requires Configured(cfg, watch)
    ensures var s' := Recheck(cfg, s, watch, verdicts, head);
            w in s'.armed <==> if w == watch then HasOffline(s'.agent, w) else w in s.armed
  {
    var probed := AfterProbes(s, watch, verdicts);
    RequestPollPolls(cfg, probed, watch, "catch-up", head);
    SleepersAsBefore(probed.agent, Recheck(cfg, s, watch, verdicts, head).agent, watch);
    StillDownSleeps(s, watch, verdicts);
  }

  lemma StillDownSleeps(s: Sys, watch: Name, verdicts: Name -> Option<Unreachable>)
    ensures HasOffline(AfterProbes(s, watch, verdicts).agent, watch) <==> SomeStillDown(s.agent, watch, verdicts)
  {
    var b := AfterProbes(s, watch, verdicts).agent;
    if h :| h in WatchOf(s.agent, watch).hosts && WatchOf(s.agent, watch).hosts[h].offline.Some? && verdicts(h).Some? {
      ProbedHost(s, watch, verdicts, watch, h);
      assert h in WatchOf(b, watch).hosts;
    }
    if h :| h in WatchOf(b, watch).hosts && WatchOf(b, watch).hosts[h].offline.Some? {
      ProbedHost(s, watch, verdicts, watch, h);
    }
  }

  /** Timers follow sleepers: over every run, a configured watch has its recheck armed after a
      step exactly if one of its hosts sleeps, or the timer was armed before and the step
      neither fired it nor started the process anew. */
  lemma TimersFollowSleepers(run: Run, n: nat, w: Name)
    requires ValidRun(run) && n < |run.steps| && Configured(run.cfgs[n + 1], w)
    ensures var e, s, s' := run.steps[n], run.states[n], run.states[n + 1];
            w in s'.armed <==>
            || HasOffline(s'.agent, w)
            || (w in s.armed && !e.Restart? && !(e.RecheckDue? && e.watch == w))
  {
    assert StepOk(run, n);
    RunKeepsInvariant(run, n);
    RunKeepsInvariant(run, n + 1);
    if run.steps[n].Restart? {
      StartTimers(run.cfgs[n], run.states[n], run.steps[n], w);
    } else {
      StepTimers(run.cfgs[n], run.states[n], run.steps[n], w);
    }
  }

  lemma StartTimers(cfg: Config, s: Sys, e: Step, w: Name)
    requires Legal(cfg, s, e) && e.Restart? && Configured(e.loaded, w)
    ensures w in Next(cfg, s, e).armed <==> HasOffline(Next(cfg, s, e).agent, w)
  {
  }

  lemma StepTimers(cfg: Config, s: Sys, e: Step, w: Name)
    requires Invariant(cfg, s) && Legal(cfg, s, e) && !e.Restart? && Configured(cfg, w)
    ensures var s' := Next(cfg, s, e);
            && (w in s'.armed ==> HasOffline(s'.agent, w) || (w in s.armed && !(e.RecheckDue? && e.watch == w)))
            && (w in s.armed && !(e.RecheckDue? && e.watch == w) ==> w in s'.armed)
  {
    match e {
      case Poll(watch, trigger, head) => RequestPollPolls(cfg, s, watch, trigger, head);
      case ValidateDone(heads) => DrainPolls(cfg, s.(validating := false, pending := []), s.pending, heads);
      case RunDone(env, heads) =>
        RunDoneTimers(cfg, s, env, heads, w);
        DrainPolls(cfg, Conclude(cfg, s, s.running.value.watch, RunRecordOf(cfg, s, env)).(pending := []), s.pending, heads);
      case RecheckDue(watch, verdicts, head) => RecheckTimers(cfg, s, watch, verdicts, head, w);
      case _ =>
    }
  }

  // ---- self-restart ----

  predicate FindsChange(e: Step) { e.SelfCheck? && e.changed }

  /** What steps other than commands and starts do to the process, the wish to restart it,
      and a validation. */
  lemma PollsLeaveTheProcess(cfg: Config, s: Sys, e: Step)
    requires Legal(cfg, s, e) && (e.Poll? || e.RecheckDue?)
    ensures var s' := Next(cfg, s, e);
            s'.restartWanted == s.restartWanted && s'.up == s.up && s'.validating == s.validating
  {
    if e.Poll? {
      PollLeavesTheProcess(cfg, s, e.watch, e.trigger, e.head);
    } else {
      PollLeavesTheProcess(cfg, AfterProbes(s, e.watch, e.verdicts), e.watch, "catch-up", e.head);
    }
  }

  lemma PollLeavesTheProcess(cfg: Config, s: Sys, watch: Name, trigger: string, head: Head)
    ensures var s' := RequestPoll(cfg, s, watch, trigger, head);
            s'.restartWanted == s.restartWanted && s'.up == s.up && s'.validating == s.validating
  {
  }

  lemma EndOfWorkDrains(cfg: Config, s: Sys, e: Step)
    requires Legal(cfg, s, e) && (e.RunDone? || e.ValidateDone?)
    ensures var s' := Next(cfg, s, e);
            && s'.restartWanted == s.restartWanted && (!s'.up ==> s.restartWanted)
            && s'.validating == (s.validating && e.RunDone?)
  {
    if e.RunDone? {
      var concluded := Conclude(cfg, s, s.running.value.watch, RunRecordOf(cfg, s, e.env)).(pending := []);
      DrainPolls(cfg, concluded, s.pending, e.heads);
    } else {
      DrainPolls(cfg, s.(validating := false, pending := []), s.pending, e.heads);
    }
  }

  /** Nothing but a self-check or a start touches the wish to restart, and only a command or a
      self-check ends the process. */
  lemma WishStays(cfg: Config, s: Sys, e: Step)
    requires Legal(cfg, s, e) && !e.Restart?
    ensures var s' := Next(cfg, s, e);
            && s'.restartWanted == (s.restartWanted || (FindsChange(e) && !Idle(s)))
            && (!s'.up ==> s.restartWanted || (FindsChange(e) && Idle(s)))
  {
    if e.Poll? || e.RecheckDue? {
      PollsLeaveTheProcess(cfg, s, e);
    } else if e.RunDone? || e.ValidateDone? {
      EndOfWorkDrains(cfg, s, e);
    }
  }

  /** A change of the binary or the configuration is acted on: from the self-check that finds
      it on, and until the next start, the process is either gone or still busy; it never
      idles on. */
  lemma {:induction false} ChangesAreActedOn(run: Run, k: nat, n: nat)
    requires ValidRun(run) && k < n <= |run.steps| && FindsChange(run.steps[k])
    requires forall j | k < j < n :: !run.steps[j].Restart?
    ensures !run.states[n].up || (run.states[n].restartWanted && Busy(run.states[n]))
    decreases n
  {
    assert StepOk(run, n - 1);
    RunKeepsInvariant(run, n - 1);
    RunKeepsInvariant(run, n);
    if n - 1 > k {
      ChangesAreActedOn(run, k, n - 1);
      WishStays(run.cfgs[n - 1], run.states[n - 1], run.steps[n - 1]);
    }
  }

  /** No start, and no self-check that finds a change. */
  predicate Quiet(e: Step) { !e.Restart? && !FindsChange(e) }

  /** And only on a change: between a start and the next, the process stays up unless a
      self-check found one. */
  lemma {:induction false} NoChangeNoExit(run: Run, k: nat, n: nat)
    requires ValidRun(run) && k < n <= |run.steps| && run.steps[k].Restart?
    requires forall j | k < j < n :: Quiet(run.steps[j])
    ensures run.states[n].up && !run.states[n].restartWanted
    decreases n
  {
    var cfg, s, e := run.cfgs[n - 1], run.states[n - 1], run.steps[n - 1];
    assert Legal(cfg, s, e) && run.states[n] == Next(cfg, s, e) by {
      assert StepOk(run, n - 1);
    }
    if n - 1 > k {
      assert Quiet(e);
      NoChangeNoExit(run, k, n - 1);
      QuietStep(cfg, s, e);
    } else {
      QuietStep(cfg, s, e);
    }
  }

  lemma QuietStep(cfg: Config, s: Sys, e: Step)
    requires Legal(cfg, s, e) && (e.Restart? || (!s.restartWanted && !FindsChange(e)))
    ensures Next(cfg, s, e).up && !Next(cfg, s, e).restartWanted
  {
    if !e.Restart? {
      WishStays(cfg, s, e);
    }
  }

  // ---- the queue ----

  /** A poll of a busy daemon waits its turn: the queue so far keeps its order, and the request
      stands behind it, unless its watch was queued already; nothing else happens. */
  lemma BusyPollsQueueUp(run: Run, n: nat)
    requires ValidRun(run) && n < |run.steps| && run.steps[n].Poll? && Busy(run.states[n])
    ensures var s, s', e := run.states[n], run.states[n + 1], run.steps[n];
            && s' == s.(pending := s'.pending)
            && s.pending <= s'.pending
            && (exists i :: 0 <= i < |s'.pending| && s'.pending[i].watch == e.watch)
            && (|s'.pending| > |s.pending| <==> forall i | 0 <= i < |s.pending| :: s.pending[i].watch != e.watch)
            && (|s'.pending| > |s.pending| ==> s'.pending[|s.pending|..] == [Queued(e.watch, e.trigger)])
  {
    assert StepOk(run, n);
    QueuedNow(run.states[n], run.steps[n].watch, run.steps[n].trigger);
  }

  /** This watch has been looked at: its request is queued, or its head was seen. */
  predicate LookedAt(s: Sys, w: Name, head: Head) {
    IsQueued(s.pending, w) || (head.Found? && WatchOf(s.agent, w).lastSeen == Some(head.rev))
  }

  lemma PollLooks(cfg: Config, s: Sys, watch: Name, trigger: string, head: Head)
    requires Configured(cfg, watch) && !WatchPaused(s.agent, watch) && head.Found?
    ensures LookedAt(RequestPoll(cfg, s, watch, trigger, head), watch, head)
  {
    if Busy(s) {
      QueuedNow(s, watch, trigger);
    }
  }

  lemma PollKeepsLooked(cfg: Config, s: Sys, watch: Name, trigger: string, heads: Name -> Head, w: Name)
    requires LookedAt(s, w, heads(w))
    ensures LookedAt(RequestPoll(cfg, s, watch, trigger, heads(watch)), w, heads(w))
  {
    if Busy(s) && IsQueued(s.pending, w) {
      StaysQueued(s, watch, trigger, w);
    } else if !Busy(s) {
      PollStarts(cfg, s, watch, trigger, heads(watch));
    }
  }

  lemma StaysQueued(s: Sys, watch: Name, trigger: string, w: Name)
    requires IsQueued(s.pending, w)
    ensures IsQueued(Enqueue(s, watch, trigger).pending, w)
  {
    var i :| 0 <= i < |s.pending| && s.pending[i].watch == w;
    assert Enqueue(s, watch, trigger).pending[i] == s.pending[i];
  }

  lemma {:induction false} PollAllKeepsLooked(cfg: Config, s: Sys, names: seq<Name>, trigger: string, heads: Name -> Head, w: Name)
    requires LookedAt(s, w, heads(w))
    ensures LookedAt(PollAll(cfg, s, names, trigger, heads), w, heads(w))
    decreases |names|
  {
    if names != [] {
      PollKeepsLooked(cfg, s, names[0], trigger, heads, w);
      PollAllKeepsLooked(cfg, RequestPoll(cfg, s, names[0], trigger, heads(names[0])), names[1..], trigger, heads, w);
    }
  }

  /** A kick reaches every watch it is for: one that is configured, not paused and whose head
      is found is seen at that head, or waits in the queue behind what was started. */
  lemma {:induction false} KicksReachEveryWatch(cfg: Config, s: Sys, names: seq<Name>, trigger: string, heads: Name -> Head, w: Name)
    requires w in names && Configured(cfg, w) && !WatchPaused(s.agent, w) && heads(w).Found?
    ensures LookedAt(PollAll(cfg, s, names, trigger, heads), w, heads(w))
    decreases |names|
  {
    var s' := RequestPoll(cfg, s, names[0], trigger, heads(names[0]));
    if names[0] == w {
      PollLooks(cfg, s, w, trigger, heads(w));
      PollAllKeepsLooked(cfg, s', names[1..], trigger, heads, w);
    } else {
      RequestPollPolls(cfg, s, names[0], trigger, heads(names[0]));
      KicksReachEveryWatch(cfg, s', names[1..], trigger, heads, w);
    }
  }

  lemma RecheckedHost(cfg: Config, s: Sys, watch: Name, o: Outside, w: Name, h: Name)
    ensures HostOf(Recheck(cfg, s, watch, o.verdicts, o.head).agent, w, h) ==
            if w == watch && HostOf(s.agent, w, h).offline.Some?
            then HT.AfterRecheck(HostOf(s.agent, w, h), o.verdicts(h)) else HostOf(s.agent, w, h)
  {
    ProbedHost(s, watch, o.verdicts, w, h);
    RequestPollPolls(cfg, AfterProbes(s, watch, o.verdicts), watch, "catch-up", o.head);
  }

  lemma {:induction false} AwakeStaysAwake(cfg: Config, s: Sys, names: seq<Name>, outside: Name -> Outside, w: Name, h: Name)
    requires HostOf(s.agent, w, h).offline.None?
    ensures HostOf(RecheckAll(cfg, s, names, outside).agent, w, h).offline.None?
    decreases |names|
  {
    if names != [] {
      RecheckedHost(cfg, s, names[0], outside(names[0]), w, h);
      var o := outside(names[0]);
      AwakeStaysAwake(cfg, Recheck(cfg, s, names[0], o.verdicts, o.head), names[1..], outside, w, h);
    }
  }

  /** When several rechecks are due, each is done: a host of any of those watches that answers
      is pending no more. */
  lemma {:induction false} DueRechecksAllHappen(cfg: Config, s: Sys, names: seq<Name>, outside: Name -> Outside, w: Name, h: Name)
    requires w in names && outside(w).verdicts(h).None?
    ensures HostOf(RecheckAll(cfg, s, names, outside).agent, w, h).offline.None?
    decreases |names|
  {
    var o := outside(names[0]);
    var s' := Recheck(cfg, s, names[0], o.verdicts, o.head);
    RecheckedHost(cfg, s, names[0], o, w, h);
    if names[0] == w {
      AwakeStaysAwake(cfg, s', names[1..], outside, w, h);
    } else {
      DueRechecksAllHappen(cfg, s', names[1..], outside, w, h);
    }
  }

  // ---- what probes leave behind ----

  /** What ssh said of the host, and nothing else about it. */
  predicate OnlyRemarked(before: HostState, after: HostState, verdict: Option<Unreachable>) {
    && after == before.(unreachable := after.unreachable, offline := after.offline)
    && match verdict
       case None => after.unreachable == None
       case Some(u) => after.unreachable == Some(Ssh(u.text)) && (after.offline.Some? ==> after.offline.value.kind == u.kind)
  }

  /** A host that was pending and is still down at its recheck stays pending for the same
      revision, with what ssh says now; hosts that were not pending are not touched. */
  lemma SilentSleepersStayPending(run: Run, n: nat, w: Name, h: Name)
    requires ValidRun(run) && n < |run.steps| && run.steps[n].RecheckDue?
    ensures var e, hs, hs' := run.steps[n], HostOf(run.states[n].agent, w, h), HostOf(run.states[n + 1].agent, w, h);
            if w == e.watch && hs.offline.Some? then
              && OnlyRemarked(hs, hs', e.verdicts(h)) && (hs'.offline.Some? <==> e.verdicts(h).Some?)
              && (hs'.offline.Some? ==> hs'.offline.value.rev == hs.offline.value.rev && hs'.offline.value.time == hs.offline.value.time)
            else hs' == hs
  {
    var e := run.steps[n];
    assert StepOk(run, n);
    RecheckedHost(run.cfgs[n], run.states[n], e.watch, Outside(e.verdicts, e.head), w, h);
  }

  lemma {:induction false} UnprobedHost(a: Agent, probes: seq<Probe>, w: Name, h: Name)
    requires forall p | p in probes :: !(p.watch == w && p.host == h)
    ensures HostOf(ProbeAll(a, probes), w, h) == HostOf(a, w, h)
    decreases |probes|
  {
    if probes != [] {
      var p := probes[0];
      assert p in probes;
      UnprobedHost(SetHost(a, p.watch, p.host, HT.AfterProbe(HostOf(a, p.watch, p.host), p.verdict)), probes[1..], w, h);
    }
  }

  lemma {:induction false} ProbedOnce(a: Agent, probes: seq<Probe>, k: nat)
    requires k < |probes|
    requires forall j | 0 <= j < |probes| && j != k :: !(probes[j].watch == probes[k].watch && probes[j].host == probes[k].host)
    ensures var p := probes[k];
            OnlyRemarked(HostOf(a, p.watch, p.host), HostOf(ProbeAll(a, probes), p.watch, p.host), p.verdict)
    decreases |probes|
  {
    var p, first, rest := probes[k], probes[0], probes[1..];
    var b := SetHost(a, first.watch, first.host, HT.AfterProbe(HostOf(a, first.watch, first.host), first.verdict));
    assert forall j | 0 <= j < |rest| :: rest[j] == probes[j + 1];
    if k == 0 {
      UnprobedHost(b, rest, p.watch, p.host);
    } else {
      ProbedOnce(b, rest, k - 1);
    }
  }

  /** A start writes down what its probes found, of every host it probed once; of a host it did
      not probe it keeps everything. */
  lemma StartupRemembersItsProbes(run: Run, n: nat, k: nat)
    requires ValidRun(run) && n < |run.steps| && run.steps[n].Restart? && k < |run.steps[n].probes|
    requires var probes := run.steps[n].probes;
             forall j | 0 <= j < |probes| && j != k :: !(probes[j].watch == probes[k].watch && probes[j].host == probes[k].host)
    ensures var p := run.steps[n].probes[k];
            OnlyRemarked(HostOf(run.states[n].agent, p.watch, p.host), HostOf(run.states[n + 1].agent, p.watch, p.host), p.verdict)
  {
    var p := run.steps[n].probes[k];
    assert StepOk(run, n);
    Reloaded(run, n, p.watch, p.host);
    ProbedOnce(DropSupersededParks(run.states[n].agent), run.steps[n].probes, k);
  }

  lemma StartupKeepsTheRest(run: Run, n: nat, w: Name, h: Name)
    requires ValidRun(run) && n < |run.steps| && run.steps[n].Restart?
    requires forall p | p in run.steps[n].probes :: !(p.watch == w && p.host == h)
    ensures HostOf(run.states[n + 1].agent, w, h) == HostOf(run.states[n].agent, w, h)
  {
    assert StepOk(run, n);
    Reloaded(run, n, w, h);
    UnprobedHost(DropSupersededParks(run.states[n].agent), run.steps[n].probes, w, h);
  }

  lemma Reloaded(run: Run, n: nat, w: Name, h: Name)
    requires ValidRun(run) && n <= |run.steps|
    ensures HostOf(DropSupersededParks(run.states[n].agent), w, h) == HostOf(run.states[n].agent, w, h)
  {
    var tr := TraceUpTo(run, n, w, h);
    EveryRunProjects(run, n, w, h);
    HT.NeverParkedAndPending(h, tr);
    ReloadIsIdentity(run.states[n].agent, w, h);
  }

  // ---- validations ----

  /** A validation begins exactly when nothing is in flight, and lasts until its end. */
  lemma ValidationsBeginAtRest(run: Run, n: nat)
    requires ValidRun(run) && n < |run.steps| && !run.steps[n].Restart?
    ensures var s, s', e := run.states[n], run.states[n + 1], run.steps[n];
            s'.validating <==> (s.validating && !e.ValidateDone?) || (e.Validate? && s.running.None? && !s.validating)
  {
    assert StepOk(run, n);
    ValidatingStep(run.cfgs[n], run.states[n], run.steps[n]);
  }

  lemma ValidatingStep(cfg: Config, s: Sys, e: Step)
    requires Legal(cfg, s, e) && !e.Restart?
    ensures Next(cfg, s, e).validating <==>
            (s.validating && !e.ValidateDone?) || (e.Validate? && s.running.None? && !s.validating)
  {
    if e.Poll? || e.RecheckDue? {
      PollsLeaveTheProcess(cfg, s, e);
    } else if e.RunDone? || e.ValidateDone? {
      EndOfWorkDrains(cfg, s, e);
    }
  }
}
