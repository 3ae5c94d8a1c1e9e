/** The oneshot `check` (crates/deptui-agent/src/main.rs): poll each watch once, deploy
    inline, fold the outcomes. It has its own planner and its own fold loop, and must agree
    with the daemon. */
module Check {
  import opened Ordered
  import opened AgentState
  import opened Flake
  import opened Runner
  import opened Planner
  import D = DaemonSteps
  import P = DaemonProofs

  function Fails(record: RunRecord): bool {
    exists i :: 0 <= i < |record.hosts| && record.hosts[i].outcome.Failed?
  }

  /** State and failure flag after one watch. */
  datatype Checked = Checked(agent: Agent, failed: bool)

  function CheckWatch(w: WatchConfig, a: Agent, head: D.Head, env: RunEnv): Checked {
    if D.WatchPaused(a, w.name) then Checked(a, false)
    else
      match head
      case Missing => Checked(a, false)
      case PollError => Checked(a, true)
      case Found(rev) => CheckSeen(w, Keys(w.hosts.Keys), D.See(a, w.name, rev), rev, env)
  }

  function CheckSeen(w: WatchConfig, names: seq<Name>, a: Agent, rev: Rev, env: RunEnv): Checked {
    var hosts := CheckPlan(names, WatchOf(a, w.name), rev);
    if hosts == [] then Checked(a, false)
    else CheckRun(w, a.(nextRunId := a.nextRunId + 1), rev, hosts, env)
  }

  /** Deploy the planned hosts inline and fold what became of them. */
  function CheckRun(w: WatchConfig, a: Agent, rev: Rev, hosts: seq<PlanHost>, env: RunEnv): Checked {
    var record := RecordOf(w, RunPlan(a.nextRunId, rev, "check", hosts), env);
    Checked(D.Record(D.FoldAll(a, w.name, record.hosts, record.rev, record.finished), w.name, record), Fails(record))
  }

  function CheckAll(cfg: D.Config, only: Option<Name>, a: Agent, heads: Name -> D.Head, envs: Name -> RunEnv): Checked {
    if cfg == [] then Checked(a, false)
    else if only.Some? && only.value != cfg[0].name then CheckAll(cfg[1..], only, a, heads, envs)
    else
      var c := CheckWatch(cfg[0], a, heads(cfg[0].name), envs(cfg[0].name));
      var rest := CheckAll(cfg[1..], only, c.agent, heads, envs);
      Checked(rest.agent, c.failed || rest.failed)
  }

  method FoldRecord(a: Agent, watch: Name, record: RunRecord) returns (agent: Agent, failed: bool)
    ensures agent == D.Record(D.FoldAll(a, watch, record.hosts, record.rev, record.finished), watch, record)
    ensures failed == Fails(record)
  {
    agent, failed := a, false;
    for i := 0 to |record.hosts|
      invariant D.FoldAll(a, watch, record.hosts, record.rev, record.finished) ==
                D.FoldAll(agent, watch, record.hosts[i..], record.rev, record.finished)
      invariant failed <==> exists k :: 0 <= k < i && record.hosts[k].outcome.Failed?
    {
      assert record.hosts[i..][1..] == record.hosts[i + 1..];
      var hr := record.hosts[i];
      failed := failed || hr.outcome.Failed?;
      var entry := new HostEntry(HostOf(agent, watch, hr.host));
      entry.ApplyOutcome(hr, record.rev, record.finished);
      agent := SetHost(agent, watch, hr.host, entry.Value());
    }
    var history := PushRun(WatchOf(agent, watch).history, record);
    agent := agent.(watches := agent.watches[watch := WatchOf(agent, watch).(history := history)]);
  }

  method RunOneWatch(w: WatchConfig, a: Agent, head: D.Head, env: RunEnv) returns (c: Checked)
    ensures c == CheckWatch(w, a, head, env)
  {
    if a.paused || (w.name in a.watches && a.watches[w.name].paused) {
      return Checked(a, false);
    }
    if head.Missing? {
      return Checked(a, false);
    }
    if head.PollError? {
      return Checked(a, true);
    }
    c := DeploySeen(w, Keys(w.hosts.Keys), D.See(a, w.name, head.rev), head.rev, env);
  }

  method DeploySeen(w: WatchConfig, names: seq<Name>, a: Agent, rev: Rev, env: RunEnv) returns (c: Checked)
    ensures c == CheckSeen(w, names, a, rev, env)
  {
    var hosts := CheckPlan(names, WatchOf(a, w.name), rev);
    if hosts == [] {
      return Checked(a, false);
    }
    c := DeployInline(w, a.(nextRunId := a.nextRunId + 1), rev, hosts, env);
  }

  method DeployInline(w: WatchConfig, a: Agent, rev: Rev, hosts: seq<PlanHost>, env: RunEnv) returns (c: Checked)
    ensures c == CheckRun(w, a, rev, hosts, env)
  {
    var record, _, _ := Execute(w, RunPlan(a.nextRunId, rev, "check", hosts), env);
    var agent, failed := FoldRecord(a, w.name, record);
    c := Checked(agent, failed);
  }

  method CheckOnce(cfg: D.Config, only: Option<Name>, saved: Agent, heads: Name -> D.Head, envs: Name -> RunEnv)
    returns (agent: Agent, anyFailed: bool)
    ensures Checked(agent, anyFailed) == CheckAll(cfg, only, DropSupersededParks(saved), heads, envs)
  {
    agent, anyFailed := DropSupersededParks(saved), false;
    ghost var all := CheckAll(cfg, only, agent, heads, envs);
    for i := 0 to |cfg|
      invariant var rest := CheckAll(cfg[i..], only, agent, heads, envs);
                all == Checked(rest.agent, anyFailed || rest.failed)
    {
      assert cfg[i..][1..] == cfg[i + 1..];
      if only.None? || only.value == cfg[i].name {
        var c := RunOneWatch(cfg[i], agent, heads(cfg[i].name), envs(cfg[i].name));
        agent, anyFailed := c.agent, anyFailed || c.failed;
      }
    }
  }

  /** For every state, head and course of the run, `check` on one watch leaves exactly the
      state the idle daemon reaches by polling that watch and finishing the run it starts. */
  lemma {:induction false} CheckIsAnIdlePoll(cfg: D.Config, s: D.Sys, watch: Name, head: D.Head, env: RunEnv)
    requires !D.Busy(s) && s.pending == [] && D.Configured(cfg, watch)
    ensures CheckWatch(D.WatchCfg(cfg, watch).value, s.agent, head, env).agent ==
            Finished(cfg, D.RequestPoll(cfg, s, watch, "check", head), env)
  {
    if D.WatchPaused(s.agent, watch) || !head.Found? {
      NothingToSee(cfg, s, watch, head, env);
    } else {
      var w := D.WatchCfg(cfg, watch).value;
      IdlePoll(cfg, s, w, head.rev);
      SeenThenRun(cfg, s, w, Keys(w.hosts.Keys), D.See(s.agent, watch, head.rev), head.rev, env);
    }
  }

  /** The state once the run in flight, if any, is done. */
  function Finished(cfg: D.Config, s: D.Sys, env: RunEnv): Agent {
    if s.running.Some? && D.Configured(cfg, s.running.value.watch)
    then D.FinishRun(cfg, s, s.running.value.watch, D.RunRecordOf(cfg, s, env), (_ => D.Missing)).agent
    else s.agent
  }

  lemma NothingToSee(cfg: D.Config, s: D.Sys, watch: Name, head: D.Head, env: RunEnv)
    requires !D.Busy(s) && D.Configured(cfg, watch)
    requires D.WatchPaused(s.agent, watch) || !head.Found?
    ensures D.RequestPoll(cfg, s, watch, "check", head) == s
    ensures CheckWatch(D.WatchCfg(cfg, watch).value, s.agent, head, env).agent == s.agent
  {
  }

  lemma IdlePoll(cfg: D.Config, s: D.Sys, w: WatchConfig, rev: Rev)
    requires !D.Busy(s) && !D.WatchPaused(s.agent, w.name) && D.WatchCfg(cfg, w.name) == Some(w)
    ensures var seen := D.See(s.agent, w.name, rev);
            D.RequestPoll(cfg, s, w.name, "check", D.Found(rev)) ==
            D.Planned(s, w.name, "check", seen, rev, PlanFor(Keys(w.hosts.Keys), WatchOf(seen, w.name), rev))
  {
  }

  lemma SeenThenRun(cfg: D.Config, s: D.Sys, w: WatchConfig, names: seq<Name>, seen: Agent, rev: Rev, env: RunEnv)
    requires D.WatchCfg(cfg, w.name) == Some(w) && s.pending == [] && s.running.None?
    ensures CheckSeen(w, names, seen, rev, env).agent ==
            Finished(cfg, D.Planned(s, w.name, "check", seen, rev, PlanFor(names, WatchOf(seen, w.name), rev)), env)
  {
    PlannersAgree(names, WatchOf(seen, w.name), rev);
    var hosts := PlanFor(names, WatchOf(seen, w.name), rev);
    if hosts != [] {
      PollThenRun(cfg, D.Planned(s, w.name, "check", seen, rev, hosts), w, seen.(nextRunId := seen.nextRunId + 1),
                  rev, hosts, env);
    }
  }

  lemma PollThenRun(cfg: D.Config, s: D.Sys, w: WatchConfig, a: Agent, rev: Rev, hosts: seq<PlanHost>, env: RunEnv)
    requires D.WatchCfg(cfg, w.name) == Some(w) && s.pending == [] && s.agent == a
    requires s.running == Some(D.Running(w.name, RunPlan(a.nextRunId, rev, "check", hosts)))
    ensures D.FinishRun(cfg, s, w.name, D.RunRecordOf(cfg, s, env), (_ => D.Missing)).agent ==
            CheckRun(w, a, rev, hosts, env).agent
  {
    FinishWithoutQueue(cfg, s, w.name, D.RunRecordOf(cfg, s, env), _ => D.Missing);
  }

  lemma FinishWithoutQueue(cfg: D.Config, s: D.Sys, watch: Name, record: RunRecord, heads: Name -> D.Head)
    requires s.pending == []
    ensures D.FinishRun(cfg, s, watch, record, heads).agent ==
            D.Record(D.FoldAll(s.agent, watch, record.hosts, record.rev, record.finished), watch, record)
  {
  }

  // ---- several watches ----

  predicate Selected(only: Option<Name>, w: WatchConfig) { only.Some? ==> only.value == w.name }

  /** The watch is looked at, and its poll breaks or one of its hosts ends failed. */
  ghost predicate WatchFails(w: WatchConfig, a: Agent, head: D.Head, env: RunEnv) {
    && !D.WatchPaused(a, w.name)
    && match head
       case Missing => false
       case PollError => true
       case Found(rev) =>
         var plan := RunPlan(0, rev, "check", PlanHosts(w, WatchOf(D.See(a, w.name, rev), w.name), rev));
         SomeHostFails(w, plan, env)
  }

  /** Some planned host ends failed. */
  ghost predicate SomeHostFails(w: WatchConfig, plan: RunPlan, env: RunEnv) {
    exists k | 0 <= k < |plan.hosts| :: RunOf(w, plan.hosts[k], FateAt(w, plan, env, k)).outcome.Failed?
  }

  lemma {:induction false} StoppedIgnoresId(w: WatchConfig, p: RunPlan, q: RunPlan, env: RunEnv, k: nat)
    requires p.hosts == q.hosts && env.setup.Ready? && k <= |p.hosts|
    ensures StoppedBefore(w, p, env, k) == StoppedBefore(w, q, env, k)
  {
    if k > 0 {
      StoppedIgnoresId(w, p, q, env, k - 1);
    }
  }

  /** What becomes of the hosts does not depend on the run's id. */
  lemma {:induction false} RunsIgnoreId(w: WatchConfig, p: RunPlan, q: RunPlan, env: RunEnv, k: nat)
    requires p.hosts == q.hosts && k <= |p.hosts|
    ensures RunsUpTo(w, p, env, k) == RunsUpTo(w, q, env, k)
  {
    if k > 0 {
      RunsIgnoreId(w, p, q, env, k - 1);
      if env.setup.Ready? {
        StoppedIgnoresId(w, p, q, env, k - 1);
      }
    }
  }

  lemma RecordFails(w: WatchConfig, plan: RunPlan, env: RunEnv)
    ensures Fails(RecordOf(w, plan, env)) <==> SomeHostFails(w, plan, env)
  {
    forall k | 0 <= k < |plan.hosts|
      ensures RecordOf(w, plan, env).hosts[k] == RunOf(w, plan.hosts[k], FateAt(w, plan, env, k))
    {
      RecordAt(w, plan, env, k);
    }
  }

  /** The failure flag of one watch. */
  lemma CheckWatchFails(w: WatchConfig, a: Agent, head: D.Head, env: RunEnv)
    ensures CheckWatch(w, a, head, env).failed <==> WatchFails(w, a, head, env)
  {
    if !D.WatchPaused(a, w.name) && head.Found? {
      SeenFails(w, Keys(w.hosts.Keys), D.See(a, w.name, head.rev), head.rev, env);
    }
  }

  lemma SeenFails(w: WatchConfig, names: seq<Name>, seen: Agent, rev: Rev, env: RunEnv)
    ensures CheckSeen(w, names, seen, rev, env).failed <==>
            SomeHostFails(w, RunPlan(0, rev, "check", PlanFor(names, WatchOf(seen, w.name), rev)), env)
  {
    PlannersAgree(names, WatchOf(seen, w.name), rev);
    PlannedFails(w, seen, CheckPlan(names, WatchOf(seen, w.name), rev), rev, env);
  }

  /** The same of any list of planned hosts; nobody fails in an empty one. */
  lemma PlannedFails(w: WatchConfig, seen: Agent, hosts: seq<PlanHost>, rev: Rev, env: RunEnv)
    ensures hosts != [] && CheckRun(w, seen.(nextRunId := seen.nextRunId + 1), rev, hosts, env).failed <==>
            SomeHostFails(w, RunPlan(0, rev, "check", hosts), env)
  {
    if hosts != [] {
      RunFails(w, seen.(nextRunId := seen.nextRunId + 1), rev, hosts, env);
    }
  }

  lemma RunFails(w: WatchConfig, a: Agent, rev: Rev, hosts: seq<PlanHost>, env: RunEnv)
    ensures CheckRun(w, a, rev, hosts, env).failed <==> SomeHostFails(w, RunPlan(0, rev, "check", hosts), env)
  {
    RecordFails(w, RunPlan(0, rev, "check", hosts), env);
    RunsIgnoreId(w, RunPlan(0, rev, "check", hosts), RunPlan(a.nextRunId, rev, "check", hosts), env, |hosts|);
  }

  /** One watch does not touch the state of another. */
  lemma OthersUntouched(w: WatchConfig, a: Agent, head: D.Head, env: RunEnv, v: Name)
    requires v != w.name
    ensures var b := CheckWatch(w, a, head, env).agent;
            WatchOf(b, v) == WatchOf(a, v) && b.paused == a.paused
  {
    if !D.WatchPaused(a, w.name) && head.Found? {
      SeenUntouched(w, Keys(w.hosts.Keys), D.See(a, w.name, head.rev), head.rev, env, v);
    }
  }

  lemma SeenUntouched(w: WatchConfig, names: seq<Name>, seen: Agent, rev: Rev, env: RunEnv, v: Name)
    requires v != w.name
    ensures var b := CheckSeen(w, names, seen, rev, env).agent;
            WatchOf(b, v) == WatchOf(seen, v) && b.paused == seen.paused
  {
    var hosts := CheckPlan(names, WatchOf(seen, w.name), rev);
    var record := RecordOf(w, RunPlan(seen.nextRunId + 1, rev, "check", hosts), env);
    P.FoldUntouched(seen.(nextRunId := seen.nextRunId + 1), w.name, record.hosts, record.rev, record.finished, v);
  }

  /** Whether a watch fails depends on its own state only. */
  lemma FailsLocal(w: WatchConfig, a: Agent, b: Agent, head: D.Head, env: RunEnv)
    requires a.paused == b.paused && WatchOf(a, w.name) == WatchOf(b, w.name)
    ensures WatchFails(w, a, head, env) <==> WatchFails(w, b, head, env)
  {
    if head.Found? {
      assert WatchOf(D.See(a, w.name, head.rev), w.name) == WatchOf(D.See(b, w.name, head.rev), w.name);
    }
  }

  /** The whole `check`: it exits with a failure exactly when some selected watch that is not
      paused breaks its poll or has a host that ends failed, each judged from the state the
      command started with; and watches it was not told to look at are left alone. */
  lemma {:induction false} CheckFailsExactly(cfg: D.Config, only: Option<Name>, a: Agent, heads: Name -> D.Head,
                                             envs: Name -> RunEnv)
    requires D.ValidConfig(cfg)
    ensures CheckAll(cfg, only, a, heads, envs).failed <==>
            exists w | w in cfg && Selected(only, w) :: WatchFails(w, a, heads(w.name), envs(w.name))
    ensures forall v | (forall w | w in cfg && Selected(only, w) :: w.name != v) ::
              WatchOf(CheckAll(cfg, only, a, heads, envs).agent, v) == WatchOf(a, v)
    decreases |cfg|
  {
    if cfg != [] {
      var first, rest := cfg[0], cfg[1..];
      assert forall w :: w in cfg <==> w == first || w in rest;
      assert forall w | w in rest :: w.name != first.name;
      var b := if Selected(only, first) then CheckWatch(first, a, heads(first.name), envs(first.name)).agent else a;
      CheckFailsExactly(rest, only, b, heads, envs);
      if Selected(only, first) {
        CheckWatchFails(first, a, heads(first.name), envs(first.name));
        forall w | w in rest
          ensures WatchFails(w, b, heads(w.name), envs(w.name)) <==> WatchFails(w, a, heads(w.name), envs(w.name))
        {
          OthersUntouched(first, a, heads(first.name), envs(first.name), w.name);
          FailsLocal(w, a, b, heads(w.name), envs(w.name));
        }
        forall v | v != first.name ensures WatchOf(b, v) == WatchOf(a, v) {
          OthersUntouched(first, a, heads(first.name), envs(first.name), v);
        }
      }
    }
  }
}
