/** What each step of the daemon does to hosts, as events of their traces: polls and drains
    plan, the end of a run folds, rechecks and probes bring verdicts, commands grant, revoke
    and pause. Seen from one host, every step is a legal piece of that host's trace, and the
    stored state of the host is the one the trace leads to. */
module Projection {
  import opened Ordered
  import opened AgentState
  import opened Flake
  import opened Runner
  import opened Planner
  import opened DaemonSteps
  import opened DaemonProofs
  import HT = HostTrace

  datatype Obs = Obs(watch: Name, host: Name, event: HT.Event)

  function Project(obs: seq<Obs>, w: Name, h: Name): seq<HT.Event> {
    if obs == [] then []
    else
      (if obs[0].watch == w && obs[0].host == h then [obs[0].event] else []) + Project(obs[1..], w, h)
  }

  lemma {:induction false} ProjectConcat(a: seq<Obs>, b: seq<Obs>, w: Name, h: Name)
    ensures Project(a + b, w, h) == Project(a, w, h) + Project(b, w, h)
  {
    if a == [] {
      assert a + b == b;
    } else {
      assert (a + b)[1..] == a[1..] + b;
      ProjectConcat(a[1..], b, w, h);
    }
  }

  lemma {:induction false} ProjectMembers(obs: seq<Obs>, w: Name, h: Name)
    ensures forall e | e in Project(obs, w, h) :: Obs(w, h, e) in obs
  {
    if obs != [] {
      ProjectMembers(obs[1..], w, h);
      assert forall o | o in obs[1..] :: o in obs;
    }
  }

  // ---- what each step does to hosts ----

  function PlanObs(a: Agent, watch: Name, rev: Rev, hosts: seq<PlanHost>): seq<Obs> {
    if hosts == [] then []
    else [Obs(watch, hosts[0].name, HT.Planned(rev, HostOf(a, watch, hosts[0].name).approved))]
         + PlanObs(a, watch, rev, hosts[1..])
  }

  /** A run started between the two states. */
  function StartObs(s: Sys, s': Sys): seq<Obs> {
    if s.running.None? && s'.running.Some? then
      PlanObs(s'.agent, s'.running.value.watch, s'.running.value.plan.rev, s'.running.value.plan.hosts)
    else []
  }

  function FoldEvent(w: WatchConfig, plan: RunPlan, env: RunEnv, k: nat): HT.Event
    requires k < |plan.hosts|
  {
    var fate := FateAt(w, plan, env, k);
    HT.Folded(w, plan.rev, env.finished, fate, RunOf(w, plan.hosts[k], fate), Pushed(w, plan.hosts[k], fate))
  }

  function FoldObs(w: WatchConfig, watch: Name, plan: RunPlan, env: RunEnv, k: nat): seq<Obs>
    requires k <= |plan.hosts|
    decreases |plan.hosts| - k
  {
    if k == |plan.hosts| then []
    else [Obs(watch, plan.hosts[k].name, FoldEvent(w, plan, env, k))] + FoldObs(w, watch, plan, env, k + 1)
  }

  function RecheckObs(a: Agent, watch: Name, names: seq<Name>, verdicts: Name -> Option<Unreachable>): seq<Obs> {
    if names == [] then []
    else
      (if HostOf(a, watch, names[0]).offline.Some?
       then [Obs(watch, names[0], HT.Rechecked(verdicts(names[0])))] else [])
      + RecheckObs(a, watch, names[1..], verdicts)
  }

  function PauseObs(cfg: Config, h: Name, on: bool): seq<Obs> {
    if cfg == [] then []
    else (if h in cfg[0].hosts then [Obs(cfg[0].name, h, HT.Paused(on))] else []) + PauseObs(cfg[1..], h, on)
  }

  function ApproveObs(cfg: Config, s: Sys, owner: Option<Name>, host: Name, revoke: bool): seq<Obs> {
    match ApprovalTarget(cfg, owner, host)
    case None => []
    case Some(w) =>
      var approved := HostOf(s.agent, w, host).approved;
      if revoke && approved then [Obs(w, host, HT.Revoked)]
      else if !revoke && !approved then [Obs(w, host, HT.Granted)]
      else []
  }

  function ProbeObs(probes: seq<Probe>): seq<Obs> {
    if probes == [] then []
    else [Obs(probes[0].watch, probes[0].host, HT.Probed(probes[0].verdict))] + ProbeObs(probes[1..])
  }

  function Observe(cfg: Config, s: Sys, e: Step): seq<Obs>
    requires Legal(cfg, s, e)
  {
    match e
    case Poll(_, _, _) => StartObs(s, Next(cfg, s, e))
    case PauseCmd(scope, on) => if scope.OneHost? then PauseObs(cfg, scope.host, on) else []
    case ApproveCmd(owner, host, revoke) => ApproveObs(cfg, s, owner, host, revoke)
    case Validate => []
    case ValidateDone(_) => StartObs(s, Next(cfg, s, e))
    case RunDone(env, _) =>
      var r := s.running.value;
      FoldObs(WatchCfg(cfg, r.watch).value, r.watch, r.plan, env, 0)
      + StartObs(s.(running := None), Next(cfg, s, e))
    case RecheckDue(w, verdicts, _) =>
      RecheckObs(s.agent, w, Keys(WatchOf(s.agent, w).hosts.Keys), verdicts) + StartObs(s, Next(cfg, s, e))
    case SelfCheck(_) => []
    case Restart(_, probes) => ProbeObs(probes)
  }

  /** Rounds run under the configuration in force when they end. */
  ghost predicate UnderForce(cfg: Config, obs: seq<Obs>) {
    forall o | o in obs && o.event.Folded? ::
      Configured(cfg, o.watch) && o.event.under == WatchCfg(cfg, o.watch).value
  }

  lemma {:induction false} FoldObsUnder(cfg: Config, watch: Name, plan: RunPlan, env: RunEnv, k: nat)
    requires Configured(cfg, watch) && k <= |plan.hosts|
    ensures UnderForce(cfg, FoldObs(WatchCfg(cfg, watch).value, watch, plan, env, k))
    decreases |plan.hosts| - k
  {
    if k < |plan.hosts| {
      FoldObsUnder(cfg, watch, plan, env, k + 1);
    }
  }

  lemma {:induction false} PlanObsUnder(cfg: Config, a: Agent, watch: Name, rev: Rev, hosts: seq<PlanHost>)
    ensures UnderForce(cfg, PlanObs(a, watch, rev, hosts))
  {
    if hosts != [] {
      PlanObsUnder(cfg, a, watch, rev, hosts[1..]);
    }
  }

  lemma {:induction false} RecheckObsUnder(cfg: Config, a: Agent, watch: Name, names: seq<Name>,
                                           verdicts: Name -> Option<Unreachable>)
    ensures UnderForce(cfg, RecheckObs(a, watch, names, verdicts))
  {
    if names != [] {
      RecheckObsUnder(cfg, a, watch, names[1..], verdicts);
    }
  }

  lemma {:induction false} PauseObsUnder(cfg: Config, rest: Config, h: Name, on: bool)
    ensures UnderForce(cfg, PauseObs(rest, h, on))
  {
    if rest != [] {
      PauseObsUnder(cfg, rest[1..], h, on);
    }
  }

  lemma {:induction false} ProbeObsUnder(cfg: Config, probes: seq<Probe>)
    ensures UnderForce(cfg, ProbeObs(probes))
  {
    if probes != [] {
      ProbeObsUnder(cfg, probes[1..]);
    }
  }

  lemma StartObsUnder(cfg: Config, s: Sys, s': Sys)
    ensures UnderForce(cfg, StartObs(s, s'))
  {
    if s.running.None? && s'.running.Some? {
      var r := s'.running.value;
      PlanObsUnder(cfg, s'.agent, r.watch, r.plan.rev, r.plan.hosts);
    }
  }

  lemma ObservedUnderForce(cfg: Config, s: Sys, e: Step)
    requires Legal(cfg, s, e)
    ensures UnderForce(cfg, Observe(cfg, s, e))
  {
    StartObsUnder(cfg, s, Next(cfg, s, e));
    StartObsUnder(cfg, s.(running := None), Next(cfg, s, e));
    match e {
      case RunDone(env, _) => FoldObsUnder(cfg, s.running.value.watch, s.running.value.plan, env, 0);
      case RecheckDue(w, verdicts, _) =>
        RecheckObsUnder(cfg, s.agent, w, Keys(WatchOf(s.agent, w).hosts.Keys), verdicts);
      case PauseCmd(scope, on) =>
        if scope.OneHost? {
          PauseObsUnder(cfg, cfg, scope.host, on);
        }
      case Restart(_, probes) => ProbeObsUnder(cfg, probes);
      case _ =>
    }
  }

  // ---- the daemon seen from one host ----

  function InPlan(hosts: seq<PlanHost>, h: Name): Option<PlanHost> {
    if hosts == [] then None
    else if hosts[0].name == h then Some(hosts[0])
    else InPlan(hosts[1..], h)
  }

  function PlannedFor(s: Sys, w: Name, h: Name): Option<PlanHost> {
    if s.running.Some? && s.running.value.watch == w then InPlan(s.running.value.plan.hosts, h) else None
  }

  predicate Matches(s: Sys, w: Name, h: Name, v: HT.View) {
    && v.hs == HostOf(s.agent, w, h)
    && match PlannedFor(s, w, h)
       case None => v.flight.None?
       case Some(ph) =>
         v.flight.Some? && v.flight.value == HT.Flight(s.running.value.plan.rev, ph, v.flight.value.underApproval)
  }

  function ApplyAll(h: Name, v: HT.View, es: seq<HT.Event>): HT.View
    decreases |es|
  {
    if es == [] then v else ApplyAll(h, HT.Apply(h, v, es[0]), es[1..])
  }

  predicate LegalAll(h: Name, v: HT.View, es: seq<HT.Event>)
    decreases |es|
  {
    es == [] || (HT.Legal(h, v, es[0]) && LegalAll(h, HT.Apply(h, v, es[0]), es[1..]))
  }

  lemma {:induction false} AppendAll(h: Name, tr: HT.Trace, es: seq<HT.Event>)
    requires HT.Valid(h, tr) && LegalAll(h, HT.After(h, tr), es)
    ensures HT.Valid(h, tr + es) && HT.After(h, tr + es) == ApplyAll(h, HT.After(h, tr), es)
    decreases |es|
  {
    if es == [] {
      assert tr + es == tr;
    } else {
      HT.Append(h, tr, es[0]);
      AppendAll(h, tr + [es[0]], es[1..]);
      assert tr + [es[0]] + es[1..] == tr + es;
    }
  }

  lemma {:induction false} AllConcat(h: Name, v: HT.View, a: seq<HT.Event>, b: seq<HT.Event>)
    requires LegalAll(h, v, a) && LegalAll(h, ApplyAll(h, v, a), b)
    ensures LegalAll(h, v, a + b) && ApplyAll(h, v, a + b) == ApplyAll(h, ApplyAll(h, v, a), b)
    decreases |a|
  {
    if a == [] {
      assert a + b == b;
    } else {
      assert (a + b)[1..] == a[1..] + b;
      AllConcat(h, HT.Apply(h, v, a[0]), a[1..], b);
    }
  }

  lemma {:induction false} InPlanExact(hosts: seq<PlanHost>, h: Name)
    ensures match InPlan(hosts, h)
            case None => forall i | 0 <= i < |hosts| :: hosts[i].name != h
            case Some(ph) => exists i | 0 <= i < |hosts| :: hosts[i] == ph && ph.name == h
  {
    if hosts != [] && hosts[0].name != h {
      InPlanExact(hosts[1..], h);
      assert forall i | 0 < i < |hosts| :: hosts[i] == hosts[1..][i - 1];
      if InPlan(hosts, h).Some? {
        var i :| 0 <= i < |hosts| - 1 && hosts[1..][i] == InPlan(hosts, h).value;
        assert hosts[i + 1] == InPlan(hosts, h).value;
      }
    }
  }

  lemma {:induction false} PlanObsProject(a: Agent, watch: Name, rev: Rev, hosts: seq<PlanHost>, w: Name, h: Name)
    requires DistinctHosts(hosts)
    ensures Project(PlanObs(a, watch, rev, hosts), w, h) ==
            if w == watch && InPlan(hosts, h).Some? then [HT.Planned(rev, HostOf(a, w, h).approved)] else []
  {
    if hosts != [] {
      var rest := hosts[1..];
      PlanObsProject(a, watch, rev, rest, w, h);
      var o := Obs(watch, hosts[0].name, HT.Planned(rev, HostOf(a, watch, hosts[0].name).approved));
      assert ([o] + PlanObs(a, watch, rev, rest))[1..] == PlanObs(a, watch, rev, rest);
      if hosts[0].name == h {
        assert forall i | 0 <= i < |rest| :: rest[i] == hosts[i + 1];
        InPlanExact(rest, h);
      }
    }
  }

  /** Polls project: nothing happens to the host, or it is planned with the state it has. */
  lemma PollsProject(cfg: Config, s: Sys, s': Sys, w: Name, h: Name, v: HT.View)
    requires Polled(cfg, s, s') && Matches(s, w, h, v)
    ensures var es := Project(StartObs(s, s'), w, h);
            LegalAll(h, v, es) && Matches(s', w, h, ApplyAll(h, v, es))
  {
    if s.running.None? && s'.running.Some? {
      var r := s'.running.value;
      PlanObsProject(s'.agent, r.watch, r.plan.rev, r.plan.hosts, w, h);
      InPlanExact(r.plan.hosts, h);
    }
  }

  lemma {:induction false} FoldProjects(w: WatchConfig, watch: Name, plan: RunPlan, env: RunEnv, k: nat,
                                        a: Agent, name: Name, h: Name, v: HT.View)
    requires k <= |plan.hosts| && DistinctHosts(plan.hosts)
    requires v.hs == HostOf(a, name, h)
    requires name == watch && InPlan(plan.hosts[k..], h).Some? ==>
               v.flight.Some? && v.flight.value.rev == plan.rev && v.flight.value.ph == InPlan(plan.hosts[k..], h).value
    ensures var es := Project(FoldObs(w, watch, plan, env, k), name, h);
            && LegalAll(h, v, es)
            && ApplyAll(h, v, es).hs ==
                 HostOf(FoldAll(a, watch, RecordOf(w, plan, env).hosts[k..], plan.rev, env.finished), name, h)
            && ApplyAll(h, v, es).flight ==
                 (if name == watch && InPlan(plan.hosts[k..], h).Some? then None else v.flight)
    decreases |plan.hosts| - k
  {
    var runs := RecordOf(w, plan, env).hosts;
    if k < |plan.hosts| {
      RecordAt(w, plan, env, k);
      var e := FoldEvent(w, plan, env, k);
      var ph := plan.hosts[k];
      var b := SetHost(a, watch, ph.name, Fold(HostOf(a, watch, ph.name), runs[k], plan.rev, env.finished));
      var mine := name == watch && ph.name == h;
      var v' := if mine then HT.Apply(h, v, e) else v;
      assert runs[k..][0] == runs[k] && runs[k..][1..] == runs[k + 1..];
      assert plan.hosts[k..][0] == ph && plan.hosts[k..][1..] == plan.hosts[k + 1..];
      var rest := FoldObs(w, watch, plan, env, k + 1);
      assert ([Obs(watch, ph.name, e)] + rest)[1..] == rest;
      if mine {
        var tail := plan.hosts[k + 1..];
        InPlanExact(tail, h);
        assert forall i | 0 <= i < |tail| :: tail[i] == plan.hosts[k + 1 + i];
        assert InPlan(tail, h).None?;
      }
      RunIsOfHost(w, ph, FateAt(w, plan, env, k));
      FoldProjects(w, watch, plan, env, k + 1, b, name, h, v');
      var es := Project(rest, name, h);
      if mine {
        assert ([e] + es)[1..] == es;
        assert Project(FoldObs(w, watch, plan, env, k), name, h) == [e] + es;
      } else {
        assert Project(FoldObs(w, watch, plan, env, k), name, h) == [] + es == es;
      }
    }
  }

  lemma {:induction false} RunDoneProjects(cfg: Config, s: Sys, env: RunEnv, heads: Name -> Head, w: Name, h: Name, v: HT.View)
    requires s.running.Some? && Configured(cfg, s.running.value.watch)
    requires Invariant(cfg, s) && Matches(s, w, h, v)
    ensures var r := s.running.value;
            var s' := FinishRun(cfg, s, r.watch, RunRecordOf(cfg, s, env), heads);
            var es := Project(FoldObs(WatchCfg(cfg, r.watch).value, r.watch, r.plan, env, 0)
                              + StartObs(s.(running := None), s'), w, h);
            LegalAll(h, v, es) && Matches(s', w, h, ApplyAll(h, v, es))
  {
    var r := s.running.value;
    var record := RunRecordOf(cfg, s, env);
    var first := FoldObs(WatchCfg(cfg, r.watch).value, r.watch, r.plan, env, 0);
    var s1 := Conclude(cfg, s, r.watch, record).(pending := []);
    var s2 := FinishRun(cfg, s, r.watch, record, heads);
    ConcludeProjects(cfg, s, env, w, h, v);
    DrainProjects(cfg, s1, s.pending, heads, w, h, ApplyAll(h, v, Project(first, w, h)));
    assert StartObs(s1, s2) == StartObs(s.(running := None), s2);
    Compose(v, first, StartObs(s1, s2), w, h);
  }

  lemma DrainProjects(cfg: Config, s: Sys, q: seq<Queued>, heads: Name -> Head, w: Name, h: Name, v: HT.View)
    requires Matches(s, w, h, v)
    ensures var s' := Drain(cfg, s, q, heads).sys;
            var es := Project(StartObs(s, s'), w, h);
            LegalAll(h, v, es) && Matches(s', w, h, ApplyAll(h, v, es))
  {
    DrainPolls(cfg, s, q, heads);
    PollsProject(cfg, s, Drain(cfg, s, q, heads).sys, w, h, v);
  }

  /** Whether the process goes on is not seen by any host. */
  lemma ExitUnseen(before: Sys, s: Sys, w: Name, h: Name, v: HT.View)
    requires Matches(s, w, h, v)
    ensures Matches(AfterCommand(s), w, h, v) && StartObs(before, AfterCommand(s)) == StartObs(before, s)
  {
  }

  lemma ConcludeProjects(cfg: Config, s: Sys, env: RunEnv, w: Name, h: Name, v: HT.View)
    requires s.running.Some? && Configured(cfg, s.running.value.watch)
    requires DistinctHosts(s.running.value.plan.hosts) && Matches(s, w, h, v)
    ensures var r := s.running.value;
            var es := Project(FoldObs(WatchCfg(cfg, r.watch).value, r.watch, r.plan, env, 0), w, h);
            LegalAll(h, v, es)
            && Matches(Conclude(cfg, s, r.watch, RunRecordOf(cfg, s, env)).(pending := []), w, h, ApplyAll(h, v, es))
  {
    var r := s.running.value;
    var rw := WatchCfg(cfg, r.watch).value;
    var record := RunRecordOf(cfg, s, env);
    assert r.plan.hosts[0..] == r.plan.hosts && record.hosts[0..] == record.hosts;
    FoldProjects(rw, r.watch, r.plan, env, 0, s.agent, w, h, v);
    ConcludedHost(cfg, s, r.watch, record, w, h);
  }

  lemma ConcludedHost(cfg: Config, s: Sys, watch: Name, record: RunRecord, w: Name, h: Name)
    ensures var s' := Conclude(cfg, s, watch, record);
            && s'.running.None?
            && HostOf(s'.agent, w, h) ==
                 HostOf(FoldAll(s.agent, watch, record.hosts, record.rev, record.finished), w, h)
  {
    var a := FoldAll(s.agent, watch, record.hosts, record.rev, record.finished);
    assert HostOf(Record(a, watch, record), w, h) == HostOf(a, w, h);
  }

  lemma {:induction false} RecheckObsProject(a: Agent, watch: Name, names: seq<Name>,
                                             verdicts: Name -> Option<Unreachable>, w: Name, h: Name)
    requires Distinct(names)
    ensures Project(RecheckObs(a, watch, names, verdicts), w, h) ==
            if w == watch && h in names && HostOf(a, w, h).offline.Some? then [HT.Rechecked(verdicts(h))] else []
  {
    if names != [] {
      var rest := RecheckObs(a, watch, names[1..], verdicts);
      RecheckObsProject(a, watch, names[1..], verdicts, w, h);
      if HostOf(a, watch, names[0]).offline.Some? {
        ProjectFirst(Obs(watch, names[0], HT.Rechecked(verdicts(names[0]))), rest, w, h);
      } else {
        assert [] + rest == rest;
      }
      assert h in names <==> h == names[0] || h in names[1..];
      assert names[0] !in names[1..];
    }
  }

  lemma ProjectFirst(o: Obs, rest: seq<Obs>, w: Name, h: Name)
    ensures Project([o] + rest, w, h) ==
            (if o.watch == w && o.host == h then [o.event] else []) + Project(rest, w, h)
  {
    assert ([o] + rest)[1..] == rest;
  }

  lemma ProbedHost(s: Sys, watch: Name, verdicts: Name -> Option<Unreachable>, w: Name, h: Name)
    ensures HostOf(AfterProbes(s, watch, verdicts).agent, w, h) ==
            if w == watch && HostOf(s.agent, w, h).offline.Some?
            then HT.AfterRecheck(HostOf(s.agent, w, h), verdicts(h)) else HostOf(s.agent, w, h)
  {
    RecheckedHosts(s.agent, watch, verdicts, w, h);
    if w == watch && HostOf(s.agent, w, h).offline.Some? {
      assert h in WatchOf(s.agent, watch).hosts;
    }
  }

  /** A recheck plans a pending host that answered exactly when the daemon is idle, the watch
      is not paused, its head is found, and the host needs the head with its marker off. */
  lemma RecheckPlans(cfg: Config, s: Sys, watch: Name, verdicts: Name -> Option<Unreachable>, head: Head, h: Name)
    requires QueueSound(cfg, s) && Configured(cfg, watch)
    requires HostOf(s.agent, watch, h).offline.Some? && verdicts(h).None?
    ensures s.running.None? && Plans(Recheck(cfg, s, watch, verdicts, head), watch, h) <==>
            && !Busy(s) && !WatchPaused(s.agent, watch) && head.Found?
            && h in WatchCfg(cfg, watch).value.hosts
            && Needs(HT.AfterRecheck(HostOf(s.agent, watch, h), None), head.rev)
  {
    ProbedHost(s, watch, verdicts, watch, h);
    assert h in WatchOf(s.agent, watch).hosts;
    assert SomeBack(s.agent, watch, verdicts);
    AnswerLeadsTo(cfg, s, watch, verdicts, head, h);
    assert WatchPaused(AfterProbes(s, watch, verdicts).agent, watch) == WatchPaused(s.agent, watch);
  }

  lemma ProbedProjects(s: Sys, watch: Name, names: seq<Name>,
                       verdicts: Name -> Option<Unreachable>, w: Name, h: Name, v: HT.View)
    requires Matches(s, w, h, v)
    requires Distinct(names) && forall x :: x in names <==> x in WatchOf(s.agent, watch).hosts
    ensures var es := Project(RecheckObs(s.agent, watch, names, verdicts), w, h);
            LegalAll(h, v, es) && Matches(AfterProbes(s, watch, verdicts), w, h, ApplyAll(h, v, es))
  {
    RecheckObsProject(s.agent, watch, names, verdicts, w, h);
    ProbedHost(s, watch, verdicts, w, h);
    if w == watch && HostOf(s.agent, w, h).offline.Some? {
      assert h in names;
      OneEvent(h, v, HT.Rechecked(verdicts(h)));
    }
  }

  lemma OneEvent(h: Name, v: HT.View, e: HT.Event)
    requires HT.Legal(h, v, e)
    ensures LegalAll(h, v, [e]) && ApplyAll(h, v, [e]) == HT.Apply(h, v, e)
  {
    assert [e][1..] == [];
  }

  lemma {:induction false} RecheckProjects(cfg: Config, s: Sys, watch: Name, names: seq<Name>, verdicts: Name -> Option<Unreachable>,
                        head: Head, w: Name, h: Name, v: HT.View)
    requires Matches(s, w, h, v)
    requires Distinct(names) && forall x :: x in names <==> x in WatchOf(s.agent, watch).hosts
    ensures var s' := Recheck(cfg, s, watch, verdicts, head);
            var es := Project(RecheckObs(s.agent, watch, names, verdicts) + StartObs(s, s'), w, h);
            LegalAll(h, v, es) && Matches(s', w, h, ApplyAll(h, v, es))
  {
    ProbedThenPolled(cfg, s, SomeBack(s.agent, watch, verdicts), SomeStillDown(s.agent, watch, verdicts),
                     watch, names, verdicts, head, w, h, v);
  }

  /** Probes, then a catch-up poll if some host is back, then the timer if some is not. */
  lemma ProbedThenPolled(cfg: Config, s: Sys, back: bool, rearm: bool, watch: Name, names: seq<Name>,
                         verdicts: Name -> Option<Unreachable>, head: Head, w: Name, h: Name, v: HT.View)
    requires Matches(s, w, h, v)
    requires Distinct(names) && forall x :: x in names <==> x in WatchOf(s.agent, watch).hosts
    ensures var probed := AfterProbes(s, watch, verdicts);
            var polled := if back then RequestPoll(cfg, probed, watch, "catch-up", head) else probed;
            var s' := if rearm then Arm(cfg, polled, watch) else polled;
            var es := Project(RecheckObs(s.agent, watch, names, verdicts) + StartObs(s, s'), w, h);
            LegalAll(h, v, es) && Matches(s', w, h, ApplyAll(h, v, es))
  {
    var first := RecheckObs(s.agent, watch, names, verdicts);
    ProbedProjects(s, watch, names, verdicts, w, h, v);
    var probed := AfterProbes(s, watch, verdicts);
    CatchUpProjects(cfg, probed, back, watch, head, w, h, ApplyAll(h, v, Project(first, w, h)));
    var polled := if back then RequestPoll(cfg, probed, watch, "catch-up", head) else probed;
    RearmedSame(cfg, s, probed, polled, watch, w, h);
    Compose(v, first, StartObs(probed, polled), w, h);
  }

  lemma CatchUpProjects(cfg: Config, s: Sys, back: bool, watch: Name, head: Head, w: Name, h: Name, v: HT.View)
    requires Matches(s, w, h, v)
    ensures var s' := if back then RequestPoll(cfg, s, watch, "catch-up", head) else s;
            var es := Project(StartObs(s, s'), w, h);
            LegalAll(h, v, es) && Matches(s', w, h, ApplyAll(h, v, es))
  {
    if back {
      PollProjects(cfg, s, watch, "catch-up", head, w, h, v);
    }
  }

  /** Two legal pieces one after the other are a legal piece. */
  lemma Compose(v: HT.View, first: seq<Obs>, second: seq<Obs>, w: Name, h: Name)
    requires LegalAll(h, v, Project(first, w, h))
    requires LegalAll(h, ApplyAll(h, v, Project(first, w, h)), Project(second, w, h))
    ensures LegalAll(h, v, Project(first + second, w, h))
    ensures ApplyAll(h, v, Project(first + second, w, h)) ==
            ApplyAll(h, ApplyAll(h, v, Project(first, w, h)), Project(second, w, h))
  {
    ProjectConcat(first, second, w, h);
    AllConcat(h, v, Project(first, w, h), Project(second, w, h));
  }

  lemma RearmedSame(cfg: Config, s: Sys, probed: Sys, polled: Sys, watch: Name, w: Name, h: Name)
    requires s.running == probed.running
    ensures StartObs(s, Arm(cfg, polled, watch)) == StartObs(probed, polled) == StartObs(s, polled)
    ensures forall v :: Matches(Arm(cfg, polled, watch), w, h, v) <==> Matches(polled, w, h, v)
  {
  }

  lemma {:induction false} PauseProjects(cfg: Config, a: Agent, host: Name, on: bool, w: Name, h: Name, v: HT.View)
    requires v.hs == HostOf(a, w, h)
    ensures var es := Project(PauseObs(cfg, host, on), w, h);
            && LegalAll(h, v, es)
            && ApplyAll(h, v, es) == v.(hs := HostOf(PauseHost(cfg, a, host, on), w, h))
    decreases |cfg|
  {
    if cfg != [] {
      var rest := PauseObs(cfg[1..], host, on);
      var a' := if host in cfg[0].hosts
                then SetHost(a, cfg[0].name, host, HostOf(a, cfg[0].name, host).(paused := on)) else a;
      var mine := host in cfg[0].hosts && cfg[0].name == w && host == h;
      var v' := if mine then HT.Apply(h, v, HT.Paused(on)) else v;
      PauseProjects(cfg[1..], a', host, on, w, h, v');
      var es := Project(rest, w, h);
      if host in cfg[0].hosts {
        assert ([Obs(cfg[0].name, host, HT.Paused(on))] + rest)[1..] == rest;
      } else {
        assert [] + rest == rest;
      }
      if mine {
        assert ([HT.Paused(on)] + es)[1..] == es;
      } else {
        assert [] + es == es;
      }
    }
  }

  lemma {:induction false} ProbesProject(a: Agent, probes: seq<Probe>, w: Name, h: Name, v: HT.View)
    requires v.hs == HostOf(a, w, h) && v.flight.None?
    ensures var es := Project(ProbeObs(probes), w, h);
            LegalAll(h, v, es) && ApplyAll(h, v, es) == HT.View(HostOf(ProbeAll(a, probes), w, h), None)
    decreases |probes|
  {
    if probes != [] {
      var p := probes[0];
      var rest := ProbeObs(probes[1..]);
      var b := SetHost(a, p.watch, p.host, HT.AfterProbe(HostOf(a, p.watch, p.host), p.verdict));
      var mine := p.watch == w && p.host == h;
      var v' := if mine then HT.Apply(h, v, HT.Probed(p.verdict)) else v;
      ProbesProject(b, probes[1..], w, h, v');
      var es := Project(rest, w, h);
      assert ([Obs(p.watch, p.host, HT.Probed(p.verdict))] + rest)[1..] == rest;
      if mine {
        assert ([HT.Probed(p.verdict)] + es)[1..] == es;
      } else {
        assert [] + es == es;
      }
    }
  }

  lemma ReloadIsIdentity(a: Agent, w: Name, h: Name)
    requires HT.OneStory(HostOf(a, w, h))
    ensures HostOf(DropSupersededParks(a), w, h) == HostOf(a, w, h)
  {
  }

  lemma ApproveOneProjects(s: Sys, target: Name, host: Name, revoke: bool, w: Name, h: Name, v: HT.View)
    requires Matches(s, w, h, v)
    ensures var approved := HostOf(s.agent, target, host).approved;
            var es := if w == target && h == host && approved == revoke
                      then [if revoke then HT.Revoked else HT.Granted] else [];
            var s' := s.(agent := SetHost(s.agent, target, host, HostOf(s.agent, target, host).(approved := !revoke)));
            LegalAll(h, v, es) && Matches(s', w, h, ApplyAll(h, v, es))
  {
  }

  lemma ApproveProjects(cfg: Config, s: Sys, owner: Option<Name>, host: Name, revoke: bool, w: Name, h: Name, v: HT.View)
    requires Matches(s, w, h, v)
    ensures var es := Project(ApproveObs(cfg, s, owner, host, revoke), w, h);
            LegalAll(h, v, es)
            && Matches(Approve(cfg, s, owner, host, revoke), w, h, ApplyAll(h, v, es))
  {
    var target := ApprovalTarget(cfg, owner, host);
    if target.Some? {
      ApproveOneProjects(s, target.value, host, revoke, w, h, v);
      var obs := ApproveObs(cfg, s, owner, host, revoke);
      assert obs != [] ==> obs[1..] == [];
    }
  }

  lemma ValidateDoneProjects(cfg: Config, s: Sys, heads: Name -> Head, w: Name, h: Name, v: HT.View)
    requires s.validating && s.running.None? && Matches(s, w, h, v)
    ensures var s' := FinishValidation(cfg, s, heads);
            var es := Project(StartObs(s, s'), w, h);
            LegalAll(h, v, es) && Matches(s', w, h, ApplyAll(h, v, es))
  {
    DrainProjects(cfg, s.(validating := false, pending := []), s.pending, heads, w, h, v);
  }

  lemma RestartProjects(cfg: Config, s: Sys, probes: seq<Probe>, w: Name, h: Name, v: HT.View)
    requires Idle(s) && Matches(s, w, h, v) && HT.OneStory(v.hs)
    ensures var es := Project(ProbeObs(probes), w, h);
            LegalAll(h, v, es) && Matches(Startup(cfg, s.agent, probes), w, h, ApplyAll(h, v, es))
  {
    ReloadIsIdentity(s.agent, w, h);
    ProbesProject(DropSupersededParks(s.agent), probes, w, h, v);
  }

  lemma PauseCmdProjects(cfg: Config, s: Sys, scope: Scope, on: bool, w: Name, h: Name, v: HT.View)
    requires Matches(s, w, h, v)
    ensures var es := Project(if scope.OneHost? then PauseObs(cfg, scope.host, on) else [], w, h);
            LegalAll(h, v, es) && Matches(SetPaused(cfg, s, scope, on), w, h, ApplyAll(h, v, es))
  {
    if scope.OneHost? {
      PauseProjects(cfg, s.agent, scope.host, on, w, h, v);
    }
  }

  lemma PollProjects(cfg: Config, s: Sys, watch: Name, trigger: string, head: Head, w: Name, h: Name, v: HT.View)
    requires Matches(s, w, h, v)
    ensures var s' := RequestPoll(cfg, s, watch, trigger, head);
            var es := Project(StartObs(s, s'), w, h);
            LegalAll(h, v, es) && Matches(s', w, h, ApplyAll(h, v, es))
  {
    RequestPollPolls(cfg, s, watch, trigger, head);
    PollsProject(cfg, s, RequestPoll(cfg, s, watch, trigger, head), w, h, v);
  }

  /** One command of the daemon, seen from one host, is a legal (possibly empty) piece of trace. */
  lemma CommandProjects(cfg: Config, s: Sys, e: Step, w: Name, h: Name, v: HT.View)
    requires Invariant(cfg, s) && Legal(cfg, s, e)
    requires Matches(s, w, h, v)
    requires e.PauseCmd? || e.ApproveCmd? || e.ValidateDone? || e.RunDone?
    ensures var es := Project(Observe(cfg, s, e), w, h);
            LegalAll(h, v, es) && Matches(Next(cfg, s, e), w, h, ApplyAll(h, v, es))
  {
    var es := Project(Observe(cfg, s, e), w, h);
    match e {
      case PauseCmd(scope, on) =>
        PauseCmdProjects(cfg, s, scope, on, w, h, v);
        ExitUnseen(s, SetPaused(cfg, s, scope, on), w, h, ApplyAll(h, v, es));
      case ApproveCmd(owner, host, revoke) =>
        ApproveProjects(cfg, s, owner, host, revoke, w, h, v);
        ExitUnseen(s, Approve(cfg, s, owner, host, revoke), w, h, ApplyAll(h, v, es));
      case ValidateDone(heads) =>
        ValidateDoneProjects(cfg, s, heads, w, h, v);
        ExitUnseen(s, FinishValidation(cfg, s, heads), w, h, ApplyAll(h, v, es));
      case RunDone(env, heads) =>
        RunDoneProjects(cfg, s, env, heads, w, h, v);
        var s' := FinishRun(cfg, s, s.running.value.watch, RunRecordOf(cfg, s, env), heads);
        assert StartObs(s.(running := None), AfterCommand(s')) == StartObs(s.(running := None), s');
        ExitUnseen(s, s', w, h, ApplyAll(h, v, es));
    }
  }

  /** One step of the daemon, seen from one host, is a legal (possibly empty) piece of trace. */
  lemma {:induction false} StepProjects(cfg: Config, s: Sys, e: Step, w: Name, h: Name, v: HT.View)
    requires Invariant(cfg, s) && Handover(s) && Legal(cfg, s, e)
    requires Matches(s, w, h, v) && HT.OneStory(v.hs)
    ensures var es := Project(Observe(cfg, s, e), w, h);
            LegalAll(h, v, es) && Matches(Next(cfg, s, e), w, h, ApplyAll(h, v, es))
  {
    match e {
      case Poll(watch, trigger, head) => PollProjects(cfg, s, watch, trigger, head, w, h, v);
      case RecheckDue(watch, verdicts, head) =>
        KeysDistinct(WatchOf(s.agent, watch).hosts.Keys);
        RecheckProjects(cfg, s, watch, Keys(WatchOf(s.agent, watch).hosts.Keys), verdicts, head, w, h, v);
      case Restart(loaded, probes) => RestartProjects(loaded, s, probes, w, h, v);
      case Validate =>
      case SelfCheck(_) =>
      case _ => CommandProjects(cfg, s, e, w, h, v);
    }
  }
}
