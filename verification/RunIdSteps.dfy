/** Run ids, step by step: what a sound allotment of ids is, and that no step of the daemon
    other than the end of a run touches the histories. Ids come from one counter
    (crates/deptui-agent/src/state.rs, `take_run_id`); a run takes its id before it starts
    (crates/deptui-agent/src/daemon.rs, `request_poll`), at most one run is in flight, and
    its record is pushed under that id when it ends. So ids ascend within a watch, never
    repeat across watches, and stay below the counter. */
module RunIdSteps {
  import opened AgentState
  import opened Runner
  import opened Planner
  import opened DaemonSteps
  import opened DaemonProofs
  import opened Projection
  import opened Runs

  function HistoryOf(a: Agent, w: Name): seq<RunRecord> { WatchOf(a, w).history }

  predicate Ascends(history: seq<RunRecord>) {
    forall i, j | 0 <= i < j < |history| :: history[i].id < history[j].id
  }

  predicate Disjoint(a: seq<RunRecord>, b: seq<RunRecord>) {
    forall x, y | x in a && y in b :: x.id != y.id
  }

  predicate AllBelow(history: seq<RunRecord>, id: nat) {
    forall x | x in history :: x.id < id
  }

  /** Ids ascend within a watch, never repeat across watches, and were all taken. */
  ghost predicate HistoriesSound(a: Agent) {
    && (forall w :: Ascends(HistoryOf(a, w)))
    && (forall w, v | w != v :: Disjoint(HistoryOf(a, w), HistoryOf(a, v)))
    && (forall w :: AllBelow(HistoryOf(a, w), a.nextRunId + 1))
  }

  /** The run in flight has the last id taken, which no record has yet. */
  ghost predicate IdsSound(s: Sys) {
    && HistoriesSound(s.agent)
    && (s.running.Some? ==>
          && s.running.value.plan.runId == s.agent.nextRunId
          && forall w :: AllBelow(HistoryOf(s.agent, w), s.agent.nextRunId))
  }

  ghost predicate SameHistories(a: Agent, b: Agent) {
    b.nextRunId >= a.nextRunId && forall w :: HistoryOf(b, w) == HistoryOf(a, w)
  }

  /** Nothing but run ids may have moved, and a run may have begun with a fresh one. */
  ghost predicate KeepsIds(s: Sys, s': Sys) {
    && SameHistories(s.agent, s'.agent)
    && (s'.running.Some? ==>
          || (s'.running == s.running && s'.agent.nextRunId == s.agent.nextRunId)
          || (s'.running.value.plan.runId == s'.agent.nextRunId && s'.agent.nextRunId > s.agent.nextRunId))
  }

  lemma KeptIdsSound(s: Sys, s': Sys)
    requires IdsSound(s) && KeepsIds(s, s')
    ensures IdsSound(s')
  {
    forall w ensures AllBelow(HistoryOf(s'.agent, w), s'.agent.nextRunId + 1)
                     && (s'.running.Some? ==> AllBelow(HistoryOf(s'.agent, w), s'.agent.nextRunId))
    {
      assert AllBelow(HistoryOf(s.agent, w), s.agent.nextRunId + 1);
    }
  }

  lemma SeeKeepsIds(a: Agent, watch: Name, rev: Rev)
    ensures SameHistories(a, See(a, watch, rev)) && See(a, watch, rev).nextRunId == a.nextRunId
  {
  }

  lemma PlannedKeepsIds(s: Sys, watch: Name, trigger: string, seen: Agent, rev: Rev, hosts: seq<PlanHost>)
    requires SameHistories(s.agent, seen) && seen.nextRunId == s.agent.nextRunId
    ensures KeepsIds(s, Planned(s, watch, trigger, seen, rev, hosts))
  {
  }

  lemma PollKeepsIds(cfg: Config, s: Sys, watch: Name, trigger: string, head: Head)
    ensures KeepsIds(s, RequestPoll(cfg, s, watch, trigger, head))
  {
    if !Busy(s) && Configured(cfg, watch) && head.Found? {
      var seen := See(s.agent, watch, head.rev);
      SeeKeepsIds(s.agent, watch, head.rev);
      PlannedKeepsIds(s, watch, trigger, seen, head.rev,
                      PlanHosts(WatchCfg(cfg, watch).value, WatchOf(seen, watch), head.rev));
    }
  }

  lemma {:induction false} DrainKeepsIds(cfg: Config, s: Sys, q: seq<Queued>, heads: Name -> Head)
    requires s.running.None?
    ensures KeepsIds(s, Drain(cfg, s, q, heads).sys)
    decreases |q|
  {
    if q != [] {
      var s' := RequestPoll(cfg, s, q[0].watch, q[0].trigger, heads(q[0].watch));
      PollKeepsIds(cfg, s, q[0].watch, q[0].trigger, heads(q[0].watch));
      if s'.running.None? {
        DrainKeepsIds(cfg, s', q[1..], heads);
      }
    }
  }

  lemma {:induction false} FoldKeepsIds(a: Agent, w: Name, runs: seq<HostRun>, rev: Rev, time: nat)
    ensures SameHistories(a, FoldAll(a, w, runs, rev, time)) && FoldAll(a, w, runs, rev, time).nextRunId == a.nextRunId
    decreases |runs|
  {
    if runs != [] {
      FoldKeepsIds(SetHost(a, w, runs[0].host, Fold(HostOf(a, w, runs[0].host), runs[0], rev, time)),
                   w, runs[1..], rev, time);
    }
  }

  lemma {:induction false} PauseKeepsIds(cfg: Config, a: Agent, h: Name, on: bool)
    ensures SameHistories(a, PauseHost(cfg, a, h, on)) && PauseHost(cfg, a, h, on).nextRunId == a.nextRunId
    decreases |cfg|
  {
    if cfg != [] {
      PauseKeepsIds(cfg[1..], if h in cfg[0].hosts
                              then SetHost(a, cfg[0].name, h, HostOf(a, cfg[0].name, h).(paused := on)) else a, h, on);
    }
  }

  lemma {:induction false} ProbesKeepIds(a: Agent, probes: seq<Probe>)
    ensures SameHistories(a, ProbeAll(a, probes))
    decreases |probes|
  {
    if probes != [] {
      var p := probes[0];
      ProbesKeepIds(SetHost(a, p.watch, p.host, HT.AfterProbe(HostOf(a, p.watch, p.host), p.verdict)), probes[1..]);
    }
  }

  /** A record with a fresh id goes into one history. */
  lemma RecordedSound(a: Agent, b: Agent, watch: Name, record: RunRecord)
    requires HistoriesSound(a) && b.nextRunId == a.nextRunId == record.id
    requires forall w :: AllBelow(HistoryOf(a, w), record.id)
    requires HistoryOf(b, watch) == Latest(HistoryOf(a, watch) + [record])
    requires forall w | w != watch :: HistoryOf(b, w) == HistoryOf(a, w)
    ensures HistoriesSound(b)
  {
    PrunedAscends(HistoryOf(a, watch), record);
    forall w, v | w != v ensures Disjoint(HistoryOf(b, w), HistoryOf(b, v)) {
      assert Disjoint(HistoryOf(a, w), HistoryOf(a, v));
      assert AllBelow(HistoryOf(a, w), record.id) && AllBelow(HistoryOf(a, v), record.id);
    }
    forall w ensures Ascends(HistoryOf(b, w)) && AllBelow(HistoryOf(b, w), b.nextRunId + 1) {
      assert Ascends(HistoryOf(a, w)) && AllBelow(HistoryOf(a, w), a.nextRunId + 1);
    }
  }

  lemma PrunedAscends(before: seq<RunRecord>, record: RunRecord)
    requires Ascends(before) && AllBelow(before, record.id)
    ensures Ascends(Latest(before + [record]))
    ensures forall x | x in Latest(before + [record]) :: x in before || x == record
  {
    var all, after := before + [record], Latest(before + [record]);
    var cut := |all| - |after|;
    assert forall i | 0 <= i < |after| :: after[i] == all[cut + i];
  }

  lemma SetPausedKeepsIds(cfg: Config, s: Sys, scope: Scope, on: bool)
    ensures KeepsIds(s, SetPaused(cfg, s, scope, on))
  {
    if scope.OneHost? {
      PauseKeepsIds(cfg, s.agent, scope.host, on);
    }
  }

  lemma ApproveKeepsIds(cfg: Config, s: Sys, owner: Option<Name>, host: Name, revoke: bool)
    ensures KeepsIds(s, Approve(cfg, s, owner, host, revoke))
  {
  }

  lemma RecheckKeepsIds(cfg: Config, s: Sys, watch: Name, verdicts: Name -> Option<Unreachable>, head: Head)
    ensures KeepsIds(s, Recheck(cfg, s, watch, verdicts, head))
  {
    ProbingKeepsIds(s, watch, verdicts);
    PollKeepsIds(cfg, AfterProbes(s, watch, verdicts), watch, "catch-up", head);
  }

  lemma ProbingKeepsIds(s: Sys, watch: Name, verdicts: Name -> Option<Unreachable>)
    ensures var s' := AfterProbes(s, watch, verdicts);
            SameHistories(s.agent, s'.agent) && s'.agent.nextRunId == s.agent.nextRunId && s'.running == s.running
  {
  }

  lemma StartupKeepsIds(cfg: Config, s: Sys, probes: seq<Probe>)
    ensures KeepsIds(s, Startup(cfg, s.agent, probes))
  {
    ProbesKeepIds(DropSupersededParks(s.agent), probes);
  }

  lemma ValidationKeepsIds(cfg: Config, s: Sys, heads: Name -> Head)
    requires s.running.None?
    ensures KeepsIds(s, FinishValidation(cfg, s, heads))
  {
    DrainKeepsIds(cfg, s.(validating := false, pending := []), s.pending, heads);
  }

  lemma ExitKeepsIds(s: Sys, s': Sys)
    requires KeepsIds(s, s')
    ensures KeepsIds(s, AfterCommand(s'))
  {
  }
}
