/** Run ids: `run_log` looks a run up by its id (crates/deptui-agent/src/daemon.rs), which
    is sound because no two runs ever share one, across watches and restarts. */
module RunIds {
  import opened AgentState
  import opened Runner
  import opened DaemonSteps
  import opened DaemonProofs
  import opened Projection
  import opened Runs
  import opened RunIdSteps

  /** The run log of a watch, by id: the first record that has it. */
  function FindRun(history: seq<RunRecord>, id: nat): Option<RunRecord> {
    if history == [] then None
    else if history[0].id == id then Some(history[0])
    else FindRun(history[1..], id)
  }

  lemma FinishKeepsIds(cfg: Config, s: Sys, watch: Name, record: RunRecord, heads: Name -> Head)
    requires IdsSound(s) && s.running.Some? && record.id == s.running.value.plan.runId
    ensures IdsSound(FinishRun(cfg, s, watch, record, heads))
  {
    var a := FoldAll(s.agent, watch, record.hosts, record.rev, record.finished);
    FoldKeepsIds(s.agent, watch, record.hosts, record.rev, record.finished);
    RecordedSound(s.agent, Record(a, watch, record), watch, record);
    var s1 := Conclude(cfg, s, watch, record).(pending := []);
    DrainKeepsIds(cfg, s1, s.pending, heads);
    KeptIdsSound(s1, FinishRun(cfg, s, watch, record, heads));
  }

  /** Only the end of a run touches the histories. */
  lemma StepKeepsIds(cfg: Config, s: Sys, e: Step)
    requires Invariant(cfg, s) && Legal(cfg, s, e) && !e.RunDone?
    ensures KeepsIds(s, Next(cfg, s, e))
  {
    match e {
      case Poll(w, trigger, head) => PollKeepsIds(cfg, s, w, trigger, head);
      case RecheckDue(w, verdicts, head) => RecheckKeepsIds(cfg, s, w, verdicts, head);
      case Restart(loaded, probes) => StartupKeepsIds(loaded, s, probes);
      case ValidateDone(heads) =>
        ValidationKeepsIds(cfg, s, heads);
        ExitKeepsIds(s, FinishValidation(cfg, s, heads));
      case PauseCmd(scope, on) =>
        SetPausedKeepsIds(cfg, s, scope, on);
        ExitKeepsIds(s, SetPaused(cfg, s, scope, on));
      case ApproveCmd(owner, host, revoke) =>
        ApproveKeepsIds(cfg, s, owner, host, revoke);
        ExitKeepsIds(s, Approve(cfg, s, owner, host, revoke));
      case Validate =>
      case SelfCheck(_) =>
    }
  }

  lemma {:induction false} IdsKept(cfg: Config, s: Sys, e: Step)
    requires IdsSound(s) && Invariant(cfg, s) && Legal(cfg, s, e)
    ensures IdsSound(Next(cfg, s, e))
  {
    if e.RunDone? {
      FinishKeepsIds(cfg, s, s.running.value.watch, RunRecordOf(cfg, s, e.env), e.heads);
    } else {
      StepKeepsIds(cfg, s, e);
      KeptIdsSound(s, Next(cfg, s, e));
    }
  }

  lemma {:induction false} RunKeepsIds(run: Run, n: nat)
    requires ValidRun(run) && n <= |run.steps|
    ensures IdsSound(run.states[n])
  {
    if n > 0 {
      RunKeepsIds(run, n - 1);
      RunKeepsInvariant(run, n - 1);
      assert StepOk(run, n - 1);
      IdsKept(run.cfgs[n - 1], run.states[n - 1], run.steps[n - 1]);
    }
  }

  /** The lookup finds the record, and the only one, with that id. */
  lemma {:induction false} FindRunExact(history: seq<RunRecord>, x: RunRecord)
    requires Ascends(history) && x in history
    ensures FindRun(history, x.id) == Some(x)
  {
    if history[0] != x {
      var k :| 0 < k < |history| && history[k] == x;
      assert history[1..][k - 1] == x;
      FindRunExact(history[1..], x);
    }
  }

  /** At every moment of every run of the daemon: a stored run is found under its id, and no
      other watch has a run with that id. */
  lemma RunsAreFoundById(run: Run, n: nat, w: Name, x: RunRecord)
    requires ValidRun(run) && n <= |run.steps| && x in HistoryOf(run.states[n].agent, w)
    ensures FindRun(HistoryOf(run.states[n].agent, w), x.id) == Some(x)
    ensures forall v, y | v != w && y in HistoryOf(run.states[n].agent, v) :: y.id != x.id
  {
    RunKeepsIds(run, n);
    var a := run.states[n].agent;
    assert Ascends(HistoryOf(a, w));
    assert forall v | v != w :: Disjoint(HistoryOf(a, v), HistoryOf(a, w));
    FindRunExact(HistoryOf(a, w), x);
  }
}
