/** Every run of the daemon, seen from one host, is a valid host trace. So what
    is proved of host traces holds of every host over every run of the daemon. */
module Runs {
  import opened AgentState
  import opened Flake
  import opened Runner
  import opened DaemonSteps
  import opened DaemonProofs
  import opened Projection
  import HT = HostTrace

  /** Before the first start: nothing is known and nothing is armed. */
  const UNBORN := Sys(FRESH_AGENT, None, false, [], {}, false, false)

  /** A run of the daemon, restarts included: the configuration in force and the state at
      every moment, the steps between them, and what each step did to hosts. */
  datatype Run = Run(cfgs: seq<Config>, states: seq<Sys>, steps: seq<Step>, seen: seq<seq<Obs>>)

  ghost predicate Shaped(run: Run) {
    |run.cfgs| == |run.states| == |run.steps| + 1 && |run.seen| == |run.steps|
  }

  ghost predicate StepOk(run: Run, i: nat)
    requires Shaped(run) && i < |run.steps|
  {
    && Legal(run.cfgs[i], run.states[i], run.steps[i])
    && run.cfgs[i + 1] == ConfigAfter(run.cfgs[i], run.steps[i])
    && run.states[i + 1] == Next(run.cfgs[i], run.states[i], run.steps[i])
    && run.seen[i] == Observe(run.cfgs[i], run.states[i], run.steps[i])
  }

  /** Any finite sequence of legal steps from the beginning; every start may bring another
      configuration. */
  ghost predicate ValidRun(run: Run) {
    Shaped(run) && run.states[0] == UNBORN && forall i | 0 <= i < |run.steps| :: StepOk(run, i)
  }

  ghost function Now(run: Run): Sys
    requires Shaped(run)
  {
    run.states[|run.steps|]
  }

  ghost function InForce(run: Run): Config
    requires Shaped(run)
  {
    run.cfgs[|run.steps|]
  }

  /** The trace of one host over the first n steps. */
  ghost function TraceUpTo(run: Run, n: nat, w: Name, h: Name): HT.Trace
    requires n <= |run.seen|
  {
    if n == 0 then [] else TraceUpTo(run, n - 1, w, h) + Project(run.seen[n - 1], w, h)
  }

  ghost function TraceOf(run: Run, w: Name, h: Name): HT.Trace { TraceUpTo(run, |run.seen|, w, h) }

  function Unborn(cfg: Config): Run { Run([cfg], [UNBORN], [], []) }

  ghost function Continued(run: Run, e: Step): Run
    requires Shaped(run) && Legal(InForce(run), Now(run), e)
  {
    Run(run.cfgs + [ConfigAfter(InForce(run), e)], run.states + [Next(InForce(run), Now(run), e)], run.steps + [e],
        run.seen + [Observe(InForce(run), Now(run), e)])
  }

  /** There is a run to begin with, and every run goes on with any legal step. */
  lemma RunsGoOn(cfg: Config, run: Run, e: Step)
    ensures ValidRun(Unborn(cfg))
    ensures ValidRun(run) && Legal(InForce(run), Now(run), e) ==>
              var longer := Continued(run, e);
              && ValidRun(longer) && run.steps < longer.steps
              && Now(longer) == Next(InForce(run), Now(run), e) && InForce(longer) == ConfigAfter(InForce(run), e)
  {
    if ValidRun(run) && Legal(InForce(run), Now(run), e) {
      var longer := Continued(run, e);
      forall i | 0 <= i < |longer.steps| ensures StepOk(longer, i) {
        assert i < |run.steps| ==> StepOk(run, i);
      }
    }
  }

  lemma {:induction false} RunKeepsInvariant(run: Run, n: nat)
    requires ValidRun(run) && n <= |run.steps|
    ensures Invariant(run.cfgs[n], run.states[n]) && Handover(run.states[n])
  {
    if n > 0 {
      RunKeepsInvariant(run, n - 1);
      assert StepOk(run, n - 1);
      StepKeepsBoth(run.cfgs[n - 1], run.states[n - 1], run.steps[n - 1]);
    }
  }

  lemma StepKeepsBoth(cfg: Config, s: Sys, e: Step)
    requires Invariant(cfg, s) && Handover(s) && Legal(cfg, s, e)
    ensures Invariant(ConfigAfter(cfg, e), Next(cfg, s, e)) && Handover(Next(cfg, s, e))
  {
    InvariantKept(cfg, s, e);
    HandoverKept(cfg, s, e);
  }

  /** At every moment of every run, the trace of a host so far is a valid one, and the state
      the daemon keeps of the host is the one that trace leads to. */
  lemma {:induction false} EveryRunProjects(run: Run, n: nat, w: Name, h: Name)
    requires ValidRun(run) && n <= |run.steps|
    ensures var tr := TraceUpTo(run, n, w, h);
            HT.Valid(h, tr) && Matches(run.states[n], w, h, HT.After(h, tr))
  {
    if n > 0 {
      var cfg, s, e := run.cfgs[n - 1], run.states[n - 1], run.steps[n - 1];
      var tr := TraceUpTo(run, n - 1, w, h);
      EveryRunProjects(run, n - 1, w, h);
      RunKeepsInvariant(run, n - 1);
      assert StepOk(run, n - 1);
      HT.NeverParkedAndPending(h, tr);
      StepProjects(cfg, s, e, w, h, HT.After(h, tr));
      AppendAll(h, tr, Project(Observe(cfg, s, e), w, h));
    }
  }

  /** Every round in a host's trace ran under the configuration of its watch that was in
      force at some moment of the run. */
  lemma {:induction false} RoundsRunUnderConfig(run: Run, n: nat, w: Name, h: Name)
    requires ValidRun(run) && n <= |run.steps|
    ensures forall e | e in TraceUpTo(run, n, w, h) && e.Folded? ::
              exists i | 0 <= i < n :: Configured(run.cfgs[i], w) && e.under == WatchCfg(run.cfgs[i], w).value
  {
    if n > 0 {
      RoundsRunUnderConfig(run, n - 1, w, h);
      assert StepOk(run, n - 1);
      ObservedUnderForce(run.cfgs[n - 1], run.states[n - 1], run.steps[n - 1]);
      ProjectMembers(run.seen[n - 1], w, h);
      forall e | e in TraceUpTo(run, n, w, h) && e.Folded?
        ensures exists i | 0 <= i < n :: Configured(run.cfgs[i], w) && e.under == WatchCfg(run.cfgs[i], w).value
      {
        if e in Project(run.seen[n - 1], w, h) {
          assert Configured(run.cfgs[n - 1], w);
        }
      }
    }
  }
}
