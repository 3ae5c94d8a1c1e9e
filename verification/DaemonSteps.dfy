/** The daemon as a state machine (crates/deptui-agent/src/daemon.rs): one task owns the
    state and takes one step at a time. Heads of refs, probe verdicts and the course of a
    run are inputs of the step that asks for them; timers are armed or not, and the
    environment chooses which armed timer fires. */
module DaemonSteps {
  import opened AgentState
  import opened Runner
  import opened Planner
  import HostTrace

  /** Answer of `git ls-remote`. */
  datatype Head = Found(rev: Rev) | Missing | PollError

  datatype Queued = Queued(watch: Name, trigger: string)

  datatype Running = Running(watch: Name, plan: RunPlan)

  /** `up`: the process runs; it is down before the first start and after a self-restart exit. */
  datatype Sys = Sys(
    agent: Agent,
    running: Option<Running>,
    validating: bool,
    pending: seq<Queued>,
    armed: set<Name>,
    restartWanted: bool,
    up: bool)

  type Config = seq<WatchConfig>

  predicate ValidConfig(cfg: Config) {
    forall i, j | 0 <= i < j < |cfg| :: cfg[i].name != cfg[j].name
  }

  function WatchCfg(cfg: Config, name: Name): (r: Option<WatchConfig>)
    ensures r.Some? ==> r.value in cfg && r.value.name == name
  {
    if cfg == [] then None
    else if cfg[0].name == name then Some(cfg[0])
    else WatchCfg(cfg[1..], name)
  }

  predicate Configured(cfg: Config, name: Name) { WatchCfg(cfg, name).Some? }

  predicate Busy(s: Sys) { s.running.Some? || s.validating }

  predicate Idle(s: Sys) { s.running.None? && !s.validating && s.pending == [] }

  // ---- request_poll ----

  predicate IsQueued(q: seq<Queued>, watch: Name) {
    exists i :: 0 <= i < |q| && q[i].watch == watch
  }

  function Enqueue(s: Sys, watch: Name, trigger: string): Sys {
    if IsQueued(s.pending, watch) then s
    else s.(pending := s.pending + [Queued(watch, trigger)])
  }

  predicate WatchPaused(a: Agent, watch: Name) { a.paused || WatchOf(a, watch).paused }

  function See(a: Agent, watch: Name, rev: Rev): Agent {
    a.(watches := a.watches[watch := WatchOf(a, watch).(lastSeen := Some(rev))])
  }

  /** The plan for the revision just seen is made: a run starts, unless nobody needs it. */
  function Planned(s: Sys, watch: Name, trigger: string, seen: Agent, rev: Rev, hosts: seq<PlanHost>): Sys {
    if hosts == [] then s.(agent := seen)
    else
      s.(agent := seen.(nextRunId := seen.nextRunId + 1),
         running := Some(Running(watch, RunPlan(seen.nextRunId + 1, rev, trigger, hosts))))
  }

  function RequestPoll(cfg: Config, s: Sys, watch: Name, trigger: string, head: Head): Sys {
    if Busy(s) then Enqueue(s, watch, trigger)
    else if WatchPaused(s.agent, watch) || !Configured(cfg, watch) || !head.Found? then s
    else
      var seen := See(s.agent, watch, head.rev);
      Planned(s, watch, trigger, seen, head.rev, PlanHosts(WatchCfg(cfg, watch).value, WatchOf(seen, watch), head.rev))
  }

  // ---- the queue drain at the end of a run or a validation ----

  datatype Drained = Drained(sys: Sys, polled: nat)

  /** The loop as written: the queue was moved out beforehand, and the loop returns as soon
      as a run starts. `polled` counts the requests it polled. */
  function Drain(cfg: Config, s: Sys, q: seq<Queued>, heads: Name -> Head): Drained
    decreases |q|
  {
    if q == [] then Drained(s, 0)
    else
      var s' := RequestPoll(cfg, s, q[0].watch, q[0].trigger, heads(q[0].watch));
      if s'.running.Some? then Drained(s', 1)
      else
        var d := Drain(cfg, s', q[1..], heads);
        Drained(d.sys, d.polled + 1)
  }

  // ---- finish_run ----

  function FoldAll(a: Agent, w: Name, runs: seq<HostRun>, rev: Rev, time: nat): Agent
    decreases |runs|
  {
    if runs == [] then a
    else
      FoldAll(SetHost(a, w, runs[0].host, Fold(HostOf(a, w, runs[0].host), runs[0], rev, time)),
              w, runs[1..], rev, time)
  }

  function Record(a: Agent, w: Name, record: RunRecord): Agent {
    a.(watches := a.watches[w := WatchOf(a, w).(history := Latest(WatchOf(a, w).history + [record]))])
  }

  predicate HadOffline(record: RunRecord) {
    exists i :: 0 <= i < |record.hosts| && IsPending(record.hosts[i].outcome)
  }

  function Arm(cfg: Config, s: Sys, watch: Name): Sys {
    if Configured(cfg, watch) then s.(armed := s.armed + {watch}) else s
  }

  /** `finish_run` up to the drain. */
  function Conclude(cfg: Config, s: Sys, watch: Name, record: RunRecord): Sys {
    var a := FoldAll(s.agent, watch, record.hosts, record.rev, record.finished);
    var s' := s.(agent := Record(a, watch, record), running := None);
    if HadOffline(record) then Arm(cfg, s', watch) else s'
  }

  function FinishRun(cfg: Config, s: Sys, watch: Name, record: RunRecord, heads: Name -> Head): Sys {
    Drain(cfg, Conclude(cfg, s, watch, record).(pending := []), s.pending, heads).sys
  }

  function FinishValidation(cfg: Config, s: Sys, heads: Name -> Head): Sys {
    Drain(cfg, s.(validating := false, pending := []), s.pending, heads).sys
  }

  // ---- recheck_due, one watch ----

  predicate HasOffline(a: Agent, watch: Name) {
    exists h :: h in WatchOf(a, watch).hosts && WatchOf(a, watch).hosts[h].offline.Some?
  }

  function RecheckHosts(hosts: map<Name, HostState>, verdicts: Name -> Option<Unreachable>): map<Name, HostState> {
    map h | h in hosts ::
      if hosts[h].offline.Some? then HostTrace.AfterRecheck(hosts[h], verdicts(h)) else hosts[h]
  }

  predicate SomeBack(a: Agent, watch: Name, verdicts: Name -> Option<Unreachable>) {
    exists h :: h in WatchOf(a, watch).hosts && WatchOf(a, watch).hosts[h].offline.Some? && verdicts(h).None?
  }

  predicate SomeStillDown(a: Agent, watch: Name, verdicts: Name -> Option<Unreachable>) {
    exists h :: h in WatchOf(a, watch).hosts && WatchOf(a, watch).hosts[h].offline.Some? && verdicts(h).Some?
  }

  function RecheckState(a: Agent, watch: Name, verdicts: Name -> Option<Unreachable>): Agent {
    var ws := WatchOf(a, watch);
    a.(watches := a.watches[watch := ws.(hosts := RecheckHosts(ws.hosts, verdicts))])
  }

  /** The timer is off and every probe's verdict has landed. */
  function AfterProbes(s: Sys, watch: Name, verdicts: Name -> Option<Unreachable>): Sys {
    s.(armed := s.armed - {watch},
       agent := if HasOffline(s.agent, watch) then RecheckState(s.agent, watch, verdicts) else s.agent)
  }

  function Recheck(cfg: Config, s: Sys, watch: Name, verdicts: Name -> Option<Unreachable>, head: Head): Sys {
    var probed := AfterProbes(s, watch, verdicts);
    var polled := if SomeBack(s.agent, watch, verdicts)
                  then RequestPoll(cfg, probed, watch, "catch-up", head) else probed;
    if SomeStillDown(s.agent, watch, verdicts) then Arm(cfg, polled, watch) else polled
  }

  // ---- set_paused and approve ----

  datatype Scope = Global | OneWatch(watch: Name) | OneHost(host: Name)

  function PauseHost(cfg: Config, a: Agent, h: Name, on: bool): Agent {
    if cfg == [] then a
    else
      var a' := if h in cfg[0].hosts
                then SetHost(a, cfg[0].name, h, HostOf(a, cfg[0].name, h).(paused := on)) else a;
      PauseHost(cfg[1..], a', h, on)
  }

  function SetPaused(cfg: Config, s: Sys, scope: Scope, on: bool): Sys {
    match scope
    case Global => s.(agent := s.agent.(paused := on))
    case OneWatch(w) =>
      if Configured(cfg, w)
      then s.(agent := s.agent.(watches := s.agent.watches[w := WatchOf(s.agent, w).(paused := on)]))
      else s
    case OneHost(h) => s.(agent := PauseHost(cfg, s.agent, h, on))
  }

  function Owners(cfg: Config, host: Name): seq<Name> {
    if cfg == [] then []
    else (if host in cfg[0].hosts then [cfg[0].name] else []) + Owners(cfg[1..], host)
  }

  /** The watch an approval is about: the one named, if it has the host, or the only one
      that has it. */
  function ApprovalTarget(cfg: Config, watch: Option<Name>, host: Name): Option<Name> {
    match watch
    case Some(w) =>
      if Configured(cfg, w) && host in WatchCfg(cfg, w).value.hosts then Some(w) else None
    case None =>
      if |Owners(cfg, host)| == 1 then Some(Owners(cfg, host)[0]) else None
  }

  function Approve(cfg: Config, s: Sys, watch: Option<Name>, host: Name, revoke: bool): Sys {
    match ApprovalTarget(cfg, watch, host)
    case None => s
    case Some(w) =>
      s.(agent := SetHost(s.agent, w, host, HostOf(s.agent, w, host).(approved := !revoke)))
  }

  // ---- startup ----

  datatype Probe = Probe(watch: Name, host: Name, verdict: Option<Unreachable>)

  /** `startup_validation`: which hosts it reaches depends on the clones it finds. */
  function ProbeAll(a: Agent, probes: seq<Probe>): Agent
    decreases |probes|
  {
    if probes == [] then a
    else
      var p := probes[0];
      ProbeAll(SetHost(a, p.watch, p.host, HostTrace.AfterProbe(HostOf(a, p.watch, p.host), p.verdict)),
               probes[1..])
  }

  function Startup(cfg: Config, saved: Agent, probes: seq<Probe>): Sys {
    var a := ProbeAll(DropSupersededParks(saved), probes);
    Sys(a, None, false, [], set w | w in a.watches && HasOffline(a, w) && Configured(cfg, w), false, true)
  }

  // ---- commands and timers that serve several watches ----

  function PollAll(cfg: Config, s: Sys, names: seq<Name>, trigger: string, heads: Name -> Head): Sys
    decreases |names|
  {
    if names == [] then s
    else PollAll(cfg, RequestPoll(cfg, s, names[0], trigger, heads(names[0])), names[1..], trigger, heads)
  }

  /** What a recheck of one watch meets outside. */
  datatype Outside = Outside(verdicts: Name -> Option<Unreachable>, head: Head)

  function RecheckAll(cfg: Config, s: Sys, names: seq<Name>, outside: Name -> Outside): Sys
    decreases |names|
  {
    if names == [] then s
    else
      var o := outside(names[0]);
      RecheckAll(cfg, Recheck(cfg, s, names[0], o.verdicts, o.head), names[1..], outside)
  }

  // ---- self-restart ----

  /** The main loop, after a command: exit if a restart is wanted and nothing is left to do. */
  function AfterCommand(s: Sys): Sys {
    if s.restartWanted && Idle(s) then s.(up := false) else s
  }

  function SelfCheckDue(s: Sys, changed: bool): Sys {
    if !changed then s
    else if Idle(s) then s.(up := false)
    else s.(restartWanted := true)
  }

  // ---- steps ----

  datatype Step =
    | Poll(watch: Name, trigger: string, head: Head)
    | PauseCmd(scope: Scope, on: bool)
    | ApproveCmd(owner: Option<Name>, host: Name, revoke: bool)
    | Validate
    | ValidateDone(heads: Name -> Head)
    | RunDone(env: RunEnv, heads: Name -> Head)
    | RecheckDue(watch: Name, verdicts: Name -> Option<Unreachable>, head: Head)
    | SelfCheck(changed: bool)
    | Restart(loaded: Config, probes: seq<Probe>)

  /** Internal messages come from what the daemon spawned. A process that is down is
      started again; one that is up may be stopped from outside while it is idle. */
  predicate Legal(cfg: Config, s: Sys, e: Step) {
    if e.Restart? then !s.up || Idle(s)
    else
      && s.up
      && match e
         case Poll(w, _, _) => Configured(cfg, w)
         case ValidateDone(_) => s.validating
         case RunDone(_, _) => s.running.Some? && Configured(cfg, s.running.value.watch)
         case RecheckDue(w, _, _) => w in s.armed
         case _ => true
  }

  function RunRecordOf(cfg: Config, s: Sys, env: RunEnv): RunRecord
    requires s.running.Some? && Configured(cfg, s.running.value.watch)
  {
    RecordOf(WatchCfg(cfg, s.running.value.watch).value, s.running.value.plan, env)
  }

  function Next(cfg: Config, s: Sys, e: Step): Sys
    requires Legal(cfg, s, e)
  {
    match e
    case Poll(w, trigger, head) => RequestPoll(cfg, s, w, trigger, head)
    case PauseCmd(scope, on) => AfterCommand(SetPaused(cfg, s, scope, on))
    case ApproveCmd(owner, host, revoke) => AfterCommand(Approve(cfg, s, owner, host, revoke))
    case Validate => AfterCommand(if Busy(s) then s else s.(validating := true))
    case ValidateDone(heads) => AfterCommand(FinishValidation(cfg, s, heads))
    case RunDone(env, heads) =>
      AfterCommand(FinishRun(cfg, s, s.running.value.watch, RunRecordOf(cfg, s, env), heads))
    case RecheckDue(w, verdicts, head) => Recheck(cfg, s, w, verdicts, head)
    case SelfCheck(changed) => SelfCheckDue(s, changed)
    case Restart(loaded, probes) => Startup(loaded, s.agent, probes)
  }

  /** The configuration in force: a start reads it anew. */
  function ConfigAfter(cfg: Config, e: Step): Config {
    if e.Restart? then e.loaded else cfg
  }
}
