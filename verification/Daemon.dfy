/** The daemon object: its fields, and its methods proved against the steps. Every method
    keeps the machine invariant (crates/deptui-agent/src/daemon.rs). */
module Daemon {
  import opened Ordered
  import opened AgentState
  import opened Flake
  import opened Runner
  import opened Planner
  import HT = HostTrace
  import D = DaemonSteps
  import P = DaemonProofs

  class Daemon {
    const cfg: D.Config
    var paused: bool
    var nextRunId: nat
    var watches: map<Name, WatchState>
    var running: Option<D.Running>
    var validating: bool
    var pending: seq<D.Queued>
    var recheckAt: set<Name>
    var restartWanted: bool

    function State(): Agent
      reads this
    {
      Agent(paused, nextRunId, watches)
    }

    /** The state of the machine while the process is up. */
    function View(): D.Sys
      reads this
    {
      D.Sys(State(), running, validating, pending, recheckAt, restartWanted, true)
    }

    ghost predicate Valid()
      reads this
    {
      P.Invariant(cfg, View())
    }

    /** Load the saved state, validate what can be reached, resume the rechecks. */
    constructor (cfg: D.Config, saved: Agent, probes: seq<D.Probe>)
      ensures this.cfg == cfg && Valid() && View() == D.Startup(cfg, saved, probes)
    {
      this.cfg := cfg;
      running, validating, pending, restartWanted := None, false, [], false;
      recheckAt := {};
      var loaded := DropSupersededParks(saved);
      paused, nextRunId, watches := loaded.paused, loaded.nextRunId, loaded.watches;
      new;
      for i := 0 to |probes|
        invariant View() == D.Sys(State(), None, false, [], {}, false, true)
        invariant D.ProbeAll(loaded, probes) == D.ProbeAll(State(), probes[i..])
      {
        assert probes[i..][1..] == probes[i + 1..];
        var p := probes[i];
        SetHostState(p.watch, p.host, HT.AfterProbe(HostOf(State(), p.watch, p.host), p.verdict));
      }
      recheckAt := set w | w in watches && D.HasOffline(State(), w) && D.Configured(cfg, w);
      P.StartupEstablishesInvariant(cfg, saved, probes);
    }

    method SetHostState(w: Name, h: Name, hs: HostState)
      modifies this`watches
      ensures State() == SetHost(old(State()), w, h, hs)
    {
      var ws := WatchOf(State(), w);
      watches := watches[w := ws.(hosts := ws.hosts[h := hs])];
    }

    method RequestPoll(watch: Name, trigger: string, head: D.Head)
      requires D.Configured(cfg, watch)
      modifies this
      ensures View() == D.RequestPoll(cfg, old(View()), watch, trigger, head)
      ensures old(Valid()) ==> Valid()
    {
      if Valid() {
        P.PollKeepsInvariant(cfg, View(), watch, trigger, head);
      }
      if running.Some? || validating {
        if !D.IsQueued(pending, watch) {
          pending := pending + [D.Queued(watch, trigger)];
        }
        return;
      }
      if paused { return; }
      if watch in watches && watches[watch].paused { return; }
      var w := D.WatchCfg(cfg, watch).value;
      if !head.Found? { return; }
      watches := watches[watch := WatchOf(State(), watch).(lastSeen := Some(head.rev))];
      var hosts := DaemonPlan(w, watches[watch], head.rev);
      if hosts == [] { return; }
      nextRunId := nextRunId + 1;
      running := Some(D.Running(watch, RunPlan(nextRunId, head.rev, trigger, hosts)));
    }

    /** The loop shared by `finish_run` and the end of a validation: the queue is moved out,
        and the loop returns once a run has started. */
    method DrainPending(heads: Name -> D.Head)
      requires P.Invariant(cfg, View().(pending := [])) && !D.Busy(View())
      requires P.DistinctWatches(pending)
      requires forall i | 0 <= i < |pending| :: D.Configured(cfg, pending[i].watch)
      modifies this
      ensures Valid() && View() == D.Drain(cfg, old(View()).(pending := []), old(pending), heads).sys
    {
      var q := pending;
      pending := [];
      ghost var s := View();
      P.DrainExact(cfg, s, q, heads);
      for i := 0 to |q|
        invariant Valid() && !D.Busy(View()) && pending == []
        invariant D.Drain(cfg, s, q, heads).sys == D.Drain(cfg, View(), q[i..], heads).sys
      {
        assert q[i..][1..] == q[i + 1..];
        ghost var before := View();
        P.PollStarts(cfg, before, q[i].watch, q[i].trigger, heads(q[i].watch));
        P.RequestPollPolls(cfg, before, q[i].watch, q[i].trigger, heads(q[i].watch));
        RequestPoll(q[i].watch, q[i].trigger, heads(q[i].watch));
        if running.Some? {
          return;
        }
      }
    }

    method FoldRecord(watch: Name, record: RunRecord)
      modifies this`watches
      ensures State() == D.Record(D.FoldAll(old(State()), watch, record.hosts, record.rev, record.finished), watch, record)
    {
      ghost var a := State();
      for i := 0 to |record.hosts|
        invariant D.FoldAll(a, watch, record.hosts, record.rev, record.finished) ==
                  D.FoldAll(State(), watch, record.hosts[i..], record.rev, record.finished)
      {
        assert record.hosts[i..][1..] == record.hosts[i + 1..];
        var hr := record.hosts[i];
        var entry := new HostEntry(HostOf(State(), watch, hr.host));
        entry.ApplyOutcome(hr, record.rev, record.finished);
        SetHostState(watch, hr.host, entry.Value());
      }
      var ws := WatchOf(State(), watch);
      var history := PushRun(ws.history, record);
      watches := watches[watch := ws.(history := history)];
    }

    method FinishRun(watch: Name, record: RunRecord, heads: Name -> D.Head)
      requires Valid() && running.Some? && running.value.watch == watch
      modifies this
      ensures Valid() && View() == D.FinishRun(cfg, old(View()), watch, record, heads)
    {
      P.FinishRunKeepsInvariant(cfg, View(), watch, record, heads);
      P.ConcludeKeepsInvariant(cfg, View(), watch, record);
      FoldRecord(watch, record);
      running := None;
      if D.HadOffline(record) {
        ScheduleRecheck(watch);
      }
      DrainPending(heads);
    }

    method ScheduleRecheck(watch: Name)
      modifies this`recheckAt
      ensures View() == D.Arm(cfg, old(View()), watch)
    {
      if D.WatchCfg(cfg, watch).Some? {
        recheckAt := recheckAt + {watch};
      }
    }

    /** Refused while a run or another validation is in flight. */
    method Validate() returns (accepted: bool)
      requires Valid()
      modifies this
      ensures Valid() && accepted == !D.Busy(old(View()))
      ensures View() == if accepted then old(View()).(validating := true) else old(View())
    {
      if running.Some? || validating {
        return false;
      }
      validating := true;
      return true;
    }

    method ValidateDone(heads: Name -> D.Head)
      requires Valid() && validating
      modifies this
      ensures Valid() && View() == D.FinishValidation(cfg, old(View()), heads)
    {
      validating := false;
      DrainPending(heads);
    }

    /** `None` kicks every configured watch. */
    method Kick(watch: Option<Name>, heads: Name -> D.Head) returns (known: bool)
      requires Valid()
      modifies this
      ensures Valid() && known == (watch.Some? ==> D.Configured(cfg, watch.value))
      ensures View() ==
              if !known then old(View())
              else D.PollAll(cfg, old(View()),
                             if watch.Some? then [watch.value] else WatchNames(cfg), "kick", heads)
    {
      var names;
      if watch.Some? {
        if D.WatchCfg(cfg, watch.value).None? {
          return false;
        }
        names := [watch.value];
      } else {
        names := WatchNames(cfg);
        MembersConfigured(cfg);
        WatchNamesConfigured(cfg, cfg);
      }
      PollEach(names, "kick", heads);
      return true;
    }

    /** Poll the watches whose timers fired. */
    method PollEach(names: seq<Name>, trigger: string, heads: Name -> D.Head)
      requires Valid() && forall i | 0 <= i < |names| :: D.Configured(cfg, names[i])
      modifies this
      ensures Valid() && View() == D.PollAll(cfg, old(View()), names, trigger, heads)
    {
      for i := 0 to |names|
        invariant Valid()
        invariant D.PollAll(cfg, old(View()), names, trigger, heads) ==
                  D.PollAll(cfg, View(), names[i..], trigger, heads)
      {
        assert names[i..][1..] == names[i + 1..];
        RequestPoll(names[i], trigger, heads(names[i]));
      }
    }

    /** The armed timers that fired, each watch once. */
    method RecheckDue(due: seq<Name>, outside: Name -> D.Outside)
      requires Valid() && Distinct(due) && forall i | 0 <= i < |due| :: due[i] in recheckAt
      modifies this
      ensures Valid() && View() == D.RecheckAll(cfg, old(View()), due, outside)
    {
      for i := 0 to |due|
        invariant Valid() && forall j | i <= j < |due| :: due[j] in recheckAt
        invariant D.RecheckAll(cfg, old(View()), due, outside) == D.RecheckAll(cfg, View(), due[i..], outside)
      {
        assert due[i..][1..] == due[i + 1..];
        RecheckWatch(due[i], outside(due[i]).verdicts, outside(due[i]).head);
      }
    }

    method RecheckWatch(watch: Name, verdicts: Name -> Option<Unreachable>, head: D.Head)
      requires Valid() && watch in recheckAt
      modifies this
      ensures Valid() && View() == D.Recheck(cfg, old(View()), watch, verdicts, head)
      ensures old(recheckAt) - {watch} <= recheckAt
    {
      ghost var s := View();
      P.RecheckKeepsInvariant(cfg, s, watch, verdicts, head);
      recheckAt := recheckAt - {watch};
      var ws := WatchOf(State(), watch);
      var back, stillDown := ProbeOffline(ws.hosts, verdicts);
      assert D.SomeBack(s.agent, watch, verdicts) <==> back != [] by {
        if back != [] { assert back[0] in back; }
      }
      assert D.SomeStillDown(s.agent, watch, verdicts) <==> stillDown != [] by {
        if stillDown != [] { assert stillDown[0] in stillDown; }
      }
      if back == [] && stillDown == [] {
        return;
      }
      var hosts := RecordVerdicts(ws.hosts, back, stillDown, verdicts);
      watches := watches[watch := ws.(hosts := hosts)];
      assert View() == D.AfterProbes(s, watch, verdicts);
      if back != [] {
        P.PollIgnoresTimers(cfg, View(), recheckAt, watch, "catch-up", head);
        RequestPoll(watch, "catch-up", head);
      }
      if stillDown != [] {
        ScheduleRecheck(watch);
      }
    }

    method ProbeOffline(hosts: map<Name, HostState>, verdicts: Name -> Option<Unreachable>)
      returns (back: seq<Name>, stillDown: seq<Name>)
      ensures forall h :: h in back <==> h in hosts && hosts[h].offline.Some? && verdicts(h).None?
      ensures forall h :: h in stillDown <==> h in hosts && hosts[h].offline.Some? && verdicts(h).Some?
    {
      back, stillDown := [], [];
      var names := Keys(hosts.Keys);
      for i := 0 to |names|
        invariant forall h :: h in back <==> h in names[..i] && hosts[h].offline.Some? && verdicts(h).None?
        invariant forall h :: h in stillDown <==> h in names[..i] && hosts[h].offline.Some? && verdicts(h).Some?
      {
        assert names[..i + 1] == names[..i] + [names[i]];
        if hosts[names[i]].offline.Some? {
          match verdicts(names[i]) {
            case None => back := back + [names[i]];
            case Some(_) => stillDown := stillDown + [names[i]];
          }
        }
      }
      assert names[..|names|] == names;
    }

    /** Hosts that answered shed their marker; the others keep the freshest reason. */
    method RecordVerdicts(hosts: map<Name, HostState>, back: seq<Name>, stillDown: seq<Name>,
                          verdicts: Name -> Option<Unreachable>)
      returns (r: map<Name, HostState>)
      requires forall h :: h in back <==> h in hosts && hosts[h].offline.Some? && verdicts(h).None?
      requires forall h :: h in stillDown <==> h in hosts && hosts[h].offline.Some? && verdicts(h).Some?
      ensures r == D.RecheckHosts(hosts, verdicts)
    {
      r := hosts;
      for i := 0 to |back|
        invariant r.Keys == hosts.Keys
        invariant forall h | h in hosts ::
                    r[h] == if h in back[..i] then HT.AfterRecheck(hosts[h], None) else hosts[h]
      {
        assert back[..i + 1] == back[..i] + [back[i]];
        assert back[i] in back;
        r := r[back[i] := r[back[i]].(offline := None, unreachable := None)];
      }
      assert back[..|back|] == back;
      for i := 0 to |stillDown|
        invariant r.Keys == hosts.Keys
        invariant forall h | h in hosts ::
                    r[h] == if h in back then HT.AfterRecheck(hosts[h], None)
                            else if h in stillDown[..i] then HT.AfterRecheck(hosts[h], verdicts(h)) else hosts[h]
      {
        assert stillDown[..i + 1] == stillDown[..i] + [stillDown[i]];
        assert stillDown[i] in stillDown;
        var h := stillDown[i];
        r := r[h := HT.Miss(hosts[h], verdicts(h).value)];
      }
      assert stillDown[..|stillDown|] == stillDown;
    }

    method SetPaused(scope: D.Scope, on: bool) returns (known: bool)
      requires Valid()
      modifies this
      ensures Valid() && View() == D.SetPaused(cfg, old(View()), scope, on)
      ensures !known ==> View() == old(View())
    {
      P.PauseKeepsInvariant(cfg, View(), scope, on);
      known := true;
      match scope {
        case Global => paused := on;
        case OneWatch(w) =>
          if D.WatchCfg(cfg, w).None? {
            return false;
          }
          watches := watches[w := WatchOf(State(), w).(paused := on)];
        case OneHost(h) =>
          known := false;
          ghost var s := View();
          for i := 0 to |cfg|
            invariant View() == s.(agent := State())
            invariant D.PauseHost(cfg, s.agent, h, on) == D.PauseHost(cfg[i..], State(), h, on)
            invariant !known ==> State() == s.agent
          {
            assert cfg[i..][1..] == cfg[i + 1..];
            if h in cfg[i].hosts {
              known := true;
              SetHostState(cfg[i].name, h, HostOf(State(), cfg[i].name, h).(paused := on));
            }
          }
      }
    }

    method Approve(watch: Option<Name>, host: Name, revoke: bool) returns (granted: bool)
      requires Valid()
      modifies this
      ensures Valid() && View() == D.Approve(cfg, old(View()), watch, host, revoke)
    {
      P.ApproveKeepsInvariant(cfg, View(), watch, host, revoke);
      var target;
      if watch.Some? {
        target := watch.value;
        if D.WatchCfg(cfg, target).None? || host !in D.WatchCfg(cfg, target).value.hosts {
          return false;
        }
      } else {
        var owners := D.Owners(cfg, host);
        if |owners| != 1 {
          return false;
        }
        target := owners[0];
      }
      var hs := HostOf(State(), target, host);
      granted := hs.approved == revoke;
      if granted {
        hs := hs.(approved := !revoke);
      }
      SetHostState(target, host, hs);
    }

    /** The end of the main loop's command arm: true when the process should exit. */
    method CommandDone() returns (exit: bool)
      requires Valid()
      ensures D.AfterCommand(View()) == View().(up := !exit)
      ensures exit ==> D.Idle(View())
    {
      return restartWanted && running.None? && !validating && pending == [];
    }

    /** True when the daemon should exit to be restarted into the updated binary or config:
        only with no run, validation or queued poll outstanding. */
    method SelfCheckDue(changed: bool) returns (exit: bool)
      requires Valid()
      modifies this`restartWanted
      ensures Valid() && exit == (changed && D.Idle(View()))
      ensures D.SelfCheckDue(old(View()), changed) == View().(up := !exit)
    {
      if !changed {
        return false;
      }
      if running.None? && !validating && pending == [] {
        return true;
      }
      restartWanted := true;
      return false;
    }
  }

  function WatchNames(cfg: D.Config): (names: seq<Name>) {
    if cfg == [] then [] else [cfg[0].name] + WatchNames(cfg[1..])
  }

  lemma {:induction false} WatchNamesConfigured(cfg: D.Config, all: D.Config)
    requires forall w | w in cfg :: D.Configured(all, w.name)
    ensures forall i | 0 <= i < |WatchNames(cfg)| :: D.Configured(all, WatchNames(cfg)[i])
  {
    if cfg != [] {
      assert cfg[0] in cfg;
      WatchNamesConfigured(cfg[1..], all);
    }
  }

  lemma {:induction false} MembersConfigured(cfg: D.Config)
    ensures forall w | w in cfg :: D.Configured(cfg, w.name)
  {
    if cfg != [] {
      MembersConfigured(cfg[1..]);
      assert forall w | w in cfg :: w == cfg[0] || w in cfg[1..];
    }
  }
}
