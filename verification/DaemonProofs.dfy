/** What every run of the daemon keeps, and what becomes of the requests it queues. */
module DaemonProofs {
  import opened Ordered
  import opened AgentState
  import opened Flake
  import opened Runner
  import opened Planner
  import opened DaemonSteps

  // ---- polls ----

  predicate DistinctHosts(hosts: seq<PlanHost>) {
    forall i, j | 0 <= i < j < |hosts| :: hosts[i].name != hosts[j].name
  }

  /** A started run: on a watch that is not paused, at the revision last seen there, with
      the run id just taken, for exactly the configured hosts that need the revision. */
  predicate PlanFits(cfg: Config, a: Agent, r: Running) {
    && Configured(cfg, r.watch) && !WatchPaused(a, r.watch)
    && WatchOf(a, r.watch).lastSeen == Some(r.plan.rev)
    && r.plan.runId == a.nextRunId
    && r.plan.hosts != []
    && DistinctHosts(r.plan.hosts)
    && (forall i | 0 <= i < |r.plan.hosts| ::
          var ph := r.plan.hosts[i];
          && ph.name in WatchCfg(cfg, r.watch).value.hosts
          && Needs(HostOf(a, r.watch, ph.name), r.plan.rev)
          && ph == PlanEntry(ph.name, HostOf(a, r.watch, ph.name)))
    && (forall h | h in WatchCfg(cfg, r.watch).value.hosts && Needs(HostOf(a, r.watch, h), r.plan.rev) ::
          PlanEntry(h, HostOf(a, r.watch, h)) in r.plan.hosts)
  }

  ghost predicate SameHosts(a: Agent, b: Agent) {
    && a.paused == b.paused
    && (forall w, h :: HostOf(a, w, h) == HostOf(b, w, h))
    && (forall w :: WatchPaused(a, w) <==> WatchPaused(b, w))
  }

  /** Any number of polls: host states stay, a busy daemon only queues, and at most one run starts. */
  ghost predicate Polled(cfg: Config, s: Sys, s': Sys) {
    && SameHosts(s.agent, s'.agent)
    && s' == s.(agent := s'.agent, running := s'.running, pending := s'.pending)
    && (Busy(s) ==> s'.agent == s.agent && s'.running == s.running)
    && (s.running.None? && s'.running.Some? ==> !s.validating && PlanFits(cfg, s'.agent, s'.running.value))
  }

  lemma OfflineFollowsHosts(a: Agent, b: Agent, w: Name)
    requires HasOffline(a, w) && forall h :: HostOf(a, w, h) == HostOf(b, w, h)
    ensures HasOffline(b, w)
  {
    var h :| h in WatchOf(a, w).hosts && WatchOf(a, w).hosts[h].offline.Some?;
    assert HostOf(b, w, h) == HostOf(a, w, h);
  }

  lemma SeeKeepsHosts(a: Agent, watch: Name, rev: Rev)
    ensures SameHosts(a, See(a, watch, rev))
  {
  }

  lemma PlanIsFit(cfg: Config, a: Agent, watch: Name, rev: Rev, trigger: string)
    requires Configured(cfg, watch) && !WatchPaused(a, watch) && WatchOf(a, watch).lastSeen == Some(rev)
    requires PlanHosts(WatchCfg(cfg, watch).value, WatchOf(a, watch), rev) != []
    ensures PlanFits(cfg, a, Running(watch, RunPlan(a.nextRunId, rev, trigger,
                                                    PlanHosts(WatchCfg(cfg, watch).value, WatchOf(a, watch), rev))))
  {
    var w := WatchCfg(cfg, watch).value;
    var plan := PlanHosts(w, WatchOf(a, watch), rev);
    PlanListsTheNeedy(w, WatchOf(a, watch), rev);
    forall i, j | 0 <= i < j < |plan| ensures plan[i].name != plan[j].name {
      LessAsymmetric(plan[i].name, plan[j].name);
    }
    assert forall i | 0 <= i < |plan| :: plan[i] in plan;
  }

  lemma {:induction false} RequestPollPolls(cfg: Config, s: Sys, watch: Name, trigger: string, head: Head)
    ensures Polled(cfg, s, RequestPoll(cfg, s, watch, trigger, head))
  {
    if !Busy(s) && !WatchPaused(s.agent, watch) && Configured(cfg, watch) && head.Found? {
      var a := See(s.agent, watch, head.rev);
      SeeKeepsHosts(s.agent, watch, head.rev);
      var hosts := PlanHosts(WatchCfg(cfg, watch).value, WatchOf(a, watch), head.rev);
      if hosts != [] {
        var b := a.(nextRunId := a.nextRunId + 1);
        assert WatchOf(b, watch) == WatchOf(a, watch);
        PlanIsFit(cfg, b, watch, head.rev, trigger);
      }
    }
  }

  lemma PolledTwice(cfg: Config, s: Sys, s1: Sys, s2: Sys)
    requires Polled(cfg, s, s1) && Polled(cfg, s1, s2)
    ensures Polled(cfg, s, s2)
  {
  }

  lemma {:induction false} DrainPolls(cfg: Config, s: Sys, q: seq<Queued>, heads: Name -> Head)
    ensures Polled(cfg, s, Drain(cfg, s, q, heads).sys)
    decreases |q|
  {
    if q != [] {
      var s' := RequestPoll(cfg, s, q[0].watch, q[0].trigger, heads(q[0].watch));
      RequestPollPolls(cfg, s, q[0].watch, q[0].trigger, heads(q[0].watch));
      if s'.running.None? {
        DrainPolls(cfg, s', q[1..], heads);
        PolledTwice(cfg, s, s', Drain(cfg, s', q[1..], heads).sys);
      }
    }
  }

  // ---- conservation of queued requests ----

  /** Polling this watch now would start a run: it is not paused, its head is found, and some
      configured host needs the revision there. */
  predicate Starts(cfg: Config, a: Agent, watch: Name, head: Head) {
    && !WatchPaused(a, watch) && Configured(cfg, watch) && head.Found?
    && exists h | h in WatchCfg(cfg, watch).value.hosts :: Needs(HostOf(a, watch, h), head.rev)
  }

  predicate DistinctWatches(q: seq<Queued>) {
    forall i, j | 0 <= i < j < |q| :: q[i].watch != q[j].watch
  }

  /** Requests the drain gets to: up to and including the first that starts a run. */
  function Reached(cfg: Config, a: Agent, q: seq<Queued>, heads: Name -> Head): (n: nat)
    ensures n <= |q|
  {
    if q == [] then 0
    else if Starts(cfg, a, q[0].watch, heads(q[0].watch)) then 1
    else 1 + Reached(cfg, a, q[1..], heads)
  }

  lemma {:induction false} ReachedExact(cfg: Config, a: Agent, q: seq<Queued>, heads: Name -> Head)
    ensures var n := Reached(cfg, a, q, heads);
            && (forall i | 0 <= i < n - 1 :: !Starts(cfg, a, q[i].watch, heads(q[i].watch)))
            && (n < |q| ==> n > 0 && Starts(cfg, a, q[n - 1].watch, heads(q[n - 1].watch)))
  {
    if q != [] && !Starts(cfg, a, q[0].watch, heads(q[0].watch)) {
      ReachedExact(cfg, a, q[1..], heads);
      var n := Reached(cfg, a, q, heads);
      forall i | 0 <= i < n - 1 ensures !Starts(cfg, a, q[i].watch, heads(q[i].watch)) {
        if i > 0 { assert q[i] == q[1..][i - 1]; }
      }
    }
  }

  /** Whether a watch would start a run depends on its own state only. */
  lemma StartsLocal(cfg: Config, a: Agent, b: Agent, watch: Name, head: Head)
    requires a.paused == b.paused && WatchOf(a, watch) == WatchOf(b, watch)
    ensures Starts(cfg, a, watch, head) <==> Starts(cfg, b, watch, head)
  {
  }

  lemma {:induction false} ReachedLocal(cfg: Config, a: Agent, b: Agent, q: seq<Queued>, heads: Name -> Head)
    requires a.paused == b.paused && forall i | 0 <= i < |q| :: WatchOf(a, q[i].watch) == WatchOf(b, q[i].watch)
    ensures Reached(cfg, a, q, heads) == Reached(cfg, b, q, heads)
  {
    if q != [] {
      StartsLocal(cfg, a, b, q[0].watch, heads(q[0].watch));
      ReachedLocal(cfg, a, b, q[1..], heads);
    }
  }

  lemma SomebodyPlanned(cfg: Config, a: Agent, watch: Name, rev: Rev)
    requires Configured(cfg, watch)
    ensures PlanHosts(WatchCfg(cfg, watch).value, WatchOf(See(a, watch, rev), watch), rev) != [] <==>
            exists h | h in WatchCfg(cfg, watch).value.hosts :: Needs(HostOf(a, watch, h), rev)
  {
    var w, ws := WatchCfg(cfg, watch).value, WatchOf(See(a, watch, rev), watch);
    var plan := PlanHosts(w, ws, rev);
    PlanListsTheNeedy(w, ws, rev);
    assert forall h :: HostIn(ws, h) == HostOf(a, watch, h);
    if plan != [] {
      assert plan[0] in plan;
      assert Needs(HostOf(a, watch, plan[0].name), rev);
    }
    if h :| h in w.hosts && Needs(HostOf(a, watch, h), rev) {
      assert PlanEntry(h, HostIn(ws, h)) in plan;
    }
  }

  /** A poll of an idle daemon: a run at the head's revision starts exactly when somebody
      needs it; the head is remembered exactly when it was looked at and found; nothing else
      about any watch changes. */
  lemma {:induction false} PollStarts(cfg: Config, s: Sys, watch: Name, trigger: string, head: Head)
    requires !Busy(s)
    ensures var s' := RequestPoll(cfg, s, watch, trigger, head);
            && (s'.running.Some? <==> Starts(cfg, s.agent, watch, head))
            && (s'.running.Some? ==>
                  && s'.running.value.watch == watch && s'.running.value.plan.trigger == trigger
                  && s'.running.value.plan.rev == head.rev)
            && s'.pending == s.pending && s'.agent.paused == s.agent.paused
            && WatchOf(s'.agent, watch) ==
                 (if !WatchPaused(s.agent, watch) && Configured(cfg, watch) && head.Found?
                  then WatchOf(s.agent, watch).(lastSeen := Some(head.rev)) else WatchOf(s.agent, watch))
            && forall w | w != watch :: WatchOf(s'.agent, w) == WatchOf(s.agent, w)
  {
    if Configured(cfg, watch) && head.Found? {
      SomebodyPlanned(cfg, s.agent, watch, head.rev);
    }
  }

  /** The drain polls exactly the requests up to the first that starts a run, and leaves the
      queue empty; it stops short only because a run started. */
  lemma {:induction false} DrainExact(cfg: Config, s: Sys, q: seq<Queued>, heads: Name -> Head)
    requires !Busy(s) && s.pending == [] && DistinctWatches(q)
    ensures var d := Drain(cfg, s, q, heads);
            && d.polled == Reached(cfg, s.agent, q, heads)
            && d.sys.pending == []
            && (d.polled < |q| ==> d.sys.running.Some?)
    decreases |q|
  {
    if q != [] {
      var s' := RequestPoll(cfg, s, q[0].watch, q[0].trigger, heads(q[0].watch));
      PollStarts(cfg, s, q[0].watch, q[0].trigger, heads(q[0].watch));
      RequestPollPolls(cfg, s, q[0].watch, q[0].trigger, heads(q[0].watch));
      if s'.running.None? {
        assert forall i | 0 <= i < |q| - 1 :: q[1..][i] == q[i + 1];
        ReachedLocal(cfg, s.agent, s'.agent, q[1..], heads);
        DrainExact(cfg, s', q[1..], heads);
      }
    }
  }

  /** A run starts exactly when some queued request would start one. */
  lemma {:induction false} DrainStarts(cfg: Config, s: Sys, q: seq<Queued>, heads: Name -> Head)
    requires !Busy(s) && DistinctWatches(q)
    ensures Drain(cfg, s, q, heads).sys.running.Some? <==>
            exists x | x in q :: Starts(cfg, s.agent, x.watch, heads(x.watch))
    decreases |q|
  {
    if q != [] {
      var rest := q[1..];
      var s' := RequestPoll(cfg, s, q[0].watch, q[0].trigger, heads(q[0].watch));
      PollStarts(cfg, s, q[0].watch, q[0].trigger, heads(q[0].watch));
      RequestPollPolls(cfg, s, q[0].watch, q[0].trigger, heads(q[0].watch));
      assert forall i | 0 <= i < |rest| :: rest[i] == q[i + 1];
      assert q[0] in q && forall x :: x in q <==> x == q[0] || x in rest;
      if s'.running.None? {
        DrainStarts(cfg, s', rest, heads);
        forall x | x in rest
          ensures Starts(cfg, s'.agent, x.watch, heads(x.watch)) <==> Starts(cfg, s.agent, x.watch, heads(x.watch))
        {
          StartsLocal(cfg, s.agent, s'.agent, x.watch, heads(x.watch));
        }
      }
    }
  }

  /** It does not touch the state of any watch it does not get to. */
  lemma {:induction false} DrainFrame(cfg: Config, s: Sys, q: seq<Queued>, heads: Name -> Head, w: Name)
    requires !Busy(s)
    requires var n := Drain(cfg, s, q, heads).polled; n <= |q| && forall i | 0 <= i < n :: q[i].watch != w
    ensures WatchOf(Drain(cfg, s, q, heads).sys.agent, w) == WatchOf(s.agent, w)
    decreases |q|
  {
    if q != [] {
      var s' := RequestPoll(cfg, s, q[0].watch, q[0].trigger, heads(q[0].watch));
      PollStarts(cfg, s, q[0].watch, q[0].trigger, heads(q[0].watch));
      RequestPollPolls(cfg, s, q[0].watch, q[0].trigger, heads(q[0].watch));
      if s'.running.None? {
        assert forall i | 0 <= i < |q| - 1 :: q[1..][i] == q[i + 1];
        DrainFrame(cfg, s', q[1..], heads, w);
      }
    }
  }

  /** The requests that are neither polled nor queued any more after the drain. */
  function Lost(cfg: Config, s: Sys, q: seq<Queued>, heads: Name -> Head): seq<Queued> {
    var d := Drain(cfg, s, q, heads);
    if d.polled <= |q| then
      Filter(q[d.polled..], (x: Queued) => !IsQueued(d.sys.pending, x.watch))
    else []
  }

  lemma {:induction false} FilterAll<T>(s: seq<T>, p: T -> bool)
    requires forall x | x in s :: p(x)
    ensures Filter(s, p) == s
  {
    if s != [] {
      FilterAll(s[1..], p);
    }
  }

  /** What the loop as written loses is everything behind the first request that starts a run. */
  lemma {:induction false} DrainLosesTheRest(cfg: Config, s: Sys, q: seq<Queued>, heads: Name -> Head)
    requires !Busy(s) && s.pending == [] && DistinctWatches(q)
    ensures Lost(cfg, s, q, heads) == q[Reached(cfg, s.agent, q, heads)..]
  {
    DrainExact(cfg, s, q, heads);
    FilterAll(q[Reached(cfg, s.agent, q, heads)..], (x: Queued) => !IsQueued([], x.watch));
  }

  /** "The rest stays queued" does not hold of it: every request is polled or stays queued if
      and only if no request but the last would start a run. */
  lemma {:induction false} DrainConserves(cfg: Config, s: Sys, q: seq<Queued>, heads: Name -> Head)
    requires !Busy(s) && s.pending == [] && DistinctWatches(q)
    ensures Lost(cfg, s, q, heads) == [] <==>
            forall i | 0 <= i < |q| - 1 :: !Starts(cfg, s.agent, q[i].watch, heads(q[i].watch))
  {
    DrainLosesTheRest(cfg, s, q, heads);
    ReachedExact(cfg, s.agent, q, heads);
  }

  /** A lost request leaves no trace: the state of its watch is untouched. */
  lemma {:induction false} LostWithoutATrace(cfg: Config, s: Sys, q: seq<Queued>, heads: Name -> Head, x: Queued)
    requires !Busy(s) && s.pending == [] && DistinctWatches(q) && x in Lost(cfg, s, q, heads)
    ensures WatchOf(Drain(cfg, s, q, heads).sys.agent, x.watch) == WatchOf(s.agent, x.watch)
  {
    DrainExact(cfg, s, q, heads);
    DrainLosesTheRest(cfg, s, q, heads);
    BehindDiffers(q, Reached(cfg, s.agent, q, heads), x);
    DrainFrame(cfg, s, q, heads, x.watch);
  }

  lemma BehindDiffers(q: seq<Queued>, n: nat, x: Queued)
    requires n <= |q| && DistinctWatches(q) && x in q[n..]
    ensures forall i | 0 <= i < n :: q[i].watch != x.watch
  {
    var k :| 0 <= k < |q| - n && q[n..][k] == x;
    assert q[n + k] == x;
  }

  /** The drain the comment describes: what was not polled goes back into the queue. */
  function RequeueingDrain(cfg: Config, s: Sys, q: seq<Queued>, heads: Name -> Head): Drained {
    var d := Drain(cfg, s, q, heads);
    if d.polled <= |q| then d.(sys := d.sys.(pending := q[d.polled..])) else d
  }

  /** It conserves every request: polled ones followed by queued ones are the old queue. */
  lemma RequeueingDrainConserves(cfg: Config, s: Sys, q: seq<Queued>, heads: Name -> Head)
    requires !Busy(s) && s.pending == [] && DistinctWatches(q)
    ensures var d := RequeueingDrain(cfg, s, q, heads);
            && d.polled <= |q| && q[..d.polled] + d.sys.pending == q
            && DistinctWatches(d.sys.pending)
            && (d.sys.pending != [] ==> d.sys.running.Some?)
  {
    DrainExact(cfg, s, q, heads);
    ReachedExact(cfg, s.agent, q, heads);
    SuffixDistinct(q, Reached(cfg, s.agent, q, heads));
  }

  lemma SuffixDistinct(q: seq<Queued>, n: nat)
    requires n <= |q| && DistinctWatches(q)
    ensures DistinctWatches(q[n..]) && q[..n] + q[n..] == q
  {
    assert forall i | 0 <= i < |q| - n :: q[n..][i] == q[n + i];
  }

  /** A lost request, concretely: two fresh watches that both have a new revision, queued
      behind a run. The second is never polled and its state shows no trace of the poll. */
  lemma DrainLosesARequest()
    ensures exists cfg: Config, s: Sys, q: seq<Queued>, heads: Name -> Head ::
              && ValidConfig(cfg) && !Busy(s) && s.pending == [] && DistinctWatches(q)
              && Lost(cfg, s, q, heads) != []
  {
    var hc := HostConfig(All, false, true, true);
    var cfg := [WatchConfig("a", map["x" := hc]), WatchConfig("b", map["y" := hc])];
    var s := Sys(FRESH_AGENT, None, false, [], {}, false, true);
    var q := [Queued("a", "kick"), Queued("b", "kick")];
    var heads := (w: Name) => Found("r");
    assert "x" in cfg[0].hosts && Needs(HostOf(s.agent, "a", "x"), "r");
    assert Starts(cfg, s.agent, q[0].watch, heads("a"));
    assert DistinctWatches(q);
    DrainConserves(cfg, s, q, heads);
    assert Lost(cfg, s, q, heads) != [];
  }

  // ---- the machine invariant ----

  /** No forgotten sleeper: every configured watch with an offline marker has its recheck armed. */
  ghost predicate SleepersArmed(cfg: Config, a: Agent, armed: set<Name>) {
    forall w | Configured(cfg, w) && HasOffline(a, w) :: w in armed
  }

  predicate QueueSound(cfg: Config, s: Sys) {
    && DistinctWatches(s.pending)
    && (forall i | 0 <= i < |s.pending| :: Configured(cfg, s.pending[i].watch))
    && (s.pending != [] ==> Busy(s))
  }

  /** A run and a validation never coexist; a run has each host once; the queue is duplicate-free, names configured
      watches, and waits only behind one of the two; no sleeper is forgotten. */
  ghost predicate Invariant(cfg: Config, s: Sys) {
    && !(s.running.Some? && s.validating)
    && QueueSound(cfg, s)
    && (s.running.Some? ==>
          Configured(cfg, s.running.value.watch) && s.running.value.plan.hosts != []
          && DistinctHosts(s.running.value.plan.hosts))
    && (forall w | w in s.armed :: Configured(cfg, w))
    && SleepersArmed(cfg, s.agent, s.armed)
  }

  /** Every host offline in b was offline in a. */
  ghost predicate NoNewSleepers(a: Agent, b: Agent) {
    forall w, h :: HostOf(b, w, h).offline.Some? ==> HostOf(a, w, h).offline.Some?
  }

  lemma NoNewSleepersStayArmed(cfg: Config, a: Agent, b: Agent, armed: set<Name>)
    requires SleepersArmed(cfg, a, armed) && NoNewSleepers(a, b)
    ensures SleepersArmed(cfg, b, armed)
  {
    forall w | Configured(cfg, w) && HasOffline(b, w) ensures w in armed {
      var h :| h in WatchOf(b, w).hosts && WatchOf(b, w).hosts[h].offline.Some?;
      assert HostOf(b, w, h).offline.Some?;
      assert HostOf(a, w, h).offline.Some?;
      assert h in WatchOf(a, w).hosts;
      assert HasOffline(a, w);
    }
  }

  lemma PolledKeepsInvariant(cfg: Config, s: Sys, s': Sys)
    requires Invariant(cfg, s) && Polled(cfg, s, s') && s'.pending == s.pending
    ensures Invariant(cfg, s')
  {
    NoNewSleepersStayArmed(cfg, s.agent, s'.agent, s.armed);
  }

  lemma {:induction false} FoldAllSleepers(a: Agent, w: Name, runs: seq<HostRun>, rev: Rev, time: nat)
    ensures (forall i | 0 <= i < |runs| :: !IsPending(runs[i].outcome)) ==> NoNewSleepers(a, FoldAll(a, w, runs, rev, time))
    ensures forall v, h | v != w :: HostOf(FoldAll(a, w, runs, rev, time), v, h) == HostOf(a, v, h)
    decreases |runs|
  {
    if runs != [] {
      var b := SetHost(a, w, runs[0].host, Fold(HostOf(a, w, runs[0].host), runs[0], rev, time));
      FoldAllSleepers(b, w, runs[1..], rev, time);
    }
  }

  /** Folding outcomes into one watch does not touch another. */
  lemma {:induction false} FoldUntouched(a: Agent, w: Name, runs: seq<HostRun>, rev: Rev, time: nat, v: Name)
    requires v != w
    ensures var b := FoldAll(a, w, runs, rev, time);
            WatchOf(b, v) == WatchOf(a, v) && b.paused == a.paused
    decreases |runs|
  {
    if runs != [] {
      FoldUntouched(SetHost(a, w, runs[0].host, Fold(HostOf(a, w, runs[0].host), runs[0], rev, time)),
                    w, runs[1..], rev, time, v);
    }
  }

  lemma ConcludeKeepsInvariant(cfg: Config, s: Sys, watch: Name, record: RunRecord)
    requires Invariant(cfg, s) && s.running.Some? && s.running.value.watch == watch
    ensures Invariant(cfg, Conclude(cfg, s, watch, record).(pending := []))
  {
    var a := FoldAll(s.agent, watch, record.hosts, record.rev, record.finished);
    var b := Record(a, watch, record);
    var s' := Conclude(cfg, s, watch, record);
    FoldAllSleepers(s.agent, watch, record.hosts, record.rev, record.finished);
    assert forall v, h :: HostOf(b, v, h) == HostOf(a, v, h);
    if HadOffline(record) {
      forall w | Configured(cfg, w) && HasOffline(b, w) ensures w in s'.armed {
        if w != watch {
          OfflineFollowsHosts(b, s.agent, w);
        }
      }
    } else {
      NoNewSleepersStayArmed(cfg, s.agent, b, s.armed);
    }
  }

  lemma DrainKeepsInvariant(cfg: Config, s: Sys, q: seq<Queued>, heads: Name -> Head)
    requires Invariant(cfg, s) && !Busy(s) && s.pending == [] && DistinctWatches(q)
    ensures Invariant(cfg, Drain(cfg, s, q, heads).sys)
  {
    DrainPolls(cfg, s, q, heads);
    DrainExact(cfg, s, q, heads);
    PolledKeepsInvariant(cfg, s, Drain(cfg, s, q, heads).sys);
  }

  lemma PollKeepsInvariant(cfg: Config, s: Sys, watch: Name, trigger: string, head: Head)
    requires Invariant(cfg, s) && Configured(cfg, watch)
    ensures Invariant(cfg, RequestPoll(cfg, s, watch, trigger, head))
  {
    if !Busy(s) {
      RequestPollPolls(cfg, s, watch, trigger, head);
      PollStarts(cfg, s, watch, trigger, head);
      PolledKeepsInvariant(cfg, s, RequestPoll(cfg, s, watch, trigger, head));
    }
  }

  /** What a recheck does to each host of the watch, and to no other. */
  lemma RecheckedHosts(a: Agent, watch: Name, verdicts: Name -> Option<Unreachable>, w: Name, h: Name)
    ensures HostOf(RecheckState(a, watch, verdicts), w, h) ==
            if w == watch && HostOf(a, w, h).offline.Some?
            then HostTrace.AfterRecheck(HostOf(a, w, h), verdicts(h)) else HostOf(a, w, h)
  {
  }

  lemma {:induction false} RecheckKeepsInvariant(cfg: Config, s: Sys, watch: Name, verdicts: Name -> Option<Unreachable>, head: Head)
    requires Invariant(cfg, s) && watch in s.armed
    ensures Invariant(cfg, Recheck(cfg, s, watch, verdicts, head))
  {
    if HasOffline(s.agent, watch) {
      var b := RecheckState(s.agent, watch, verdicts);
      forall w, h ensures HostOf(b, w, h).offline.Some? ==> HostOf(s.agent, w, h).offline.Some? {
        RecheckedHosts(s.agent, watch, verdicts, w, h);
      }
      NoNewSleepersStayArmed(cfg, s.agent, b, s.armed);
      if !SomeStillDown(s.agent, watch, verdicts) {
        NobodyLeftDown(s.agent, watch, verdicts);
      }
      // With the timer still armed the invariant holds; the poll keeps it, and what the
      // poll leaves armed differs only in `watch`.
      var armedStill := s.(agent := b);
      PollKeepsInvariant(cfg, armedStill, watch, "catch-up", head);
      PollIgnoresTimers(cfg, armedStill, s.armed - {watch}, watch, "catch-up", head);
      RequestPollPolls(cfg, armedStill, watch, "catch-up", head);
      var polled := if SomeBack(s.agent, watch, verdicts)
                    then RequestPoll(cfg, armedStill, watch, "catch-up", head) else armedStill;
      if !SomeStillDown(s.agent, watch, verdicts) && HasOffline(polled.agent, watch) {
        OfflineFollowsHosts(polled.agent, b, watch);
      }
      Disarmed(cfg, polled, watch);
    }
  }

  /** Disarming a watch is fine as soon as it has no sleeper, or is armed again. */
  lemma Disarmed(cfg: Config, s: Sys, watch: Name)
    requires Invariant(cfg, s) && watch in s.armed
    ensures Invariant(cfg, Arm(cfg, s.(armed := s.armed - {watch}), watch))
    ensures !HasOffline(s.agent, watch) ==> Invariant(cfg, s.(armed := s.armed - {watch}))
  {
  }

  lemma NobodyLeftDown(a: Agent, watch: Name, verdicts: Name -> Option<Unreachable>)
    requires !SomeStillDown(a, watch, verdicts)
    ensures !HasOffline(RecheckState(a, watch, verdicts), watch)
  {
  }

  lemma PollIgnoresTimers(cfg: Config, s: Sys, armed: set<Name>, watch: Name, trigger: string, head: Head)
    ensures RequestPoll(cfg, s.(armed := armed), watch, trigger, head) ==
            RequestPoll(cfg, s, watch, trigger, head).(armed := armed)
    ensures RequestPoll(cfg, s, watch, trigger, head).armed == s.armed
  {
  }

  lemma {:induction false} PauseHostSleepers(cfg: Config, a: Agent, h: Name, on: bool)
    ensures NoNewSleepers(a, PauseHost(cfg, a, h, on))
    decreases |cfg|
  {
    if cfg != [] {
      var a' := if h in cfg[0].hosts
                then SetHost(a, cfg[0].name, h, HostOf(a, cfg[0].name, h).(paused := on)) else a;
      PauseHostSleepers(cfg[1..], a', h, on);
    }
  }

  lemma PauseKeepsInvariant(cfg: Config, s: Sys, scope: Scope, on: bool)
    requires Invariant(cfg, s)
    ensures Invariant(cfg, SetPaused(cfg, s, scope, on))
  {
    if scope.OneHost? {
      PauseHostSleepers(cfg, s.agent, scope.host, on);
    }
    NoNewSleepersStayArmed(cfg, s.agent, SetPaused(cfg, s, scope, on).agent, s.armed);
  }

  lemma ApprovingSleepers(a: Agent, w: Name, h: Name, approved: bool)
    ensures NoNewSleepers(a, SetHost(a, w, h, HostOf(a, w, h).(approved := approved)))
  {
  }

  lemma ApproveKeepsInvariant(cfg: Config, s: Sys, owner: Option<Name>, host: Name, revoke: bool)
    requires Invariant(cfg, s)
    ensures Invariant(cfg, Approve(cfg, s, owner, host, revoke))
  {
    var target := ApprovalTarget(cfg, owner, host);
    if target.Some? {
      ApprovingSleepers(s.agent, target.value, host, !revoke);
      NoNewSleepersStayArmed(cfg, s.agent, Approve(cfg, s, owner, host, revoke).agent, s.armed);
    }
  }

  lemma ValidateDoneKeepsInvariant(cfg: Config, s: Sys, heads: Name -> Head)
    requires Invariant(cfg, s) && s.validating
    ensures Invariant(cfg, FinishValidation(cfg, s, heads))
  {
    DrainKeepsInvariant(cfg, s.(validating := false, pending := []), s.pending, heads);
  }

  lemma {:induction false} FinishRunKeepsInvariant(cfg: Config, s: Sys, watch: Name, record: RunRecord, heads: Name -> Head)
    requires Invariant(cfg, s) && s.running.Some? && s.running.value.watch == watch
    ensures Invariant(cfg, FinishRun(cfg, s, watch, record, heads))
  {
    ConcludeKeepsInvariant(cfg, s, watch, record);
    DrainKeepsInvariant(cfg, Conclude(cfg, s, watch, record).(pending := []), s.pending, heads);
  }

  /** Every step keeps the invariant, and every start establishes it. */
  lemma {:induction false} InvariantKept(cfg: Config, s: Sys, e: Step)
    requires Invariant(cfg, s) && Legal(cfg, s, e)
    ensures Invariant(ConfigAfter(cfg, e), Next(cfg, s, e))
  {
    match e {
      case Poll(w, trigger, head) => PollKeepsInvariant(cfg, s, w, trigger, head);
      case PauseCmd(scope, on) => PauseKeepsInvariant(cfg, s, scope, on);
      case ApproveCmd(owner, host, revoke) => ApproveKeepsInvariant(cfg, s, owner, host, revoke);
      case Validate =>
      case ValidateDone(heads) => ValidateDoneKeepsInvariant(cfg, s, heads);
      case RunDone(env, heads) =>
        FinishRunKeepsInvariant(cfg, s, s.running.value.watch, RunRecordOf(cfg, s, env), heads);
      case RecheckDue(w, verdicts, head) => RecheckKeepsInvariant(cfg, s, w, verdicts, head);
      case SelfCheck(_) =>
      case Restart(loaded, probes) => StartupEstablishesInvariant(loaded, s.agent, probes);
    }
  }

  lemma StartupEstablishesInvariant(cfg: Config, saved: Agent, probes: seq<Probe>)
    ensures Invariant(cfg, Startup(cfg, saved, probes))
  {
  }

  // ---- self-restart ----

  /** The process is down only with nothing left to do, and a wanted restart waits only for
      work that is still in flight. */
  predicate Handover(s: Sys) {
    (!s.up ==> Idle(s)) && (s.up && s.restartWanted ==> Busy(s))
  }

  lemma AfterCommandHandsOver(cfg: Config, s: Sys)
    requires QueueSound(cfg, s) && s.up
    ensures Handover(AfterCommand(s))
  {
  }

  lemma RecheckKeepsHandover(cfg: Config, s: Sys, watch: Name, verdicts: Name -> Option<Unreachable>, head: Head)
    requires Handover(s) && s.up
    ensures Handover(Recheck(cfg, s, watch, verdicts, head))
  {
    RequestPollPolls(cfg, AfterProbes(s, watch, verdicts), watch, "catch-up", head);
  }

  /** Both self-restart exits happen only at rest, and the moment the work is done. */
  lemma HandoverKept(cfg: Config, s: Sys, e: Step)
    requires Invariant(cfg, s) && Handover(s) && Legal(cfg, s, e)
    ensures Handover(Next(cfg, s, e))
  {
    match e {
      case Poll(w, trigger, head) => RequestPollPolls(cfg, s, w, trigger, head);
      case PauseCmd(scope, on) => AfterCommandHandsOver(cfg, SetPaused(cfg, s, scope, on));
      case ApproveCmd(owner, host, revoke) => AfterCommandHandsOver(cfg, Approve(cfg, s, owner, host, revoke));
      case Validate =>
      case ValidateDone(heads) =>
        ValidateDoneKeepsInvariant(cfg, s, heads);
        DrainPolls(cfg, s.(validating := false, pending := []), s.pending, heads);
        AfterCommandHandsOver(cfg, FinishValidation(cfg, s, heads));
      case RunDone(env, heads) =>
        var watch, record := s.running.value.watch, RunRecordOf(cfg, s, env);
        FinishRunKeepsInvariant(cfg, s, watch, record, heads);
        DrainPolls(cfg, Conclude(cfg, s, watch, record).(pending := []), s.pending, heads);
        AfterCommandHandsOver(cfg, FinishRun(cfg, s, watch, record, heads));
      case RecheckDue(w, verdicts, head) => RecheckKeepsHandover(cfg, s, w, verdicts, head);
      case SelfCheck(_) =>
      case Restart(_, _) =>
    }
  }

  // ---- runs begin as planned ----

  /** A run begins in this step. */
  predicate Begins(s: Sys, e: Step, s': Sys) {
    s'.running.Some? && (s.running.None? || e.RunDone?)
  }

  lemma DrainFits(cfg: Config, s: Sys, q: seq<Queued>, heads: Name -> Head)
    requires s.running.None?
    ensures var s' := AfterCommand(Drain(cfg, s, q, heads).sys);
            s'.running.Some? ==> PlanFits(cfg, s'.agent, s'.running.value)
  {
    DrainPolls(cfg, s, q, heads);
  }

  lemma PollFits(cfg: Config, s: Sys, watch: Name, trigger: string, head: Head)
    requires s.running.None?
    ensures var s' := RequestPoll(cfg, s, watch, trigger, head);
            s'.running.Some? ==> PlanFits(cfg, s'.agent, s'.running.value)
  {
    RequestPollPolls(cfg, s, watch, trigger, head);
  }

  lemma FitMeansNeedy(cfg: Config, a: Agent, r: Running, h: Name)
    requires PlanFits(cfg, a, r)
    ensures (exists ph :: ph in r.plan.hosts && ph.name == h) <==>
            h in WatchCfg(cfg, r.watch).value.hosts && Needs(HostOf(a, r.watch, h), r.plan.rev)
  {
    if h in WatchCfg(cfg, r.watch).value.hosts && Needs(HostOf(a, r.watch, h), r.plan.rev) {
      assert PlanEntry(h, HostOf(a, r.watch, h)) in r.plan.hosts;
    }
  }

  /** Whatever step a run begins in, it is a fitting one. */
  lemma {:induction false} BegunRunsFit(cfg: Config, s: Sys, e: Step)
    requires Legal(cfg, s, e) && Begins(s, e, Next(cfg, s, e))
    ensures PlanFits(cfg, Next(cfg, s, e).agent, Next(cfg, s, e).running.value)
  {
    match e {
      case Poll(w, trigger, head) => PollFits(cfg, s, w, trigger, head);
      case ValidateDone(heads) => DrainFits(cfg, s.(validating := false, pending := []), s.pending, heads);
      case RunDone(env, heads) =>
        DrainFits(cfg, Conclude(cfg, s, s.running.value.watch, RunRecordOf(cfg, s, env)).(pending := []), s.pending, heads);
      case RecheckDue(w, verdicts, head) => PollFits(cfg, AfterProbes(s, w, verdicts), w, "catch-up", head);
      case _ =>
    }
  }

  /** A poll of an idle, unpaused watch plans every host that needs the head's revision,
      whatever triggered it, and no other. */
  lemma PollPlansTheNeedy(cfg: Config, s: Sys, watch: Name, trigger: string, rev: Rev, h: Name)
    requires !Busy(s) && !WatchPaused(s.agent, watch) && Configured(cfg, watch)
    ensures var s' := RequestPoll(cfg, s, watch, trigger, Found(rev));
            (s'.running.Some? && exists ph :: ph in s'.running.value.plan.hosts && ph.name == h) <==>
            h in WatchCfg(cfg, watch).value.hosts && Needs(HostOf(s.agent, watch, h), rev)
  {
    var w, seen := WatchCfg(cfg, watch).value, See(s.agent, watch, rev);
    var plan := PlanHosts(w, WatchOf(seen, watch), rev);
    PlanListsTheNeedy(w, WatchOf(seen, watch), rev);
    assert HostIn(WatchOf(seen, watch), h) == HostOf(s.agent, watch, h);
    if h in w.hosts && Needs(HostOf(s.agent, watch, h), rev) {
      assert PlanEntry(h, HostIn(WatchOf(seen, watch), h)) in plan;
    }
  }

  /** A kick is a poll like any other: it does not end a park. */
  lemma KickEndsNoPark(cfg: Config, s: Sys, watch: Name, rev: Rev, h: Name)
    requires FailedAt(HostOf(s.agent, watch, h).failed, rev) && !HostOf(s.agent, watch, h).approved
    requires !Busy(s)
    ensures var s' := RequestPoll(cfg, s, watch, "kick", Found(rev));
            s'.running.Some? ==> forall ph | ph in s'.running.value.plan.hosts :: ph.name != h
  {
    if Configured(cfg, watch) && !WatchPaused(s.agent, watch) {
      PollPlansTheNeedy(cfg, s, watch, "kick", rev, h);
    }
  }

  // ---- which queued request the drain serves ----

  /** The run in flight was planned for this watch with this host in it. */
  predicate Plans(s: Sys, watch: Name, h: Name) {
    s.running.Some? && s.running.value.watch == watch
    && exists ph :: ph in s.running.value.plan.hosts && ph.name == h
  }

  /** A poll of this watch now would plan this host. */
  predicate WouldPlan(cfg: Config, a: Agent, watch: Name, head: Head, h: Name) {
    && !WatchPaused(a, watch) && Configured(cfg, watch) && head.Found?
    && h in WatchCfg(cfg, watch).value.hosts && Needs(HostOf(a, watch, h), head.rev)
  }

  lemma PollPlansExactly(cfg: Config, s: Sys, watch: Name, trigger: string, head: Head, h: Name)
    requires !Busy(s)
    ensures Plans(RequestPoll(cfg, s, watch, trigger, head), watch, h) <==> WouldPlan(cfg, s.agent, watch, head, h)
  {
    if !WatchPaused(s.agent, watch) && Configured(cfg, watch) && head.Found? {
      PollPlansTheNeedy(cfg, s, watch, trigger, head.rev, h);
      PollStarts(cfg, s, watch, trigger, head);
    }
  }

  lemma {:induction false} DrainRunsAQueued(cfg: Config, s: Sys, q: seq<Queued>, heads: Name -> Head)
    requires !Busy(s)
    ensures var s' := Drain(cfg, s, q, heads).sys;
            s'.running.Some? ==> IsQueued(q, s'.running.value.watch)
    decreases |q|
  {
    if q != [] {
      var s' := RequestPoll(cfg, s, q[0].watch, q[0].trigger, heads(q[0].watch));
      PollStarts(cfg, s, q[0].watch, q[0].trigger, heads(q[0].watch));
      RequestPollPolls(cfg, s, q[0].watch, q[0].trigger, heads(q[0].watch));
      if s'.running.None? {
        DrainRunsAQueued(cfg, s', q[1..], heads);
        assert forall i | 0 <= i < |q| - 1 :: q[1..][i] == q[i + 1];
      }
    }
  }

  /** None of the first n requests would start a run. */
  predicate NoneStarts(cfg: Config, a: Agent, q: seq<Queued>, heads: Name -> Head, n: nat)
    requires n <= |q|
  {
    forall j | 0 <= j < n :: !Starts(cfg, a, q[j].watch, heads(q[j].watch))
  }

  /** What requests behind the first would do does not depend on the poll of the first. */
  lemma BehindFirst(cfg: Config, a: Agent, b: Agent, q: seq<Queued>, heads: Name -> Head, n: nat)
    requires 0 < n <= |q| && a.paused == b.paused && !Starts(cfg, a, q[0].watch, heads(q[0].watch))
    requires forall j | 0 < j < |q| :: WatchOf(a, q[j].watch) == WatchOf(b, q[j].watch)
    ensures NoneStarts(cfg, b, q[1..], heads, n - 1) <==> NoneStarts(cfg, a, q, heads, n)
  {
    forall j | 0 < j < n
      ensures Starts(cfg, b, q[1..][j - 1].watch, heads(q[1..][j - 1].watch)) <==>
              Starts(cfg, a, q[j].watch, heads(q[j].watch))
    {
      StartsLocal(cfg, a, b, q[j].watch, heads(q[j].watch));
    }
    if NoneStarts(cfg, b, q[1..], heads, n - 1) {
      forall j | 0 <= j < n ensures !Starts(cfg, a, q[j].watch, heads(q[j].watch)) {
        if j > 0 {
          assert !Starts(cfg, b, q[1..][j - 1].watch, heads(q[1..][j - 1].watch));
        }
      }
    }
  }

  lemma WouldPlanLocal(cfg: Config, a: Agent, b: Agent, watch: Name, head: Head, h: Name)
    requires a.paused == b.paused && WatchOf(a, watch) == WatchOf(b, watch)
    ensures WouldPlan(cfg, a, watch, head, h) <==> WouldPlan(cfg, b, watch, head, h)
  {
  }

  lemma DrainPlansFirst(cfg: Config, s: Sys, q: seq<Queued>, heads: Name -> Head, h: Name)
    requires !Busy(s) && DistinctWatches(q) && q != []
    ensures Plans(Drain(cfg, s, q, heads).sys, q[0].watch, h) <==>
            WouldPlan(cfg, s.agent, q[0].watch, heads(q[0].watch), h)
  {
    var head := heads(q[0].watch);
    var s' := RequestPoll(cfg, s, q[0].watch, q[0].trigger, head);
    PollStarts(cfg, s, q[0].watch, q[0].trigger, head);
    PollPlansExactly(cfg, s, q[0].watch, q[0].trigger, head, h);
    if s'.running.None? {
      RequestPollPolls(cfg, s, q[0].watch, q[0].trigger, head);
      DrainRunsAQueued(cfg, s', q[1..], heads);
      assert forall k | 0 <= k < |q| - 1 :: q[1..][k] == q[k + 1];
    }
  }

  /** When the first request starts a run, that run is all the drain starts. */
  lemma FirstStartsAll(cfg: Config, s: Sys, q: seq<Queued>, heads: Name -> Head)
    requires !Busy(s) && q != [] && Starts(cfg, s.agent, q[0].watch, heads(q[0].watch))
    ensures var s' := Drain(cfg, s, q, heads).sys;
            s'.running.Some? && s'.running.value.watch == q[0].watch
  {
    PollStarts(cfg, s, q[0].watch, q[0].trigger, heads(q[0].watch));
  }

  /** A queued request ends in a run with the host exactly when no request before it starts
      one, and a poll of its watch plans the host. */
  lemma {:induction false} DrainPlansExactly(cfg: Config, s: Sys, q: seq<Queued>, heads: Name -> Head, i: nat, h: Name)
    requires !Busy(s) && DistinctWatches(q) && i < |q|
    ensures Plans(Drain(cfg, s, q, heads).sys, q[i].watch, h) <==>
            NoneStarts(cfg, s.agent, q, heads, i) && WouldPlan(cfg, s.agent, q[i].watch, heads(q[i].watch), h)
    decreases |q|
  {
    if i == 0 {
      DrainPlansFirst(cfg, s, q, heads, h);
    } else if Starts(cfg, s.agent, q[0].watch, heads(q[0].watch)) {
      FirstStartsAll(cfg, s, q, heads);
    } else {
      FirstStartsNothing(cfg, s, q, heads);
      var s' := RequestPoll(cfg, s, q[0].watch, q[0].trigger, heads(q[0].watch));
      DrainPlansExactly(cfg, s', q[1..], heads, i - 1, h);
      PlansBehindFirst(cfg, s.agent, s'.agent, q, heads, i, h, Drain(cfg, s', q[1..], heads).sys);
    }
  }

  /** When the first request starts nothing, the others do what they would have done. */
  lemma PlansBehindFirst(cfg: Config, a: Agent, b: Agent, q: seq<Queued>, heads: Name -> Head, i: nat, h: Name, end: Sys)
    requires 0 < i < |q| && a.paused == b.paused && !Starts(cfg, a, q[0].watch, heads(q[0].watch))
    requires forall j | 0 < j < |q| :: WatchOf(b, q[j].watch) == WatchOf(a, q[j].watch)
    requires Plans(end, q[1..][i - 1].watch, h) <==>
             && NoneStarts(cfg, b, q[1..], heads, i - 1)
             && WouldPlan(cfg, b, q[1..][i - 1].watch, heads(q[1..][i - 1].watch), h)
    ensures Plans(end, q[i].watch, h) <==>
            NoneStarts(cfg, a, q, heads, i) && WouldPlan(cfg, a, q[i].watch, heads(q[i].watch), h)
  {
    BehindFirst(cfg, a, b, q, heads, i);
    WouldPlanLocal(cfg, a, b, q[i].watch, heads(q[i].watch), h);
  }

  lemma FirstStartsNothing(cfg: Config, s: Sys, q: seq<Queued>, heads: Name -> Head)
    requires !Busy(s) && DistinctWatches(q) && q != [] && !Starts(cfg, s.agent, q[0].watch, heads(q[0].watch))
    ensures var s' := RequestPoll(cfg, s, q[0].watch, q[0].trigger, heads(q[0].watch));
            && !Busy(s') && DistinctWatches(q[1..]) && s'.agent.paused == s.agent.paused
            && Drain(cfg, s, q, heads).sys == Drain(cfg, s', q[1..], heads).sys
            && forall j | 0 < j < |q| :: WatchOf(s'.agent, q[j].watch) == WatchOf(s.agent, q[j].watch)
  {
    PollStarts(cfg, s, q[0].watch, q[0].trigger, heads(q[0].watch));
    RequestPollPolls(cfg, s, q[0].watch, q[0].trigger, heads(q[0].watch));
    assert forall k | 0 <= k < |q| - 1 :: q[1..][k] == q[k + 1];
  }

  // ---- what an answered recheck leads to ----

  /** The step's whole effect on a watch of which some host answered: the answering hosts are
      pending no more, the timer is on again exactly if some host is still down, the catch-up
      is queued exactly if the daemon is busy, and a host is planned exactly if the daemon is
      idle and a poll plans it in its cleared state. */
  lemma AnswerLeadsTo(cfg: Config, s: Sys, watch: Name, verdicts: Name -> Option<Unreachable>, head: Head, h: Name)
    requires QueueSound(cfg, s) && SomeBack(s.agent, watch, verdicts) && Configured(cfg, watch)
    ensures var s' := Recheck(cfg, s, watch, verdicts, head);
            var probed := AfterProbes(s, watch, verdicts).agent;
            && (forall x :: HostOf(s'.agent, watch, x) == HostOf(probed, watch, x))
            && (watch in s'.armed <==> SomeStillDown(s.agent, watch, verdicts))
            && (IsQueued(s'.pending, watch) <==> Busy(s))
            && (!Busy(s) ==> (Plans(s', watch, h) <==> WouldPlan(cfg, probed, watch, head, h)))
            && (Busy(s) ==> s'.running == s.running)
  {
    var probed := AfterProbes(s, watch, verdicts);
    RequestPollPolls(cfg, probed, watch, "catch-up", head);
    if Busy(s) {
      QueuedNow(probed, watch, "catch-up");
    } else {
      PollStarts(cfg, probed, watch, "catch-up", head);
      PollPlansExactly(cfg, probed, watch, "catch-up", head, h);
    }
  }

  lemma QueuedNow(s: Sys, watch: Name, trigger: string)
    ensures IsQueued(Enqueue(s, watch, trigger).pending, watch)
  {
    if !IsQueued(s.pending, watch) {
      assert (s.pending + [Queued(watch, trigger)])[|s.pending|].watch == watch;
    }
  }
}
