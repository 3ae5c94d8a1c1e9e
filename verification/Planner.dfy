/** Which hosts a revision is planned for: the daemon's loop
    (crates/deptui-agent/src/daemon.rs) and the filter of the oneshot `check`
    (crates/deptui-agent/src/main.rs). */
module Planner {
  import opened Ordered
  import opened AgentState
  import opened Flake
  import opened Runner

  predicate StampAt(s: Option<Stamp>, rev: Rev) { s.Some? && s.value.rev == rev }

  predicate FailedAt(s: Option<FailStamp>, rev: Rev) { s.Some? && s.value.rev == rev }

  /** The host needs `rev`: it does not run it already, and it is neither parked nor held
      there unless a human approved one more round. */
  predicate Needs(hs: HostState, rev: Rev) {
    && !hs.paused
    && !StampAt(hs.deployed, rev)
    && (hs.approved || (!FailedAt(hs.failed, rev) && !StampAt(hs.held, rev)))
  }

  function PlanEntry(name: Name, hs: HostState): PlanHost {
    PlanHost(name, !hs.approved && hs.deployed.None?, if hs.approved then map[] else hs.deployedToplevels)
  }

  function PlanFor(names: seq<Name>, ws: WatchState, rev: Rev): seq<PlanHost> {
    if names == [] then []
    else
      var rest := PlanFor(names[1..], ws, rev);
      var hs := HostIn(ws, names[0]);
      if Needs(hs, rev) then [PlanEntry(names[0], hs)] + rest else rest
  }

  /** The plan of a watch at a revision: its hosts in key order, those that need it. */
  function PlanHosts(w: WatchConfig, ws: WatchState, rev: Rev): seq<PlanHost> {
    PlanFor(Keys(w.hosts.Keys), ws, rev)
  }

  /** The host is passed over: it is paused, runs the revision, or is parked or held at that
      very revision without approval. A park or hold at another revision is none of these. */
  ghost predicate PassedOver(hs: HostState, rev: Rev) {
    || hs.paused
    || (exists time :: hs.deployed == Some(Stamp(rev, time)))
    || (!hs.approved && ((exists time, message :: hs.failed == Some(FailStamp(rev, time, message)))
                         || exists time :: hs.held == Some(Stamp(rev, time))))
  }

  lemma NeedsUnlessPassedOver(hs: HostState, rev: Rev)
    ensures Needs(hs, rev) <==> !PassedOver(hs, rev)
  {
    assert StampAt(hs.deployed, rev) ==> hs.deployed == Some(Stamp(rev, hs.deployed.value.time));
    assert StampAt(hs.held, rev) ==> hs.held == Some(Stamp(rev, hs.held.value.time));
    assert FailedAt(hs.failed, rev) ==>
        hs.failed == Some(FailStamp(rev, hs.failed.value.time, hs.failed.value.message));
  }

  /** One pass of the host loop of `request_poll`; each early return is a `continue`. */
  method Consider(name: Name, ws: WatchState, rev: Rev) returns (r: Option<PlanHost>)
    ensures r == if Needs(HostIn(ws, name), rev) then Some(PlanEntry(name, HostIn(ws, name))) else None
    ensures r.None? <==> PassedOver(HostIn(ws, name), rev)
  {
    var hs := HostIn(ws, name);
    NeedsUnlessPassedOver(hs, rev);
    if hs.paused { return None; }
    if hs.deployed.Some? && hs.deployed.value.rev == rev { return None; }
    if !hs.approved && hs.failed.Some? && hs.failed.value.rev == rev { return None; }
    if !hs.approved && hs.held.Some? && hs.held.value.rev == rev { return None; }
    return Some(PlanHost(name, !hs.approved && hs.deployed.None?,
                         if hs.approved then map[] else hs.deployedToplevels));
  }

  method DaemonPlan(w: WatchConfig, ws: WatchState, rev: Rev) returns (hosts: seq<PlanHost>)
    ensures hosts == PlanHosts(w, ws, rev)
  {
    hosts := [];
    var names := Keys(w.hosts.Keys);
    for i := 0 to |names|
      invariant PlanHosts(w, ws, rev) == hosts + PlanFor(names[i..], ws, rev)
    {
      assert names[i..][1..] == names[i + 1..];
      var r := Consider(names[i], ws, rev);
      if r.Some? {
        hosts := hosts + [r.value];
      }
    }
  }

  /** The `filter_map` of `check_once`. */
  function CheckPlan(names: seq<Name>, ws: WatchState, rev: Rev): seq<PlanHost> {
    if names == [] then []
    else
      var hs := HostIn(ws, names[0]);
      var skip := hs.paused
                  || (hs.deployed.Some? && hs.deployed.value.rev == rev)
                  || (!hs.approved && hs.held.Some? && hs.held.value.rev == rev)
                  || (!hs.approved && hs.failed.Some? && hs.failed.value.rev == rev);
      var rest := CheckPlan(names[1..], ws, rev);
      if skip then rest
      else [PlanHost(names[0], !hs.approved && hs.deployed.None?,
                     if hs.approved then map[] else hs.deployedToplevels)] + rest
  }

  /** The two planners agree on every state and revision. */
  lemma {:induction false} PlannersAgree(names: seq<Name>, ws: WatchState, rev: Rev)
    ensures CheckPlan(names, ws, rev) == PlanFor(names, ws, rev)
  {
    if names != [] {
      PlannersAgree(names[1..], ws, rev);
    }
  }

  /** A host is planned exactly when it is configured and not passed over, once and in key
      order; it may only be adopted while it was never deployed and is not approved, and it
      is guarded by the recorded paths unless it is approved. */
  lemma PlanExact(w: WatchConfig, ws: WatchState, rev: Rev)
    ensures var plan := PlanHosts(w, ws, rev);
            && (forall i, j | 0 <= i < j < |plan| :: Less(plan[i].name, plan[j].name))
            && (forall h :: (exists ph :: ph in plan && ph.name == h) <==> h in w.hosts && !PassedOver(HostIn(ws, h), rev))
            && (forall ph | ph in plan ::
                  var hs := HostIn(ws, ph.name);
                  && (ph.adopt <==> hs.deployed.None? && !hs.approved)
                  && ph.recorded == (if hs.approved then map[] else hs.deployedToplevels))
  {
    PlanListsTheNeedy(w, ws, rev);
    var plan := PlanHosts(w, ws, rev);
    forall h ensures (exists ph :: ph in plan && ph.name == h) <==> h in w.hosts && !PassedOver(HostIn(ws, h), rev) {
      NeedsUnlessPassedOver(HostIn(ws, h), rev);
      if h in w.hosts && !PassedOver(HostIn(ws, h), rev) {
        assert PlanEntry(h, HostIn(ws, h)) in plan;
      }
    }
  }

  lemma PlanListsTheNeedy(w: WatchConfig, ws: WatchState, rev: Rev)
    ensures var plan := PlanHosts(w, ws, rev);
            && (forall i, j | 0 <= i < j < |plan| :: Less(plan[i].name, plan[j].name))
            && (forall ph | ph in plan :: ph.name in w.hosts && Needs(HostIn(ws, ph.name), rev)
                                          && ph == PlanEntry(ph.name, HostIn(ws, ph.name)))
            && (forall h | h in w.hosts && Needs(HostIn(ws, h), rev) :: PlanEntry(h, HostIn(ws, h)) in plan)
  {
    KeysAscend(w.hosts.Keys);
    PlanForExact(Keys(w.hosts.Keys), ws, rev);
  }

  lemma {:induction false} PlanForExact(names: seq<Name>, ws: WatchState, rev: Rev)
    requires Ascending(names)
    ensures var plan := PlanFor(names, ws, rev);
            && (forall i, j | 0 <= i < j < |plan| :: Less(plan[i].name, plan[j].name))
            && (forall ph | ph in plan :: ph.name in names && Needs(HostIn(ws, ph.name), rev)
                                          && ph == PlanEntry(ph.name, HostIn(ws, ph.name)))
            && (forall h | h in names && Needs(HostIn(ws, h), rev) :: PlanEntry(h, HostIn(ws, h)) in plan)
  {
    if names != [] {
      var rest := PlanFor(names[1..], ws, rev);
      var plan := PlanFor(names, ws, rev);
      PlanForExact(names[1..], ws, rev);
      assert names == [names[0]] + names[1..];
      if Needs(HostIn(ws, names[0]), rev) {
        forall j | 0 < j < |plan| ensures Less(plan[0].name, plan[j].name) {
          assert plan[j] == rest[j - 1] && rest[j - 1] in rest;
          var k :| 0 <= k < |names| - 1 && names[1..][k] == plan[j].name;
          assert names[k + 1] == plan[j].name;
        }
      }
    }
  }
}
