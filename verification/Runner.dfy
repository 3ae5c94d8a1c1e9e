/** One deploy run: every planned host in turn (crates/deptui-agent/src/runner.rs).
    Whatever ssh, git, nix and the deploy child answer is an arbitrary input. */
module Runner {
  import opened Ordered
  import opened AgentState
  import opened Flake

  datatype HostConfig = HostConfig(
    profile: ProfileSel, bootstrap: bool, catchUp: bool, driftGuard: bool)

  datatype WatchConfig = WatchConfig(name: Name, hosts: map<Name, HostConfig>)

  datatype PlanHost = PlanHost(name: Name, adopt: bool, recorded: map<Name, string>)

  datatype RunPlan = RunPlan(runId: nat, rev: Rev, trigger: string, hosts: seq<PlanHost>)

  datatype Unreachable = Unreachable(kind: OfflineKind, text: string)

  /** Answer of the first-encounter probe for one profile. */
  datatype Check = UpToDate(remotePath: string) | Stale | Undeployed | CheckError(why: string)

  /** Answer of reading one remote profile path. */
  datatype PathRead = Path(path: string) | Absent | ReadError(why: string)

  /** What the deploy child's channel and the cancel flag deliver, in arrival order. */
  datatype ChildEvent =
    | Line(text: string) | SudoPrompt | Exit(code: int) | SpawnError(why: string) | CancelSignal

  /** Everything the outside world answers while one host is being deployed. */
  datatype Answers = Answers(
    target: string,
    reach: Option<Unreachable>,
    check: Name -> Check,
    current: Name -> PathRead,
    runningRev: Option<Rev>,
    ancestors: set<Rev>,
    cancelledAtStart: bool,
    events: seq<ChildEvent>,
    readBack: Name -> PathRead)

  /** How one host ended: `DeployOutcome`, or the error of `deploy_host`. */
  datatype End =
    | Deployed(toplevels: map<Name, string>)
    | Unreached(target: string, text: string, kind: OfflineKind)
    | Stopped
    | AlreadyThere(toplevels: map<Name, string>)
    | Withheld(message: Message)
    | Broken(message: Message)

  // ---- first-encounter probe ----

  function Probe(todo: seq<Name>, total: nat, check: Name -> Check, found: map<Name, string>): End {
    if todo == [] then AlreadyThere(if |found| == total then found else map[])
    else
      match check(todo[0])
      case UpToDate(p) => Probe(todo[1..], total, check, if p != "" then found[todo[0] := p] else found)
      case Undeployed => Withheld(NeverDeployed(todo[0]))
      case Stale => Withheld(DiffersFromRevision(todo[0]))
      case CheckError(why) => Withheld(ProbeFailed(why))
  }

  /** A baseline is all or nothing: no profile, or exactly these. */
  predicate WholeBaseline(toplevels: map<Name, string>, profiles: seq<Name>) {
    toplevels == map[] || toplevels.Keys == set p | p in profiles
  }

  /** The remote paths the probe saw, for all profiles or, if one was not told, for none. */
  predicate RecordsProbe(toplevels: map<Name, string>, profiles: seq<Name>, check: Name -> Check) {
    if forall p | p in profiles :: check(p) != UpToDate("") then
      toplevels.Keys == (set p | p in profiles) && forall p | p in profiles :: check(p) == UpToDate(toplevels[p])
    else toplevels == map[]
  }

  /** The probe adopts exactly when every managed profile is up to date, and then records
      the paths it saw. */
  lemma {:induction false} ProbeExact(profiles: seq<Name>, check: Name -> Check)
    requires Distinct(profiles)
    ensures var r := Probe(profiles, |profiles|, check, map[]);
            && (r.AlreadyThere? || r.Withheld?)
            && (r.AlreadyThere? <==> forall p | p in profiles :: check(p).UpToDate?)
            && (r.AlreadyThere? ==> RecordsProbe(r.toplevels, profiles, check))
  {
    ProbeFrom([], profiles, check, map[]);
    assert [] + profiles == profiles;
  }

  lemma {:induction false} ProbeFrom(done: seq<Name>, todo: seq<Name>, check: Name -> Check, found: map<Name, string>)
    requires Distinct(done + todo)
    requires forall p :: p in found <==> p in done && check(p) != UpToDate("")
    requires forall p | p in found :: check(p) == UpToDate(found[p])
    ensures var all := done + todo;
            var r := Probe(todo, |all|, check, found);
            && (r.AlreadyThere? || r.Withheld?)
            && (r.AlreadyThere? <==> forall p | p in todo :: check(p).UpToDate?)
            && (r.AlreadyThere? ==> RecordsProbe(r.toplevels, all, check))
    decreases |todo|
  {
    var all := done + todo;
    if todo == [] {
      assert all == done;
      CompleteBySize(all, found);
    } else {
      assert todo[0] in todo;
      if check(todo[0]).UpToDate? {
        var p := check(todo[0]).remotePath;
        assert done + [todo[0]] + todo[1..] == all;
        ProbeFrom(done + [todo[0]], todo[1..], check, if p != "" then found[todo[0] := p] else found);
        assert forall q :: q in todo <==> q == todo[0] || q in todo[1..];
      }
    }
  }

  /** The count tells whether a map over some of the profiles covers all of them. */
  lemma CompleteBySize(all: seq<Name>, found: map<Name, string>)
    requires Distinct(all) && forall p | p in found :: p in all
    ensures |found| == |all| <==> found.Keys == set p | p in all
  {
    if |found| == |all| {
      SubsetFull(all, found.Keys);
    } else if found.Keys == set p | p in all {
      DistinctSize(all, found.Keys);
    }
  }

  /** A key set as large as a duplicate-free list it is drawn from is the whole list. */
  lemma SubsetFull(s: seq<Name>, keys: set<Name>)
    requires Distinct(s) && |keys| == |s| && forall k | k in keys :: k in s
    ensures forall x | x in s :: x in keys
  {
    var all := set x | x in s;
    DistinctSize(s, all);
    assert keys <= all;
    SubsetSize(keys, all);
  }

  lemma {:induction false} SubsetSize(a: set<Name>, b: set<Name>)
    requires a <= b
    ensures |a| <= |b| && (|a| == |b| ==> a == b)
  {
    if a != {} {
      var x :| x in a;
      SubsetSize(a - {x}, b - {x});
    }
  }

  // ---- drift guard ----

  function Guard(todo: seq<Name>, recorded: map<Name, string>, a: Answers): Option<Message>
    requires forall p | p in todo :: p in recorded
  {
    if todo == [] then None
    else
      match a.current(todo[0])
      case Absent => Some(NoLongerDeployed(todo[0], recorded[todo[0]]))
      case ReadError(why) => Some(ProbeFailed(why))
      case Path(p) =>
        if p == recorded[todo[0]] then Guard(todo[1..], recorded, a)
        else if a.runningRev.Some? && a.runningRev.value in a.ancestors then None
        else Some(ChangedOnHost(todo[0], p, recorded[todo[0]]))
  }

  predicate StillThere(p: Name, recorded: map<Name, string>, a: Answers)
    requires p in recorded
  {
    a.current(p) == Path(recorded[p])
  }

  /** p is the alphabetically first profile that is not as recorded, and it was moved. */
  predicate FirstMoved(p: Name, names: set<Name>, recorded: map<Name, string>, a: Answers)
    requires names <= recorded.Keys && p in names
  {
    && a.current(p).Path? && !StillThere(p, recorded, a)
    && forall q | q in names && Less(q, p) :: StillThere(q, recorded, a)
  }

  /** The host was moved, to a revision the target descends from. */
  predicate MovedWithinHistory(names: set<Name>, recorded: map<Name, string>, a: Answers)
    requires names <= recorded.Keys
  {
    && a.runningRev.Some? && a.runningRev.value in a.ancestors
    && exists p | p in names :: FirstMoved(p, names, recorded, a)
  }

  predicate Undisturbed(recorded: map<Name, string>, a: Answers) {
    || (forall p | p in recorded :: StillThere(p, recorded, a))
    || MovedWithinHistory(recorded.Keys, recorded, a)
  }

  lemma GuardExact(recorded: map<Name, string>, a: Answers)
    ensures Guard(Keys(recorded.Keys), recorded, a).None? <==> Undisturbed(recorded, a)
  {
    KeysAscend(recorded.Keys);
    GuardFrom(Keys(recorded.Keys), recorded.Keys, recorded, a);
  }

  lemma {:induction false} GuardFrom(order: seq<Name>, names: set<Name>, recorded: map<Name, string>, a: Answers)
    requires Ascending(order) && names <= recorded.Keys && forall p :: p in order <==> p in names
    ensures Guard(order, recorded, a).None? <==>
            (forall p | p in names :: StillThere(p, recorded, a)) || MovedWithinHistory(names, recorded, a)
  {
    if order != [] {
      var first, rest, others := order[0], order[1..], names - {order[0]};
      AscendingDistinct(order);
      assert order == [first] + rest;
      assert forall p :: p in rest <==> p in others;
      GuardFrom(rest, others, recorded, a);
      forall q | q in others ensures Less(first, q) && !Less(q, first) {
        var k :| 0 <= k < |rest| && rest[k] == q;
        assert order[k + 1] == q;
        LessAsymmetric(first, q);
      }
      if StillThere(first, recorded, a) {
        assert forall p | p in others ::
            FirstMoved(p, others, recorded, a) <==> FirstMoved(p, names, recorded, a);
      } else {
        FirstIsNotLess(first);
        assert forall p | p in others :: !FirstMoved(p, names, recorded, a);
        assert a.current(first).Path? ==> FirstMoved(first, names, recorded, a);
      }
    }
  }

  lemma FirstIsNotLess(x: Name)
    ensures !Less(x, x)
  {
    if Less(x, x) {
      LessAsymmetric(x, x);
    }
  }

  // ---- the deploy child ----

  function LastExit(events: seq<ChildEvent>, before: Option<int>): Option<int> {
    if events == [] then before
    else LastExit(events[1..], if events[0].Exit? then Some(events[0].code) else before)
  }

  function LastSpawnError(events: seq<ChildEvent>, before: Option<string>): Option<string> {
    if events == [] then before
    else LastSpawnError(events[1..], if events[0].SpawnError? then Some(events[0].why) else before)
  }

  function ReadBack(todo: seq<Name>, read: Name -> PathRead, found: map<Name, string>): map<Name, string> {
    if todo == [] then found
    else
      match read(todo[0])
      case Path(p) => ReadBack(todo[1..], read, found[todo[0] := p])
      case _ => map[]
  }

  /** The paths read back after the push, for all profiles or, if one failed, for none. */
  predicate RecordsReadBack(toplevels: map<Name, string>, profiles: seq<Name>, read: Name -> PathRead) {
    if forall p | p in profiles :: read(p).Path? then
      toplevels.Keys == (set p | p in profiles) && forall p | p in profiles :: read(p) == Path(toplevels[p])
    else toplevels == map[]
  }

  lemma {:induction false} ReadBackExact(done: seq<Name>, todo: seq<Name>, read: Name -> PathRead, found: map<Name, string>)
    requires forall p :: p in found <==> p in done
    requires forall p | p in found :: read(p) == Path(found[p])
    ensures RecordsReadBack(ReadBack(todo, read, found), done + todo, read)
    decreases |todo|
  {
    if todo == [] {
      assert done + todo == done;
    } else if read(todo[0]).Path? {
      assert done + [todo[0]] + todo[1..] == done + todo;
      ReadBackExact(done + [todo[0]], todo[1..], read, found[todo[0] := read(todo[0]).path]);
    } else {
      assert todo[0] in done + todo;
    }
  }

  /** From `deploy::run` to the end of `deploy_host`. */
  function PushEnd(profiles: seq<Name>, a: Answers): End {
    if a.cancelledAtStart || CancelSignal in a.events then Stopped
    else
      match LastSpawnError(a.events, None)
      case Some(why) => Broken(SpawnFailed(why))
      case None =>
        match LastExit(a.events, None)
        case None => Broken(NoExitStatus)
        case Some(code) =>
          if code == 0 then Deployed(ReadBack(profiles, a.readBack, map[]))
          else Broken(ExitCode(code))
  }

  /** Event i is the last of its kind. */
  predicate LastExitAt(events: seq<ChildEvent>, i: int) {
    0 <= i < |events| && events[i].Exit? && forall j | i < j < |events| :: !events[j].Exit?
  }

  predicate LastSpawnErrorAt(events: seq<ChildEvent>, i: int) {
    0 <= i < |events| && events[i].SpawnError? && forall j | i < j < |events| :: !events[j].SpawnError?
  }

  /** The user cancelled, before the child started or while it ran. */
  predicate UserCancelled(a: Answers) { a.cancelledAtStart || CancelSignal in a.events }

  ghost predicate SpawnFailure(events: seq<ChildEvent>) { exists i :: 0 <= i < |events| && events[i].SpawnError? }

  /** The last exit status the child reported is this one. */
  ghost predicate ExitedWith(events: seq<ChildEvent>, code: int) {
    exists i :: LastExitAt(events, i) && events[i] == Exit(code)
  }

  ghost predicate EverExited(events: seq<ChildEvent>) { exists i :: 0 <= i < |events| && events[i].Exit? }

  lemma {:induction false} LastExitExact(events: seq<ChildEvent>, before: Option<int>)
    ensures var r := LastExit(events, before);
            && (!EverExited(events) ==> r == before)
            && (EverExited(events) ==> r.Some? && ExitedWith(events, r.value))
  {
    if events != [] {
      var rest := events[1..];
      LastExitExact(rest, if events[0].Exit? then Some(events[0].code) else before);
      assert forall i | 0 <= i < |rest| :: rest[i] == events[i + 1];
      if EverExited(rest) {
        var i :| LastExitAt(rest, i) && rest[i] == Exit(LastExit(events, before).value);
        assert LastExitAt(events, i + 1) && events[i + 1] == rest[i];
      } else if events[0].Exit? {
        assert LastExitAt(events, 0);
      } else {
        assert forall i | 0 < i < |events| :: events[i] == rest[i - 1];
      }
    }
  }

  lemma {:induction false} LastSpawnErrorExact(events: seq<ChildEvent>, before: Option<string>)
    ensures var r := LastSpawnError(events, before);
            && (!SpawnFailure(events) ==> r == before)
            && (SpawnFailure(events) ==> r.Some? && exists i :: LastSpawnErrorAt(events, i) && events[i] == SpawnError(r.value))
  {
    if events != [] {
      var rest := events[1..];
      LastSpawnErrorExact(rest, if events[0].SpawnError? then Some(events[0].why) else before);
      assert forall i | 0 <= i < |rest| :: rest[i] == events[i + 1];
      if SpawnFailure(rest) {
        var i :| LastSpawnErrorAt(rest, i) && rest[i] == SpawnError(LastSpawnError(events, before).value);
        assert LastSpawnErrorAt(events, i + 1) && events[i + 1] == rest[i];
      } else if events[0].SpawnError? {
        assert LastSpawnErrorAt(events, 0);
      } else {
        assert forall i | 0 < i < |events| :: events[i] == rest[i - 1];
      }
    }
  }

  lemma OneExitCode(events: seq<ChildEvent>, a: int, b: int)
    requires ExitedWith(events, a) && ExitedWith(events, b)
    ensures a == b
  {
  }

  lemma OneSpawnError(events: seq<ChildEvent>, i: int, j: int)
    requires LastSpawnErrorAt(events, i) && LastSpawnErrorAt(events, j)
    ensures i == j
  {
  }

  /** How a push ends, read off the events the child's channel delivered: a user cancel comes
      first; then the last spawn error; then the last exit status, which is a success
      exactly if it is 0. */
  ghost predicate VerdictOf(e: End, a: Answers) {
    && (e.Stopped? <==> UserCancelled(a))
    && (e.Deployed? <==> !UserCancelled(a) && !SpawnFailure(a.events) && ExitedWith(a.events, 0))
    && (forall why :: e == Broken(SpawnFailed(why)) <==>
          !UserCancelled(a) && exists i :: LastSpawnErrorAt(a.events, i) && a.events[i] == SpawnError(why))
    && (forall code :: e == Broken(ExitCode(code)) <==>
          !UserCancelled(a) && !SpawnFailure(a.events) && code != 0 && ExitedWith(a.events, code))
    && (e == Broken(NoExitStatus) <==> !UserCancelled(a) && !SpawnFailure(a.events) && !EverExited(a.events))
  }

  lemma VerdictExact(profiles: seq<Name>, a: Answers)
    ensures VerdictOf(PushEnd(profiles, a), a)
    ensures var e := PushEnd(profiles, a); e.Stopped? || e.Deployed? || e.Broken?
  {
    LastExitExact(a.events, None);
    LastSpawnErrorExact(a.events, None);
    forall b, c | ExitedWith(a.events, b) && ExitedWith(a.events, c) ensures b == c {
      OneExitCode(a.events, b, c);
    }
    forall i, j | LastSpawnErrorAt(a.events, i) && LastSpawnErrorAt(a.events, j) ensures i == j {
      OneSpawnError(a.events, i, j);
    }
  }

  /** The first node of that name. */
  function FindNode(nodes: seq<Node>, host: Name): (r: Option<Node>)
    ensures r.Some? <==> exists i :: 0 <= i < |nodes| && nodes[i].name == host
    ensures r.Some? ==> exists i ::
              0 <= i < |nodes| && nodes[i] == r.value && nodes[i].name == host
              && forall j | 0 <= j < i :: nodes[j].name != host
  {
    if nodes == [] then None
    else if nodes[0].name == host then Some(nodes[0])
    else FindNode(nodes[1..], host)
  }

  /** The drift guard, if it is on and has a baseline. */
  function DriftOf(hc: HostConfig, ph: PlanHost, a: Answers): Option<Message> {
    if hc.driftGuard && ph.recorded != map[] then Guard(Keys(ph.recorded.Keys), ph.recorded, a) else None
  }

  /** `deploy_host` once the configuration and the node are found. */
  function DeployKnownHost(hc: HostConfig, profiles: seq<Name>, ph: PlanHost, a: Answers): End {
    if hc.catchUp && a.reach.Some? then Unreached(a.target, a.reach.value.text, a.reach.value.kind)
    else if ph.adopt && !hc.bootstrap then Probe(profiles, |profiles|, a.check, map[])
    else
      match DriftOf(hc, ph, a)
      case Some(m) => Withheld(m)
      case None => PushEnd(profiles, a)
  }

  /** `deploy::run` is reached for a known host. */
  predicate Reaches(hc: HostConfig, ph: PlanHost, a: Answers) {
    (hc.catchUp ==> a.reach.None?) && (ph.adopt ==> hc.bootstrap) && DriftOf(hc, ph, a).None?
  }

  function DeployHostEnd(w: WatchConfig, nodes: seq<Node>, ph: PlanHost, a: Answers): End {
    if ph.name !in w.hosts then Broken(NotConfigured)
    else
      match FindNode(nodes, ph.name)
      case None => Broken(NodeMissing)
      case Some(node) => DeployKnownHost(w.hosts[ph.name], Managed(node, w.hosts[ph.name].profile), ph, a)
  }

  predicate PushesTo(w: WatchConfig, nodes: seq<Node>, ph: PlanHost, a: Answers) {
    ph.name in w.hosts && FindNode(nodes, ph.name).Some? && Reaches(w.hosts[ph.name], ph, a)
  }

  // ---- run log ----

  datatype LogLine =
    | Seam
    | RunStarted(id: nat, hosts: nat)
    | SetupBroke(why: string)
    | Note(host: Name, text: string)
    | Child(host: Name, text: string)
    | HostEnded(host: Name, outcome: Outcome)
    | RunFinished(id: nat)

  /** Broadcast lines and the capped copy stored in the record. */
  class RunLog {
    var sent: seq<LogLine>
    var kept: seq<LogLine>

    predicate Valid()
      reads this
    {
      kept == if |sent| <= MAX_RUN_LOG then sent else sent[..MAX_RUN_LOG]
    }

    constructor ()
      ensures Valid() && sent == []
    {
      sent, kept := [], [];
    }

    method Log(line: LogLine)
      requires Valid()
      modifies this
      ensures Valid() && sent == old(sent) + [line]
    {
      sent := sent + [line];
      if |kept| < MAX_RUN_LOG {
        kept := kept + [line];
      }
    }
  }

  // ---- deploy_host ----

  method ProbeProfiles(profiles: seq<Name>, a: Answers) returns (end: End)
    ensures end == Probe(profiles, |profiles|, a.check, map[])
  {
    var toplevels := map[];
    for i := 0 to |profiles|
      invariant Probe(profiles, |profiles|, a.check, map[]) == Probe(profiles[i..], |profiles|, a.check, toplevels)
    {
      assert profiles[i..][1..] == profiles[i + 1..];
      match a.check(profiles[i]) {
        case UpToDate(remotePath) =>
          if remotePath != "" {
            toplevels := toplevels[profiles[i] := remotePath];
          }
        case Undeployed => return Withheld(NeverDeployed(profiles[i]));
        case Stale => return Withheld(DiffersFromRevision(profiles[i]));
        case CheckError(why) => return Withheld(ProbeFailed(why));
      }
    }
    if |toplevels| != |profiles| {
      toplevels := map[];
    }
    return AlreadyThere(toplevels);
  }

  method GuardProfiles(host: Name, order: seq<Name>, recorded: map<Name, string>, a: Answers, log: RunLog)
    returns (drift: Option<Message>)
    requires log.Valid() && forall p | p in order :: p in recorded
    modifies log
    ensures log.Valid()
    ensures drift == Guard(order, recorded, a)
  {
    for i := 0 to |order|
      invariant log.Valid()
      invariant forall p | p in order[i..] :: p in recorded
      invariant Guard(order, recorded, a) == Guard(order[i..], recorded, a)
    {
      assert order[i..][1..] == order[i + 1..];
      assert order[i] in order[i..];
      var left := recorded[order[i]];
      match a.current(order[i]) {
        case Absent => return Some(NoLongerDeployed(order[i], left));
        case ReadError(why) => return Some(ProbeFailed(why));
        case Path(current) =>
          if current != left {
            if a.runningRev.Some? && a.runningRev.value in a.ancestors {
              log.Log(Note(host, "deployed out-of-band within the watched history"));
              return None;
            }
            return Some(ChangedOnHost(order[i], current, left));
          }
      }
    }
    return None;
  }

  method Push(host: Name, profiles: seq<Name>, a: Answers, log: RunLog) returns (end: End)
    requires log.Valid()
    modifies log
    ensures log.Valid()
    ensures end == PushEnd(profiles, a) && VerdictOf(end, a)
  {
    VerdictExact(profiles, a);
    var exit: Option<int> := None;
    var spawnError: Option<string> := None;
    var userCancelled := a.cancelledAtStart;
    for i := 0 to |a.events|
      invariant log.Valid()
      invariant userCancelled <==> a.cancelledAtStart || CancelSignal in a.events[..i]
      invariant LastExit(a.events, None) == LastExit(a.events[i..], exit)
      invariant LastSpawnError(a.events, None) == LastSpawnError(a.events[i..], spawnError)
    {
      assert a.events[i..][1..] == a.events[i + 1..];
      assert a.events[..i + 1] == a.events[..i] + [a.events[i]];
      match a.events[i] {
        case Line(text) => log.Log(Child(host, text));
        case SudoPrompt => log.Log(Note(host, "remote sudo asked for a password"));
        case Exit(code) => exit := Some(code);
        case SpawnError(why) => spawnError := Some(why);
        case CancelSignal => userCancelled := true;
      }
    }
    assert a.events[..|a.events|] == a.events;
    if userCancelled {
      return Stopped;
    }
    if spawnError.Some? {
      return Broken(SpawnFailed(spawnError.value));
    }
    if exit.None? {
      return Broken(NoExitStatus);
    }
    if exit.value != 0 {
      return Broken(ExitCode(exit.value));
    }
    var toplevels := map[];
    for i := 0 to |profiles|
      invariant ReadBack(profiles, a.readBack, map[]) == ReadBack(profiles[i..], a.readBack, toplevels)
    {
      assert profiles[i..][1..] == profiles[i + 1..];
      match a.readBack(profiles[i]) {
        case Path(p) => toplevels := toplevels[profiles[i] := p];
        case _ =>
          return Deployed(map[]);
      }
    }
    return Deployed(toplevels);
  }

  method DeployHost(w: WatchConfig, nodes: seq<Node>, ph: PlanHost, a: Answers, log: RunLog)
    returns (end: End, pushed: bool)
    requires log.Valid()
    modifies log
    ensures log.Valid()
    ensures end == DeployHostEnd(w, nodes, ph, a) && pushed == PushesTo(w, nodes, ph, a)
  {
    if ph.name !in w.hosts {
      return Broken(NotConfigured), false;
    }
    var hc := w.hosts[ph.name];
    var node := FindNode(nodes, ph.name);
    if node.None? {
      return Broken(NodeMissing), false;
    }
    if hc.catchUp && a.reach.Some? {
      return Unreached(a.target, a.reach.value.text, a.reach.value.kind), false;
    }
    var profiles := Managed(node.value, hc.profile);
    if ph.adopt && !hc.bootstrap {
      end := ProbeProfiles(profiles, a);
      return end, false;
    }
    if hc.driftGuard && ph.recorded != map[] {
      var drift := GuardProfiles(ph.name, Keys(ph.recorded.Keys), ph.recorded, a, log);
      if drift.Some? {
        return Withheld(drift.value), false;
      }
    }
    end := Push(ph.name, profiles, a, log);
    pushed := true;
  }

  // ---- execute ----

  datatype Setup = Ready(nodes: seq<Node>) | SetupBroken(why: string)

  /** `cancelAt`: the first host boundary at which the cancel flag reads true. The flag is
      only ever raised, so it reads true at every later boundary. */
  datatype RunEnv = RunEnv(setup: Setup, cancelAt: nat, answers: nat -> Answers, finished: nat)

  /** What became of one planned host. */
  datatype Fate =
    | SetupFate(why: string)
    | SkippedByCancel
    | Ran(nodes: seq<Node>, answers: Answers)

  function HostRunOf(host: Name, end: End): HostRun {
    match end
    case Deployed(t) => HostRun(host, Ok, None, None, t)
    case Unreached(target, text, kind) => HostRun(host, OutcomeOf(kind), Some(Ssh(text)), Some(target), map[])
    case Stopped => HostRun(host, Cancelled, Some(ByUser), None, map[])
    case AlreadyThere(t) => HostRun(host, Adopted, None, None, t)
    case Withheld(m) => HostRun(host, Held, Some(m), None, map[])
    case Broken(m) => HostRun(host, Failed, Some(m), None, map[])
  }

  function RunOf(w: WatchConfig, ph: PlanHost, fate: Fate): HostRun {
    match fate
    case SetupFate(why) => HostRun(ph.name, Failed, Some(SetupFailed(why)), None, map[])
    case SkippedByCancel => HostRun(ph.name, Cancelled, Some(NotStarted), None, map[])
    case Ran(nodes, a) => HostRunOf(ph.name, DeployHostEnd(w, nodes, ph, a))
  }

  predicate Pushed(w: WatchConfig, ph: PlanHost, fate: Fate) {
    fate.Ran? && PushesTo(w, fate.nodes, ph, fate.answers)
  }

  /** A host before `k` was stopped by the user while it was deploying. */
  predicate StoppedBefore(w: WatchConfig, plan: RunPlan, env: RunEnv, k: nat)
    requires env.setup.Ready? && k <= |plan.hosts|
  {
    k > 0 && (StoppedBefore(w, plan, env, k - 1)
              || (k - 1 < env.cancelAt
                  && DeployHostEnd(w, env.setup.nodes, plan.hosts[k - 1], env.answers(k - 1)).Stopped?))
  }

  function FateAt(w: WatchConfig, plan: RunPlan, env: RunEnv, k: nat): Fate
    requires k < |plan.hosts|
  {
    match env.setup
    case SetupBroken(why) => SetupFate(why)
    case Ready(nodes) =>
      if StoppedBefore(w, plan, env, k) || k >= env.cancelAt then SkippedByCancel
      else Ran(nodes, env.answers(k))
  }

  function RecordOf(w: WatchConfig, plan: RunPlan, env: RunEnv): RunRecord {
    RunRecord(plan.runId, plan.rev, plan.trigger, env.finished, RunsUpTo(w, plan, env, |plan.hosts|))
  }

  method FailAll(w: WatchConfig, plan: RunPlan, env: RunEnv) returns (hosts: seq<HostRun>, pushes: seq<bool>)
    requires env.setup.SetupBroken?
    ensures hosts == RunsUpTo(w, plan, env, |plan.hosts|)
    ensures pushes == PushesUpTo(w, plan, env, |plan.hosts|)
  {
    hosts, pushes := [], [];
    for k := 0 to |plan.hosts|
      invariant hosts == RunsUpTo(w, plan, env, k)
      invariant pushes == PushesUpTo(w, plan, env, k)
    {
      hosts := hosts + [HostRun(plan.hosts[k].name, Failed, Some(SetupFailed(env.setup.why)), None, map[])];
      pushes := pushes + [false];
    }
  }

  /** One pass of the per-host loop. */
  method RunHost(w: WatchConfig, plan: RunPlan, env: RunEnv, k: nat, cancelled: bool, log: RunLog)
    returns (hr: HostRun, pushed: bool, stopped: bool)
    requires log.Valid() && env.setup.Ready? && k < |plan.hosts|
    requires cancelled == StoppedBefore(w, plan, env, k)
    modifies log
    ensures log.Valid()
    ensures hr == RunOf(w, plan.hosts[k], FateAt(w, plan, env, k))
    ensures pushed == Pushed(w, plan.hosts[k], FateAt(w, plan, env, k))
    ensures stopped == StoppedBefore(w, plan, env, k + 1)
  {
    var ph := plan.hosts[k];
    if cancelled || k >= env.cancelAt {
      return HostRun(ph.name, Cancelled, Some(NotStarted), None, map[]), false, cancelled;
    }
    var end;
    end, pushed := DeployHost(w, env.setup.nodes, ph, env.answers(k), log);
    hr := HostRunOf(ph.name, end);
    log.Log(HostEnded(ph.name, hr.outcome));
    stopped := end.Stopped?;
  }

  function RunsUpTo(w: WatchConfig, plan: RunPlan, env: RunEnv, k: nat): (runs: seq<HostRun>)
    requires k <= |plan.hosts|
    ensures |runs| == k
  {
    if k == 0 then []
    else RunsUpTo(w, plan, env, k - 1) + [RunOf(w, plan.hosts[k - 1], FateAt(w, plan, env, k - 1))]
  }

  function PushesUpTo(w: WatchConfig, plan: RunPlan, env: RunEnv, k: nat): (pushes: seq<bool>)
    requires k <= |plan.hosts|
    ensures |pushes| == k
  {
    if k == 0 then []
    else PushesUpTo(w, plan, env, k - 1) + [Pushed(w, plan.hosts[k - 1], FateAt(w, plan, env, k - 1))]
  }

  lemma {:induction false} UpToExact(w: WatchConfig, plan: RunPlan, env: RunEnv, n: nat, k: nat)
    requires k < n <= |plan.hosts|
    ensures RunsUpTo(w, plan, env, n)[k] == RunOf(w, plan.hosts[k], FateAt(w, plan, env, k))
    ensures PushesUpTo(w, plan, env, n)[k] == Pushed(w, plan.hosts[k], FateAt(w, plan, env, k))
    decreases n
  {
    if k < n - 1 {
      UpToExact(w, plan, env, n - 1, k);
    }
  }

  method RunHosts(w: WatchConfig, plan: RunPlan, env: RunEnv, log: RunLog)
    returns (hosts: seq<HostRun>, pushes: seq<bool>)
    requires log.Valid() && env.setup.Ready?
    modifies log
    ensures log.Valid()
    ensures hosts == RunsUpTo(w, plan, env, |plan.hosts|)
    ensures pushes == PushesUpTo(w, plan, env, |plan.hosts|)
  {
    hosts, pushes := [], [];
    var cancelled := false;
    for k := 0 to |plan.hosts|
      invariant log.Valid()
      invariant cancelled == StoppedBefore(w, plan, env, k)
      invariant hosts == RunsUpTo(w, plan, env, k)
      invariant pushes == PushesUpTo(w, plan, env, k)
    {
      var hr, pushed;
      hr, pushed, cancelled := RunHost(w, plan, env, k, cancelled, log);
      hosts := hosts + [hr];
      pushes := pushes + [pushed];
    }
  }

  /** The whole run: its record, whether `deploy::run` was reached for each host, and its log. */
  method Execute(w: WatchConfig, plan: RunPlan, env: RunEnv)
    returns (record: RunRecord, pushes: seq<bool>, log: RunLog)
    ensures record == RecordOf(w, plan, env)
    ensures pushes == PushesUpTo(w, plan, env, |plan.hosts|)
    ensures fresh(log) && log.Valid()
    ensures log.sent != [] && log.sent[|log.sent| - 1] ==
              if env.setup.SetupBroken? then SetupBroke(env.setup.why) else RunFinished(plan.runId)
  {
    log := new RunLog();
    log.Log(Seam);
    log.Log(RunStarted(plan.runId, |plan.hosts|));
    var hosts: seq<HostRun> := [];
    if env.setup.SetupBroken? {
      log.Log(SetupBroke(env.setup.why));
      hosts, pushes := FailAll(w, plan, env);
    } else {
      hosts, pushes := RunHosts(w, plan, env, log);
      log.Log(RunFinished(plan.runId));
    }
    record := RunRecord(plan.runId, plan.rev, plan.trigger, env.finished, hosts);
  }

  lemma {:induction false} StoppedStays(w: WatchConfig, plan: RunPlan, env: RunEnv, j: nat, k: nat)
    requires env.setup.Ready? && j <= k <= |plan.hosts| && StoppedBefore(w, plan, env, j)
    ensures StoppedBefore(w, plan, env, k)
    decreases k
  {
    if j < k {
      StoppedStays(w, plan, env, j, k - 1);
    }
  }

  lemma RecordAt(w: WatchConfig, plan: RunPlan, env: RunEnv, k: nat)
    requires k < |plan.hosts|
    ensures RecordOf(w, plan, env).hosts[k] == RunOf(w, plan.hosts[k], FateAt(w, plan, env, k))
    ensures PushesUpTo(w, plan, env, |plan.hosts|)[k] == Pushed(w, plan.hosts[k], FateAt(w, plan, env, k))
  {
    UpToExact(w, plan, env, |plan.hosts|, k);
  }

  lemma CancelledMeansStopped(w: WatchConfig, ph: PlanHost, fate: Fate)
    requires fate.Ran? && RunOf(w, ph, fate).outcome.Cancelled?
    ensures DeployHostEnd(w, fate.nodes, ph, fate.answers).Stopped?
  {
    var end := DeployHostEnd(w, fate.nodes, ph, fate.answers);
    assert RunOf(w, ph, fate) == HostRunOf(ph.name, end);
  }

  /** Once a cancel is seen, at a host boundary or while host j deploys, every later host is
      recorded cancelled and nothing is pushed to it. */
  lemma NothingAfterCancel(w: WatchConfig, plan: RunPlan, env: RunEnv, j: nat, k: nat)
    requires env.setup.Ready? && j <= k < |plan.hosts|
    requires || j >= env.cancelAt
             || (j < k && FateAt(w, plan, env, j).Ran? && RecordOf(w, plan, env).hosts[j].outcome.Cancelled?)
    ensures RecordOf(w, plan, env).hosts[k].outcome.Cancelled?
    ensures !Pushed(w, plan.hosts[k], FateAt(w, plan, env, k))
  {
    RecordAt(w, plan, env, j);
    RecordAt(w, plan, env, k);
    if j < env.cancelAt {
      CancelledMeansStopped(w, plan.hosts[j], FateAt(w, plan, env, j));
      StoppedStays(w, plan, env, j + 1, k);
    }
  }

  /** Host k gets its turn exactly if the setup worked, no cancel was seen at its boundary, and
      the user cancelled none of the deploys before it: a host that fails, is held or cannot
      be reached never keeps the later ones from running. */
  lemma {:induction false} HostRunsExactly(w: WatchConfig, plan: RunPlan, env: RunEnv, k: nat)
    requires k < |plan.hosts|
    ensures FateAt(w, plan, env, k).Ran? <==>
            && env.setup.Ready? && k < env.cancelAt
            && forall j | 0 <= j < k ::
                 Pushed(w, plan.hosts[j], Ran(env.setup.nodes, env.answers(j))) ==> !UserCancelled(env.answers(j))
    ensures FateAt(w, plan, env, k).Ran? ==> FateAt(w, plan, env, k) == Ran(env.setup.nodes, env.answers(k))
  {
    if env.setup.Ready? && k < env.cancelAt {
      StoppedExactly(w, plan, env, k);
    }
  }

  lemma {:induction false} StoppedExactly(w: WatchConfig, plan: RunPlan, env: RunEnv, k: nat)
    requires k <= |plan.hosts| && env.setup.Ready? && k <= env.cancelAt
    ensures StoppedBefore(w, plan, env, k) <==>
            exists j | 0 <= j < k ::
              Pushed(w, plan.hosts[j], Ran(env.setup.nodes, env.answers(j))) && UserCancelled(env.answers(j))
  {
    if k > 0 {
      StoppedExactly(w, plan, env, k - 1);
      StopsExactly(w, env.setup.nodes, plan.hosts[k - 1], env.answers(k - 1));
    }
  }

  lemma StopsExactly(w: WatchConfig, nodes: seq<Node>, ph: PlanHost, a: Answers)
    ensures DeployHostEnd(w, nodes, ph, a).Stopped? <==> Pushed(w, ph, Ran(nodes, a)) && UserCancelled(a)
  {
    if PushesTo(w, nodes, ph, a) {
      PushVerdict(w, ph, Ran(nodes, a));
      OutcomeOfEnd(ph.name, DeployHostEnd(w, nodes, ph, a));
    } else {
      ProbeOnlyProbes(w, nodes, ph, a);
    }
  }

  /** Exactly one outcome per planned host, in plan order, on every path. */
  lemma RunAccounting(w: WatchConfig, plan: RunPlan, env: RunEnv)
    ensures |RecordOf(w, plan, env).hosts| == |plan.hosts| == |PushesUpTo(w, plan, env, |plan.hosts|)|
    ensures forall k | 0 <= k < |plan.hosts| :: RecordOf(w, plan, env).hosts[k].host == plan.hosts[k].name
    ensures env.setup.SetupBroken? ==>
              forall k | 0 <= k < |plan.hosts| ::
                RecordOf(w, plan, env).hosts[k].outcome.Failed? && !PushesUpTo(w, plan, env, |plan.hosts|)[k]
  {
    forall k | 0 <= k < |plan.hosts|
      ensures RecordOf(w, plan, env).hosts[k].host == plan.hosts[k].name
      ensures env.setup.SetupBroken? ==>
                RecordOf(w, plan, env).hosts[k].outcome.Failed? && !PushesUpTo(w, plan, env, |plan.hosts|)[k]
    {
      RecordAt(w, plan, env, k);
      RunIsOfHost(w, plan.hosts[k], FateAt(w, plan, env, k));
    }
  }

  lemma RunIsOfHost(w: WatchConfig, ph: PlanHost, fate: Fate)
    ensures RunOf(w, ph, fate).host == ph.name
    ensures fate.SetupFate? ==> RunOf(w, ph, fate).outcome.Failed? && !Pushed(w, ph, fate)
    ensures fate.SkippedByCancel? ==> RunOf(w, ph, fate).outcome.Cancelled? && !Pushed(w, ph, fate)
  {
  }

  // ---- what a host's outcome says about it ----

  /** The guard lets a push through: it is off, has no baseline, or finds the host undisturbed. */
  predicate GuardPasses(hc: HostConfig, recorded: map<Name, string>, a: Answers) {
    !hc.driftGuard || recorded == map[] || Undisturbed(recorded, a)
  }

  /** `deploy::run` is reached exactly when the host is configured and known, the probe got
      in, first encounters are allowed to deploy, and the guard passes. */
  lemma PushedExactly(w: WatchConfig, ph: PlanHost, nodes: seq<Node>, a: Answers)
    ensures Pushed(w, ph, Ran(nodes, a)) <==>
            && ph.name in w.hosts
            && FindNode(nodes, ph.name).Some?
            && (w.hosts[ph.name].catchUp ==> a.reach.None?)
            && (ph.adopt ==> w.hosts[ph.name].bootstrap)
            && GuardPasses(w.hosts[ph.name], ph.recorded, a)
  {
    if ph.name in w.hosts && ph.recorded != map[] {
      GuardExact(ph.recorded, a);
    }
  }

  /** What a pushed host's record says: cancelled exactly if the user cancelled; ok exactly if
      he did not, the child could be spawned, and the last exit status it reported is 0;
      failed otherwise, with the reason. */
  lemma {:induction false} PushVerdict(w: WatchConfig, ph: PlanHost, fate: Fate)
    requires Pushed(w, ph, fate)
    ensures fate.Ran?
    ensures var hr, a := RunOf(w, ph, fate), fate.answers;
            var failed := !UserCancelled(a) && (SpawnFailure(a.events) || !ExitedWith(a.events, 0));
            && (hr.outcome.Cancelled? <==> UserCancelled(a))
            && (hr.outcome.Ok? <==> !UserCancelled(a) && !SpawnFailure(a.events) && ExitedWith(a.events, 0))
            && (hr.outcome.Failed? <==> failed)
            && (forall why :: hr.message == Some(SpawnFailed(why)) <==>
                  failed && exists i :: LastSpawnErrorAt(a.events, i) && a.events[i] == SpawnError(why))
            && (forall code :: hr.message == Some(ExitCode(code)) <==>
                  failed && !SpawnFailure(a.events) && ExitedWith(a.events, code))
  {
    var hc, node := w.hosts[ph.name], FindNode(fate.nodes, ph.name).value;
    VerdictExact(Managed(node, hc.profile), fate.answers);
    var e := PushEnd(Managed(node, hc.profile), fate.answers);
    assert DeployHostEnd(w, fate.nodes, ph, fate.answers) == e;
    RecordOfVerdict(ph.name, e, fate.answers);
  }

  lemma RecordOfVerdict(host: Name, e: End, a: Answers)
    requires VerdictOf(e, a) && (e.Stopped? || e.Deployed? || e.Broken?)
    ensures var hr := HostRunOf(host, e);
            var failed := !UserCancelled(a) && (SpawnFailure(a.events) || !ExitedWith(a.events, 0));
            && (hr.outcome.Cancelled? <==> UserCancelled(a))
            && (hr.outcome.Ok? <==> !UserCancelled(a) && !SpawnFailure(a.events) && ExitedWith(a.events, 0))
            && (hr.outcome.Failed? <==> failed)
            && (forall why :: hr.message == Some(SpawnFailed(why)) <==>
                  failed && exists i :: LastSpawnErrorAt(a.events, i) && a.events[i] == SpawnError(why))
            && (forall code :: hr.message == Some(ExitCode(code)) <==>
                  failed && !SpawnFailure(a.events) && ExitedWith(a.events, code))
  {
    forall code | !UserCancelled(a) && !SpawnFailure(a.events) && !ExitedWith(a.events, 0) && ExitedWith(a.events, code)
      ensures code != 0
    {
    }
    assert forall why :: HostRunOf(host, e).message == Some(SpawnFailed(why)) <==> e == Broken(SpawnFailed(why));
    assert forall code :: HostRunOf(host, e).message == Some(ExitCode(code)) <==> e == Broken(ExitCode(code));
  }

  /** What the record of a host says that ran without being pushed to: not configured, not
      in the flake, not reached (down, refused or hung, in the words of ssh), adopted, or
      held. */
  lemma {:induction false} UnpushedVerdict(w: WatchConfig, ph: PlanHost, nodes: seq<Node>, a: Answers)
    requires !Pushed(w, ph, Ran(nodes, a))
    ensures var hr := RunOf(w, ph, Ran(nodes, a));
            var known := ph.name in w.hosts && exists i :: 0 <= i < |nodes| && nodes[i].name == ph.name;
            && (hr.outcome.Failed? <==> !known)
            && (hr.outcome.Failed? ==> hr.message == Some(if ph.name in w.hosts then NodeMissing else NotConfigured))
            && (forall u :: known && w.hosts[ph.name].catchUp && a.reach == Some(u) ==>
                  && hr.message == Some(Ssh(u.text)) && hr.target == Some(a.target)
                  && (hr.outcome.Offline? <==> u.kind.Down?) && (hr.outcome.Denied? <==> u.kind.Refused?)
                  && (hr.outcome.Stalled? <==> u.kind.Hung?))
            && (IsPending(hr.outcome) <==> known && w.hosts[ph.name].catchUp && a.reach.Some?)
            && !hr.outcome.Ok? && !hr.outcome.Cancelled?
  {
    var known := ph.name in w.hosts && FindNode(nodes, ph.name).Some?;
    if known {
      var hc, node := w.hosts[ph.name], FindNode(nodes, ph.name).value;
      ManagedExact(node, hc.profile);
      UnpushedEnds(hc, Managed(node, hc.profile), ph, a);
    }
    UnpushedRecord(ph.name, DeployHostEnd(w, nodes, ph, a));
  }

  lemma UnpushedEnds(hc: HostConfig, profiles: seq<Name>, ph: PlanHost, a: Answers)
    requires !Reaches(hc, ph, a) && Distinct(profiles)
    ensures var e := DeployKnownHost(hc, profiles, ph, a);
            if hc.catchUp && a.reach.Some? then e == Unreached(a.target, a.reach.value.text, a.reach.value.kind)
            else e.AlreadyThere? || e.Withheld?
  {
    ProbeExact(profiles, a.check);
  }

  lemma UnpushedRecord(host: Name, e: End)
    requires !e.Deployed? && !e.Stopped?
    ensures var hr := HostRunOf(host, e);
            && !hr.outcome.Ok? && !hr.outcome.Cancelled? && (hr.outcome.Failed? <==> e.Broken?)
            && (e.Broken? ==> hr.message == Some(e.message))
            && (IsPending(hr.outcome) <==> e.Unreached?)
            && (e.Unreached? ==>
                  && hr.message == Some(Ssh(e.text)) && hr.target == Some(e.target)
                  && (hr.outcome.Offline? <==> e.kind.Down?) && (hr.outcome.Denied? <==> e.kind.Refused?)
                  && (hr.outcome.Stalled? <==> e.kind.Hung?))
  {
  }

  /** A push ends deployed, failed or cancelled; without a push a host is never deployed. */
  lemma {:induction false} PushOutcomes(w: WatchConfig, ph: PlanHost, fate: Fate)
    ensures Pushed(w, ph, fate) ==> RunOf(w, ph, fate).outcome in {Ok, Failed, Cancelled}
    ensures RunOf(w, ph, fate).outcome.Ok? ==> Pushed(w, ph, fate)
    ensures !RunOf(w, ph, fate).outcome.Skipped?
  {
    if fate.Ran? {
      ProbeOnlyProbes(w, fate.nodes, ph, fate.answers);
      OutcomeOfEnd(ph.name, DeployHostEnd(w, fate.nodes, ph, fate.answers));
    }
  }

  lemma PushEnds(profiles: seq<Name>, a: Answers)
    ensures var e := PushEnd(profiles, a);
            && (e.Deployed? || e.Stopped? || e.Broken?)
            && (e.Deployed? ==> RecordsReadBack(e.toplevels, profiles, a.readBack))
  {
    ReadBackExact([], profiles, a.readBack, map[]);
    assert [] + profiles == profiles;
  }

  lemma KnownHostEnds(hc: HostConfig, profiles: seq<Name>, ph: PlanHost, a: Answers)
    requires Distinct(profiles)
    ensures var e := DeployKnownHost(hc, profiles, ph, a);
            && (Reaches(hc, ph, a) ==> e.Deployed? || e.Stopped? || e.Broken?)
            && (!Reaches(hc, ph, a) ==> !e.Deployed? && !e.Stopped?)
            && (ph.adopt && !hc.bootstrap ==>
                  (e.AlreadyThere? <==> (hc.catchUp ==> a.reach.None?) && forall p | p in profiles :: a.check(p).UpToDate?))
            && (e.AlreadyThere? ==> RecordsProbe(e.toplevels, profiles, a.check))
            && (e.Deployed? ==> RecordsReadBack(e.toplevels, profiles, a.readBack))
  {
    if ph.adopt && !hc.bootstrap {
      ProbeExact(profiles, a.check);
    } else {
      PushEnds(profiles, a);
    }
  }

  lemma ProbeOnlyProbes(w: WatchConfig, nodes: seq<Node>, ph: PlanHost, a: Answers)
    ensures var e := DeployHostEnd(w, nodes, ph, a);
            && (PushesTo(w, nodes, ph, a) ==> e.Deployed? || e.Stopped? || e.Broken?)
            && (!PushesTo(w, nodes, ph, a) ==> !e.Deployed? && !e.Stopped?)
  {
    if ph.name in w.hosts && FindNode(nodes, ph.name).Some? {
      var node, hc := FindNode(nodes, ph.name).value, w.hosts[ph.name];
      ManagedExact(node, hc.profile);
      KnownHostEnds(hc, Managed(node, hc.profile), ph, a);
    }
  }

  lemma OutcomeOfEnd(host: Name, end: End)
    ensures var o := HostRunOf(host, end).outcome;
            && (o.Ok? <==> end.Deployed?) && (o.Cancelled? <==> end.Stopped?) && (o.Failed? <==> end.Broken?)
            && (o.Adopted? <==> end.AlreadyThere?) && !o.Skipped?
  {
  }

  /** A first encounter that may not bootstrap: nothing is pushed, and it is adopted exactly
      when the agent gets in and every managed profile already matches the revision. */
  lemma {:induction false} FirstEncounterNeverPushes(w: WatchConfig, ph: PlanHost, fate: Fate)
    requires ph.adopt && (ph.name in w.hosts ==> !w.hosts[ph.name].bootstrap)
    ensures !Pushed(w, ph, fate) && !RunOf(w, ph, fate).outcome.Ok?
    ensures RunOf(w, ph, fate).outcome.Adopted? <==>
            && fate.Ran? && ph.name in w.hosts && FindNode(fate.nodes, ph.name).Some?
            && (w.hosts[ph.name].catchUp ==> fate.answers.reach.None?)
            && (forall p | p in Managed(FindNode(fate.nodes, ph.name).value, w.hosts[ph.name].profile) ::
                  fate.answers.check(p).UpToDate?)
  {
    if fate.Ran? {
      FirstEncounterEnds(w, fate.nodes, ph, fate.answers);
      OutcomeOfEnd(ph.name, DeployHostEnd(w, fate.nodes, ph, fate.answers));
    }
  }

  lemma FirstEncounterEnds(w: WatchConfig, nodes: seq<Node>, ph: PlanHost, a: Answers)
    requires ph.adopt && (ph.name in w.hosts ==> !w.hosts[ph.name].bootstrap)
    ensures var e := DeployHostEnd(w, nodes, ph, a);
            && !PushesTo(w, nodes, ph, a) && !e.Deployed?
            && (e.AlreadyThere? <==>
                  && ph.name in w.hosts && FindNode(nodes, ph.name).Some?
                  && (w.hosts[ph.name].catchUp ==> a.reach.None?)
                  && (forall p | p in Managed(FindNode(nodes, ph.name).value, w.hosts[ph.name].profile) ::
                        a.check(p).UpToDate?))
  {
    if ph.name in w.hosts && FindNode(nodes, ph.name).Some? {
      var node, hc := FindNode(nodes, ph.name).value, w.hosts[ph.name];
      ManagedExact(node, hc.profile);
      KnownHostEnds(hc, Managed(node, hc.profile), ph, a);
    }
  }

  /** With nothing to adopt and no baseline to defend, a host is never held. */
  lemma UnguardedNeverHeld(w: WatchConfig, ph: PlanHost, fate: Fate)
    requires !ph.adopt && ph.recorded == map[]
    ensures !RunOf(w, ph, fate).outcome.Held?
  {
  }

  /** The baseline a success records: the paths read back after a push, or seen by the
      adopting probe, for exactly the profiles the host manages at that revision; or nothing. */
  lemma {:induction false} BaselineIsWhole(w: WatchConfig, ph: PlanHost, fate: Fate)
    requires IsSuccess(RunOf(w, ph, fate).outcome)
    ensures fate.Ran? && ph.name in w.hosts && FindNode(fate.nodes, ph.name).Some?
    ensures var hr := RunOf(w, ph, fate);
            var profiles := Managed(FindNode(fate.nodes, ph.name).value, w.hosts[ph.name].profile);
            if hr.outcome.Ok? then RecordsReadBack(hr.toplevels, profiles, fate.answers.readBack)
            else RecordsProbe(hr.toplevels, profiles, fate.answers.check)
  {
    assert fate.Ran?;
    var end := DeployHostEnd(w, fate.nodes, ph, fate.answers);
    SuccessOfEnd(ph.name, end);
    var node, hc := FindNode(fate.nodes, ph.name).value, w.hosts[ph.name];
    ManagedExact(node, hc.profile);
    KnownHostEnds(hc, Managed(node, hc.profile), ph, fate.answers);
  }

  lemma SuccessOfEnd(host: Name, end: End)
    requires IsSuccess(HostRunOf(host, end).outcome)
    ensures end.Deployed? || end.AlreadyThere?
    ensures HostRunOf(host, end).toplevels == end.toplevels
    ensures HostRunOf(host, end).outcome.Ok? <==> end.Deployed?
  {
  }
}
