/** The agent's standing state and the fold of run outcomes into it
    (crates/deptui-agent/src/state.rs, crates/deptui-core/src/agentwire.rs). */
module AgentState {

  type Name = string
  type Rev = string

  datatype Option<+T> = None | Some(value: T)

  /** Why a pending host could not be reached. */
  datatype OfflineKind = Down | Refused | Hung

  /** The nine per-host outcome strings of the wire format, one constructor each. */
  datatype Outcome =
    | Ok | Adopted | Held | Offline | Denied | Stalled | Failed | Cancelled | Skipped

  function OutcomeOf(kind: OfflineKind): Outcome {
    match kind
    case Down => Offline
    case Refused => Denied
    case Hung => Stalled
  }

  function FromOutcome(o: Outcome): Option<OfflineKind> {
    match o
    case Offline => Some(Down)
    case Denied => Some(Refused)
    case Stalled => Some(Hung)
    case _ => None
  }

  predicate IsPending(o: Outcome) { FromOutcome(o).Some? }

  predicate IsSuccess(o: Outcome) { o.Ok? || o.Adopted? }

  predicate IsFailure(o: Outcome) { o.Failed? || o.Cancelled? }

  /** A round that ended, one way or the other: anything but a pending host. */
  predicate IsSettled(o: Outcome) { IsSuccess(o) || IsFailure(o) || o.Held? }

  /** The pending outcomes and the offline kinds name each other, both ways: the
      daemon's "was anyone offline" test and the fold's offline stamp cannot disagree. */
  lemma PendingOutcomesAreKinds(o: Outcome)
    ensures forall k :: FromOutcome(OutcomeOf(k)) == Some(k)
    ensures IsPending(o) <==> exists k :: OutcomeOf(k) == o
    ensures !(IsPending(o) && IsSettled(o))
  {
    if IsPending(o) {
      assert OutcomeOf(FromOutcome(o).value) == o;
    }
  }

  /** What the human reads about an outcome. The source formats text; each text is a
      constructor here. */
  datatype Message =
    | NoMessage
    | CancelledDefault
    | SetupFailed(why: string)
    | NotConfigured
    | NodeMissing
    | NotStarted
    | ByUser
    | Ssh(text: string)
    | NeverDeployed(profile: Name)
    | DiffersFromRevision(profile: Name)
    | ProbeFailed(why: string)
    | NoLongerDeployed(profile: Name, left: string)
    | ChangedOnHost(profile: Name, running: string, left: string)
    | SpawnFailed(why: string)
    | ExitCode(code: int)
    | NoExitStatus

  datatype Stamp = Stamp(rev: Rev, time: nat)
  datatype FailStamp = FailStamp(rev: Rev, time: nat, message: Message)
  datatype OfflineStamp = OfflineStamp(rev: Rev, time: nat, target: string, kind: OfflineKind)

  datatype HostState = HostState(
    paused: bool,
    deployed: Option<Stamp>,
    failed: Option<FailStamp>,
    unreachable: Option<Message>,
    approved: bool,
    held: Option<Stamp>,
    offline: Option<OfflineStamp>,
    deployedToplevels: map<Name, string>)

  const FRESH_HOST := HostState(false, None, None, None, false, None, None, map[])

  datatype HostRun = HostRun(
    host: Name,
    outcome: Outcome,
    message: Option<Message>,
    target: Option<string>,
    toplevels: map<Name, string>)

  datatype RunRecord = RunRecord(
    id: nat,
    rev: Rev,
    trigger: string,
    finished: nat,
    hosts: seq<HostRun>)

  datatype WatchState = WatchState(
    paused: bool,
    lastSeen: Option<Rev>,
    hosts: map<Name, HostState>,
    history: seq<RunRecord>)

  const FRESH_WATCH := WatchState(false, None, map[], [])

  datatype Agent = Agent(paused: bool, nextRunId: nat, watches: map<Name, WatchState>)

  const FRESH_AGENT := Agent(false, 0, map[])

  const MAX_HISTORY := 50
  const MAX_RUN_LOG := 2000

  function GetOr<T>(o: Option<T>, d: T): T {
    if o.Some? then o.value else d
  }

  /** One run outcome folded into a host's standing state. */
  function Fold(hs: HostState, hr: HostRun, rev: Rev, time: nat): HostState {
    match hr.outcome
    case Ok | Adopted =>
      hs.(deployed := Some(Stamp(rev, time)),
          failed := None, offline := None, held := None, unreachable := None,
          approved := false, deployedToplevels := hr.toplevels)
    case Held =>
      hs.(held := Some(Stamp(rev, time)))
    case Failed =>
      hs.(failed := Some(FailStamp(rev, time, GetOr(hr.message, NoMessage))),
          offline := None, approved := false)
    case Offline | Denied | Stalled =>
      hs.(offline := Some(OfflineStamp(rev, time, GetOr(hr.target, ""),
                                       GetOr(FromOutcome(hr.outcome), Down))),
          failed := None, unreachable := hr.message)
    case Cancelled =>
      hs.(failed := Some(FailStamp(rev, time, GetOr(hr.message, CancelledDefault))),
          offline := None, approved := false)
    case Skipped => hs
  }

  /** The mutable host entry that `apply_outcome` edits field by field. */
  class HostEntry {
    var paused: bool
    var deployed: Option<Stamp>
    var failed: Option<FailStamp>
    var unreachable: Option<Message>
    var approved: bool
    var held: Option<Stamp>
    var offline: Option<OfflineStamp>
    var deployedToplevels: map<Name, string>

    constructor (hs: HostState)
      ensures Value() == hs
    {
      paused, deployed, failed, unreachable := hs.paused, hs.deployed, hs.failed, hs.unreachable;
      approved, held, offline := hs.approved, hs.held, hs.offline;
      deployedToplevels := hs.deployedToplevels;
    }

    function Value(): HostState
      reads this
    {
      HostState(paused, deployed, failed, unreachable, approved, held, offline, deployedToplevels)
    }

    method ApplyOutcome(hr: HostRun, rev: Rev, time: nat)
      modifies this
      ensures Value() == Fold(old(Value()), hr, rev, time)
    {
      match hr.outcome {
        case Ok | Adopted =>
          deployed := Some(Stamp(rev, time));
          failed := None;
          offline := None;
          held := None;
          unreachable := None;
          approved := false;
          deployedToplevels := hr.toplevels;
        case Held =>
          held := Some(Stamp(rev, time));
        case Failed =>
          failed := Some(FailStamp(rev, time, GetOr(hr.message, NoMessage)));
          offline := None;
          approved := false;
        case Offline | Denied | Stalled =>
          offline := Some(OfflineStamp(rev, time, GetOr(hr.target, ""),
                                       GetOr(FromOutcome(hr.outcome), Down)));
          failed := None;
          unreachable := hr.message;
        case Cancelled =>
          failed := Some(FailStamp(rev, time, GetOr(hr.message, CancelledDefault)));
          offline := None;
          approved := false;
        case Skipped =>
      }
    }
  }

  /** `drop_superseded_parks` on one host: a park next to a pending stamp is the older one. */
  function DropSupersededPark(hs: HostState): HostState {
    if hs.offline.Some? then hs.(failed := None) else hs
  }

  function DropSupersededParks(a: Agent): Agent {
    a.(watches := map w | w in a.watches ::
      a.watches[w].(hosts := map h | h in a.watches[w].hosts ::
        DropSupersededPark(a.watches[w].hosts[h])))
  }

  function WatchOf(a: Agent, w: Name): WatchState {
    if w in a.watches then a.watches[w] else FRESH_WATCH
  }

  /** A host with no entry reads as the default one. */
  function HostIn(ws: WatchState, h: Name): HostState {
    if h in ws.hosts then ws.hosts[h] else FRESH_HOST
  }

  function HostOf(a: Agent, w: Name, h: Name): HostState {
    HostIn(WatchOf(a, w), h)
  }

  function SetHost(a: Agent, w: Name, h: Name, hs: HostState): Agent {
    var ws := WatchOf(a, w);
    a.(watches := a.watches[w := ws.(hosts := ws.hosts[h := hs])])
  }

  /** The reload migration drops the older of two stories: a host that is both pending and
      parked stays pending, for the same revision, and is parked no more; every other host,
      and all that is not about hosts, stays as it was. */
  lemma MigrationKeepsThePending(a: Agent, w: Name, h: Name)
    ensures var b, hs, hs' := DropSupersededParks(a), HostOf(a, w, h), HostOf(DropSupersededParks(a), w, h);
            && hs' == (if hs.offline.Some? && hs.failed.Some? then hs.(failed := None) else hs)
            && b.paused == a.paused && b.nextRunId == a.nextRunId && b.watches.Keys == a.watches.Keys
            && WatchOf(b, w) == WatchOf(a, w).(hosts := WatchOf(b, w).hosts)
            && WatchOf(b, w).hosts.Keys == WatchOf(a, w).hosts.Keys
  {
    if w in a.watches {
      assert w in DropSupersededParks(a).watches;
    }
  }

  /** The newest MAX_HISTORY records. */
  function Latest<T>(s: seq<T>): seq<T> {
    if |s| > MAX_HISTORY then s[|s| - MAX_HISTORY..] else s
  }

  /** The last records of a list, fifty of them or all there are. */
  predicate NewestOf<T(==)>(kept: seq<T>, all: seq<T>) {
    && |kept| <= |all| && |kept| == (if |all| <= 50 then |all| else 50)
    && kept == all[|all| - |kept|..]
  }

  method PushRun(history: seq<RunRecord>, record: RunRecord) returns (r: seq<RunRecord>)
    ensures r == Latest(history + [record]) && NewestOf(r, history + [record])
  {
    r := history + [record];
    while |r| > MAX_HISTORY
      invariant |r| <= |history| + 1
      invariant |r| >= MAX_HISTORY || |r| == |history| + 1
      invariant r == (history + [record])[|history| + 1 - |r|..]
    {
      r := r[1..];
    }
  }

  function PushAll<T>(s: seq<T>, records: seq<T>): seq<T>
    decreases |records|
  {
    if records == [] then s else PushAll(Latest(s + [records[0]]), records[1..])
  }

  lemma LatestOfLatest<T>(s: seq<T>, x: T)
    ensures Latest(Latest(s) + [x]) == Latest(s + [x])
  {
    assert Latest(s) + [x] == (s + [x])[|s| - |Latest(s)|..];
  }

  lemma Regroup<T>(s: seq<T>, t: seq<T>)
    requires t != []
    ensures s + [t[0]] + t[1..] == s + t
  {
  }

  /** Pruning at every push loses nothing that pruning once at the end would keep. */
  lemma {:induction false} HistoryKeepsTheLatest<T>(s: seq<T>, records: seq<T>)
    ensures PushAll(Latest(s), records) == Latest(s + records)
    ensures NewestOf(PushAll(Latest(s), records), s + records)
    decreases |records|
  {
    if records == [] {
      assert s + records == s;
    } else {
      var first, rest := records[0], records[1..];
      LatestOfLatest(s, first);
      HistoryKeepsTheLatest(s + [first], rest);
      Regroup(s, records);
    }
  }
}
