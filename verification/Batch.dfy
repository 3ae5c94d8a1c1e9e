/** The TUI's deploy batch (crates/deptui/src/app.rs): confirming a list of hosts, starting
    them one after the other, and stopping on failure, spawn error or cancel. */
module Batch {
  import opened AgentState
  import opened Flake

  datatype Mode = Switch | Boot | DryRun

  datatype Plan = Plan(hosts: seq<Name>, mode: Mode, profile: ProfileSel)

  /** What exists only while a child runs. */
  datatype Session = Session(
    current: Name, queue: seq<Name>, mode: Mode, profile: ProfileSel, total: nat, done: nat)

  datatype LastDeploy = LastDeploy(mode: Mode, profile: ProfileSel, exitCode: int, ok: bool)

  /** Input modes that matter to a batch; every other mode is `Elsewhere`. */
  datatype Input = Elsewhere | ConfirmDeploy(plan: Plan) | SudoPassword | OtherPassword

  datatype Label = Label(index: nat, total: nat, host: Name)

  /** What happens to hosts, in order. A host is judged by the nodes known when it is taken. */
  datatype Event =
    | Confirmed(plan: Plan)
    | PassedOver(host: Name, known: seq<Node>)
    | Started(host: Name, mode: Mode, profile: ProfileSel, known: seq<Node>)
    | Ended(host: Name, code: int)
    | Aborted(host: Name)

  datatype Tui = Tui(
    nodes: seq<Node>,
    deploy: Option<Session>,
    input: Input,
    pendingDeploy: Option<Plan>,
    profileSel: ProfileSel,
    marked: seq<Name>,
    cursor: Option<Name>,
    interactiveSudo: bool,
    passwordCached: bool,
    busy: Option<Label>,
    lastDeploys: map<Name, LastDeploy>,
    trace: seq<Event>)

  function NodeOf(nodes: seq<Node>, host: Name): Option<Node> {
    if nodes == [] then None
    else if nodes[0].name == host then Some(nodes[0])
    else NodeOf(nodes[1..], host)
  }

  /** The host is known and has the chosen profile. */
  predicate Deployable(nodes: seq<Node>, host: Name, sel: ProfileSel) {
    match NodeOf(nodes, host)
    case None => false
    case Some(node) =>
      match sel
      case All => true
      case Home => "home" in node.profiles
      case System => "system" in node.profiles
  }

  /** Discovery appends the nodes not known before; known ones stay as they are. */
  function Learn(nodes: seq<Node>, found: seq<Node>): seq<Node>
    decreases |found|
  {
    if found == [] then nodes
    else Learn(if NodeOf(nodes, found[0].name).None? then nodes + [found[0]] else nodes, found[1..])
  }

  // ---- steps ----

  function StartNext(t: Tui, queue: seq<Name>, mode: Mode, sel: ProfileSel, total: nat, done: nat): Tui
    decreases |queue|
  {
    if queue == [] then t
    else if !Deployable(t.nodes, queue[0], sel) then
      StartNext(t.(trace := t.trace + [PassedOver(queue[0], t.nodes)]), queue[1..], mode, sel, total, done + 1)
    else
      t.(deploy := Some(Session(queue[0], queue[1..], mode, sel, total, done)),
         busy := Some(Label(done + 1, total, queue[0])),
         trace := t.trace + [Started(queue[0], mode, sel, t.nodes)])
  }

  function RunConfirmed(t: Tui, plan: Plan): Tui {
    StartNext(t.(trace := t.trace + [Confirmed(plan)]),
              plan.hosts, plan.mode, plan.profile, |plan.hosts|, 0)
  }

  function Request(t: Tui, mode: Mode): Tui {
    if t.deploy.Some? || (mode == Boot && t.profileSel == Home) then t
    else if t.marked != [] then t.(input := ConfirmDeploy(Plan(t.marked, mode, t.profileSel)))
    else if t.cursor.Some? then t.(input := ConfirmDeploy(Plan([t.cursor.value], mode, t.profileSel)))
    else t
  }

  function Confirm(t: Tui): Tui {
    if !t.input.ConfirmDeploy? then t
    else
      var plan := t.input.plan;
      if t.interactiveSudo && !t.passwordCached then t.(input := SudoPassword, pendingDeploy := Some(plan))
      else RunConfirmed(t.(input := Elsewhere), plan)
  }

  function EnterPassword(t: Tui): Tui {
    match t.input
    case SudoPassword =>
      var t' := t.(input := Elsewhere, passwordCached := true, pendingDeploy := None);
      if t.pendingDeploy.Some? then RunConfirmed(t', t.pendingDeploy.value) else t'
    case OtherPassword => t.(input := Elsewhere, passwordCached := true)
    case _ => t
  }

  function Dismiss(t: Tui): Tui {
    match t.input
    case SudoPassword => t.(input := Elsewhere, passwordCached := false, pendingDeploy := None)
    case OtherPassword => t.(input := Elsewhere, passwordCached := false)
    case _ => t.(input := Elsewhere)
  }

  function LeavePrompt(input: Input): Input {
    if input.SudoPassword? || input.OtherPassword? then Elsewhere else input
  }

  /** The session is over: its entry is recorded and all in-flight state goes with it. */
  function Close(t: Tui, s: Session, code: int, e: Event): Tui {
    t.(deploy := None, busy := None,
       lastDeploys := t.lastDeploys[s.current := LastDeploy(s.mode, s.profile, code, code == 0)],
       trace := t.trace + [e])
  }

  function OnExit(t: Tui, code: int): Tui {
    match t.deploy
    case None => t
    case Some(s) =>
      var closed := Close(t, s, code, Ended(s.current, code)).(input := LeavePrompt(t.input));
      if code == 0 && s.queue != [] then
        StartNext(closed, s.queue, s.mode, s.profile, s.total, s.done + 1)
      else closed.(passwordCached := false)
  }

  function OnError(t: Tui): Tui {
    match t.deploy
    case None => t
    case Some(s) =>
      Close(t, s, -1, Ended(s.current, -1)).(input := LeavePrompt(t.input), passwordCached := false)
  }

  function OnSudoPrompt(t: Tui): Tui {
    if t.deploy.Some? && !t.passwordCached then t.(input := OtherPassword) else t
  }

  function Cancel(t: Tui): Tui {
    match t.deploy
    case None => t
    case Some(s) => Close(t, s, -1, Aborted(s.current)).(passwordCached := false)
  }

  /** Everything else the user or an ssh password prompt does: it never touches the session
      or opens the two modes that start one. */
  datatype Step =
    | RequestStep(mode: Mode)
    | ConfirmStep
    | PasswordStep
    | DismissStep
    | ExitStep(code: int)
    | ErrorStep
    | SudoPromptStep
    | CancelStep
    | DiscoverStep(found: seq<Node>)
    | OtherStep(marked: seq<Name>, cursor: Option<Name>, sel: ProfileSel, sudo: bool, askpass: bool)

  function Next(t: Tui, e: Step): Tui {
    match e
    case RequestStep(mode) => Request(t, mode)
    case ConfirmStep => Confirm(t)
    case PasswordStep => EnterPassword(t)
    case DismissStep => Dismiss(t)
    case ExitStep(code) => OnExit(t, code)
    case ErrorStep => OnError(t)
    case SudoPromptStep => OnSudoPrompt(t)
    case CancelStep => Cancel(t)
    case DiscoverStep(found) => t.(nodes := Learn(t.nodes, found))
    case OtherStep(marked, cursor, sel, sudo, askpass) =>
      t.(marked := marked, cursor := cursor, profileSel := sel, interactiveSudo := sudo,
         input := if askpass then OtherPassword else t.input)
  }

  // ---- the order hosts must go in ----

  /** Where a batch stands: nothing running, about to take host k, or running host k. */
  datatype Phase = Idle | Taking(plan: Plan, k: nat) | Live(plan: Plan, k: nat) | Broken

  function Take(plan: Plan, k: nat): Phase {
    if k < |plan.hosts| then Taking(plan, k) else Idle
  }

  /** The only events a batch allows: a confirmation while nothing runs; then each host of
      the confirmed list in turn, skipped exactly when it cannot be deployed, started as
      confirmed otherwise; the next one only after a success; nothing more after a failure
      or cancel. */
  function Advance(p: Phase, e: Event): Phase {
    match e
    case Confirmed(plan) => if p.Idle? then Take(plan, 0) else Broken
    case PassedOver(h, known) =>
      if p.Taking? && p.k < |p.plan.hosts| && p.plan.hosts[p.k] == h && !Deployable(known, h, p.plan.profile)
      then Take(p.plan, p.k + 1) else Broken
    case Started(h, mode, profile, known) =>
      if p.Taking? && p.k < |p.plan.hosts| && p.plan.hosts[p.k] == h && Deployable(known, h, p.plan.profile)
         && mode == p.plan.mode && profile == p.plan.profile
      then Live(p.plan, p.k) else Broken
    case Ended(h, code) =>
      if p.Live? && p.k < |p.plan.hosts| && p.plan.hosts[p.k] == h
      then if code == 0 then Take(p.plan, p.k + 1) else Idle else Broken
    case Aborted(h) =>
      if p.Live? && p.k < |p.plan.hosts| && p.plan.hosts[p.k] == h then Idle else Broken
  }

  function PhaseOf(trace: seq<Event>): Phase
    decreases |trace|
  {
    if trace == [] then Idle
    else Advance(PhaseOf(trace[..|trace| - 1]), trace[|trace| - 1])
  }

  lemma PhaseStep(trace: seq<Event>, e: Event)
    ensures PhaseOf(trace + [e]) == Advance(PhaseOf(trace), e)
  {
    assert (trace + [e])[..|trace|] == trace;
  }

  /** The session is the live host of the batch, with the rest of the list behind it. */
  predicate SessionFits(t: Tui) {
    var p := PhaseOf(t.trace);
    match t.deploy
    case None => p.Idle? && t.busy == None
    case Some(s) =>
      && p.Live? && p.k < |p.plan.hosts|
      && s == Session(p.plan.hosts[p.k], p.plan.hosts[p.k + 1..], p.plan.mode, p.plan.profile, |p.plan.hosts|, p.k)
      && t.busy == Some(Label(s.done + 1, s.total, s.current))
  }

  /** A batch can only be confirmed while nothing runs. */
  predicate Invariant(t: Tui) {
    SessionFits(t) && (t.input.ConfirmDeploy? || t.input.SudoPassword? ==> t.deploy.None?)
  }

  lemma StartedFits(t: Tui, hosts: seq<Name>, mode: Mode, sel: ProfileSel, k: nat)
    requires k < |hosts| && PhaseOf(t.trace) == Taking(Plan(hosts, mode, sel), k) && Deployable(t.nodes, hosts[k], sel)
    ensures SessionFits(t.(deploy := Some(Session(hosts[k], hosts[k + 1..], mode, sel, |hosts|, k)),
                           busy := Some(Label(k + 1, |hosts|, hosts[k])),
                           trace := t.trace + [Started(hosts[k], mode, sel, t.nodes)]))
  {
    PhaseStep(t.trace, Started(hosts[k], mode, sel, t.nodes));
  }

  lemma {:induction false} StartNextFits(t: Tui, hosts: seq<Name>, mode: Mode, sel: ProfileSel, k: nat)
    requires k <= |hosts| && t.deploy.None? && t.busy.None?
    requires PhaseOf(t.trace) == Take(Plan(hosts, mode, sel), k)
    ensures SessionFits(StartNext(t, hosts[k..], mode, sel, |hosts|, k))
    ensures StartNext(t, hosts[k..], mode, sel, |hosts|, k).input == t.input
    decreases |hosts| - k
  {
    if k < |hosts| {
      assert hosts[k..][0] == hosts[k] && hosts[k..][1..] == hosts[k + 1..];
      if Deployable(t.nodes, hosts[k], sel) {
        StartedFits(t, hosts, mode, sel, k);
      } else {
        PhaseStep(t.trace, PassedOver(hosts[k], t.nodes));
        StartNextFits(t.(trace := t.trace + [PassedOver(hosts[k], t.nodes)]), hosts, mode, sel, k + 1);
      }
    }
  }

  lemma RunConfirmedFits(t: Tui, plan: Plan)
    requires SessionFits(t) && t.deploy.None?
    ensures SessionFits(RunConfirmed(t, plan)) && RunConfirmed(t, plan).input == t.input
  {
    PhaseStep(t.trace, Confirmed(plan));
    assert plan.hosts[0..] == plan.hosts;
    StartNextFits(t.(trace := t.trace + [Confirmed(plan)]), plan.hosts, plan.mode, plan.profile, 0);
  }

  lemma OnExitFits(t: Tui, code: int)
    requires Invariant(t)
    ensures Invariant(OnExit(t, code))
  {
    if t.deploy.Some? {
      var s := t.deploy.value;
      var p := PhaseOf(t.trace);
      PhaseStep(t.trace, Ended(s.current, code));
      var closed := Close(t, s, code, Ended(s.current, code)).(input := LeavePrompt(t.input));
      if code == 0 && s.queue != [] {
        StartNextFits(closed, p.plan.hosts, s.mode, s.profile, s.done + 1);
      }
    }
  }

  lemma ConfirmFits(t: Tui)
    requires Invariant(t)
    ensures Invariant(Confirm(t))
  {
    if t.input.ConfirmDeploy? {
      RunConfirmedFits(t.(input := Elsewhere), t.input.plan);
    }
  }

  lemma PasswordFits(t: Tui)
    requires Invariant(t)
    ensures Invariant(EnterPassword(t))
  {
    if t.input.SudoPassword? && t.pendingDeploy.Some? {
      RunConfirmedFits(t.(input := Elsewhere, passwordCached := true, pendingDeploy := None),
                       t.pendingDeploy.value);
    }
  }

  lemma ErrorFits(t: Tui)
    requires Invariant(t)
    ensures Invariant(OnError(t))
  {
    if t.deploy.Some? {
      PhaseStep(t.trace, Ended(t.deploy.value.current, -1));
    }
  }

  lemma CancelFits(t: Tui)
    requires Invariant(t)
    ensures Invariant(Cancel(t))
  {
    if t.deploy.Some? {
      PhaseStep(t.trace, Aborted(t.deploy.value.current));
    }
  }

  lemma {:induction false} StepKeepsInvariant(t: Tui, e: Step)
    requires Invariant(t)
    ensures Invariant(Next(t, e))
  {
    match e {
      case ConfirmStep => ConfirmFits(t);
      case PasswordStep => PasswordFits(t);
      case ExitStep(code) => OnExitFits(t, code);
      case ErrorStep => ErrorFits(t);
      case CancelStep => CancelFits(t);
      case _ =>
    }
  }

  // ---- whole runs ----

  function After(t: Tui, steps: seq<Step>): Tui
    decreases |steps|
  {
    if steps == [] then t else After(Next(t, steps[0]), steps[1..])
  }

  predicate AtLaunch(t: Tui) {
    t.deploy == None && t.busy == None && t.trace == [] && t.input == Elsewhere && t.pendingDeploy == None
    && t.lastDeploys == map[]
  }

  lemma {:induction false} RunKeepsInvariant(t: Tui, steps: seq<Step>)
    requires Invariant(t)
    ensures Invariant(After(t, steps))
    decreases |steps|
  {
    if steps != [] {
      StepKeepsInvariant(t, steps[0]);
      RunKeepsInvariant(Next(t, steps[0]), steps[1..]);
    }
  }

  /** Over every run: the events so far are ones a batch allows, the live session is the
      host the batch has reached, and its progress accounts for the whole confirmed list. */
  lemma BatchesRunInOrder(t: Tui, steps: seq<Step>)
    requires AtLaunch(t)
    ensures var now := After(t, steps);
            && !PhaseOf(now.trace).Broken?
            && SessionFits(now)
            && (now.deploy.Some? ==>
                  now.deploy.value.done + 1 + |now.deploy.value.queue| == now.deploy.value.total)
  {
    RunKeepsInvariant(t, steps);
  }

  lemma PrefixStep(trace: seq<Event>, n: nat)
    requires n < |trace|
    ensures PhaseOf(trace[..n + 1]) == Advance(PhaseOf(trace[..n]), trace[n])
  {
    PhaseStep(trace[..n], trace[n]);
    assert trace[..n + 1] == trace[..n] + [trace[n]];
  }

  lemma {:induction false} PrefixNotBroken(trace: seq<Event>, n: nat)
    requires !PhaseOf(trace).Broken? && n <= |trace|
    ensures !PhaseOf(trace[..n]).Broken?
    decreases |trace| - n
  {
    if n == |trace| {
      assert trace[..n] == trace;
    } else {
      PrefixNotBroken(trace, n + 1);
      PrefixStep(trace, n);
    }
  }

  predicate Stops(e: Event) { e.Aborted? || (e.Ended? && e.code != 0) }
  predicate EndsHost(e: Event) { e.Aborted? || e.Ended? }
  predicate Takes(e: Event) { e.Started? || e.PassedOver? }

  // ---- what a run of the TUI does to hosts ----

  lemma {:induction false} StartNextAdds(t: Tui, queue: seq<Name>, mode: Mode, sel: ProfileSel, total: nat, done: nat)
    ensures var t' := StartNext(t, queue, mode, sel, total, done);
            && t.trace <= t'.trace && t'.nodes == t.nodes
            && forall i | |t.trace| <= i < |t'.trace| :: Takes(t'.trace[i]) && t'.trace[i].known == t.nodes
    decreases |queue|
  {
    if queue != [] && !Deployable(t.nodes, queue[0], sel) {
      StartNextAdds(t.(trace := t.trace + [PassedOver(queue[0], t.nodes)]), queue[1..], mode, sel, total, done + 1);
    }
  }

  lemma {:induction false} LearnKeeps(nodes: seq<Node>, found: seq<Node>, h: Name)
    ensures nodes <= Learn(nodes, found)
    ensures NodeOf(nodes, h).Some? ==> NodeOf(Learn(nodes, found), h) == NodeOf(nodes, h)
    decreases |found|
  {
    if found != [] {
      var next := if NodeOf(nodes, found[0].name).None? then nodes + [found[0]] else nodes;
      AppendKeeps(nodes, found[0], h);
      LearnKeeps(next, found[1..], h);
    }
  }

  lemma {:induction false} AppendKeeps(nodes: seq<Node>, node: Node, h: Name)
    ensures NodeOf(nodes, h).Some? ==> NodeOf(nodes + [node], h) == NodeOf(nodes, h)
  {
    if nodes != [] {
      assert (nodes + [node])[1..] == nodes[1..] + [node];
      AppendKeeps(nodes[1..], node, h);
    }
  }

  /** A step only adds events, judges every host it takes by the nodes known then, and never
      unlearns or changes a node: a host that could be deployed still can. */
  lemma StepAdds(t: Tui, e: Step, h: Name, sel: ProfileSel)
    ensures var t' := Next(t, e);
            && t.trace <= t'.trace
            && (forall i | |t.trace| <= i < |t'.trace| && Takes(t'.trace[i]) :: t'.trace[i].known == t.nodes)
            && t.nodes <= t'.nodes && (Deployable(t.nodes, h, sel) ==> Deployable(t'.nodes, h, sel))
  {
    match e {
      case ConfirmStep =>
        if t.input.ConfirmDeploy? {
          ConfirmedAdds(t.(input := Elsewhere), t.input.plan);
        }
      case PasswordStep =>
        if t.input.SudoPassword? && t.pendingDeploy.Some? {
          ConfirmedAdds(t.(input := Elsewhere, passwordCached := true, pendingDeploy := None), t.pendingDeploy.value);
        }
      case ExitStep(code) => ExitAdds(t, code);
      case DiscoverStep(found) => LearnKeeps(t.nodes, found, h);
      case _ =>
    }
  }

  lemma ExitAdds(t: Tui, code: int)
    ensures var t' := OnExit(t, code);
            && t.trace <= t'.trace && t'.nodes == t.nodes
            && forall i | |t.trace| <= i < |t'.trace| && Takes(t'.trace[i]) :: t'.trace[i].known == t.nodes
  {
    if t.deploy.Some? {
      var s := t.deploy.value;
      StartNextAdds(Close(t, s, code, Ended(s.current, code)).(input := LeavePrompt(t.input)),
                    s.queue, s.mode, s.profile, s.total, s.done + 1);
    }
  }

  lemma ConfirmedAdds(t: Tui, plan: Plan)
    ensures var t' := RunConfirmed(t, plan);
            && t.trace + [Confirmed(plan)] <= t'.trace && t'.nodes == t.nodes
            && forall i | |t.trace| < i < |t'.trace| :: Takes(t'.trace[i]) && t'.trace[i].known == t.nodes
  {
    StartNextAdds(t.(trace := t.trace + [Confirmed(plan)]), plan.hosts, plan.mode, plan.profile,
                  |plan.hosts|, 0);
  }

  lemma {:induction false} RunAdds(t: Tui, steps: seq<Step>)
    ensures t.trace <= After(t, steps).trace
    decreases |steps|
  {
    if steps != [] {
      StepAdds(t, steps[0], "", All);
      RunAdds(Next(t, steps[0]), steps[1..]);
    }
  }

  lemma {:induction false} AfterTwice(t: Tui, a: seq<Step>, b: seq<Step>)
    ensures After(After(t, a), b) == After(t, a + b)
    decreases |a|
  {
    if a == [] {
      assert a + b == b;
    } else {
      assert (a + b)[1..] == a[1..] + b;
      AfterTwice(Next(t, a[0]), a[1..], b);
    }
  }

  lemma AfterOneMore(t: Tui, a: seq<Step>, e: Step, b: seq<Step>)
    ensures After(t, a + [e] + b) == After(Next(After(t, a), e), b)
  {
    AfterTwice(t, a, [e] + b);
    assert a + [e] + b == a + ([e] + b) && ([e] + b)[1..] == b;
  }

  /** A non-zero exit, a spawn error or a cancel. */
  predicate StopsBatch(e: Step) {
    (e.ExitStep? && e.code != 0) || e.ErrorStep? || e.CancelStep?
  }

  /** Stop on failure: whenever the child of a live session exits non-zero, cannot be
      spawned, or is cancelled, that host's end is all the step does, the session is gone,
      and whatever happens next to any host, in any continuation, begins with a new
      confirmation. */
  lemma StopMeansStop(t: Tui, before: seq<Step>, e: Step, rest: seq<Step>)
    requires AtLaunch(t) && StopsBatch(e) && After(t, before).deploy.Some?
    ensures var live, stopped, later := After(t, before), Next(After(t, before), e), After(t, before + [e] + rest);
            var n := |live.trace|;
            && stopped.deploy.None?
            && |stopped.trace| == n + 1 && live.trace <= stopped.trace <= later.trace
            && (var host := live.deploy.value.current;
                stopped.trace[n] == if e.CancelStep? then Aborted(host) else Ended(host, if e.ExitStep? then e.code else -1))
            && (|later.trace| > n + 1 ==> later.trace[n + 1].Confirmed?)
  {
    var stopped := Next(After(t, before), e);
    AfterOneMore(t, before, e, rest);
    RunAdds(stopped, rest);
    BatchesRunInOrder(t, before + [e] + rest);
    var trace, n := After(t, before + [e] + rest).trace, |After(t, before).trace|;
    if |trace| > n + 1 {
      assert trace[n] == stopped.trace[n];
      AfterStop(trace, n);
    }
  }

  lemma AfterStop(trace: seq<Event>, i: nat)
    requires !PhaseOf(trace).Broken? && i + 1 < |trace| && Stops(trace[i])
    ensures trace[i + 1].Confirmed?
  {
    PrefixStep(trace, i);
    PrefixNotBroken(trace, i + 1);
    PrefixStep(trace, i + 1);
    PrefixNotBroken(trace, i + 2);
  }

  /** Over every run: no host is started, and no batch confirmed, over a live one. What
      follows a start is the end of that same host. */
  lemma OneAtATime(t: Tui, steps: seq<Step>, i: nat)
    requires AtLaunch(t) && i + 1 < |After(t, steps).trace| && After(t, steps).trace[i].Started?
    ensures var trace := After(t, steps).trace;
            EndsHost(trace[i + 1]) && trace[i + 1].host == trace[i].host
  {
    BatchesRunInOrder(t, steps);
    var trace := After(t, steps).trace;
    PrefixStep(trace, i);
    PrefixNotBroken(trace, i + 1);
    PrefixStep(trace, i + 1);
    PrefixNotBroken(trace, i + 2);
  }

  /** Hosts taken off the list, in order. */
  function Taken(events: seq<Event>): seq<Name> {
    if events == [] then []
    else if Takes(events[|events| - 1]) then
      Taken(events[..|events| - 1]) + [events[|events| - 1].host]
    else Taken(events[..|events| - 1])
  }

  /** The hosts taken are a prefix of the list, ending where the batch stands. */
  predicate Tracks(plan: Plan, taken: seq<Name>, p: Phase) {
    && taken <= plan.hosts
    && (p.Taking? || p.Live? ==> p.plan == plan && |taken| == if p.Live? then p.k + 1 else p.k)
  }

  lemma TracksStep(plan: Plan, taken: seq<Name>, p: Phase, e: Event)
    requires Tracks(plan, taken, p) && !e.Confirmed? && !Advance(p, e).Broken?
    ensures Tracks(plan, if Takes(e) then taken + [e.host] else taken, Advance(p, e))
    ensures Takes(e) ==> (e.Started? <==> Deployable(e.known, e.host, plan.profile))
    ensures e.Started? ==> e.mode == plan.mode && e.profile == plan.profile
  {
  }

  lemma TakenStep(events: seq<Event>, e: Event)
    ensures Taken(events + [e]) == if Takes(e) then Taken(events) + [e.host] else Taken(events)
  {
    assert (events + [e])[..|events|] == events;
  }

  lemma FirstPhase(trace: seq<Event>, i: nat)
    requires !PhaseOf(trace).Broken? && i < |trace| && trace[i].Confirmed?
    ensures Tracks(trace[i].plan, [], PhaseOf(trace[..i + 1]))
  {
    PrefixStep(trace, i);
    PrefixNotBroken(trace, i + 1);
  }

  lemma SliceStep(trace: seq<Event>, i: nat, j: nat)
    requires i <= j < |trace|
    ensures trace[i..j + 1] == trace[i..j] + [trace[j]]
  {
  }

  lemma {:induction false} TakenTracks(trace: seq<Event>, i: nat, j: nat)
    requires !PhaseOf(trace).Broken? && i < j <= |trace| && trace[i].Confirmed?
    requires forall k | i < k < j :: !trace[k].Confirmed?
    ensures Tracks(trace[i].plan, Taken(trace[i + 1..j]), PhaseOf(trace[..j]))
    decreases j
  {
    if i + 1 == j {
      assert trace[i + 1..j] == [];
      FirstPhase(trace, i);
    } else {
      TakenTracks(trace, i, j - 1);
      TrackedOn(trace, i, j - 1);
    }
  }

  lemma TrackedOn(trace: seq<Event>, i: nat, j: nat)
    requires !PhaseOf(trace).Broken? && i < j < |trace| && trace[i].Confirmed? && !trace[j].Confirmed?
    requires Tracks(trace[i].plan, Taken(trace[i + 1..j]), PhaseOf(trace[..j]))
    ensures Tracks(trace[i].plan, Taken(trace[i + 1..j + 1]), PhaseOf(trace[..j + 1]))
  {
    TakenOneMore(trace, i + 1, j);
    PrefixStep(trace, j);
    PrefixNotBroken(trace, j + 1);
    TracksStep(trace[i].plan, Taken(trace[i + 1..j]), PhaseOf(trace[..j]), trace[j]);
  }

  lemma TakenOneMore(trace: seq<Event>, i: nat, j: nat)
    requires i <= j < |trace|
    ensures Taken(trace[i..j + 1]) ==
            if Takes(trace[j]) then Taken(trace[i..j]) + [trace[j].host] else Taken(trace[i..j])
  {
    SliceStep(trace, i, j);
    TakenStep(trace[i..j], trace[j]);
  }

  /** Over every run: between two confirmations the hosts taken are a prefix of the confirmed
      list, in its order. */
  lemma TakenInConfirmedOrder(t: Tui, steps: seq<Step>, i: nat, j: nat)
    requires AtLaunch(t) && i < j <= |After(t, steps).trace| && After(t, steps).trace[i].Confirmed?
    requires forall k | i < k < j :: !After(t, steps).trace[k].Confirmed?
    ensures var trace := After(t, steps).trace;
            && Taken(trace[i + 1..j]) <= trace[i].plan.hosts
            && Tracks(trace[i].plan, Taken(trace[i + 1..j]), PhaseOf(trace[..j]))
  {
    BatchesRunInOrder(t, steps);
    TakenTracks(After(t, steps).trace, i, j);
  }

  /** And a host taken is started exactly when, among the nodes known at that moment, it is
      one that has the profile chosen at the confirmation; and then with the mode and the
      profile that were confirmed. */
  lemma StartedExactlyWhenDeployable(t: Tui, steps: seq<Step>, i: nat, k: nat)
    requires AtLaunch(t) && i < k < |After(t, steps).trace|
    requires After(t, steps).trace[i].Confirmed? && Takes(After(t, steps).trace[k])
    requires forall x | i < x < k :: !After(t, steps).trace[x].Confirmed?
    ensures var trace := After(t, steps).trace;
            && (trace[k].Started? <==> Deployable(trace[k].known, trace[k].host, trace[i].plan.profile))
            && (trace[k].Started? ==> trace[k].mode == trace[i].plan.mode && trace[k].profile == trace[i].plan.profile)
  {
    BatchesRunInOrder(t, steps);
    var trace := After(t, steps).trace;
    TakenTracks(trace, i, k);
    PrefixStep(trace, k);
    PrefixNotBroken(trace, k + 1);
    TracksStep(trace[i].plan, Taken(trace[i + 1..k]), PhaseOf(trace[..k]), trace[k]);
  }

  /** A success goes on: the host's end is recorded with exit 0, and the next session is for
      the first host of the queue that can be deployed, under the same mode and profile; there
      is none exactly if no queued host can be. */
  lemma SuccessGoesOn(t: Tui, before: seq<Step>)
    requires AtLaunch(t) && After(t, before).deploy.Some?
    ensures var live := After(t, before);
            var s, next := live.deploy.value, Next(live, ExitStep(0));
            && live.trace + [Ended(s.current, 0)] <= next.trace
            && (next.deploy.None? <==> forall h | h in s.queue :: !Deployable(live.nodes, h, s.profile))
            && (next.deploy.Some? ==>
                  var s' := next.deploy.value;
                  && s'.mode == s.mode && s'.profile == s.profile
                  && exists j :: FirstDeployable(live.nodes, s.queue, s.profile, j)
                                 && s'.current == s.queue[j] && s'.queue == s.queue[j + 1..])
  {
    var live := After(t, before);
    var s := live.deploy.value;
    var closed := Close(live, s, 0, Ended(s.current, 0)).(input := LeavePrompt(live.input));
    StartNextStops(closed, s.queue, s.mode, s.profile, s.total, s.done + 1);
    StartNextFirst(closed, s.queue, s.mode, s.profile, s.total, s.done + 1);
    StartNextAdds(closed, s.queue, s.mode, s.profile, s.total, s.done + 1);
  }

  /** Host j of the queue is the first that can be deployed. */
  predicate FirstDeployable(nodes: seq<Node>, queue: seq<Name>, sel: ProfileSel, j: int) {
    0 <= j < |queue| && Deployable(nodes, queue[j], sel) && forall i | 0 <= i < j :: !Deployable(nodes, queue[i], sel)
  }

  lemma {:induction false} StartNextFirst(t: Tui, queue: seq<Name>, mode: Mode, sel: ProfileSel, total: nat, done: nat)
    requires t.deploy.None?
    ensures var t' := StartNext(t, queue, mode, sel, total, done);
            t'.deploy.Some? ==>
              var s := t'.deploy.value;
              && s.mode == mode && s.profile == sel
              && exists j :: FirstDeployable(t.nodes, queue, sel, j) && s.current == queue[j] && s.queue == queue[j + 1..]
    decreases |queue|
  {
    if queue != [] {
      var t' := StartNext(t, queue, mode, sel, total, done);
      if Deployable(t.nodes, queue[0], sel) {
        assert FirstDeployable(t.nodes, queue, sel, 0);
      } else {
        var rest := queue[1..];
        StartNextFirst(t.(trace := t.trace + [PassedOver(queue[0], t.nodes)]), rest, mode, sel, total, done + 1);
        if t'.deploy.Some? {
          var j :| FirstDeployable(t.nodes, rest, sel, j) && t'.deploy.value.current == rest[j]
                   && t'.deploy.value.queue == rest[j + 1..];
          assert forall i | 0 < i < |queue| :: queue[i] == rest[i - 1];
          assert FirstDeployable(t.nodes, queue, sel, j + 1) && rest[j + 1..] == queue[j + 2..];
        }
      }
    }
  }

  /** Discovery makes every node it finds known, the first of a name counting, and changes
      nothing about those known before. */
  lemma {:induction false} DiscoveryLearnsAll(nodes: seq<Node>, found: seq<Node>, h: Name)
    ensures NodeOf(Learn(nodes, found), h) == if NodeOf(nodes, h).Some? then NodeOf(nodes, h) else NodeOf(found, h)
    decreases |found|
  {
    if found != [] {
      var first := found[0];
      var next := if NodeOf(nodes, first.name).None? then nodes + [first] else nodes;
      AppendedNode(nodes, first, h);
      DiscoveryLearnsAll(next, found[1..], h);
    }
  }

  lemma {:induction false} AppendedNode(nodes: seq<Node>, node: Node, h: Name)
    ensures NodeOf(nodes + [node], h) ==
            if NodeOf(nodes, h).Some? then NodeOf(nodes, h) else if node.name == h then Some(node) else None
  {
    if nodes == [] {
      assert [] + [node] == [node] && [node][1..] == [];
    } else {
      assert (nodes + [node])[1..] == nodes[1..] + [node];
      AppendedNode(nodes[1..], node, h);
    }
  }

  // ---- what is deployed is what was asked for ----

  /** Nothing is asked for over a live session, with nobody to deploy, or for a boot of
      home-manager alone. */
  predicate MayAsk(t: Tui, mode: Mode) {
    t.deploy.None? && !(mode == Boot && t.profileSel == Home) && (t.marked != [] || t.cursor.Some?)
  }

  /** A request opens the confirmation for the marked hosts, or else the one under the cursor,
      with the mode asked for and the profile selected; or it does nothing at all. */
  lemma RequestOpensExactly(t: Tui, mode: Mode)
    ensures var t' := Next(t, RequestStep(mode));
            if MayAsk(t, mode)
            then t' == t.(input := ConfirmDeploy(Plan(if t.marked != [] then t.marked else [t.cursor.value], mode, t.profileSel)))
            else t' == t
  {
  }

  /** Step k of the run asked for this plan: a request in that mode, by the hosts marked or
      pointed at and the profile selected at that moment. */
  ghost predicate AskedAt(t: Tui, steps: seq<Step>, k: int, plan: Plan) {
    && 0 <= k < |steps| && steps[k].RequestStep? && steps[k].mode == plan.mode
    && var asking := After(t, steps[..k]);
       && MayAsk(asking, plan.mode) && plan.profile == asking.profileSel
       && plan.hosts == if asking.marked != [] then asking.marked else [asking.cursor.value]
  }

  ghost predicate Asked(t: Tui, steps: seq<Step>, plan: Plan) { exists k :: AskedAt(t, steps, k, plan) }

  /** Where a plan may come from in one step. */
  lemma StepTakesPlansOver(t: Tui, e: Step)
    ensures var t' := Next(t, e);
            && (t'.input.ConfirmDeploy? ==>
                  || t.input == t'.input
                  || (e.RequestStep? && MayAsk(t, e.mode) && t'.input.plan.mode == e.mode
                      && t'.input.plan.profile == t.profileSel
                      && t'.input.plan.hosts == if t.marked != [] then t.marked else [t.cursor.value]))
            && (t'.pendingDeploy.Some? ==>
                  t'.pendingDeploy == t.pendingDeploy || t.input == ConfirmDeploy(t'.pendingDeploy.value))
  {
    match e {
      case ConfirmStep =>
        if t.input.ConfirmDeploy? {
          RunConfirmedLeaves(t.(input := Elsewhere), t.input.plan);
        }
      case PasswordStep =>
        if t.input.SudoPassword? && t.pendingDeploy.Some? {
          RunConfirmedLeaves(t.(input := Elsewhere, passwordCached := true, pendingDeploy := None), t.pendingDeploy.value);
        }
      case ExitStep(code) => ExitLeaves(t, code);
      case _ =>
    }
  }

  lemma {:induction false} StartNextLeaves(t: Tui, queue: seq<Name>, mode: Mode, sel: ProfileSel, total: nat, done: nat)
    ensures var t' := StartNext(t, queue, mode, sel, total, done);
            t'.input == t.input && t'.pendingDeploy == t.pendingDeploy && t'.passwordCached == t.passwordCached
    decreases |queue|
  {
    if queue != [] && !Deployable(t.nodes, queue[0], sel) {
      StartNextLeaves(t.(trace := t.trace + [PassedOver(queue[0], t.nodes)]), queue[1..], mode, sel, total, done + 1);
    }
  }

  lemma RunConfirmedLeaves(t: Tui, plan: Plan)
    ensures var t' := RunConfirmed(t, plan);
            t'.input == t.input && t'.pendingDeploy == t.pendingDeploy && t'.passwordCached == t.passwordCached
  {
    StartNextLeaves(t.(trace := t.trace + [Confirmed(plan)]), plan.hosts, plan.mode, plan.profile, |plan.hosts|, 0);
  }

  lemma ExitLeaves(t: Tui, code: int)
    ensures var t' := OnExit(t, code);
            t'.input == (if t.deploy.Some? then LeavePrompt(t.input) else t.input) && t'.pendingDeploy == t.pendingDeploy
  {
    if t.deploy.Some? {
      var s := t.deploy.value;
      StartNextLeaves(Close(t, s, code, Ended(s.current, code)).(input := LeavePrompt(t.input)),
                      s.queue, s.mode, s.profile, s.total, s.done + 1);
    }
  }

  /** Every batch a step confirms is the one the confirmation showed, or the one stashed while
      the password was asked for; and with interactive sudo none begins without a password. */
  lemma StepConfirmsWhatIsShown(t: Tui, e: Step, i: nat)
    requires |t.trace| <= i < |Next(t, e).trace| && Next(t, e).trace[i].Confirmed?
    ensures var plan := Next(t, e).trace[i].plan;
            || (e.ConfirmStep? && t.input == ConfirmDeploy(plan) && (t.interactiveSudo ==> t.passwordCached))
            || (e.PasswordStep? && t.input.SudoPassword? && t.pendingDeploy == Some(plan))
    ensures Next(t, e).passwordCached || !t.interactiveSudo
  {
    match e {
      case ConfirmStep =>
        ConfirmedAdds(t.(input := Elsewhere), t.input.plan);
        RunConfirmedLeaves(t.(input := Elsewhere), t.input.plan);
      case PasswordStep =>
        var t' := t.(input := Elsewhere, passwordCached := true, pendingDeploy := None);
        ConfirmedAdds(t', t.pendingDeploy.value);
        RunConfirmedLeaves(t', t.pendingDeploy.value);
      case ExitStep(code) =>
        var s := t.deploy.value;
        StartNextAdds(Close(t, s, code, Ended(s.current, code)).(input := LeavePrompt(t.input)),
                      s.queue, s.mode, s.profile, s.total, s.done + 1);
      case _ =>
    }
  }

  /** And it does begin: a confirmed plan is confirmed as shown at once, or stashed as shown
      exactly if a password is still needed; the password then confirms what was stashed. */
  lemma ConfirmationsCount(t: Tui)
    ensures t.input.ConfirmDeploy? ==>
              var t' := Next(t, ConfirmStep);
              if t.interactiveSudo && !t.passwordCached
              then t' == t.(input := SudoPassword, pendingDeploy := Some(t.input.plan))
              else t.trace + [Confirmed(t.input.plan)] <= t'.trace
    ensures t.input.SudoPassword? && t.pendingDeploy.Some? ==>
              t.trace + [Confirmed(t.pendingDeploy.value)] <= Next(t, PasswordStep).trace
  {
    if t.input.ConfirmDeploy? {
      ConfirmedAdds(t.(input := Elsewhere), t.input.plan);
    }
    if t.input.SudoPassword? && t.pendingDeploy.Some? {
      ConfirmedAdds(t.(input := Elsewhere, passwordCached := true, pendingDeploy := None), t.pendingDeploy.value);
    }
  }

  /** Leaving a prompt starts nothing, forgets the password, and drops what was stashed behind
      it: no password given later starts it. */
  lemma DismissalDropsTheBatch(t: Tui)
    requires t.input.SudoPassword?
    ensures var t' := Next(t, DismissStep);
            && t'.deploy == t.deploy && t'.trace == t.trace && !t'.passwordCached && t'.pendingDeploy.None?
            && Next(t', PasswordStep) == t'
  {
  }

  /** What is open, stashed or was ever confirmed has been asked for. */
  ghost predicate AllAsked(t: Tui, steps: seq<Step>, now: Tui) {
    && (now.input.ConfirmDeploy? ==> Asked(t, steps, now.input.plan))
    && (now.pendingDeploy.Some? ==> Asked(t, steps, now.pendingDeploy.value))
    && (forall i | 0 <= i < |now.trace| && now.trace[i].Confirmed? :: Asked(t, steps, now.trace[i].plan))
  }

  lemma AskedBefore(t: Tui, steps: seq<Step>, e: Step, plan: Plan)
    requires Asked(t, steps, plan)
    ensures Asked(t, steps + [e], plan)
  {
    var k :| AskedAt(t, steps, k, plan);
    assert (steps + [e])[..k] == steps[..k] && (steps + [e])[k] == steps[k];
    assert AskedAt(t, steps + [e], k, plan);
  }

  lemma AskedNow(t: Tui, steps: seq<Step>, e: Step, plan: Plan)
    requires e.RequestStep? && e.mode == plan.mode && MayAsk(After(t, steps), e.mode)
    requires var asking := After(t, steps);
             && plan.profile == asking.profileSel
             && plan.hosts == if asking.marked != [] then asking.marked else [asking.cursor.value]
    ensures Asked(t, steps + [e], plan)
  {
    assert (steps + [e])[..|steps|] == steps;
    assert AskedAt(t, steps + [e], |steps|, plan);
  }

  lemma AllAskedStep(t: Tui, steps: seq<Step>, e: Step)
    requires AllAsked(t, steps, After(t, steps))
    ensures AllAsked(t, steps + [e], Next(After(t, steps), e))
  {
    var now := After(t, steps);
    var next := Next(now, e);
    forall plan | Asked(t, steps, plan) ensures Asked(t, steps + [e], plan) {
      AskedBefore(t, steps, e, plan);
    }
    StepTakesPlansOver(now, e);
    if next.input.ConfirmDeploy? && now.input != next.input {
      AskedNow(t, steps, e, next.input.plan);
    }
    StepAdds(now, e, "", All);
    forall i | 0 <= i < |next.trace| && next.trace[i].Confirmed? ensures Asked(t, steps + [e], next.trace[i].plan) {
      if i >= |now.trace| {
        StepConfirmsWhatIsShown(now, e, i);
      } else {
        assert next.trace[i] == now.trace[i];
      }
    }
  }

  lemma {:induction false} EverythingIsAsked(t: Tui, steps: seq<Step>)
    requires AtLaunch(t)
    ensures AllAsked(t, steps, After(t, steps))
    decreases |steps|
  {
    if steps != [] {
      var before, e := steps[..|steps| - 1], steps[|steps| - 1];
      EverythingIsAsked(t, before);
      AllAskedStep(t, before, e);
      AfterOneMore(t, before, e, []);
      assert before + [e] + [] == steps && before + [e] == steps;
    }
  }

  lemma {:induction false} PhaseIsConfirmed(trace: seq<Event>)
    ensures var p := PhaseOf(trace);
            p.Taking? || p.Live? ==> exists i :: 0 <= i < |trace| && trace[i] == Confirmed(p.plan)
    decreases |trace|
  {
    if trace != [] {
      var before, e := trace[..|trace| - 1], trace[|trace| - 1];
      PhaseIsConfirmed(before);
      var p, q := PhaseOf(trace), PhaseOf(before);
      if p.Taking? || p.Live? {
        if e.Confirmed? {
          assert trace[|trace| - 1] == Confirmed(p.plan);
        } else {
          var i :| 0 <= i < |before| && before[i] == Confirmed(q.plan);
          assert trace[i] == Confirmed(p.plan);
        }
      }
    }
  }

  /** Over every run, nothing is deployed but what was asked for: an open confirmation, a plan
      stashed for the password, every confirmed batch and the live session carry the hosts
      that were marked (or the one under the cursor), the mode that was asked for and the
      profile that was selected when a request was made that could be made. */
  lemma PlansAreAskedFor(t: Tui, steps: seq<Step>)
    requires AtLaunch(t)
    ensures var now := After(t, steps);
            && (now.input.ConfirmDeploy? ==> Asked(t, steps, now.input.plan))
            && (now.pendingDeploy.Some? ==> Asked(t, steps, now.pendingDeploy.value))
            && (forall i | 0 <= i < |now.trace| && now.trace[i].Confirmed? :: Asked(t, steps, now.trace[i].plan))
            && (now.deploy.Some? ==>
                  var s := now.deploy.value;
                  exists hosts :: Asked(t, steps, Plan(hosts, s.mode, s.profile)) && s.done < |hosts|
                                  && s.current == hosts[s.done] && s.queue == hosts[s.done + 1..])
  {
    var now := After(t, steps);
    EverythingIsAsked(t, steps);
    BatchesRunInOrder(t, steps);
    if now.deploy.Some? {
      PhaseIsConfirmed(now.trace);
      var p := PhaseOf(now.trace);
      assert Asked(t, steps, p.plan) && p.plan == Plan(p.plan.hosts, p.plan.mode, p.plan.profile);
    }
  }

  /** An open confirmation shows what the last request that opened one asked for: since that
      request it has stayed open unchanged. */
  lemma {:induction false} ConfirmationIsTheLastAsked(t: Tui, steps: seq<Step>)
    requires AtLaunch(t) && After(t, steps).input.ConfirmDeploy?
    ensures var plan := After(t, steps).input.plan;
            exists k :: AskedAt(t, steps, k, plan)
                        && forall j | k < j <= |steps| :: After(t, steps[..j]).input == ConfirmDeploy(plan)
    decreases |steps|
  {
    assert steps != [];
    var before, e := steps[..|steps| - 1], steps[|steps| - 1];
    var now, next := After(t, before), After(t, steps);
    AfterOneMore(t, before, e, []);
    assert before + [e] + [] == steps && before + [e] == steps;
    StepTakesPlansOver(now, e);
    var plan := next.input.plan;
    assert steps[..|steps|] == steps;
    if now.input == next.input {
      ConfirmationIsTheLastAsked(t, before);
      var k :| AskedAt(t, before, k, plan)
               && forall j | k < j <= |before| :: After(t, before[..j]).input == ConfirmDeploy(plan);
      assert forall j | 0 <= j <= |before| :: steps[..j] == before[..j];
      assert AskedAt(t, steps, k, plan);
    } else {
      assert steps[..|before|] == before;
      assert AskedAt(t, steps, |before|, plan);
    }
  }

  // ---- what is remembered of each host ----

  /** How the last deploy of the host ended: under the mode and profile of its batch. */
  function LastResult(trace: seq<Event>, host: Name): Option<LastDeploy>
    decreases |trace|
  {
    if trace == [] then None
    else
      var e, before := trace[|trace| - 1], trace[..|trace| - 1];
      var p, code := PhaseOf(before), if e.Ended? then e.code else -1;
      if EndsHost(e) && e.host == host && p.Live? then Some(LastDeploy(p.plan.mode, p.plan.profile, code, code == 0))
      else LastResult(before, host)
  }

  /** A host has an entry exactly if a deploy of it ended, and the entry says how the last one did. */
  ghost predicate Remembers(t: Tui) {
    forall h ::
      match LastResult(t.trace, h)
      case None => h !in t.lastDeploys
      case Some(r) => h in t.lastDeploys && t.lastDeploys[h] == r
  }

  lemma LastResultStep(trace: seq<Event>, e: Event, h: Name)
    ensures var p, code := PhaseOf(trace), if e.Ended? then e.code else -1;
            LastResult(trace + [e], h) ==
            if EndsHost(e) && e.host == h && p.Live? then Some(LastDeploy(p.plan.mode, p.plan.profile, code, code == 0))
            else LastResult(trace, h)
  {
    assert (trace + [e])[..|trace|] == trace;
  }

  lemma Noted(t: Tui, t': Tui, e: Event)
    requires Remembers(t) && !EndsHost(e) && t'.trace == t.trace + [e] && t'.lastDeploys == t.lastDeploys
    ensures Remembers(t')
  {
    forall h ensures LastResult(t'.trace, h) == LastResult(t.trace, h) {
      LastResultStep(t.trace, e, h);
    }
  }

  lemma {:induction false} StartNextRemembers(t: Tui, queue: seq<Name>, mode: Mode, sel: ProfileSel,
                                              total: nat, done: nat)
    requires Remembers(t)
    ensures Remembers(StartNext(t, queue, mode, sel, total, done))
    decreases |queue|
  {
    if queue != [] {
      if Deployable(t.nodes, queue[0], sel) {
        Noted(t, StartNext(t, queue, mode, sel, total, done), Started(queue[0], mode, sel, t.nodes));
      } else {
        var t' := t.(trace := t.trace + [PassedOver(queue[0], t.nodes)]);
        Noted(t, t', PassedOver(queue[0], t.nodes));
        StartNextRemembers(t', queue[1..], mode, sel, total, done + 1);
      }
    }
  }

  lemma RunConfirmedRemembers(t: Tui, plan: Plan)
    requires Remembers(t)
    ensures Remembers(RunConfirmed(t, plan))
  {
    var t' := t.(trace := t.trace + [Confirmed(plan)]);
    Noted(t, t', Confirmed(plan));
    StartNextRemembers(t', plan.hosts, plan.mode, plan.profile, |plan.hosts|, 0);
  }

  lemma CloseRemembers(t: Tui, s: Session, code: int, e: Event)
    requires Remembers(t) && SessionFits(t) && t.deploy == Some(s)
    requires e == Ended(s.current, code) || (e == Aborted(s.current) && code == -1)
    ensures Remembers(Close(t, s, code, e))
  {
    forall h ensures LastResult(t.trace + [e], h) ==
                     if h == s.current then Some(LastDeploy(s.mode, s.profile, code, code == 0))
                     else LastResult(t.trace, h)
    {
      LastResultStep(t.trace, e, h);
    }
  }

  lemma StepRemembers(t: Tui, e: Step)
    requires Invariant(t) && Remembers(t)
    ensures Remembers(Next(t, e))
  {
    match e {
      case ConfirmStep =>
        if t.input.ConfirmDeploy? {
          RunConfirmedRemembers(t.(input := Elsewhere), t.input.plan);
        }
      case PasswordStep =>
        if t.input.SudoPassword? && t.pendingDeploy.Some? {
          RunConfirmedRemembers(t.(input := Elsewhere, passwordCached := true, pendingDeploy := None),
                                t.pendingDeploy.value);
        }
      case ExitStep(code) =>
        if t.deploy.Some? {
          var s := t.deploy.value;
          CloseRemembers(t, s, code, Ended(s.current, code));
          StartNextRemembers(Close(t, s, code, Ended(s.current, code)).(input := LeavePrompt(t.input)),
                             s.queue, s.mode, s.profile, s.total, s.done + 1);
        }
      case ErrorStep =>
        if t.deploy.Some? {
          CloseRemembers(t, t.deploy.value, -1, Ended(t.deploy.value.current, -1));
        }
      case CancelStep =>
        if t.deploy.Some? {
          CloseRemembers(t, t.deploy.value, -1, Aborted(t.deploy.value.current));
        }
      case _ =>
    }
  }

  /** Over every run, the per-host results shown are those of each host's last deploy. */
  lemma {:induction false} ResultsAreTheLast(t: Tui, steps: seq<Step>)
    requires AtLaunch(t) || (Invariant(t) && Remembers(t))
    ensures Remembers(After(t, steps))
    decreases |steps|
  {
    if steps != [] {
      StepRemembers(t, steps[0]);
      StepKeepsInvariant(t, steps[0]);
      ResultsAreTheLast(Next(t, steps[0]), steps[1..]);
    }
  }

  /** A step ends the batch of a live session and leaves the password cached exactly when the
      last child exited 0 and the rest of the queue is not empty but all of it undeployable. */
  lemma {:induction false} PasswordOutlivesBatchExactly(t: Tui, e: Step)
    requires Invariant(t) && t.deploy.Some?
    ensures Next(t, e).deploy.None? && Next(t, e).passwordCached <==>
            && t.passwordCached && e.ExitStep? && e.code == 0 && t.deploy.value.queue != []
            && forall h | h in t.deploy.value.queue :: !Deployable(t.nodes, h, t.deploy.value.profile)
  {
    if e.ExitStep? && e.code == 0 {
      var s := t.deploy.value;
      StartNextStops(Close(t, s, 0, Ended(s.current, 0)).(input := LeavePrompt(t.input)),
                     s.queue, s.mode, s.profile, s.total, s.done + 1);
    }
  }

  lemma {:induction false} StartNextStops(t: Tui, queue: seq<Name>, mode: Mode, sel: ProfileSel, total: nat, done: nat)
    requires t.deploy.None?
    ensures var t' := StartNext(t, queue, mode, sel, total, done);
            && t'.passwordCached == t.passwordCached
            && (t'.deploy.None? <==> forall h | h in queue :: !Deployable(t.nodes, h, sel))
    decreases |queue|
  {
    if queue != [] {
      assert queue[0] in queue && forall h :: h in queue <==> h == queue[0] || h in queue[1..];
      if !Deployable(t.nodes, queue[0], sel) {
        StartNextStops(t.(trace := t.trace + [PassedOver(queue[0], t.nodes)]), queue[1..], mode, sel, total, done + 1);
      }
    }
  }

  /** It does happen: a known host followed by an unknown one, deployed with interactive sudo. */
  lemma PasswordCanOutlive(t: Tui)
    requires AtLaunch(t) && t.nodes == [Node("a", map[], None)] && !t.passwordCached
    ensures var steps := [OtherStep(["a", "x"], None, All, true, false), RequestStep(Switch), ConfirmStep, PasswordStep,
                          ExitStep(0)];
            After(t, steps).deploy.None? && After(t, steps).passwordCached
  {
    var s0, s1, s2, s3, s4 := OtherStep(["a", "x"], None, All, true, false), RequestStep(Switch), ConfirmStep,
                              PasswordStep, ExitStep(0);
    var t1 := Next(t, s0);
    var t2 := Next(t1, s1);
    var t3 := Next(t2, s2);
    assert t3.input == SudoPassword && t3.pendingDeploy == Some(Plan(["a", "x"], Switch, All));
    var t4 := Next(t3, s3);
    assert NodeOf(t.nodes, "a").Some? && NodeOf(t.nodes, "x").None? by { assert t.nodes[1..] == []; }
    assert ["a", "x"][1..] == ["x"];
    assert t4.deploy == Some(Session("a", ["x"], Switch, All, 2, 0)) && t4.passwordCached;
    var t5 := Next(t4, s4);
    assert ["x"][1..] == [];
    assert t5.deploy.None? && t5.passwordCached;
    assert After(t5, []) == t5;
    assert After(t4, [s4]) == t5 by { assert [s4][1..] == []; }
    assert After(t3, [s3, s4]) == t5 by { assert [s3, s4][1..] == [s4]; }
    assert After(t2, [s2, s3, s4]) == t5 by { assert [s2, s3, s4][1..] == [s3, s4]; }
    assert After(t1, [s1, s2, s3, s4]) == t5 by { assert [s1, s2, s3, s4][1..] == [s2, s3, s4]; }
    assert [s0, s1, s2, s3, s4][1..] == [s1, s2, s3, s4];
  }

  // ---- the application object ----

  class App {
    var nodes: seq<Node>
    var deploy: Option<Session>
    var input: Input
    var pendingDeploy: Option<Plan>
    var profileSel: ProfileSel
    var marked: seq<Name>
    var cursor: Option<Name>
    var interactiveSudo: bool
    var passwordCached: bool
    var busyLabel: Option<Label>
    var lastDeploys: map<Name, LastDeploy>
    ghost var trace: seq<Event>

    ghost function View(): Tui
      reads this
    {
      Tui(nodes, deploy, input, pendingDeploy, profileSel, marked, cursor, interactiveSudo, passwordCached,
          busyLabel, lastDeploys, trace)
    }

    ghost predicate Valid()
      reads this
    {
      Invariant(View())
    }

    constructor (nodes: seq<Node>)
      ensures View().nodes == nodes && Valid() && AtLaunch(View())
    {
      this.nodes := nodes;
      deploy, input, pendingDeploy, busyLabel, cursor := None, Elsewhere, None, None, None;
      profileSel, marked, interactiveSudo, passwordCached := All, [], false, false;
      lastDeploys, trace := map[], [];
    }

    method RequestDeploy(mode: Mode)
      requires Valid()
      modifies this
      ensures Valid() && View() == Request(old(View()), mode)
      ensures input == if old(MayAsk(View(), mode))
                       then ConfirmDeploy(Plan(if old(marked) != [] then old(marked) else [old(cursor).value], mode, old(profileSel)))
                       else old(input)
    {
      if deploy.Some? {
        return;
      }
      if mode == Boot && profileSel == Home {
        return;
      }
      var hosts;
      if marked == [] {
        if cursor.None? {
          return;
        }
        hosts := [cursor.value];
      } else {
        hosts := marked;
      }
      input := ConfirmDeploy(Plan(hosts, mode, profileSel));
    }

    /** Merge discovered nodes into the list. */
    method Discover(found: seq<Node>)
      requires Valid()
      modifies this`nodes
      ensures Valid() && View() == Next(old(View()), DiscoverStep(found))
    {
      for i := 0 to |found|
        invariant View() == old(View()).(nodes := nodes)
        invariant Learn(old(nodes), found) == Learn(nodes, found[i..])
      {
        assert found[i..][1..] == found[i + 1..];
        if NodeOf(nodes, found[i].name).None? {
          nodes := nodes + [found[i]];
        }
      }
      StepKeepsInvariant(old(View()), DiscoverStep(found));
    }

    /** `y` in the confirmation popup. */
    method ConfirmYes()
      requires Valid()
      modifies this
      ensures Valid() && View() == Confirm(old(View()))
    {
      ConfirmFits(View());
      if !input.ConfirmDeploy? {
        return;
      }
      var plan := input.plan;
      input := Elsewhere;
      if interactiveSudo && !passwordCached {
        pendingDeploy := Some(plan);
        input := SudoPassword;
      } else {
        StartConfirmed(plan);
      }
    }

    /** Enter in a password prompt. */
    method SubmitPassword()
      requires Valid()
      modifies this
      ensures Valid() && View() == EnterPassword(old(View()))
    {
      PasswordFits(View());
      if input.SudoPassword? {
        passwordCached := true;
        input := Elsewhere;
        if pendingDeploy.Some? {
          var plan := pendingDeploy.value;
          pendingDeploy := None;
          StartConfirmed(plan);
        }
      } else if input.OtherPassword? {
        passwordCached := true;
        input := Elsewhere;
      }
    }

    method StartConfirmed(plan: Plan)
      modifies this
      ensures View() == RunConfirmed(old(View()), plan)
    {
      trace := trace + [Confirmed(plan)];
      StartNextInQueue(plan.hosts, plan.mode, plan.profile, |plan.hosts|, 0);
    }

    method StartNextInQueue(hosts: seq<Name>, mode: Mode, sel: ProfileSel, total: nat, alreadyDone: nat)
      modifies this`deploy, this`busyLabel, this`trace
      ensures View() == StartNext(old(View()), hosts, mode, sel, total, alreadyDone)
    {
      var queue, done := hosts, alreadyDone;
      while queue != []
        invariant deploy == old(deploy) && busyLabel == old(busyLabel)
        invariant StartNext(old(View()), hosts, mode, sel, total, alreadyDone) ==
                  StartNext(View(), queue, mode, sel, total, done)
        decreases |queue|
      {
        var name := queue[0];
        queue := queue[1..];
        var node := NodeOf(nodes, name);
        if node.None? || (sel == Home && "home" !in node.value.profiles)
           || (sel == System && "system" !in node.value.profiles) {
          trace := trace + [PassedOver(name, nodes)];
          done := done + 1;
          continue;
        }
        trace := trace + [Started(name, mode, sel, nodes)];
        busyLabel := Some(Label(done + 1, total, name));
        deploy := Some(Session(name, queue, mode, sel, total, done));
        return;
      }
    }

    /** Take the session and record how its host ended. */
    method TakeSession(code: int, ghost e: Event) returns (s: Session)
      requires deploy.Some?
      modifies this`deploy, this`busyLabel, this`lastDeploys, this`trace
      ensures s == old(deploy).value && View() == Close(old(View()), s, code, e)
    {
      s := deploy.value;
      deploy := None;
      busyLabel := None;
      lastDeploys := lastDeploys[s.current := LastDeploy(s.mode, s.profile, code, code == 0)];
      trace := trace + [e];
    }

    method HandleExit(code: int)
      requires Valid()
      modifies this
      ensures Valid() && View() == OnExit(old(View()), code)
    {
      OnExitFits(View(), code);
      if deploy.None? {
        return;
      }
      var s := TakeSession(code, Ended(deploy.value.current, code));
      if input.SudoPassword? || input.OtherPassword? {
        input := Elsewhere;
      }
      assert View() == Close(old(View()), s, code, Ended(s.current, code)).(input := LeavePrompt(old(input)));
      if code == 0 {
        if s.queue != [] {
          StartNextInQueue(s.queue, s.mode, s.profile, s.total, s.done + 1);
        } else {
          passwordCached := false;
        }
      } else {
        passwordCached := false;
      }
    }

    /** Esc in a prompt or the confirmation popup. */
    method DismissPrompt()
      requires Valid()
      modifies this
      ensures Valid() && View() == Dismiss(old(View()))
    {
      if input.SudoPassword? {
        passwordCached := false;
        pendingDeploy := None;
      } else if input.OtherPassword? {
        passwordCached := false;
      }
      input := Elsewhere;
    }

    method HandleSudoPrompt()
      requires Valid()
      modifies this
      ensures Valid() && View() == OnSudoPrompt(old(View()))
    {
      if deploy.Some? && !passwordCached {
        input := OtherPassword;
      }
    }

    method HandleError()
      requires Valid()
      modifies this
      ensures Valid() && View() == OnError(old(View()))
    {
      ErrorFits(View());
      if deploy.None? {
        return;
      }
      var _ := TakeSession(-1, Ended(deploy.value.current, -1));
      passwordCached := false;
      if input.SudoPassword? || input.OtherPassword? {
        input := Elsewhere;
      }
    }

    method CancelDeploy()
      requires Valid()
      modifies this
      ensures Valid() && View() == Cancel(old(View()))
    {
      CancelFits(View());
      if deploy.None? {
        return;
      }
      var _ := TakeSession(-1, Aborted(deploy.value.current));
      passwordCached := false;
    }
  }
}
