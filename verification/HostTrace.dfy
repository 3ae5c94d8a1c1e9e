/** The life of one (watch, host) pair as the agent sees it, and the agent's promises as
    statements about whole traces of events. */
module HostTrace {
  import opened AgentState
  import opened Flake
  import opened Runner
  import opened Planner

  /** `under` is the watch configuration the round ran under. */
  datatype Event =
    | Planned(rev: Rev, underApproval: bool)
    | Folded(under: WatchConfig, rev: Rev, time: nat, fate: Fate, run: HostRun, pushed: bool)
    | Granted
    | Revoked
    | Paused(on: bool)
    | Rechecked(verdict: Option<Unreachable>)
    | Probed(verdict: Option<Unreachable>)

  /** A round in flight; `underApproval` remembers the approval it was planned with. */
  datatype Flight = Flight(rev: Rev, ph: PlanHost, underApproval: bool)

  datatype View = View(hs: HostState, flight: Option<Flight>)

  const FRESH_VIEW := View(FRESH_HOST, None)

  function Miss(hs: HostState, u: Unreachable): HostState {
    hs.(unreachable := Some(Ssh(u.text)),
        offline := if hs.offline.Some? then Some(hs.offline.value.(kind := u.kind)) else None)
  }

  /** What `recheck_due` writes for one probed host. */
  function AfterRecheck(hs: HostState, verdict: Option<Unreachable>): HostState {
    match verdict
    case None => hs.(offline := None, unreachable := None)
    case Some(u) => Miss(hs, u)
  }

  /** What the startup validation writes for one probed host. */
  function AfterProbe(hs: HostState, verdict: Option<Unreachable>): HostState {
    match verdict
    case None => hs.(unreachable := None)
    case Some(u) => Miss(hs, u)
  }

  predicate Legal(h: Name, v: View, e: Event) {
    match e
    case Planned(rev, underApproval) =>
      v.flight.None? && Needs(v.hs, rev) && underApproval == v.hs.approved
    case Folded(under, rev, _, fate, run, pushed) =>
      && v.flight.Some? && v.flight.value.rev == rev
      && run == RunOf(under, v.flight.value.ph, fate)
      && pushed == Pushed(under, v.flight.value.ph, fate)
    case Granted => !v.hs.approved
    case Revoked => v.hs.approved
    case Rechecked(_) => v.hs.offline.Some?
    case Probed(_) => v.flight.None?
    case Paused(_) => true
  }

  function Apply(h: Name, v: View, e: Event): View {
    match e
    case Planned(rev, underApproval) => v.(flight := Some(Flight(rev, PlanEntry(h, v.hs), underApproval)))
    case Folded(_, rev, time, _, run, _) => View(Fold(v.hs, run, rev, time), None)
    case Granted => v.(hs := v.hs.(approved := true))
    case Revoked => v.(hs := v.hs.(approved := false))
    case Paused(on) => v.(hs := v.hs.(paused := on))
    case Rechecked(verdict) => v.(hs := AfterRecheck(v.hs, verdict))
    case Probed(verdict) => v.(hs := AfterProbe(v.hs, verdict))
  }

  type Trace = seq<Event>

  function Last(tr: Trace): Event
    requires tr != []
  {
    tr[|tr| - 1]
  }

  function Init(tr: Trace): Trace
    requires tr != []
  {
    tr[..|tr| - 1]
  }

  /** The view after a trace that starts from a host never seen before. */
  function After(h: Name, tr: Trace): View {
    if tr == [] then FRESH_VIEW else Apply(h, After(h, Init(tr)), Last(tr))
  }

  ghost predicate LegalAt(h: Name, tr: Trace, n: nat)
    requires n < |tr|
  {
    Legal(h, After(h, tr[..n]), tr[n])
  }

  /** Every event is one the state before it allows. */
  ghost predicate Valid(h: Name, tr: Trace) {
    forall n | 0 <= n < |tr| :: LegalAt(h, tr, n)
  }

  lemma Append(h: Name, tr: Trace, e: Event)
    requires Valid(h, tr) && Legal(h, After(h, tr), e)
    ensures Valid(h, tr + [e]) && After(h, tr + [e]) == Apply(h, After(h, tr), e)
  {
    var longer := tr + [e];
    assert Init(longer) == tr && Last(longer) == e;
    forall n | 0 <= n < |longer| ensures LegalAt(h, longer, n) {
      if n < |tr| {
        assert LegalAt(h, tr, n) && longer[..n] == tr[..n];
      } else {
        assert longer[..n] == tr;
      }
    }
  }

  lemma PrefixValid(h: Name, tr: Trace, n: nat)
    requires Valid(h, tr) && n <= |tr|
    ensures Valid(h, tr[..n])
    ensures n < |tr| ==> Legal(h, After(h, tr[..n]), tr[n])
                         && After(h, tr[..n + 1]) == Apply(h, After(h, tr[..n]), tr[n])
  {
    forall k | 0 <= k < n ensures LegalAt(h, tr[..n], k) {
      assert LegalAt(h, tr, k) && tr[..n][..k] == tr[..k];
    }
    if n < |tr| {
      assert LegalAt(h, tr, n);
      assert Init(tr[..n + 1]) == tr[..n];
    }
  }

  /** The last event of a valid trace, and what came before it. */
  lemma LastStep(h: Name, tr: Trace)
    requires Valid(h, tr) && tr != []
    ensures Valid(h, Init(tr)) && Legal(h, After(h, Init(tr)), Last(tr))
  {
    PrefixValid(h, tr, |tr| - 1);
  }

  // ---- closed form of the standing state ----

  predicate Succeeds(e: Event) { e.Folded? && IsSuccess(e.run.outcome) }
  predicate Fails(e: Event) { e.Folded? && IsFailure(e.run.outcome) }
  predicate Holds(e: Event) { e.Folded? && e.run.outcome.Held? }
  predicate Pends(e: Event) { e.Folded? && IsPending(e.run.outcome) }
  predicate Answers(e: Event) { e.Rechecked? && e.verdict.None? }
  predicate Settles(e: Event) { e.Folded? && IsSettled(e.run.outcome) }

  predicate Never(e: Event) { false }

  /** Event k is the last one that sets a stamp, and nothing after it clears the stamp. */
  predicate Stands(tr: Trace, k: int, sets: Event -> bool, clears: Event -> bool) {
    && 0 <= k < |tr| && sets(tr[k])
    && forall j | k < j < |tr| :: !sets(tr[j]) && !clears(tr[j])
  }

  function Latest(tr: Trace, sets: Event -> bool, clears: Event -> bool): (r: Option<Event>)
    ensures r.Some? ==> sets(r.value) && r.value in tr
  {
    if tr == [] then None
    else if sets(Last(tr)) then Some(Last(tr))
    else if clears(Last(tr)) then None
    else Latest(Init(tr), sets, clears)
  }

  /** `Latest` finds the one standing event, if there is one. */
  lemma {:induction false} LatestStands(tr: Trace, sets: Event -> bool, clears: Event -> bool)
    ensures match Latest(tr, sets, clears)
            case None => forall k :: !Stands(tr, k, sets, clears)
            case Some(e) => exists k :: Stands(tr, k, sets, clears) && tr[k] == e
  {
    if tr != [] {
      var n := |tr| - 1;
      if sets(Last(tr)) {
        assert Stands(tr, n, sets, clears);
      } else if clears(Last(tr)) {
        forall k ensures !Stands(tr, k, sets, clears) {
          assert clears(tr[n]);
        }
      } else {
        LatestStands(Init(tr), sets, clears);
        if Latest(tr, sets, clears).Some? {
          var k :| Stands(Init(tr), k, sets, clears) && Init(tr)[k] == Latest(tr, sets, clears).value;
          assert Stands(tr, k, sets, clears);
        } else {
          forall k ensures !Stands(tr, k, sets, clears) {
            if Stands(tr, k, sets, clears) {
              assert Stands(Init(tr), k, sets, clears);
            }
          }
        }
      }
    }
  }

  /** What the last success recorded; nothing before the first one. */
  function Baseline(tr: Trace): map<Name, string> {
    match Latest(tr, Succeeds, Never)
    case None => map[]
    case Some(e) => e.run.toplevels
  }

  predicate EndsRound(e: Event) { Succeeds(e) || Pends(e) }
  predicate EndsPending(e: Event) { Succeeds(e) || Fails(e) || Answers(e) }

  /** What each stamp must be, given the event that stands for it. */
  predicate DeployedFrom(e: Option<Event>, hs: HostState) {
    match e
    case None => hs.deployed == None && hs.deployedToplevels == map[]
    case Some(e) => e.Folded? && hs.deployed == Some(Stamp(e.rev, e.time)) && hs.deployedToplevels == e.run.toplevels
  }

  predicate HeldFrom(e: Option<Event>, hs: HostState) {
    match e
    case None => hs.held == None
    case Some(e) => e.Folded? && hs.held == Some(Stamp(e.rev, e.time))
  }

  predicate FailedFrom(e: Option<Event>, hs: HostState) {
    match e
    case None => hs.failed == None
    case Some(e) =>
      e.Folded? && hs.failed == Some(FailStamp(e.rev, e.time,
        GetOr(e.run.message, if e.run.outcome.Cancelled? then CancelledDefault else NoMessage)))
  }

  predicate OfflineFrom(e: Option<Event>, hs: HostState) {
    match e
    case None => hs.offline == None
    case Some(e) =>
      && e.Folded? && hs.offline.Some?
      && hs.offline.value == OfflineStamp(e.rev, e.time, GetOr(e.run.target, ""), hs.offline.value.kind)
  }

  /** ssh had something to say: a pending round, or a probe that could not get in. */
  predicate Complains(e: Event) {
    Pends(e) || ((e.Rechecked? || e.Probed?) && e.verdict.Some?)
  }

  predicate Soothes(e: Event) {
    Succeeds(e) || ((e.Rechecked? || e.Probed?) && e.verdict.None?)
  }

  function Complaint(e: Event): Option<Message>
    requires Complains(e)
  {
    if e.Folded? then e.run.message else Some(Ssh(e.verdict.value.text))
  }

  function ComplaintKind(e: Event): OfflineKind
    requires Complains(e)
  {
    if e.Folded? then FromOutcome(e.run.outcome).value else e.verdict.value.kind
  }

  predicate UnreachableFrom(e: Option<Event>, hs: HostState) {
    match e
    case None => hs.unreachable == None
    case Some(e) => Complains(e) && hs.unreachable == Complaint(e)
  }

  /** A pending host is drawn with the kind of the latest complaint. */
  predicate KindFrom(e: Option<Event>, hs: HostState) {
    hs.offline.Some? ==> e.Some? && Complains(e.value) && hs.offline.value.kind == ComplaintKind(e.value)
  }

  predicate Approves(e: Event) { e.Granted? }
  predicate Consumes(e: Event) { e.Revoked? || Succeeds(e) || Fails(e) }
  predicate SetsPause(e: Event) { e.Paused? }

  predicate ApprovedFrom(e: Option<Event>, hs: HostState) { hs.approved <==> e.Some? }

  predicate PausedFrom(e: Option<Event>, hs: HostState) {
    match e
    case None => !hs.paused
    case Some(e) => e.Paused? && hs.paused == e.on
  }

  /** What ssh last said, how a pending host is drawn, approval and pause. */
  predicate RemarksForm(tr: Trace, hs: HostState) {
    && UnreachableFrom(Latest(tr, Complains, Soothes), hs)
    && KindFrom(Latest(tr, Complains, Never), hs)
    && ApprovedFrom(Latest(tr, Approves, Consumes), hs)
    && PausedFrom(Latest(tr, SetsPause, Never), hs)
  }

  predicate DeployedForm(tr: Trace, hs: HostState) { DeployedFrom(Latest(tr, Succeeds, Never), hs) }
  predicate HeldForm(tr: Trace, hs: HostState) { HeldFrom(Latest(tr, Holds, Succeeds), hs) }
  predicate FailedForm(tr: Trace, hs: HostState) { FailedFrom(Latest(tr, Fails, EndsRound), hs) }
  predicate OfflineForm(tr: Trace, hs: HostState) { OfflineFrom(Latest(tr, Pends, EndsPending), hs) }

  /** A host is never parked and pending at once. */
  predicate OneStory(hs: HostState) { hs.failed.None? || hs.offline.None? }

  /** The event that stands after one more event. */
  function Standing(before: Option<Event>, e: Event, sets: bool, clears: bool): Option<Event> {
    if sets then Some(e) else if clears then None else before
  }

  lemma StoryStep(h: Name, v: View, e: Event)
    requires Legal(h, v, e) && OneStory(v.hs)
    ensures OneStory(Apply(h, v, e).hs)
  {
  }

  lemma DeployedStep(h: Name, v: View, e: Event, before: Option<Event>)
    requires Legal(h, v, e) && DeployedFrom(before, v.hs)
    ensures DeployedFrom(Standing(before, e, Succeeds(e), false), Apply(h, v, e).hs)
  {
  }

  lemma HeldStep(h: Name, v: View, e: Event, before: Option<Event>)
    requires Legal(h, v, e) && HeldFrom(before, v.hs)
    ensures HeldFrom(Standing(before, e, Holds(e), Succeeds(e)), Apply(h, v, e).hs)
  {
  }

  lemma FailedStep(h: Name, v: View, e: Event, before: Option<Event>)
    requires Legal(h, v, e) && FailedFrom(before, v.hs)
    ensures FailedFrom(Standing(before, e, Fails(e), EndsRound(e)), Apply(h, v, e).hs)
  {
  }

  lemma OfflineStep(h: Name, v: View, e: Event, before: Option<Event>)
    requires Legal(h, v, e) && OfflineFrom(before, v.hs)
    ensures OfflineFrom(Standing(before, e, Pends(e), EndsPending(e)), Apply(h, v, e).hs)
  {
  }

  lemma UnreachableStep(h: Name, v: View, e: Event, before: Option<Event>)
    requires Legal(h, v, e) && UnreachableFrom(before, v.hs)
    ensures UnreachableFrom(Standing(before, e, Complains(e), Soothes(e)), Apply(h, v, e).hs)
  {
  }

  lemma KindStep(h: Name, v: View, e: Event, before: Option<Event>)
    requires Legal(h, v, e) && KindFrom(before, v.hs)
    ensures KindFrom(Standing(before, e, Complains(e), false), Apply(h, v, e).hs)
  {
  }

  lemma ApprovedStep(h: Name, v: View, e: Event, before: Option<Event>)
    requires Legal(h, v, e) && ApprovedFrom(before, v.hs)
    ensures ApprovedFrom(Standing(before, e, Approves(e), Consumes(e)), Apply(h, v, e).hs)
  {
  }

  lemma PausedStep(h: Name, v: View, e: Event, before: Option<Event>)
    requires Legal(h, v, e) && PausedFrom(before, v.hs)
    ensures PausedFrom(Standing(before, e, SetsPause(e), false), Apply(h, v, e).hs)
  {
  }

  lemma {:induction false} RemarksClosedForm(h: Name, tr: Trace)
    requires Valid(h, tr)
    ensures RemarksForm(tr, After(h, tr).hs)
  {
    if tr != [] {
      LastStep(h, tr);
      var before, v, e := Init(tr), After(h, Init(tr)), Last(tr);
      RemarksClosedForm(h, before);
      UnreachableStep(h, v, e, Latest(before, Complains, Soothes));
      KindStep(h, v, e, Latest(before, Complains, Never));
      ApprovedStep(h, v, e, Latest(before, Approves, Consumes));
      PausedStep(h, v, e, Latest(before, SetsPause, Never));
    }
  }

  lemma {:induction false} NeverParkedAndPending(h: Name, tr: Trace)
    requires Valid(h, tr)
    ensures OneStory(After(h, tr).hs)
  {
    if tr != [] {
      LastStep(h, tr);
      NeverParkedAndPending(h, Init(tr));
      StoryStep(h, After(h, Init(tr)), Last(tr));
    }
  }

  lemma {:induction false} DeployedClosedForm(h: Name, tr: Trace)
    requires Valid(h, tr)
    ensures DeployedForm(tr, After(h, tr).hs) && After(h, tr).hs.deployedToplevels == Baseline(tr)
  {
    if tr != [] {
      LastStep(h, tr);
      DeployedClosedForm(h, Init(tr));
      DeployedStep(h, After(h, Init(tr)), Last(tr), Latest(Init(tr), Succeeds, Never));
    }
  }

  lemma {:induction false} HeldClosedForm(h: Name, tr: Trace)
    requires Valid(h, tr)
    ensures HeldForm(tr, After(h, tr).hs)
  {
    if tr != [] {
      LastStep(h, tr);
      HeldClosedForm(h, Init(tr));
      HeldStep(h, After(h, Init(tr)), Last(tr), Latest(Init(tr), Holds, Succeeds));
    }
  }

  lemma {:induction false} FailedClosedForm(h: Name, tr: Trace)
    requires Valid(h, tr)
    ensures FailedForm(tr, After(h, tr).hs)
  {
    if tr != [] {
      LastStep(h, tr);
      FailedClosedForm(h, Init(tr));
      FailedStep(h, After(h, Init(tr)), Last(tr), Latest(Init(tr), Fails, EndsRound));
    }
  }

  lemma {:induction false} OfflineClosedForm(h: Name, tr: Trace)
    requires Valid(h, tr)
    ensures OfflineForm(tr, After(h, tr).hs)
  {
    if tr != [] {
      LastStep(h, tr);
      OfflineClosedForm(h, Init(tr));
      OfflineStep(h, After(h, Init(tr)), Last(tr), Latest(Init(tr), Pends, EndsPending));
    }
  }

  /** The whole standing state is a function of which outcomes came last: `deployed` and
      its baseline are the last success; `held` the last hold with no later success;
      `failed` the last failure with no later success or pending round; `offline` the last
      pending round with no later success, failure or answered recheck; `unreachable` the
      last complaint with no later success or answered probe; `approved` the last grant that
      was neither revoked nor consumed. So a host is never parked and pending at once, and
      reloading the state changes nothing. */
  lemma {:induction false} StandingState(h: Name, tr: Trace)
    requires Valid(h, tr)
    ensures var hs := After(h, tr).hs;
            && DeployedForm(tr, hs) && HeldForm(tr, hs) && FailedForm(tr, hs) && OfflineForm(tr, hs)
            && RemarksForm(tr, hs)
            && OneStory(hs) && DropSupersededPark(hs) == hs
  {
    NeverParkedAndPending(h, tr);
    DeployedClosedForm(h, tr);
    HeldClosedForm(h, tr);
    FailedClosedForm(h, tr);
    OfflineClosedForm(h, tr);
    RemarksClosedForm(h, tr);
  }

  // ---- what a host needs, by its events ----

  /** Some event stands, and it is one of these. */
  ghost predicate StandingIs(tr: Trace, sets: Event -> bool, clears: Event -> bool, which: Event -> bool) {
    exists k :: Stands(tr, k, sets, clears) && which(tr[k])
  }

  predicate IsPauseOn(e: Event) { e.Paused? && e.on }

  function RecordedAt(rev: Rev): Event -> bool { (e: Event) => e.Folded? && e.rev == rev }

  /** The host is due for a revision, told from its events alone: it was not paused last, it
      did not succeed at that revision last, and an approval stands, or neither the failure
      nor the hold that stands is at that revision. */
  ghost predicate Due(tr: Trace, rev: Rev) {
    && !StandingIs(tr, SetsPause, Never, IsPauseOn)
    && !StandingIs(tr, Succeeds, Never, RecordedAt(rev))
    && (|| (exists k :: Stands(tr, k, Approves, Consumes))
        || (!StandingIs(tr, Fails, EndsRound, RecordedAt(rev)) && !StandingIs(tr, Holds, Succeeds, RecordedAt(rev))))
  }

  lemma StandingIsLatest(tr: Trace, sets: Event -> bool, clears: Event -> bool, which: Event -> bool)
    ensures StandingIs(tr, sets, clears, which) <==>
            Latest(tr, sets, clears).Some? && which(Latest(tr, sets, clears).value)
    ensures (exists k :: Stands(tr, k, sets, clears)) <==> Latest(tr, sets, clears).Some?
  {
    LatestStands(tr, sets, clears);
    forall j, k | Stands(tr, j, sets, clears) && Stands(tr, k, sets, clears) ensures j == k {
      OneStands(tr, j, k, sets, clears);
    }
  }

  lemma OneStands(tr: Trace, j: int, k: int, sets: Event -> bool, clears: Event -> bool)
    requires Stands(tr, j, sets, clears) && Stands(tr, k, sets, clears)
    ensures j == k
  {
  }

  /** The planner's rule is what the host's events say. */
  lemma {:induction false} NeedsExactly(h: Name, tr: Trace, rev: Rev)
    requires Valid(h, tr)
    ensures Needs(After(h, tr).hs, rev) <==> Due(tr, rev)
  {
    StandingState(h, tr);
    StandingIsLatest(tr, SetsPause, Never, IsPauseOn);
    StandingIsLatest(tr, Succeeds, Never, RecordedAt(rev));
    StandingIsLatest(tr, Approves, Consumes, RecordedAt(rev));
    StandingIsLatest(tr, Fails, EndsRound, RecordedAt(rev));
    StandingIsLatest(tr, Holds, Succeeds, RecordedAt(rev));
  }

  /** Outcomes at other revisions never stand in the way: a host that is not paused and has
      no outcome at a revision yet is due for it. */
  lemma DueWhenNew(tr: Trace, rev: Rev)
    requires forall e | e in tr :: !IsPauseOn(e) && !RecordedAt(rev)(e)
    ensures Due(tr, rev)
  {
  }

  // ---- the round in flight ----

  /** The round in flight still carries what the host's standing state says. */
  predicate FlightForm(h: Name, v: View) {
    v.flight.Some? ==>
      var f := v.flight.value;
      f.ph == PlanHost(h, !f.underApproval && v.hs.deployed.None?,
                       if f.underApproval then map[] else v.hs.deployedToplevels)
  }

  lemma {:induction false} FlightMatchesState(h: Name, tr: Trace)
    requires Valid(h, tr)
    ensures FlightForm(h, After(h, tr))
  {
    if tr != [] {
      LastStep(h, tr);
      FlightMatchesState(h, Init(tr));
    }
  }

  // ---- no same-commit retry ----

  predicate BlockedAt(hs: HostState, rev: Rev) {
    !hs.approved && (StampAt(hs.deployed, rev) || FailedAt(hs.failed, rev) || StampAt(hs.held, rev))
  }

  /** Events that entitle a host to another round at `rev`. */
  predicate Entitles(e: Event, rev: Rev) { e.Granted? || (e.Folded? && e.rev != rev) }

  lemma {:induction false} BlockedUntilEntitled(h: Name, tr: Trace, i: nat, rev: Rev, n: nat)
    requires Valid(h, tr) && i < n <= |tr| && tr[i].Planned? && tr[i].rev == rev
    requires forall k | i < k < n :: !Entitles(tr[k], rev)
    ensures var v := After(h, tr[..n]);
            && (v.flight.Some? && !v.flight.value.underApproval ==> !v.hs.approved)
            && ((exists m | i < m < n :: Settles(tr[m])) ==>
                  BlockedAt(v.hs, rev) && (v.flight.Some? ==> v.flight.value.rev != rev))
    decreases n
  {
    PrefixValid(h, tr, n - 1);
    if i < n - 1 {
      BlockedUntilEntitled(h, tr, i, rev, n - 1);
      FlightMatchesState(h, tr[..n - 1]);
      NeverParkedAndPending(h, tr[..n - 1]);
      BlockedStep(h, After(h, tr[..n - 1]), tr[n - 1], rev, exists m | i < m < n - 1 :: Settles(tr[m]));
    }
  }

  lemma BlockedStep(h: Name, v: View, e: Event, rev: Rev, settled: bool)
    requires Legal(h, v, e) && FlightForm(h, v) && OneStory(v.hs) && !Entitles(e, rev)
    requires v.flight.Some? && !v.flight.value.underApproval ==> !v.hs.approved
    requires settled ==> BlockedAt(v.hs, rev) && (v.flight.Some? ==> v.flight.value.rev != rev)
    ensures var v' := Apply(h, v, e);
            && (v'.flight.Some? && !v'.flight.value.underApproval ==> !v'.hs.approved)
            && (settled || Settles(e) ==>
                  BlockedAt(v'.hs, rev) && (v'.flight.Some? ==> v'.flight.value.rev != rev))
  {
    if e.Folded? && v.flight.value.underApproval {
      UnguardedNeverHeld(e.under, v.flight.value.ph, e.fate);
    }
  }

  /** Between two rounds at the same revision, the first of which settled, the human
      granted an approval or an outcome at another revision was recorded. */
  lemma NoSameCommitRetry(h: Name, tr: Trace, i: nat, m: nat, j: nat)
    requires Valid(h, tr) && i < m < j < |tr|
    requires tr[i].Planned? && Settles(tr[m]) && tr[j].Planned? && tr[j].rev == tr[i].rev
    ensures exists k | i < k < j :: Entitles(tr[k], tr[i].rev)
  {
    if forall k | i < k < j :: !Entitles(tr[k], tr[i].rev) {
      BlockedUntilEntitled(h, tr, i, tr[i].rev, j);
      PrefixValid(h, tr, j);
      assert false;
    }
  }

  /** A push ends with the host deployed or parked at the revision, its approval spent. */
  lemma PushBlocks(h: Name, v: View, e: Event)
    requires Legal(h, v, e) && e.Folded? && e.pushed
    ensures BlockedAt(Apply(h, v, e).hs, e.rev) && Apply(h, v, e).flight.None?
  {
    PushOutcomes(e.under, v.flight.value.ph, e.fate);
  }

  lemma {:induction false} BlockedAfterPush(h: Name, tr: Trace, i: nat, n: nat)
    requires Valid(h, tr) && i < n <= |tr| && tr[i].Folded? && tr[i].pushed
    requires forall k | i < k < n :: !Entitles(tr[k], tr[i].rev)
    ensures var v := After(h, tr[..n]);
            && (v.flight.Some? && !v.flight.value.underApproval ==> !v.hs.approved)
            && BlockedAt(v.hs, tr[i].rev) && (v.flight.Some? ==> v.flight.value.rev != tr[i].rev)
    decreases n
  {
    PrefixValid(h, tr, n - 1);
    if i < n - 1 {
      BlockedAfterPush(h, tr, i, n - 1);
      FlightMatchesState(h, tr[..n - 1]);
      NeverParkedAndPending(h, tr[..n - 1]);
      BlockedStep(h, After(h, tr[..n - 1]), tr[n - 1], tr[i].rev, true);
    } else {
      PushBlocks(h, After(h, tr[..i]), tr[i]);
    }
  }

  /** Between two pushes of the same revision to a host, the human granted an approval or an
      outcome at another revision was recorded. */
  lemma NoSecondPush(h: Name, tr: Trace, i: nat, j: nat)
    requires Valid(h, tr) && i < j < |tr|
    requires tr[i].Folded? && tr[i].pushed && tr[j].Folded? && tr[j].pushed && tr[j].rev == tr[i].rev
    ensures exists k | i < k < j :: Entitles(tr[k], tr[i].rev)
  {
    if forall k | i < k < j :: !Entitles(tr[k], tr[i].rev) {
      BlockedAfterPush(h, tr, i, j);
      PrefixValid(h, tr, j);
      assert false;
    }
  }

  // ---- approval budget ----

  predicate UnderApproval(v: View) { v.flight.Some? && v.flight.value.underApproval }

  function Grants(tr: Trace): nat {
    if tr == [] then 0 else Grants(Init(tr)) + if Last(tr).Granted? then 1 else 0
  }

  /** Rounds planned under approval that settled. */
  function Spent(h: Name, tr: Trace): nat {
    if tr == [] then 0
    else Spent(h, Init(tr)) + if Settles(Last(tr)) && UnderApproval(After(h, Init(tr))) then 1 else 0
  }

  /** Deploys that were started under approval. */
  function PushesUnderApproval(h: Name, tr: Trace): nat {
    if tr == [] then 0
    else PushesUnderApproval(h, Init(tr))
         + if Last(tr).Folded? && Last(tr).pushed && UnderApproval(After(h, Init(tr))) then 1 else 0
  }

  lemma {:induction false} BudgetInvariant(h: Name, tr: Trace)
    requires Valid(h, tr)
    ensures PushesUnderApproval(h, tr) <= Spent(h, tr)
    ensures var v := After(h, tr);
            Spent(h, tr) + (if v.hs.approved || UnderApproval(v) then 1 else 0) <= Grants(tr)
  {
    if tr != [] {
      LastStep(h, tr);
      BudgetInvariant(h, Init(tr));
      FlightMatchesState(h, Init(tr));
      var v, e := After(h, Init(tr)), Last(tr);
      if e.Folded? {
        PushOutcomes(e.under, v.flight.value.ph, e.fate);
        if UnderApproval(v) {
          UnguardedNeverHeld(e.under, v.flight.value.ph, e.fate);
        }
      }
    }
  }

  /** One approval buys at most one settled round, hence at most one deploy. */
  lemma ApprovalBudget(h: Name, tr: Trace)
    requires Valid(h, tr)
    ensures PushesUnderApproval(h, tr) <= Spent(h, tr) <= Grants(tr)
  {
    BudgetInvariant(h, tr);
  }

  /** A round planned under approval is never held; a pending round leaves the approval as
      it is, and every other outcome of such a round consumes it. */
  lemma ApprovedRound(h: Name, tr: Trace, n: nat)
    requires Valid(h, tr) && n < |tr| && tr[n].Folded? && UnderApproval(After(h, tr[..n]))
    ensures var before, after := After(h, tr[..n]).hs, After(h, tr[..n + 1]).hs;
            && !Holds(tr[n])
            && after.approved == (before.approved && Pends(tr[n]))
  {
    PrefixValid(h, tr, n);
    FlightMatchesState(h, tr[..n]);
    UnguardedNeverHeld(tr[n].under, After(h, tr[..n]).flight.value.ph, tr[n].fate);
    PushOutcomes(tr[n].under, After(h, tr[..n]).flight.value.ph, tr[n].fate);
  }

  // ---- overwrite safety ----

  predicate EverSucceeded(tr: Trace) { exists k | 0 <= k < |tr| :: Succeeds(tr[k]) }

  lemma {:induction false} SuccessLeavesALatest(tr: Trace)
    ensures EverSucceeded(tr) <==> Latest(tr, Succeeds, Never).Some?
  {
    if tr != [] {
      SuccessLeavesALatest(Init(tr));
      if EverSucceeded(tr) && !Succeeds(Last(tr)) {
        var k :| 0 <= k < |tr| && Succeeds(tr[k]);
        assert Init(tr)[k] == tr[k];
      }
    }
  }

  /** Exactly when a round pushes to its host. Besides the host being configured, known and
      reachable, either the round was planned under approval; or the agent deployed the
      host before, or may bootstrap it, and the drift guard is off, or has no baseline, or
      finds every profile as the last success left it, or finds the first changed profile
      moved within the watched history. */
  lemma PushesExactlyWhenSafe(h: Name, tr: Trace, n: nat)
    requires Valid(h, tr) && n < |tr| && tr[n].Folded? && tr[n].fate.Ran?
    ensures tr[n].pushed <==>
            && h in tr[n].under.hosts
            && FindNode(tr[n].fate.nodes, h).Some?
            && (tr[n].under.hosts[h].catchUp ==> tr[n].fate.answers.reach.None?)
            && (|| UnderApproval(After(h, tr[..n]))
                || ((EverSucceeded(tr[..n]) || tr[n].under.hosts[h].bootstrap)
                    && GuardPasses(tr[n].under.hosts[h], Baseline(tr[..n]), tr[n].fate.answers)))
  {
    PrefixValid(h, tr, n);
    FlightMatchesState(h, tr[..n]);
    DeployedClosedForm(h, tr[..n]);
    SuccessLeavesALatest(tr[..n]);
    PushedExactly(tr[n].under, After(h, tr[..n]).flight.value.ph, tr[n].fate.nodes, tr[n].fate.answers);
  }

  /** Nothing is pushed in a round that never ran. */
  lemma NothingPushedWithoutRunning(h: Name, tr: Trace, n: nat)
    requires Valid(h, tr) && n < |tr| && tr[n].Folded? && !tr[n].fate.Ran?
    ensures !tr[n].pushed && Fails(tr[n])
  {
    PrefixValid(h, tr, n);
  }

  /** A host the agent never deployed, without approval and without bootstrap: nothing is
      pushed, and it ends adopted (exactly when reachable with every managed profile up to
      date), held, pending, failed or cancelled. */
  lemma FirstEncounterIsSafe(h: Name, tr: Trace, n: nat)
    requires Valid(h, tr) && n < |tr| && tr[n].Folded?
    requires !EverSucceeded(tr[..n]) && !UnderApproval(After(h, tr[..n]))
    requires h in tr[n].under.hosts ==> !tr[n].under.hosts[h].bootstrap
    ensures !tr[n].pushed
    ensures tr[n].run.outcome.Adopted? || Holds(tr[n]) || Pends(tr[n]) || Fails(tr[n])
    ensures tr[n].run.outcome.Adopted? <==>
            && tr[n].fate.Ran? && h in tr[n].under.hosts && FindNode(tr[n].fate.nodes, h).Some?
            && (tr[n].under.hosts[h].catchUp ==> tr[n].fate.answers.reach.None?)
            && (forall p | p in Managed(FindNode(tr[n].fate.nodes, h).value, tr[n].under.hosts[h].profile) ::
                  tr[n].fate.answers.check(p).UpToDate?)
  {
    PrefixValid(h, tr, n);
    FlightMatchesState(h, tr[..n]);
    DeployedClosedForm(h, tr[..n]);
    SuccessLeavesALatest(tr[..n]);
    FirstEncounterNeverPushes(tr[n].under, After(h, tr[..n]).flight.value.ph, tr[n].fate);
    PushOutcomes(tr[n].under, After(h, tr[..n]).flight.value.ph, tr[n].fate);
  }

  /** The profiles the host manages in the checkout of a round that ran. */
  function ManagedIn(w: WatchConfig, h: Name, fate: Fate): seq<Name> {
    if fate.Ran? && h in w.hosts && FindNode(fate.nodes, h).Some?
    then Managed(FindNode(fate.nodes, h).value, w.hosts[h].profile)
    else []
  }

  /** The standing baseline is empty, or names exactly the profiles managed in the round of
      the last success; it is empty while the host was never deployed. */
  lemma {:induction false} BaselineAllOrNothing(h: Name, tr: Trace)
    requires Valid(h, tr)
    ensures var hs := After(h, tr).hs;
            match Latest(tr, Succeeds, Never)
            case None => hs.deployed == None && hs.deployedToplevels == map[]
            case Some(e) => WholeBaseline(hs.deployedToplevels, ManagedIn(e.under, h, e.fate))
  {
    DeployedClosedForm(h, tr);
    if tr != [] {
      LastStep(h, tr);
      BaselineAllOrNothing(h, Init(tr));
      if Succeeds(Last(tr)) {
        FlightMatchesState(h, Init(tr));
        BaselineIsWhole(Last(tr).under, After(h, Init(tr)).flight.value.ph, Last(tr).fate);
      } else {
        DeployedClosedForm(h, Init(tr));
      }
    }
  }
}
