/** Splitting one deploy request into `deploy` invocations (crates/deptui-core/src/deploy.rs,
    `DeployRequest::plan`, `override_fits`, the loop of `run_inner`). */
module Invocations {
  import opened AgentState
  import opened Flake

  datatype ProfileInfo = ProfileInfo(name: Name, user: Option<string>)

  datatype Request = Request(sel: ProfileSel, overrideUser: Option<string>, profiles: seq<ProfileInfo>)

  datatype Invocation = Invocation(suffix: string, sshUser: Option<string>, withheld: bool)

  /** The ssh-user override can be applied without breaking the profile's activation. */
  predicate Fits(p: ProfileInfo, user: string) {
    match p.user
    case None => true
    case Some(u) => u == user || u == "root"
  }

  function TargetSuffix(sel: ProfileSel): string {
    match sel
    case All => ""
    case System => ".system"
    case Home => ".home"
  }

  predicate Selected(sel: ProfileSel, p: ProfileInfo) { Picks(sel, p.name) }

  function SelectedProfiles(r: Request): seq<ProfileInfo> {
    SelectFrom(r.profiles, r.sel)
  }

  function SplitPlan(selected: seq<ProfileInfo>, user: string): seq<Invocation> {
    if selected == [] then []
    else
      [Invocation("." + selected[0].name,
                  if Fits(selected[0], user) then Some(user) else None,
                  !Fits(selected[0], user))]
      + SplitPlan(selected[1..], user)
  }

  function Plan(r: Request): seq<Invocation> {
    var whole := TargetSuffix(r.sel);
    match r.overrideUser
    case None => [Invocation(whole, None, false)]
    case Some(user) =>
      var selected := SelectedProfiles(r);
      if selected == [] || (forall p | p in selected :: Fits(p, user)) then
        [Invocation(whole, Some(user), false)]
      else if forall p | p in selected :: !Fits(p, user) then [Invocation(whole, None, true)]
      else SplitPlan(selected, user)
  }

  // ---- what an invocation means ----

  /** deploy-rs pushes every profile of the node for an empty suffix, else the one named. */
  predicate Targets(suffix: string, p: ProfileInfo) { suffix == "" || suffix == "." + p.name }

  /** One profile pushed, with the ssh user it is pushed as. */
  datatype Pushed = Pushed(profile: ProfileInfo, sshUser: Option<string>)

  function PushAs(profiles: seq<ProfileInfo>, user: Option<string>): seq<Pushed> {
    if profiles == [] then [] else [Pushed(profiles[0], user)] + PushAs(profiles[1..], user)
  }

  function TargetsOf(profiles: seq<ProfileInfo>, suffix: string): seq<ProfileInfo> {
    if profiles == [] then []
    else (if Targets(suffix, profiles[0]) then [profiles[0]] else []) + TargetsOf(profiles[1..], suffix)
  }

  /** What an invocation pushes, in the node's profile order. */
  function Expand(profiles: seq<ProfileInfo>, inv: Invocation): seq<Pushed> {
    PushAs(TargetsOf(profiles, inv.suffix), inv.sshUser)
  }

  function ExpandAll(profiles: seq<ProfileInfo>, plan: seq<Invocation>): seq<Pushed> {
    if plan == [] then [] else Expand(profiles, plan[0]) + ExpandAll(profiles, plan[1..])
  }

  /** What the user asked for: the selected profiles in order, each with the override if and
      only if it fits. */
  function Intended(selected: seq<ProfileInfo>, user: Option<string>): seq<Pushed> {
    if selected == [] then []
    else
      [Pushed(selected[0], if user.Some? && Fits(selected[0], user.value) then user else None)]
      + Intended(selected[1..], user)
  }

  predicate DistinctNames(profiles: seq<ProfileInfo>) {
    forall i, j | 0 <= i < j < |profiles| :: profiles[i].name != profiles[j].name
  }

  lemma SuffixSelects(sel: ProfileSel, p: ProfileInfo)
    ensures Targets(TargetSuffix(sel), p) == Selected(sel, p)
  {
    match sel {
      case All =>
      case System => assert ("." + p.name)[1..] == p.name && ".system"[1..] == "system";
      case Home => assert ("." + p.name)[1..] == p.name && ".home"[1..] == "home";
    }
  }

  function SelectFrom(profiles: seq<ProfileInfo>, sel: ProfileSel): seq<ProfileInfo> {
    if profiles == [] then []
    else (if Selected(sel, profiles[0]) then [profiles[0]] else []) + SelectFrom(profiles[1..], sel)
  }

  /** The whole-node suffix expands to the selected profiles. */
  lemma {:induction false} WholeExpands(profiles: seq<ProfileInfo>, sel: ProfileSel)
    ensures TargetsOf(profiles, TargetSuffix(sel)) == SelectFrom(profiles, sel)
    ensures forall p | p in SelectFrom(profiles, sel) :: p in profiles
  {
    if profiles != [] {
      SuffixSelects(sel, profiles[0]);
      WholeExpands(profiles[1..], sel);
    }
  }

  lemma {:induction false} IntendedUniform(selected: seq<ProfileInfo>, user: Option<string>, given: Option<string>)
    requires forall p | p in selected :: given == if user.Some? && Fits(p, user.value) then user else None
    ensures PushAs(selected, given) == Intended(selected, user)
  {
    if selected != [] {
      assert selected[0] in selected && forall p | p in selected[1..] :: p in selected;
      IntendedUniform(selected[1..], user, given);
    }
  }

  /** A profile's own suffix expands to that profile alone. */
  lemma {:induction false} OneNamed(profiles: seq<ProfileInfo>, p: ProfileInfo)
    requires DistinctNames(profiles)
    ensures p in profiles ==> TargetsOf(profiles, "." + p.name) == [p]
    ensures (forall q | q in profiles :: q.name != p.name) ==> TargetsOf(profiles, "." + p.name) == []
  {
    if profiles != [] {
      var rest := profiles[1..];
      assert profiles == [profiles[0]] + rest;
      OneNamed(rest, p);
      assert ("." + p.name)[1..] == p.name && ("." + profiles[0].name)[1..] == profiles[0].name;
      if profiles[0] == p {
        assert forall q | q in rest :: q.name != p.name;
      }
    }
  }

  lemma PushOne(p: ProfileInfo, user: Option<string>)
    ensures PushAs([p], user) == [Pushed(p, user)]
  {
    assert [p][1..] == [];
    assert PushAs([p][1..], user) == [];
  }

  lemma {:induction false} SplitExpands(profiles: seq<ProfileInfo>, selected: seq<ProfileInfo>, user: string)
    requires DistinctNames(profiles) && forall p | p in selected :: p in profiles
    ensures ExpandAll(profiles, SplitPlan(selected, user)) == Intended(selected, Some(user))
  {
    if selected != [] {
      var p := selected[0];
      assert p in selected && forall q | q in selected[1..] :: q in selected;
      var inv := Invocation("." + p.name, if Fits(p, user) then Some(user) else None, !Fits(p, user));
      OneNamed(profiles, p);
      PushOne(p, inv.sshUser);
      SplitExpands(profiles, selected[1..], user);
      assert ([inv] + SplitPlan(selected[1..], user))[1..] == SplitPlan(selected[1..], user);
    }
  }

  /** The plan preserves the meaning of the request: expanding its invocations pushes exactly
      the selected profiles, in order, each as the override user if and only if that fits. */
  lemma PlanPreservesMeaning(r: Request)
    requires DistinctNames(r.profiles)
    ensures ExpandAll(r.profiles, Plan(r)) == Intended(SelectedProfiles(r), r.overrideUser)
  {
    var selected := SelectedProfiles(r);
    WholeExpands(r.profiles, r.sel);
    if Disagree(r) {
      SplitExpands(r.profiles, selected, r.overrideUser.value);
    } else {
      var inv := Plan(r)[0];
      OneInvocation(r.profiles, inv);
      IntendedUniform(selected, r.overrideUser, inv.sshUser);
    }
  }

  /** The user a profile is pushed as: the override, if there is one and the profile is
      activated as nobody in particular, as that user, or as root. */
  function PushedAs(p: ProfileInfo, overrideUser: Option<string>): Option<string> {
    if p.user == None || p.user == overrideUser || p.user == Some("root") then overrideUser else None
  }

  predicate Chosen(sel: ProfileSel, p: ProfileInfo) {
    match p.name
    case "system" => !sel.Home?
    case "home" => !sel.System?
    case _ => sel.All?
  }

  /** Profile by profile: what the plan pushes are exactly the profiles of the node that were
      chosen, in the node's order, each as the user it can be pushed as. */
  lemma PushesExactly(r: Request)
    requires DistinctNames(r.profiles)
    ensures var pushed := ExpandAll(r.profiles, Plan(r));
            && (forall p :: (exists x :: x in pushed && x.profile == p) <==> p in r.profiles && Chosen(r.sel, p))
            && (forall x | x in pushed :: x.sshUser == PushedAs(x.profile, r.overrideUser))
            && InOrderOf(ProfilesOf(pushed), r.profiles)
  {
    PlanPreservesMeaning(r);
    IntendedExact(SelectedProfiles(r), r.overrideUser);
    SelectedExact(r.profiles, r.sel);
    var pushed := Intended(SelectedProfiles(r), r.overrideUser);
    forall p ensures (exists x :: x in pushed && x.profile == p) <==> p in SelectedProfiles(r) {
      if p in SelectedProfiles(r) {
        assert Pushed(p, PushedAs(p, r.overrideUser)) in pushed;
      }
    }
  }

  function ProfilesOf(pushed: seq<Pushed>): seq<ProfileInfo> {
    if pushed == [] then [] else [pushed[0].profile] + ProfilesOf(pushed[1..])
  }

  lemma {:induction false} IntendedExact(selected: seq<ProfileInfo>, user: Option<string>)
    ensures var pushed := Intended(selected, user);
            && ProfilesOf(pushed) == selected
            && (forall x | x in pushed :: x.profile in selected && x.sshUser == PushedAs(x.profile, user))
            && (forall p | p in selected :: Pushed(p, PushedAs(p, user)) in pushed)
  {
    if selected != [] {
      var first, rest := Pushed(selected[0], PushedAs(selected[0], user)), Intended(selected[1..], user);
      IntendedExact(selected[1..], user);
      assert forall p :: p in selected <==> p == selected[0] || p in selected[1..];
      assert Intended(selected, user) == [first] + rest;
      FirstPushed(first, rest, selected);
    }
  }

  lemma FirstPushed(first: Pushed, rest: seq<Pushed>, selected: seq<ProfileInfo>)
    requires selected != [] && first.profile == selected[0] && ProfilesOf(rest) == selected[1..]
    ensures ProfilesOf([first] + rest) == selected
    ensures forall x :: x in [first] + rest <==> x == first || x in rest
  {
    assert ([first] + rest)[1..] == rest;
  }

  lemma {:induction false} SelectedExact(profiles: seq<ProfileInfo>, sel: ProfileSel)
    ensures forall p :: p in SelectFrom(profiles, sel) <==> p in profiles && Chosen(sel, p)
    ensures InOrderOf(SelectFrom(profiles, sel), profiles)
  {
    if profiles != [] {
      var rest := SelectFrom(profiles[1..], sel);
      SelectedExact(profiles[1..], sel);
      assert forall p :: p in profiles <==> p == profiles[0] || p in profiles[1..];
      OrderBehind(profiles, if Selected(sel, profiles[0]) then [profiles[0]] else [], rest);
    }
  }

  /** Some selected profile fits the override and some does not. */
  predicate Disagree(r: Request) {
    r.overrideUser.Some? &&
    var selected := SelectedProfiles(r);
    (exists p | p in selected :: Fits(p, r.overrideUser.value)) && exists p | p in selected :: !Fits(p, r.overrideUser.value)
  }

  /** The request is split exactly when the verdicts disagree; then there is one invocation
      per selected profile, and otherwise there is one in all. */
  lemma SplitsOnlyOnDisagreement(r: Request)
    ensures |Plan(r)| > 1 <==> Disagree(r)
    ensures if Disagree(r) then |Plan(r)| == |SelectedProfiles(r)|
            else |Plan(r)| == 1 && Plan(r)[0].suffix == TargetSuffix(r.sel)
    ensures forall inv | inv in Plan(r) && inv.withheld :: inv.sshUser.None? && r.overrideUser.Some?
  {
    if Disagree(r) {
      var selected := SelectedProfiles(r);
      var p :| p in selected && Fits(p, r.overrideUser.value);
      var q :| q in selected && !Fits(q, r.overrideUser.value);
      SplitShape(selected, r.overrideUser.value);
      TwoApart(selected, p, q);
    }
  }

  lemma TwoApart<T>(s: seq<T>, p: T, q: T)
    requires p in s && q in s && p != q
    ensures |s| > 1
  {
  }

  lemma {:induction false} SplitShape(selected: seq<ProfileInfo>, user: string)
    ensures |SplitPlan(selected, user)| == |selected|
    ensures forall inv | inv in SplitPlan(selected, user) :: inv.withheld == inv.sshUser.None?
  {
    if selected != [] {
      SplitShape(selected[1..], user);
    }
  }

  lemma OneInvocation(profiles: seq<ProfileInfo>, inv: Invocation)
    ensures ExpandAll(profiles, [inv]) == Expand(profiles, inv)
  {
    assert [inv][1..] == [];
    assert Expand(profiles, inv) + [] == Expand(profiles, inv);
  }

  // ---- the requests the agent and the TUI make ----

  function Infos(names: seq<Name>, profiles: map<Name, Option<string>>): (infos: seq<ProfileInfo>)
    requires forall x | x in names :: x in profiles
    ensures |infos| == |names| && forall i | 0 <= i < |names| :: infos[i].name == names[i]
  {
    if names == [] then []
    else [ProfileInfo(names[0], profiles[names[0]])] + Infos(names[1..], profiles)
  }

  /** Both callers pass the node's profiles in deploy order. */
  function RequestFor(node: Node, sel: ProfileSel, overrideUser: Option<string>): Request {
    OrderedProfilesExact(node);
    Request(sel, overrideUser, Infos(OrderedProfiles(node), node.profiles))
  }

  function NamesOf(pushed: seq<Pushed>): seq<Name> {
    if pushed == [] then [] else [pushed[0].profile.name] + NamesOf(pushed[1..])
  }

  lemma {:induction false} IntendedNames(names: seq<Name>, profiles: map<Name, Option<string>>, sel: ProfileSel,
                                         user: Option<string>)
    requires forall x | x in names :: x in profiles
    ensures NamesOf(Intended(SelectFrom(Infos(names, profiles), sel), user)) == Filter(names, Picker(sel))
  {
    if names != [] {
      IntendedNames(names[1..], profiles, sel, user);
      var infos, rest := Infos(names, profiles), Infos(names[1..], profiles);
      assert infos[1..] == rest;
      var more := SelectFrom(rest, sel);
      if Selected(sel, infos[0]) {
        assert ([infos[0]] + more)[1..] == more;
        var first := Pushed(infos[0], if user.Some? && Fits(infos[0], user.value) then user else None);
        assert ([first] + Intended(more, user))[1..] == Intended(more, user);
      } else {
        assert [] + more == more;
        assert [] + Filter(names[1..], Picker(sel)) == Filter(names[1..], Picker(sel));
      }
    }
  }

  /** For every node, selection and override, the invocations push exactly the profiles the
      host's drift baseline covers, once each and in that order, each as the override user
      if and only if that fits. */
  lemma DeployPushesWhatIsManaged(node: Node, sel: ProfileSel, overrideUser: Option<string>)
    ensures var r := RequestFor(node, sel, overrideUser);
            var pushed := ExpandAll(r.profiles, Plan(r));
            && pushed == Intended(SelectedProfiles(r), overrideUser)
            && NamesOf(pushed) == Managed(node, sel)
  {
    var r := RequestFor(node, sel, overrideUser);
    OrderedProfilesExact(node);
    PlanPreservesMeaning(r);
    IntendedNames(OrderedProfiles(node), node.profiles, sel, overrideUser);
  }

  // ---- running the plan ----

  /** How one child ends: its exit code, and whether a cancel was seen behind it. A child
      that cannot be run ends the loop with an error. */
  datatype ChildEnd = Exited(code: int, cancelled: bool) | NotRun

  datatype Outcome = Exit(code: int) | Error

  /** The loop of `run_inner` over the plan. `ran`: how many children were started. */
  method RunPlan(plan: seq<Invocation>, ends: nat -> ChildEnd) returns (ran: nat, outcome: Outcome)
    ensures ran <= |plan|
    ensures forall i | 0 <= i < ran - 1 :: ends(i) == Exited(0, false)
    ensures ran < |plan| ==> ran > 0 && ends(ran - 1) != Exited(0, false)
    ensures outcome == if ran == 0 then Exit(0)
                       else if ends(ran - 1).NotRun? then Error
                       else Exit(ends(ran - 1).code)
  {
    var code := 0;
    ran := 0;
    while ran < |plan|
      invariant ran <= |plan|
      invariant forall i | 0 <= i < ran :: ends(i) == Exited(0, false)
      invariant code == 0
    {
      var end := ends(ran);
      ran := ran + 1;
      match end {
        case NotRun => return ran, Error;
        case Exited(c, cancelled) =>
          code := c;
          if c != 0 || cancelled {
            return ran, Exit(code);
          }
      }
    }
    return ran, Exit(code);
  }

  /** Wherever the loop stops, what the children it started push is a first part of what was
      asked for, in order. */
  lemma {:induction false} StoppedRunIsAPrefix(profiles: seq<ProfileInfo>, plan: seq<Invocation>, ran: nat)
    requires ran <= |plan|
    ensures ExpandAll(profiles, plan[..ran]) <= ExpandAll(profiles, plan)
    decreases ran
  {
    if ran > 0 {
      StoppedRunIsAPrefix(profiles, plan[1..], ran - 1);
      assert plan[..ran][1..] == plan[1..][..ran - 1] && plan[..ran][0] == plan[0];
    }
  }
}
