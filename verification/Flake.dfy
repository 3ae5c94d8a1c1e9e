/** Nodes of `deploy.nodes` and the order their profiles are pushed in
    (crates/deptui-core/src/flake.rs). */
module Flake {
  import opened Ordered
  import opened AgentState

  /** Profiles map a name to the user the profile is activated as. */
  datatype Node = Node(
    name: Name,
    profiles: map<Name, Option<string>>,
    profilesOrder: Option<seq<Name>>)

  /** The shared loop of `ordered_profiles`: push each known name not pushed before. */
  function Push(out: seq<Name>, names: seq<Name>, known: set<Name>): seq<Name>
    decreases |names|
  {
    if names == [] then out
    else
      Push(if names[0] in known && names[0] !in out then out + [names[0]] else out,
           names[1..], known)
  }

  /** `names` mentions x before it first mentions y. */
  predicate Before(names: seq<Name>, x: Name, y: Name) {
    exists a :: 0 <= a < |names| && names[a] == x && y !in names[..a + 1]
  }

  lemma BeforeLater(names: seq<Name>, x: Name, y: Name)
    requires names != [] && names[0] != y
    requires names[0] == x || Before(names[1..], x, y)
    ensures Before(names, x, y)
  {
    if names[0] == x {
      assert y !in names[..1];
    } else {
      var a :| 0 <= a < |names| - 1 && names[1..][a] == x && y !in names[1..][..a + 1];
      assert names[..a + 2] == [names[0]] + names[1..][..a + 1];
      assert names[a + 1] == x;
    }
  }

  lemma {:induction false} PushKeeps(out: seq<Name>, names: seq<Name>, known: set<Name>)
    requires Distinct(out)
    ensures out <= Push(out, names, known) && Distinct(Push(out, names, known))
    ensures forall x :: x in Push(out, names, known) <==> x in out || (x in names && x in known)
    decreases |names|
  {
    if names != [] {
      var next := if names[0] in known && names[0] !in out then out + [names[0]] else out;
      PushKeeps(next, names[1..], known);
      assert names == [names[0]] + names[1..];
    }
  }

  /** What one pass appends, it appends in order of first mention. */
  lemma {:induction false} PushInOrder(out: seq<Name>, names: seq<Name>, known: set<Name>, i: nat, j: nat)
    requires Distinct(out) && |out| <= i < j < |Push(out, names, known)|
    ensures Before(names, Push(out, names, known)[i], Push(out, names, known)[j])
    decreases |names|
  {
    var next := if names[0] in known && names[0] !in out then out + [names[0]] else out;
    var r := Push(next, names[1..], known);
    PushKeeps(next, names[1..], known);
    PushKeeps(out, names, known);
    TailFresh(next, r, j);
    assert names[0] in known ==> names[0] in next;
    if next != out && i == |out| {
      assert r[i] == next[i] == names[0];
    } else {
      PushInOrder(next, names[1..], known, i, j);
    }
    BeforeLater(names, r[i], r[j]);
  }

  lemma TailFresh(first: seq<Name>, out: seq<Name>, j: nat)
    requires first <= out && Distinct(out) && |first| <= j < |out|
    ensures out[j] !in first
  {
    assert forall k :: 0 <= k < |first| ==> first[k] == out[k];
  }

  /** The names the node itself puts first. */
  function Leading(node: Node): seq<Name> {
    match node.profilesOrder
    case Some(order) => order
    case None => if "system" in node.profiles then ["system"] else []
  }

  function OrderedProfiles(node: Node): seq<Name> {
    Push(Push([], Leading(node), node.profiles.Keys), Keys(node.profiles.Keys), node.profiles.Keys)
  }

  method ComputeOrderedProfiles(node: Node) returns (out: seq<Name>)
    ensures out == OrderedProfiles(node)
  {
    out := [];
    var known := node.profiles.Keys;
    if node.profilesOrder.Some? {
      var order := node.profilesOrder.value;
      for i := 0 to |order|
        invariant Push([], order, known) == Push(out, order[i..], known)
      {
        assert order[i..][1..] == order[i + 1..];
        if order[i] in node.profiles && order[i] !in out {
          out := out + [order[i]];
        }
      }
    } else if "system" in node.profiles {
      out := ["system"];
      assert Push([], ["system"], known) == Push(["system"], [], known);
    }
    ghost var led := out;
    assert led == Push([], Leading(node), known);
    var names := Keys(known);
    for i := 0 to |names|
      invariant Push(led, names, known) == Push(out, names[i..], known)
    {
      assert names[i..][1..] == names[i + 1..];
      assert names[i] in names;
      if names[i] !in out {
        out := out + [names[i]];
      }
    }
  }

  /** Every declared profile exactly once. Names the node orders come first, in the order it
      first mentions them, and the rest follow alphabetically; without an order of its own,
      "system" comes first and the rest follow alphabetically. */
  lemma OrderedProfilesExact(node: Node)
    ensures Distinct(OrderedProfiles(node))
    ensures forall x :: x in OrderedProfiles(node) <==> x in node.profiles
    ensures |OrderedProfiles(node)| == |node.profiles|
    ensures match node.profilesOrder
            case Some(order) =>
              forall i, j | 0 <= i < j < |OrderedProfiles(node)| ::
                var x, y := OrderedProfiles(node)[i], OrderedProfiles(node)[j];
                if y in order then x in order && Before(order, x, y) else x in order || Less(x, y)
            case None =>
              && ("system" in node.profiles ==> OrderedProfiles(node)[0] == "system")
              && forall i, j | 0 <= i < j < |OrderedProfiles(node)| ::
                   OrderedProfiles(node)[i] == "system" || Less(OrderedProfiles(node)[i], OrderedProfiles(node)[j])
  {
    var known := node.profiles.Keys;
    var led, all := Leading(node), Keys(known);
    var first := Push([], led, known);
    var out := OrderedProfiles(node);
    KeysAscend(known);
    PushKeeps([], led, known);
    PushKeeps(first, all, known);
    DistinctSize(out, known);
    forall i, j | 0 <= i < j < |out|
      ensures if out[j] in led then out[i] in led && Before(led, out[i], out[j])
              else out[i] in led || Less(out[i], out[j])
    {
      PairInOrder(led, all, known, i, j);
    }
    if node.profilesOrder.None? && "system" in node.profiles {
      AloneLeads(out, "system");
    }
  }

  lemma AloneLeads(out: seq<Name>, x: Name)
    requires x in out && forall i, j | 0 <= i < j < |out| && out[j] == x :: out[i] == x
    ensures out[0] == x
  {
    var k :| 0 <= k < |out| && out[k] == x;
  }

  lemma PairInOrder(led: seq<Name>, all: seq<Name>, known: set<Name>, i: nat, j: nat)
    requires Ascending(all) && forall x :: x in all <==> x in known
    requires var out := Push(Push([], led, known), all, known); i < j < |out|
    ensures var out := Push(Push([], led, known), all, known);
            if out[j] in led then out[i] in led && Before(led, out[i], out[j])
            else out[i] in led || Less(out[i], out[j])
  {
    var first := Push([], led, known);
    var out := Push(first, all, known);
    PushKeeps([], led, known);
    PushKeeps(first, all, known);
    if j < |first| {
      assert out[i] == first[i] && out[j] == first[j];
      PushInOrder([], led, known, i, j);
    } else {
      TailFresh(first, out, j);
      if i < |first| {
        assert out[i] == first[i];
      } else {
        PushInOrder(first, all, known, i, j);
        BeforeAscends(all, out[i], out[j]);
      }
    }
  }

  lemma BeforeAscends(all: seq<Name>, x: Name, y: Name)
    requires Ascending(all) && Before(all, x, y) && y in all
    ensures Less(x, y)
  {
    var a :| 0 <= a < |all| && all[a] == x && y !in all[..a + 1];
    var b :| 0 <= b < |all| && all[b] == y;
    assert forall k :: 0 <= k <= a ==> all[k] == all[..a + 1][k];
  }

  lemma {:induction false} DistinctSize<T>(s: seq<T>, elements: set<T>)
    requires Distinct(s) && forall x :: x in s <==> x in elements
    ensures |s| == |elements|
  {
    if s == [] {
      assert elements == {};
    } else {
      assert s[0] in elements;
      forall x ensures x in s[1..] <==> x in elements - {s[0]} {
        assert s == [s[0]] + s[1..];
      }
      DistinctSize(s[1..], elements - {s[0]});
    }
  }

  datatype ProfileSel = All | System | Home

  predicate Picks(sel: ProfileSel, profile: Name) {
    match sel
    case All => true
    case System => profile == "system"
    case Home => profile == "home"
  }

  function Filter<T>(s: seq<T>, p: T -> bool): seq<T> {
    if s == [] then [] else (if p(s[0]) then [s[0]] else []) + Filter(s[1..], p)
  }

  lemma {:induction false} FilterFacts<T>(s: seq<T>, p: T -> bool)
    ensures forall x :: x in Filter(s, p) <==> x in s && p(x)
    ensures Distinct(s) ==> Distinct(Filter(s, p))
  {
    if s != [] {
      FilterFacts(s[1..], p);
      assert s == [s[0]] + s[1..];
    }
  }

  function Picker(sel: ProfileSel): Name -> bool { p => Picks(sel, p) }

  /** The profiles a host configuration manages, in push order. */
  function Managed(node: Node, sel: ProfileSel): seq<Name> {
    Filter(OrderedProfiles(node), Picker(sel))
  }

  /** x stands somewhere before y. */
  ghost predicate Precedes<T>(s: seq<T>, x: T, y: T) {
    exists a, b :: 0 <= a < b < |s| && s[a] == x && s[b] == y
  }

  /** Part of the whole, in its order: what stands before something else here does so there. */
  ghost predicate InOrderOf<T>(part: seq<T>, whole: seq<T>) {
    && (forall i | 0 <= i < |part| :: part[i] in whole)
    && forall i, j | 0 <= i < j < |part| :: Precedes(whole, part[i], part[j])
  }

  lemma {:induction false} FilterInOrder<T>(s: seq<T>, p: T -> bool)
    ensures InOrderOf(Filter(s, p), s)
  {
    if s != [] {
      FilterInOrder(s[1..], p);
      OrderBehind(s, if p(s[0]) then [s[0]] else [], Filter(s[1..], p));
    }
  }

  lemma OrderBehind<T>(s: seq<T>, first: seq<T>, rest: seq<T>)
    requires s != [] && (first == [] || first == [s[0]]) && InOrderOf(rest, s[1..])
    ensures InOrderOf(first + rest, s)
  {
    var all, n := first + rest, |first|;
    forall i | 0 <= i < |all| ensures all[i] in s {
      if i >= n {
        assert all[i] == rest[i - n];
      }
    }
    forall i, j | 0 <= i < j < |all| ensures Precedes(s, all[i], all[j]) {
      assert all[j] == rest[j - n] && rest[j - n] in s[1..];
      if i < n {
        var b :| 0 <= b < |s[1..]| && s[1..][b] == rest[j - n];
        assert s[0] == all[i] && s[b + 1] == all[j];
      } else {
        assert all[i] == rest[i - n] && Precedes(s[1..], rest[i - n], rest[j - n]);
        var a, b :| 0 <= a < b < |s[1..]| && s[1..][a] == rest[i - n] && s[1..][b] == rest[j - n];
        assert s[a + 1] == all[i] && s[b + 1] == all[j];
      }
    }
  }

  /** The managed profiles: those declared that the selection names, once each, in push order. */
  lemma ManagedExact(node: Node, sel: ProfileSel)
    ensures Distinct(Managed(node, sel))
    ensures forall p :: p in Managed(node, sel) <==>
              p in node.profiles && (sel == All || (sel == System && p == "system") || (sel == Home && p == "home"))
    ensures InOrderOf(Managed(node, sel), OrderedProfiles(node))
  {
    OrderedProfilesExact(node);
    FilterFacts(OrderedProfiles(node), Picker(sel));
    FilterInOrder(OrderedProfiles(node), Picker(sel));
  }
}
