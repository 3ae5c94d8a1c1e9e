/** Package diff between two store closures (crates/deptui-core/src/host.rs,
    `compute_version_diff`): paths are bucketed by package name, names whose version sets
    differ are listed as updated, added or removed, and closures that differ in no version
    are compared path by path. The diff is shown to confirm a deploy, so what matters is that
    it says what the deploy would change: read as a patch it turns the remote closure into
    the local one. */
module VersionDiff {
  import opened Ordered
  import opened StorePaths

  // ---- buckets ----

  type Buckets = map<string, set<string>>

  function Versions(b: Buckets, name: string): set<string> {
    if name in b then b[name] else {}
  }

  function Insert(b: Buckets, path: string): Buckets {
    var (name, version) := SplitNameVersion(Base(path));
    if name == "" then b else b[name := Versions(b, name) + {version}]
  }

  function BucketFrom(b: Buckets, paths: seq<string>): Buckets
    decreases |paths|
  {
    if paths == [] then b else BucketFrom(Insert(b, paths[0]), paths[1..])
  }

  function Bucket(paths: seq<string>): Buckets { BucketFrom(map[], paths) }

  method ComputeBuckets(paths: seq<string>) returns (b: Buckets)
    ensures b == Bucket(paths)
  {
    b := map[];
    for i := 0 to |paths|
      invariant Bucket(paths) == BucketFrom(b, paths[i..])
    {
      assert paths[i..][1..] == paths[i + 1..];
      var name, version := ComputeSplit(Base(paths[i]));
      if name == "" { continue; }
      b := b[name := Versions(b, name) + {version}];
    }
  }

  lemma {:induction false} BucketFromExact(b: Buckets, paths: seq<string>, name: string, version: string)
    ensures version in Versions(BucketFrom(b, paths), name) <==>
            || version in Versions(b, name)
            || (name != "" && exists p | p in paths :: SplitNameVersion(Base(p)) == (name, version))
    decreases |paths|
  {
    if paths != [] {
      var b' := Insert(b, paths[0]);
      BucketFromExact(b', paths[1..], name, version);
      InsertExact(b, paths[0], name, version);
      assert forall p :: p in paths <==> p == paths[0] || p in paths[1..];
    }
  }

  lemma InsertExact(b: Buckets, path: string, name: string, version: string)
    ensures version in Versions(Insert(b, path), name) <==>
            version in Versions(b, name) || (name != "" && SplitNameVersion(Base(path)) == (name, version))
  {
    var split := SplitNameVersion(Base(path));
  }

  lemma {:induction false} NoEmptyBucket(b: Buckets, paths: seq<string>)
    requires forall n | n in b :: b[n] != {}
    ensures forall n | n in BucketFrom(b, paths) :: BucketFrom(b, paths)[n] != {}
    decreases |paths|
  {
    if paths != [] {
      NoEmptyBucket(Insert(b, paths[0]), paths[1..]);
    }
  }

  /** A version is in a name's bucket exactly when some path splits into the two; no bucket
      is empty or nameless. */
  lemma BucketExact(paths: seq<string>)
    ensures forall name, version :: version in Versions(Bucket(paths), name) <==>
              name != "" && exists p | p in paths :: SplitNameVersion(Base(p)) == (name, version)
    ensures forall name | name in Bucket(paths) :: Bucket(paths)[name] != {}
  {
    forall name, version
      ensures version in Versions(Bucket(paths), name) <==>
              name != "" && exists p | p in paths :: SplitNameVersion(Base(p)) == (name, version)
    {
      BucketFromExact(map[], paths, name, version);
    }
    NoEmptyBucket(map[], paths);
  }

  function PathsOf(bs: seq<Built>): (paths: seq<string>)
    ensures |paths| == |bs| && forall i | 0 <= i < |bs| :: paths[i] == PathOf(bs[i])
  {
    if bs == [] then [] else [PathOf(bs[0])] + PathsOf(bs[1..])
  }

  /** The buckets of a closure are exactly its names, wrapper included, with the versions
      each occurs in. */
  lemma BucketsReadBuilt(bs: seq<Built>)
    requires forall b | b in bs :: WellBuilt(b)
    ensures forall name, version :: version in Versions(Bucket(PathsOf(bs)), name) <==>
              exists b | b in bs :: b.name + b.wrapper == name && b.version == version
  {
    BucketExact(PathsOf(bs));
    forall name, version
      ensures version in Versions(Bucket(PathsOf(bs)), name) <==>
              exists b | b in bs :: b.name + b.wrapper == name && b.version == version
    {
      PathsReadBuilt(bs, name, version);
    }
  }

  lemma PathsReadBuilt(bs: seq<Built>, name: string, version: string)
    requires forall b | b in bs :: WellBuilt(b)
    ensures (name != "" && exists p | p in PathsOf(bs) :: SplitNameVersion(Base(p)) == (name, version)) <==>
            exists b | b in bs :: b.name + b.wrapper == name && b.version == version
  {
    if b :| b in bs && b.name + b.wrapper == name && b.version == version {
      BuiltIsRead(bs, b);
    }
    if p :| p in PathsOf(bs) && SplitNameVersion(Base(p)) == (name, version) {
      var b := BuiltOfPath(bs, p);
    }
  }

  lemma BuiltIsRead(bs: seq<Built>, b: Built)
    requires b in bs && WellBuilt(b)
    ensures PathOf(b) in PathsOf(bs) && SplitNameVersion(Base(PathOf(b))) == (b.name + b.wrapper, b.version)
  {
    SplitReadsBuilt(b);
    var i :| 0 <= i < |bs| && bs[i] == b;
    assert PathsOf(bs)[i] in PathsOf(bs);
  }

  lemma BuiltOfPath(bs: seq<Built>, p: string) returns (b: Built)
    requires p in PathsOf(bs) && forall b | b in bs :: WellBuilt(b)
    ensures b in bs && SplitNameVersion(Base(p)) == (b.name + b.wrapper, b.version) && b.name + b.wrapper != ""
  {
    var i :| 0 <= i < |bs| && PathsOf(bs)[i] == p;
    b := bs[i];
    SplitReadsBuilt(b);
  }

  lemma SameVersionsSameBuckets(a: Buckets, b: Buckets)
    requires forall n | n in a :: a[n] != {}
    requires forall n | n in b :: b[n] != {}
    requires forall n, v :: v in Versions(a, n) <==> v in Versions(b, n)
    ensures a == b
  {
    forall n ensures n in a <==> n in b {
      if n in a {
        var v :| v in a[n];
        assert v in Versions(a, n);
        assert v in Versions(b, n);
      }
      if n in b {
        var v :| v in b[n];
        assert v in Versions(b, n);
        assert v in Versions(a, n);
      }
    }
    forall n | n in a ensures a[n] == b[n] {
      forall v ensures v in a[n] <==> v in b[n] {
        assert v in Versions(a, n) <==> v in Versions(b, n);
      }
    }
  }

  /** Buckets depend on the set of paths only. */
  lemma BucketOfSet(a: seq<string>, b: seq<string>)
    requires forall p :: p in a <==> p in b
    ensures Bucket(a) == Bucket(b)
  {
    BucketExact(a);
    BucketExact(b);
    SameVersionsSameBuckets(Bucket(a), Bucket(b));
  }

  // ---- the diff ----

  datatype PkgChange =
    | Updated(name: string, from: string, to: string)
    | Added(name: string, versions: string)
    | Removed(name: string, versions: string)
    | ContentOnly(count: nat)
    | SampleAdded(base: string)
    | SampleRemoved(base: string)
    | More(count: nat)

  function Label(version: string): string {
    if version == "" then "(no version)" else version
  }

  function JoinLabels(versions: seq<string>): string {
    if versions == [] then ""
    else if |versions| == 1 then Label(versions[0])
    else Label(versions[0]) + ", " + JoinLabels(versions[1..])
  }

  function JoinVersions(versions: set<string>): string { JoinLabels(Keys(versions)) }

  /** The entry for one name, if its versions differ. */
  function ChangeOf(name: string, l: Buckets, r: Buckets): seq<PkgChange> {
    if name in l && name in r then
      if l[name] == r[name] then [] else [Updated(name, JoinVersions(r[name]), JoinVersions(l[name]))]
    else if name in l then [Added(name, JoinVersions(l[name]))]
    else if name in r then [Removed(name, JoinVersions(r[name]))]
    else []
  }

  function VersionChanges(names: seq<string>, l: Buckets, r: Buckets): seq<PkgChange> {
    if names == [] then [] else ChangeOf(names[0], l, r) + VersionChanges(names[1..], l, r)
  }

  function Elements(s: seq<string>): set<string> { set x | x in s }

  function OnlyIn(a: seq<string>, b: seq<string>): seq<string> { Keys(Elements(a) - Elements(b)) }

  const SAMPLES := 8

  function SampleOf(path: string, added: bool): PkgChange {
    if added then SampleAdded(Base(path)) else SampleRemoved(Base(path))
  }

  function Samples(paths: seq<string>, n: nat, added: bool): seq<PkgChange> {
    if paths == [] || n == 0 then []
    else [SampleOf(paths[0], added)] + Samples(paths[1..], n - 1, added)
  }

  function Beyond(n: nat): nat { if n <= SAMPLES then 0 else n - SAMPLES }

  function Larger(a: nat, b: nat): nat { if a >= b then a else b }

  function ContentOf(onlyLocal: seq<string>, onlyRemote: seq<string>): seq<PkgChange> {
    if onlyLocal == [] && onlyRemote == [] then []
    else
      var extra := Beyond(|onlyLocal|) + Beyond(|onlyRemote|);
      [ContentOnly(Larger(|onlyLocal|, |onlyRemote|))]
      + Samples(onlyLocal, SAMPLES, true) + Samples(onlyRemote, SAMPLES, false)
      + (if extra > 0 then [More(extra)] else [])
  }

  function ContentChanges(local: seq<string>, remote: seq<string>): seq<PkgChange> {
    ContentOf(OnlyIn(local, remote), OnlyIn(remote, local))
  }

  function Diff(local: seq<string>, remote: seq<string>): seq<PkgChange> {
    var l, r := Bucket(local), Bucket(remote);
    var changes := VersionChanges(Keys(l.Keys + r.Keys), l, r);
    if changes == [] then ContentChanges(local, remote) else changes
  }

  lemma ChangesStep(changes: seq<PkgChange>, names: seq<string>, i: nat, l: Buckets, r: Buckets)
    requires i < |names|
    ensures changes + VersionChanges(names[i..], l, r) ==
            changes + ChangeOf(names[i], l, r) + VersionChanges(names[i + 1..], l, r)
  {
    assert names[i..][1..] == names[i + 1..];
    var change, rest := ChangeOf(names[i], l, r), VersionChanges(names[i + 1..], l, r);
    assert changes + (change + rest) == changes + change + rest;
  }

  method CompareNames(names: seq<string>, l: Buckets, r: Buckets) returns (changes: seq<PkgChange>)
    ensures changes == VersionChanges(names, l, r)
  {
    changes := [];
    for i := 0 to |names|
      invariant VersionChanges(names, l, r) == changes + VersionChanges(names[i..], l, r)
    {
      ChangesStep(changes, names, i, l, r);
      var change := CompareName(names[i], l, r);
      changes := changes + change;
    }
  }

  /** One pass of the loop over all names; an empty result is a `continue`. */
  method CompareName(name: string, l: Buckets, r: Buckets) returns (change: seq<PkgChange>)
    ensures change == ChangeOf(name, l, r)
  {
    if name in l && name in r {
      if l[name] == r[name] {
        return [];
      }
      return [Updated(name, JoinVersions(r[name]), JoinVersions(l[name]))];
    }
    if name in l {
      return [Added(name, JoinVersions(l[name]))];
    }
    if name in r {
      return [Removed(name, JoinVersions(r[name]))];
    }
    return [];
  }

  method ComputeVersionDiff(local: seq<string>, remote: seq<string>) returns (changes: seq<PkgChange>)
    ensures changes == Diff(local, remote)
  {
    var l := ComputeBuckets(local);
    var r := ComputeBuckets(remote);
    changes := CompareNames(Keys(l.Keys + r.Keys), l, r);
    if changes == [] {
      changes := ContentFallback(OnlyIn(local, remote), OnlyIn(remote, local));
    }
  }

  method ContentFallback(onlyLocal: seq<string>, onlyRemote: seq<string>) returns (changes: seq<PkgChange>)
    ensures changes == ContentOf(onlyLocal, onlyRemote)
  {
    if onlyLocal == [] && onlyRemote == [] {
      return [];
    }
    changes := [ContentOnly(Larger(|onlyLocal|, |onlyRemote|))];
    var added := TakeSamples(onlyLocal, SAMPLES, true);
    var removed := TakeSamples(onlyRemote, SAMPLES, false);
    changes := changes + added + removed;
    var extra := Beyond(|onlyLocal|) + Beyond(|onlyRemote|);
    if extra > 0 {
      changes := changes + [More(extra)];
    }
  }

  lemma SamplesStep(changes: seq<PkgChange>, paths: seq<string>, i: nat, cap: nat, added: bool)
    requires i < |paths| && i < cap
    ensures changes + Samples(paths[i..], cap - i, added) ==
            changes + [SampleOf(paths[i], added)] + Samples(paths[i + 1..], cap - i - 1, added)
  {
    assert paths[i..][1..] == paths[i + 1..];
  }

  method TakeSamples(paths: seq<string>, cap: nat, added: bool) returns (changes: seq<PkgChange>)
    ensures changes == Samples(paths, cap, added)
  {
    changes := [];
    var i := 0;
    while i < |paths| && i < cap
      invariant i <= |paths| && i <= cap
      invariant Samples(paths, cap, added) == changes + Samples(paths[i..], cap - i, added)
    {
      SamplesStep(changes, paths, i, cap, added);
      changes := changes + [SampleOf(paths[i], added)];
      i := i + 1;
    }
  }

  // ---- the diff is exact ----

  predicate IsVersionEntry(c: PkgChange) { c.Updated? || c.Added? || c.Removed? }

  /** What the user sees of a closure: each name with its versions. */
  function Render(b: Buckets): map<string, string> { map n | n in b :: JoinVersions(b[n]) }

  datatype Patched = Stuck | Done(shown: map<string, string>)

  /** Apply entries to what is shown; an entry that does not fit what is there is stuck. */
  function Patch(shown: map<string, string>, changes: seq<PkgChange>): Patched
    decreases |changes|
  {
    if changes == [] then Done(shown)
    else
      match changes[0]
      case Updated(n, from, to) =>
        if n in shown && shown[n] == from then Patch(shown[n := to], changes[1..]) else Stuck
      case Added(n, vs) =>
        if n !in shown then Patch(shown[n := vs], changes[1..]) else Stuck
      case Removed(n, vs) =>
        if n in shown && shown[n] == vs then Patch(shown - {n}, changes[1..]) else Stuck
      case _ => Patch(shown, changes[1..])
  }

  /** The entry for one name, from what is shown on either side. */
  function EntryOf(name: string, l: map<string, string>, r: map<string, string>, same: bool): seq<PkgChange> {
    if name in l && name in r then if same then [] else [Updated(name, r[name], l[name])]
    else if name in l then [Added(name, l[name])]
    else if name in r then [Removed(name, r[name])]
    else []
  }

  lemma ChangeIsEntry(name: string, l: Buckets, r: Buckets)
    ensures ChangeOf(name, l, r) ==
            EntryOf(name, Render(l), Render(r), name in l && name in r && l[name] == r[name])
  {
  }

  /** Local for the names already patched, remote for the rest. */
  function Between(rest: set<string>, l: map<string, string>, r: map<string, string>): map<string, string> {
    map n | n in l.Keys + r.Keys && (if n in rest then n in r else n in l) ::
      if n in rest then r[n] else l[n]
  }

  /** Patching one name turns its remote entry into its local one. */
  lemma PatchOne(name: string, rest: set<string>, l: map<string, string>, r: map<string, string>, same: bool,
                 more: seq<PkgChange>)
    requires name !in rest
    requires same ==> name in l && name in r && l[name] == r[name]
    ensures Patch(Between(rest + {name}, l, r), EntryOf(name, l, r, same) + more) == Patch(Between(rest, l, r), more)
  {
    var before, after, change := Between(rest + {name}, l, r), Between(rest, l, r), EntryOf(name, l, r, same);
    assert forall n | n != name :: (n in before <==> n in after) && (n in before ==> before[n] == after[n]);
    if change == [] {
      assert change + more == more;
      assert before == after;
    } else {
      assert (change + more)[0] == change[0] && (change + more)[1..] == more;
      if change[0].Removed? {
        assert before - {name} == after;
      } else {
        assert before[name := l[name]] == after;
      }
    }
  }

  lemma {:induction false} PatchNames(names: seq<string>, l: Buckets, r: Buckets)
    requires Distinct(names)
    ensures Patch(Between(Elements(names), Render(l), Render(r)), VersionChanges(names, l, r)) ==
            Done(Between({}, Render(l), Render(r)))
  {
    if names == [] {
      assert Elements(names) == {};
    } else {
      var rest := names[1..];
      assert names == [names[0]] + rest;
      assert Elements(names) == Elements(rest) + {names[0]};
      ChangeIsEntry(names[0], l, r);
      PatchOne(names[0], Elements(rest), Render(l), Render(r),
               names[0] in l && names[0] in r && l[names[0]] == r[names[0]], VersionChanges(rest, l, r));
      PatchNames(rest, l, r);
    }
  }

  lemma PatchAll(names: seq<string>, l: Buckets, r: Buckets)
    requires Distinct(names) && forall n :: n in names <==> n in l || n in r
    ensures Patch(Render(r), VersionChanges(names, l, r)) == Done(Render(l))
  {
    PatchNames(names, l, r);
    BetweenEnds(Elements(names), Render(l), Render(r));
  }

  lemma BetweenEnds(all: set<string>, l: map<string, string>, r: map<string, string>)
    requires all == l.Keys + r.Keys
    ensures Between(all, l, r) == r && Between({}, l, r) == l
  {
  }

  lemma {:induction false} PatchSkipsContent(shown: map<string, string>, changes: seq<PkgChange>)
    requires forall c | c in changes :: !IsVersionEntry(c)
    ensures Patch(shown, changes) == Done(shown)
  {
    if changes != [] {
      assert changes[0] in changes;
      PatchSkipsContent(shown, changes[1..]);
    }
  }

  lemma {:induction false} SamplesAreSamples(paths: seq<string>, n: nat, added: bool)
    ensures |Samples(paths, n, added)| == if |paths| < n then |paths| else n
    ensures forall i | 0 <= i < |Samples(paths, n, added)| ::
              Samples(paths, n, added)[i] == if added then SampleAdded(Base(paths[i])) else SampleRemoved(Base(paths[i]))
    decreases |paths|
  {
    if paths != [] && n > 0 {
      SamplesAreSamples(paths[1..], n - 1, added);
    }
  }

  lemma ContentHasNoVersions(a: seq<string>, b: seq<string>)
    ensures forall c | c in ContentOf(a, b) :: !IsVersionEntry(c)
  {
    SamplesAreSamples(a, SAMPLES, true);
    SamplesAreSamples(b, SAMPLES, false);
  }

  lemma {:induction false} NoChangesMeansEqual(names: seq<string>, l: Buckets, r: Buckets)
    ensures VersionChanges(names, l, r) == [] <==> forall n | n in names :: ChangeOf(n, l, r) == []
    ensures forall c | c in VersionChanges(names, l, r) :: IsVersionEntry(c)
  {
    if names != [] {
      NoChangesMeansEqual(names[1..], l, r);
      assert forall n :: n in names <==> n == names[0] || n in names[1..];
    }
  }

  lemma NoVersionChange(names: seq<string>, l: Buckets, r: Buckets)
    requires forall n :: n in names <==> n in l || n in r
    ensures VersionChanges(names, l, r) == [] <==> l == r
  {
    NoChangesMeansEqual(names, l, r);
    if VersionChanges(names, l, r) == [] {
      forall n ensures (n in l <==> n in r) && (n in l ==> l[n] == r[n]) {
        assert n in names ==> ChangeOf(n, l, r) == [];
      }
    }
  }

  /** Reading the diff as a patch turns what is shown of the remote closure into what is
      shown of the local one, every entry fitting what it finds. */
  lemma {:induction false} DiffPatchesRemoteToLocal(local: seq<string>, remote: seq<string>)
    ensures Patch(Render(Bucket(remote)), Diff(local, remote)) == Done(Render(Bucket(local)))
  {
    var l, r := Bucket(local), Bucket(remote);
    var names := Keys(l.Keys + r.Keys);
    KeysDistinct(l.Keys + r.Keys);
    NoVersionChange(Keys(l.Keys + r.Keys), l, r);
    if l == r {
      ContentHasNoVersions(OnlyIn(local, remote), OnlyIn(remote, local));
      PatchSkipsContent(Render(r), Diff(local, remote));
    } else {
      PatchAll(names, l, r);
    }
  }

  /** The paths of `a` that are not in `b`, in order, each once. */
  ghost predicate Lists(only: seq<string>, a: seq<string>, b: seq<string>) {
    Ascending(only) && forall x :: x in only <==> x in a && x !in b
  }

  lemma OnlyInExact(a: seq<string>, b: seq<string>)
    ensures Lists(OnlyIn(a, b), a, b)
  {
    forall x ensures x in OnlyIn(a, b) <==> x in a && x !in b {
      assert x in OnlyIn(a, b) <==> x in Elements(a) - Elements(b);
    }
    KeysAscend(Elements(a) - Elements(b));
  }

  lemma OnlyInEmpty(a: seq<string>, b: seq<string>)
    ensures OnlyIn(a, b) == [] <==> Elements(a) <= Elements(b)
  {
    OnlyInExact(a, b);
    if OnlyIn(a, b) != [] {
      assert OnlyIn(a, b)[0] in OnlyIn(a, b);
    }
  }

  lemma ContentEmpty(local: seq<string>, remote: seq<string>)
    ensures ContentChanges(local, remote) == [] <==> Elements(local) == Elements(remote)
  {
    OnlyInEmpty(local, remote);
    OnlyInEmpty(remote, local);
  }

  lemma SameElementsSameBuckets(local: seq<string>, remote: seq<string>)
    requires Elements(local) == Elements(remote)
    ensures Bucket(local) == Bucket(remote)
  {
    assert forall p :: p in local <==> p in Elements(local);
    assert forall p :: p in remote <==> p in Elements(remote);
    BucketOfSet(local, remote);
  }

  /** The diff is empty exactly when the two closures are the same set of paths. */
  lemma {:induction false} DiffEmptyIffSame(local: seq<string>, remote: seq<string>)
    ensures Diff(local, remote) == [] <==> Elements(local) == Elements(remote)
  {
    var l, r := Bucket(local), Bucket(remote);
    NoVersionChange(Keys(l.Keys + r.Keys), l, r);
    ContentEmpty(local, remote);
    if Elements(local) == Elements(remote) {
      SameElementsSameBuckets(local, remote);
    }
  }

  function Smaller(a: nat, b: nat): nat { if a <= b then a else b }

  /** One head, the first samples of each side in order, and a remainder, which together
      account for every path that is on one side only. */
  predicate ContentShape(d: seq<PkgChange>, a: seq<string>, b: seq<string>) {
    var na, nb := Smaller(|a|, SAMPLES), Smaller(|b|, SAMPLES);
    && |d| >= 1 + na + nb && d[0].ContentOnly? && d[0].count >= |a| && d[0].count >= |b|
    && (d[0].count == |a| || d[0].count == |b|)
    && (forall i | 0 <= i < na :: d[1 + i] == SampleAdded(Base(a[i])))
    && (forall i | 0 <= i < nb :: d[1 + na + i] == SampleRemoved(Base(b[i])))
    && if |d| == 1 + na + nb then na + nb == |a| + |b|
       else |d| == 2 + na + nb && d[1 + na + nb].More? && na + nb + d[1 + na + nb].count == |a| + |b|
  }

  lemma ContentHasShape(a: seq<string>, b: seq<string>)
    requires a != [] || b != []
    ensures ContentShape(ContentOf(a, b), a, b)
  {
    SamplesAreSamples(a, SAMPLES, true);
    SamplesAreSamples(b, SAMPLES, false);
    var extra := Beyond(|a|) + Beyond(|b|);
    ShapeOfPieces(a, b, Larger(|a|, |b|), Samples(a, SAMPLES, true), Samples(b, SAMPLES, false),
                  if extra > 0 then [More(extra)] else []);
  }

  lemma ShapeOfPieces(a: seq<string>, b: seq<string>, top: nat, sa: seq<PkgChange>, sb: seq<PkgChange>,
                      rest: seq<PkgChange>)
    requires top >= |a| && top >= |b| && (top == |a| || top == |b|)
    requires |sa| == Smaller(|a|, SAMPLES) && |sb| == Smaller(|b|, SAMPLES)
    requires forall i | 0 <= i < |sa| :: sa[i] == SampleAdded(Base(a[i]))
    requires forall i | 0 <= i < |sb| :: sb[i] == SampleRemoved(Base(b[i]))
    requires rest == [] || (|rest| == 1 && rest[0].More?)
    requires |sa| + |sb| + (if rest == [] then 0 else rest[0].count) == |a| + |b|
    ensures ContentShape([ContentOnly(top)] + sa + sb + rest, a, b)
  {
    var d, na, nb := [ContentOnly(top)] + sa + sb + rest, |sa|, |sb|;
    Laid([ContentOnly(top)], sa, sb, rest);
    assert d[0] == ContentOnly(top);
    forall i | 0 <= i < na ensures d[1 + i] == SampleAdded(Base(a[i])) {
      assert d[1 + i] == sa[i];
    }
    forall i | 0 <= i < nb ensures d[1 + na + i] == SampleRemoved(Base(b[i])) {
      assert d[1 + na + i] == sb[i];
    }
    LastPiece([ContentOnly(top)] + sa + sb, rest);
  }

  lemma LastPiece<T>(front: seq<T>, rest: seq<T>)
    ensures rest == [] ==> |front + rest| == |front|
    ensures |rest| == 1 ==> |front + rest| == |front| + 1 && (front + rest)[|front|] == rest[0]
  {
  }

  lemma Laid<T>(a: seq<T>, b: seq<T>, c: seq<T>, d: seq<T>)
    ensures var all := a + b + c + d;
            && (forall i | 0 <= i < |a| :: all[i] == a[i])
            && (forall i | 0 <= i < |b| :: all[|a| + i] == b[i])
            && (forall i | 0 <= i < |c| :: all[|a| + |b| + i] == c[i])
            && (forall i | 0 <= i < |d| :: all[|a| + |b| + |c| + i] == d[i])
  {
  }

  lemma {:induction false} ContentOnlyForm(local: seq<string>, remote: seq<string>)
    ensures if Bucket(local) == Bucket(remote) && Elements(local) != Elements(remote)
            then ContentShape(Diff(local, remote), OnlyIn(local, remote), OnlyIn(remote, local))
            else forall c | c in Diff(local, remote) :: IsVersionEntry(c)
  {
    var l, r := Bucket(local), Bucket(remote);
    var names := Keys(l.Keys + r.Keys);
    NoVersionChange(names, l, r);
    NoChangesMeansEqual(names, l, r);
    OnlyInEmpty(local, remote);
    OnlyInEmpty(remote, local);
    if l == r && Elements(local) != Elements(remote) {
      ContentHasShape(OnlyIn(local, remote), OnlyIn(remote, local));
    }
  }

  /** The lists are the paths on either side only; if no version changed but some path did,
      the content form accounts for them, and otherwise there are version entries only. */
  ghost predicate Accounts(d: seq<PkgChange>, local: seq<string>, remote: seq<string>, a: seq<string>, b: seq<string>) {
    && Lists(a, local, remote) && Lists(b, remote, local)
    && if Bucket(local) == Bucket(remote) && Elements(local) != Elements(remote) then ContentShape(d, a, b)
       else forall c | c in d :: IsVersionEntry(c)
  }

  /** The content-only form appears exactly when the version maps agree but the sets differ,
      and then accounts for the whole symmetric difference. */
  lemma ContentOnlyExact(local: seq<string>, remote: seq<string>)
    ensures exists a, b :: Accounts(Diff(local, remote), local, remote, a, b)
  {
    ContentOnlyForm(local, remote);
    OnlyInExact(local, remote);
    OnlyInExact(remote, local);
    assert Accounts(Diff(local, remote), local, remote, OnlyIn(local, remote), OnlyIn(remote, local));
  }

  function EntryName(c: PkgChange): string {
    match c
    case Updated(n, _, _) => n
    case Added(n, _) => n
    case Removed(n, _) => n
    case _ => ""
  }

  /** Version entries about these names, in ascending order. */
  predicate EntriesFor(d: seq<PkgChange>, names: seq<string>) {
    && (forall i | 0 <= i < |d| :: IsVersionEntry(d[i]) && EntryName(d[i]) in names)
    && (forall i, j | 0 <= i < j < |d| :: Less(EntryName(d[i]), EntryName(d[j])))
  }

  lemma PrependEntry(head: seq<PkgChange>, tail: seq<PkgChange>, names: seq<string>)
    requires names != [] && Ascending(names) && EntriesFor(tail, names[1..])
    requires head == [] || (|head| == 1 && IsVersionEntry(head[0]) && EntryName(head[0]) == names[0])
    ensures EntriesFor(head + tail, names)
  {
    forall j | 0 <= j < |tail| ensures EntryName(tail[j]) in names && Less(names[0], EntryName(tail[j])) {
      var k :| 0 <= k < |names| - 1 && names[1..][k] == EntryName(tail[j]);
      assert names[k + 1] == EntryName(tail[j]);
    }
    var d := head + tail;
    assert forall i | 0 <= i < |d| :: d[i] == if i < |head| then head[i] else tail[i - |head|];
  }

  lemma {:induction false} EntriesAscend(names: seq<string>, l: Buckets, r: Buckets)
    requires Ascending(names)
    ensures EntriesFor(VersionChanges(names, l, r), names)
  {
    if names != [] {
      EntriesAscend(names[1..], l, r);
      PrependEntry(ChangeOf(names[0], l, r), VersionChanges(names[1..], l, r), names);
    }
  }

  /** Each name at most once, in ascending order. */
  lemma {:induction false} DiffNamesAscend(local: seq<string>, remote: seq<string>)
    requires Bucket(local) != Bucket(remote)
    ensures var d := Diff(local, remote);
            && (forall i | 0 <= i < |d| :: IsVersionEntry(d[i]))
            && (forall i, j | 0 <= i < j < |d| :: Less(EntryName(d[i]), EntryName(d[j])))
  {
    var l, r := Bucket(local), Bucket(remote);
    KeysAscend(l.Keys + r.Keys);
    NoVersionChange(Keys(l.Keys + r.Keys), l, r);
    EntriesAscend(Keys(l.Keys + r.Keys), l, r);
  }

  // ---- what is shown tells versions apart ----

  /** Versions as they occur in store path names: no comma, and not the label of the empty one. */
  predicate Plain(v: string) { ',' !in v && v != "(no version)" }

  lemma LabelPlain(v: string)
    requires Plain(v)
    ensures ',' !in Label(v) && Label(v) != ""
  {
  }

  lemma FirstWord(x: string, s: string, y: string, t: string)
    requires ',' !in x && ',' !in y
    requires (s == "" || s[0] == ',') && (t == "" || t[0] == ',')
    requires x + s == y + t
    ensures x == y && s == t
  {
    var whole := x + s;
    assert forall i | 0 <= i < |y| :: whole[i] == (y + t)[i] == y[i];
    assert |x| < |whole| ==> whole[|x|] == s[0];
    assert |y| < |whole| ==> whole[|y|] == (y + t)[|y|] == t[0];
    assert |x| == |y|;
    assert x == whole[..|x|] == y;
    assert s == whole[|x|..] == t;
  }

  function Tail(versions: seq<string>): string {
    if versions == [] then "" else ", " + JoinLabels(versions)
  }

  lemma JoinUnfold(versions: seq<string>)
    requires versions != []
    ensures JoinLabels(versions) == Label(versions[0]) + Tail(versions[1..])
  {
    assert Label(versions[0]) + "" == Label(versions[0]);
    if |versions| > 1 {
      assert Label(versions[0]) + (", " + JoinLabels(versions[1..])) == Label(versions[0]) + ", " + JoinLabels(versions[1..]);
    }
  }

  lemma {:induction false} JoinInjective(a: seq<string>, b: seq<string>)
    requires forall v | v in a :: Plain(v)
    requires forall v | v in b :: Plain(v)
    requires JoinLabels(a) == JoinLabels(b)
    ensures a == b
    decreases |a|
  {
    if a != [] { assert a[0] in a; LabelPlain(a[0]); JoinUnfold(a); }
    if b != [] { assert b[0] in b; LabelPlain(b[0]); JoinUnfold(b); }
    if a != [] && b != [] {
      FirstWord(Label(a[0]), Tail(a[1..]), Label(b[0]), Tail(b[1..]));
      assert a == [a[0]] + a[1..] && b == [b[0]] + b[1..];
      if a[1..] != [] && b[1..] != [] {
        assert Tail(a[1..])[2..] == JoinLabels(a[1..]) && Tail(b[1..])[2..] == JoinLabels(b[1..]);
        JoinInjective(a[1..], b[1..]);
      }
    }
  }

  /** Different version sets never look the same, so an update entry always shows a change. */
  lemma {:induction false} VersionsShownApart(a: set<string>, b: set<string>)
    requires (forall v | v in a :: Plain(v)) && (forall v | v in b :: Plain(v))
    ensures JoinVersions(a) == JoinVersions(b) <==> a == b
  {
    if JoinVersions(a) == JoinVersions(b) {
      JoinInjective(Keys(a), Keys(b));
      forall v ensures v in a <==> v in b {
        assert v in a <==> v in Keys(a);
      }
    }
  }

  /** The diff says all there is to say about versions: the remote version sets and the diff
      determine the local version sets. */
  lemma DiffDeterminesLocal(local1: seq<string>, remote1: seq<string>, local2: seq<string>, remote2: seq<string>)
    requires Bucket(remote1) == Bucket(remote2) && Diff(local1, remote1) == Diff(local2, remote2)
    requires forall n, v | v in Versions(Bucket(local1), n) :: Plain(v)
    requires forall n, v | v in Versions(Bucket(local2), n) :: Plain(v)
    ensures Bucket(local1) == Bucket(local2)
  {
    var l1, l2 := Bucket(local1), Bucket(local2);
    DiffPatchesRemoteToLocal(local1, remote1);
    DiffPatchesRemoteToLocal(local2, remote2);
    SameRenderSameBuckets(l1, l2);
  }

  lemma SameRenderSameBuckets(a: Buckets, b: Buckets)
    requires Render(a) == Render(b)
    requires forall n, v | v in Versions(a, n) :: Plain(v)
    requires forall n, v | v in Versions(b, n) :: Plain(v)
    ensures a == b
  {
    assert a.Keys == Render(a).Keys == Render(b).Keys == b.Keys;
    forall n | n in a ensures a[n] == b[n] {
      SameRenderSameVersions(a, b, n);
    }
  }

  lemma SameRenderSameVersions(a: Buckets, b: Buckets, n: string)
    requires n in a && n in b && Render(a)[n] == Render(b)[n]
    requires forall v | v in Versions(a, n) + Versions(b, n) :: Plain(v)
    ensures a[n] == b[n]
  {
    VersionsShownApart(a[n], b[n]);
  }

  // ---- what a change of one package shows ----

  /** Versions are listed least first, a comma between them; an empty one is spelled out. */
  lemma ShownLeastFirst(versions: set<string>, v: string)
    requires IsLeast(v, versions)
    ensures var shown := if v == "" then "(no version)" else v;
            JoinVersions(versions) == if versions == {v} then shown else shown + ", " + JoinVersions(versions - {v})
  {
    LeastUnique(v, Least(versions), versions);
    var rest := versions - {v};
    assert Keys(versions) == [v] + Keys(rest);
    assert Keys(versions)[1..] == Keys(rest);
    if versions == {v} {
      assert rest == {};
    } else {
      var w :| w in versions && w != v;
      assert w in rest && rest != {};
    }
  }

  lemma BucketOfOne(b: Built)
    requires WellBuilt(b)
    ensures Bucket([PathOf(b)]) == map[b.name + b.wrapper := {b.version}]
  {
    SplitReadsBuilt(b);
    assert [PathOf(b)][1..] == [];
    assert {} + {b.version} == {b.version};
    var b1 := Insert(map[], PathOf(b));
    assert Bucket([PathOf(b)]) == BucketFrom(b1, [PathOf(b)][1..]) == b1;
  }

  lemma KeysOfOne(x: string)
    ensures Keys({x}) == [x]
  {
    assert Keys({x})[0] == x;
  }

  lemma ShownAlone(v: string)
    ensures JoinVersions({v}) == if v == "" then "(no version)" else v
  {
    KeysOfOne(v);
  }

  /** Two closures of one path each, of one package: a new version is shown as an update from
      the remote version to the local one; a mere rebuild as one changed path with both
      base names; and the same path as nothing. */
  lemma OnePackageShown(local: Built, remote: Built)
    requires WellBuilt(local) && WellBuilt(remote) && local.name + local.wrapper == remote.name + remote.wrapper
    ensures Diff([PathOf(local)], [PathOf(remote)]) ==
            if local.version != remote.version then
              [Updated(local.name + local.wrapper, if remote.version == "" then "(no version)" else remote.version,
                       if local.version == "" then "(no version)" else local.version)]
            else if PathOf(local) != PathOf(remote) then
              [ContentOnly(1), SampleAdded(BaseOf(local)), SampleRemoved(BaseOf(remote))]
            else []
  {
    BucketOfOne(local);
    BucketOfOne(remote);
    ChangesOfOne(local.name + local.wrapper, local.version, remote.version);
    OneContent(PathOf(local), PathOf(remote));
    SplitReadsBuilt(local);
    SplitReadsBuilt(remote);
  }

  lemma ChangesOfOne(n: string, v: string, w: string)
    ensures var l: Buckets, r: Buckets := map[n := {v}], map[n := {w}];
            VersionChanges(Keys(l.Keys + r.Keys), l, r) ==
            if v == w then []
            else [Updated(n, if w == "" then "(no version)" else w, if v == "" then "(no version)" else v)]
  {
    var l: Buckets, r: Buckets := map[n := {v}], map[n := {w}];
    assert l.Keys + r.Keys == {n};
    KeysOfOne(n);
    assert [n][1..] == [];
    assert VersionChanges([n], l, r) == ChangeOf(n, l, r) + [];
    ShownAlone(v);
    ShownAlone(w);
    assert v in l[n] && (v in r[n] ==> v == w);
  }

  lemma OneContent(p: string, q: string)
    ensures ContentChanges([p], [q]) ==
            if p == q then [] else [ContentOnly(1), SampleAdded(Base(p)), SampleRemoved(Base(q))]
  {
    assert Elements([p]) == {p} && Elements([q]) == {q};
    if p == q {
      assert {p} - {q} == {};
    } else {
      assert {p} - {q} == {p} && {q} - {p} == {q};
      KeysOfOne(p);
      KeysOfOne(q);
      OneSample(p, true);
      OneSample(q, false);
    }
  }

  lemma OneSample(p: string, added: bool)
    ensures Samples([p], SAMPLES, added) == [SampleOf(p, added)]
  {
    assert [p][1..] == [];
    assert Samples([p][1..], SAMPLES - 1, added) == [];
  }

  /** Two packages of different names: the remote one went, the local one came, in order of
      their names. */
  lemma TwoPackagesShown(local: Built, remote: Built)
    requires WellBuilt(local) && WellBuilt(remote) && local.name + local.wrapper != remote.name + remote.wrapper
    ensures var here, there := local.name + local.wrapper, remote.name + remote.wrapper;
            var came := Added(here, if local.version == "" then "(no version)" else local.version);
            var went := Removed(there, if remote.version == "" then "(no version)" else remote.version);
            Diff([PathOf(local)], [PathOf(remote)]) == if Less(here, there) then [came, went] else [went, came]
  {
    BucketOfOne(local);
    BucketOfOne(remote);
    ChangesApart(local.name + local.wrapper, local.version, remote.name + remote.wrapper, remote.version);
  }

  lemma ChangesApart(here: string, v: string, there: string, w: string)
    requires here != there
    ensures var l: Buckets, r: Buckets := map[here := {v}], map[there := {w}];
            var came := Added(here, if v == "" then "(no version)" else v);
            var went := Removed(there, if w == "" then "(no version)" else w);
            VersionChanges(Keys(l.Keys + r.Keys), l, r) == if Less(here, there) then [came, went] else [went, came]
  {
    var l: Buckets, r: Buckets := map[here := {v}], map[there := {w}];
    assert l.Keys + r.Keys == {here, there};
    KeysOfTwo(here, there);
    ShownAlone(v);
    ShownAlone(w);
    ChangesOfTwo(here, there, l, r);
    ChangesOfTwo(there, here, l, r);
  }

  lemma ChangesOfTwo(x: string, y: string, l: Buckets, r: Buckets)
    ensures VersionChanges([x, y], l, r) == ChangeOf(x, l, r) + ChangeOf(y, l, r)
  {
    assert [x, y][1..] == [y] && [y][1..] == [];
    assert VersionChanges([y], l, r) == ChangeOf(y, l, r) + [];
  }

  lemma KeysOfTwo(a: string, b: string)
    requires a != b
    ensures Keys({a, b}) == if Less(a, b) then [a, b] else [b, a]
  {
    LessTotal(a, b);
    var x, y := if Less(a, b) then a else b, if Less(a, b) then b else a;
    assert {a, b} == {x, y};
    assert IsLeast(x, {a, b});
    LeastUnique(x, Least({a, b}), {a, b});
    assert {a, b} - {x} == {y};
    KeysOfOne(y);
  }
}
