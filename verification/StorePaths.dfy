/** Names and versions of store paths (crates/deptui-core/src/host.rs,
    `split_name_version`). */
module StorePaths {

  // ---- store path names ----

  /** The part behind the last slash. */
  function Base(path: string): string {
    if path == [] then []
    else if '/' in path[1..] then Base(path[1..])
    else if path[0] == '/' then path[1..]
    else path
  }

  /** Index of the first dash, or the length. */
  function DashAt(s: string): (i: nat)
    ensures i <= |s|
    ensures i < |s| ==> s[i] == '-'
    ensures '-' !in s[..i]
  {
    if s == [] then 0
    else if s[0] == '-' then 0
    else
      assert s[..1 + DashAt(s[1..])] == [s[0]] + s[1..][..DashAt(s[1..])];
      1 + DashAt(s[1..])
  }

  predicate VersionStartsAt(s: string, i: nat) {
    i + 1 < |s| && s[i] == '-' && '0' <= s[i + 1] <= '9'
  }

  /** Index of the first dash followed by a digit, or the length. */
  function VersionDash(s: string, i: nat): (r: nat)
    requires i <= |s|
    ensures i <= r <= |s| && (r < |s| ==> VersionStartsAt(s, r))
    ensures forall k | i <= k < r :: !VersionStartsAt(s, k)
    decreases |s| - i
  {
    if i == |s| || VersionStartsAt(s, i) then i else VersionDash(s, i + 1)
  }

  predicate EndsWith(s: string, suffix: string) {
    |suffix| <= |s| && s[|s| - |suffix|..] == suffix
  }

  /** deploy-rs wrapper suffixes, in the order they are tried. */
  const SUFFIXES := ["-activate-path", "-activate-rs"]

  /** Glue the first wrapper suffix the version ends with back onto the name. */
  function Peel(name: string, version: string, suffixes: seq<string>): (string, string)
    decreases |suffixes|
  {
    if suffixes == [] then (name, version)
    else if EndsWith(version, suffixes[0]) then
      (name + suffixes[0], version[..|version| - |suffixes[0]|])
    else Peel(name, version, suffixes[1..])
  }

  /** Name and version of what follows the hash. */
  function SplitRest(rest: string, suffixes: seq<string>): (string, string) {
    var v := VersionDash(rest, 0);
    if v == |rest| then Peel(rest, "", suffixes) else Peel(rest[..v], rest[v + 1..], suffixes)
  }

  function SplitNameVersion(base: string): (string, string) {
    var dash := DashAt(base);
    if dash == |base| then (base, "") else SplitRest(base[dash + 1..], SUFFIXES)
  }

  method ComputePeel(name: string, version: string, suffixes: seq<string>) returns (n: string, v: string)
    ensures (n, v) == Peel(name, version, suffixes)
  {
    n, v := name, version;
    for i := 0 to |suffixes|
      invariant n == name && v == version
      invariant Peel(name, version, suffixes) == Peel(name, version, suffixes[i..])
    {
      assert suffixes[i..][1..] == suffixes[i + 1..];
      if EndsWith(version, suffixes[i]) {
        return name + suffixes[i], version[..|version| - |suffixes[i]|];
      }
    }
  }

  method ComputeSplitRest(rest: string, suffixes: seq<string>) returns (name: string, version: string)
    ensures (name, version) == SplitRest(rest, suffixes)
  {
    var i := 0;
    while i < |rest| && !(rest[i] == '-' && i + 1 < |rest| && '0' <= rest[i + 1] <= '9')
      invariant i <= |rest| && VersionDash(rest, 0) == VersionDash(rest, i)
    {
      i := i + 1;
    }
    if i < |rest| {
      name, version := ComputePeel(rest[..i], rest[i + 1..], suffixes);
    } else {
      name, version := ComputePeel(rest, "", suffixes);
    }
  }

  method ComputeSplit(base: string) returns (name: string, version: string)
    ensures (name, version) == SplitNameVersion(base)
  {
    var dash := DashAt(base);
    if dash == |base| {
      return base, "";
    }
    name, version := ComputeSplitRest(base[dash + 1..], SUFFIXES);
  }

  /** Name and version as found, or with one suffix moved from the version to the name. */
  predicate Peeled(foundName: string, foundVersion: string, name: string, version: string, suffixes: seq<string>) {
    || (name == foundName && version == foundVersion)
    || exists x | x in suffixes :: name == foundName + x && foundVersion == version + x
  }

  lemma {:induction false} PeelKeepsText(name: string, version: string, suffixes: seq<string>)
    ensures var (n, v) := Peel(name, version, suffixes);
            Peeled(name, version, n, v, suffixes)
    decreases |suffixes|
  {
    if suffixes != [] {
      if EndsWith(version, suffixes[0]) {
        assert version == version[..|version| - |suffixes[0]|] + suffixes[0];
        assert suffixes[0] in suffixes;
      } else {
        PeelKeepsText(name, version, suffixes[1..]);
      }
    }
  }

  lemma DashBehindHash(hash: string, rest: string)
    requires '-' !in hash
    ensures DashAt(hash + "-" + rest) == |hash|
    ensures SplitNameVersion(hash + "-" + rest) == SplitRest(rest, SUFFIXES)
  {
    var s := hash + "-" + rest;
    var i := DashAt(s);
    assert s[|hash|] == '-' && forall k | 0 <= k < |hash| :: s[k] == hash[k] && hash[k] in hash;
    assert forall k | 0 <= k < i :: s[..i][k] == s[k];
    assert s[|hash| + 1..] == rest;
  }

  /** The split loses nothing but the hash and a dash: the text behind the hash is all name,
      or it is name and version around the first dash that a digit follows, with at most one
      wrapper suffix moved from the end of the version to the end of the name. */
  lemma {:induction false} SplitKeepsText(hash: string, rest: string)
    requires '-' !in hash
    ensures var (name, version) := SplitNameVersion(hash + "-" + rest);
            var v := VersionDash(rest, 0);
            if v == |rest| then name == rest && version == ""
            else rest == rest[..v] + "-" + rest[v + 1..] && Peeled(rest[..v], rest[v + 1..], name, version, SUFFIXES)
  {
    DashBehindHash(hash, rest);
    var v := VersionDash(rest, 0);
    if v == |rest| {
      PeelKeepsNothing(rest, SUFFIXES);
    } else {
      CutAtDash(rest, v);
      PeelKeepsText(rest[..v], rest[v + 1..], SUFFIXES);
    }
  }

  lemma CutAtDash(s: string, i: nat)
    requires i < |s| && s[i] == '-'
    ensures s == s[..i] + "-" + s[i + 1..]
  {
  }

  lemma {:induction false} PeelKeepsNothing(name: string, suffixes: seq<string>)
    requires forall x | x in suffixes :: x != ""
    ensures Peel(name, "", suffixes) == (name, "")
    decreases |suffixes|
  {
    if suffixes != [] {
      assert suffixes[0] in suffixes && forall x | x in suffixes[1..] :: x in suffixes;
      PeelKeepsNothing(name, suffixes[1..]);
    }
  }

  // ---- the paths nix builds ----

  /** A store path, in parts; `wrapper` is the suffix deploy-rs gave the derivation. */
  datatype Built = Built(dir: string, hash: string, name: string, version: string, wrapper: string)

  predicate Digit(c: char) { '0' <= c <= '9' }

  /** Parts as nix puts them together: a hash without dash; a name in which no dash is
      followed by a digit; no version, or one that starts with a digit. */
  predicate WellBuilt(b: Built) {
    && '/' !in b.hash && '/' !in b.name && '/' !in b.version && '-' !in b.hash
    && b.name != "" && (forall k | 0 <= k < |b.name| - 1 :: !(b.name[k] == '-' && Digit(b.name[k + 1])))
    && (b.version != "" ==> Digit(b.version[0]))
    && match b.wrapper
       case "" => !EndsWith(b.version, "-activate-path") && !EndsWith(b.version, "-activate-rs")
       case "-activate-path" => b.version != ""
       case "-activate-rs" => b.version != ""
       case _ => false
  }

  function RestOf(b: Built): string {
    if b.version == "" then b.name else b.name + "-" + (b.version + b.wrapper)
  }

  function BaseOf(b: Built): string { b.hash + "-" + RestOf(b) }

  function PathOf(b: Built): string { b.dir + "/" + BaseOf(b) }

  lemma {:induction false} BaseBehindSlash(dir: string, base: string)
    requires '/' !in base
    ensures Base(dir + "/" + base) == base
  {
    var path := dir + "/" + base;
    if dir == "" {
      assert path[1..] == base;
    } else {
      assert path[1..] == dir[1..] + "/" + base;
      assert (dir[1..] + "/" + base)[|dir| - 1] == '/';
      BaseBehindSlash(dir[1..], base);
    }
  }

  lemma VersionBehindName(name: string, version: string)
    requires forall k | 0 <= k < |name| - 1 :: !(name[k] == '-' && Digit(name[k + 1]))
    requires version != "" && Digit(version[0])
    ensures VersionDash(name + "-" + version, 0) == |name|
  {
    var rest := name + "-" + version;
    var r := VersionDash(rest, 0);
    assert rest[|name|] == '-' && rest[|name| + 1] == version[0];
    assert VersionStartsAt(rest, |name|);
    assert forall k | 0 <= k < |name| :: rest[k] == name[k];
  }

  lemma NoVersionInName(name: string)
    requires forall k | 0 <= k < |name| - 1 :: !(name[k] == '-' && Digit(name[k + 1]))
    ensures VersionDash(name, 0) == |name|
  {
  }

  lemma PeelsWrapper(name: string, version: string, wrapper: string)
    requires wrapper in SUFFIXES
    ensures Peel(name, version + wrapper, SUFFIXES) == (name + wrapper, version)
  {
    var whole := version + wrapper;
    assert EndsWith(whole, wrapper) && whole[..|whole| - |wrapper|] == version;
    assert SUFFIXES[1..] == ["-activate-rs"];
    LastOfSuffix(whole, wrapper);
    if wrapper == "-activate-rs" {
      assert !EndsWith(whole, "-activate-path") by {
        if EndsWith(whole, "-activate-path") {
          LastOfSuffix(whole, "-activate-path");
        }
      }
    }
  }

  lemma LastOfSuffix(s: string, suffix: string)
    requires suffix != "" && EndsWith(s, suffix)
    ensures s[|s| - 1] == suffix[|suffix| - 1]
  {
    assert s[|s| - |suffix|..][|suffix| - 1] == s[|s| - 1];
  }

  lemma PeelsNothing(name: string, version: string)
    requires !EndsWith(version, "-activate-path") && !EndsWith(version, "-activate-rs")
    ensures Peel(name, version, SUFFIXES) == (name, version)
  {
    assert SUFFIXES[1..] == ["-activate-rs"] && SUFFIXES[1..][1..] == [];
  }

  /** The split reads a built path back: hash and directory go, name and version are found,
      and a wrapper suffix counts to the name. */
  lemma SplitReadsBuilt(b: Built)
    requires WellBuilt(b)
    ensures Base(PathOf(b)) == BaseOf(b)
    ensures SplitNameVersion(Base(PathOf(b))) == (b.name + b.wrapper, b.version)
  {
    BaseBehindSlash(b.dir, BaseOf(b));
    DashBehindHash(b.hash, RestOf(b));
    RestReadsBuilt(b);
  }

  lemma RestReadsBuilt(b: Built)
    requires WellBuilt(b)
    ensures SplitRest(RestOf(b), SUFFIXES) == (b.name + b.wrapper, b.version)
  {
    if b.version == "" {
      NoVersionInName(b.name);
      PeelKeepsNothing(b.name, SUFFIXES);
      assert b.name + "" == b.name;
    } else {
      var version := b.version + b.wrapper;
      assert version[0] == b.version[0];
      VersionBehindName(b.name, version);
      assert RestOf(b)[..|b.name|] == b.name && RestOf(b)[|b.name| + 1..] == version;
      PeelsBuilt(b);
    }
  }

  lemma PeelsBuilt(b: Built)
    requires WellBuilt(b)
    ensures Peel(b.name, b.version + b.wrapper, SUFFIXES) == (b.name + b.wrapper, b.version)
  {
    if b.wrapper == "" {
      assert b.version + b.wrapper == b.version && b.name + "" == b.name;
      PeelsNothing(b.name, b.version);
    } else {
      PeelsWrapper(b.name, b.version, b.wrapper);
    }
  }

  /** Neither the hash nor the directory makes a difference. */
  lemma HashNeverMatters(dir1: string, hash1: string, dir2: string, hash2: string, rest: string)
    requires '/' !in hash1 && '/' !in hash2 && '/' !in rest && '-' !in hash1 && '-' !in hash2
    ensures SplitNameVersion(Base(dir1 + "/" + (hash1 + "-" + rest))) ==
            SplitNameVersion(Base(dir2 + "/" + (hash2 + "-" + rest)))
  {
    BaseBehindSlash(dir1, hash1 + "-" + rest);
    BaseBehindSlash(dir2, hash2 + "-" + rest);
    DashBehindHash(hash1, rest);
    DashBehindHash(hash2, rest);
  }
}
