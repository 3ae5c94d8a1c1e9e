/** Reading the plan `nix build --dry-run` prints (crates/deptui-core/src/host.rs,
    `parse_dry_run`): headers that end in a colon open the list of paths to build or to fetch
    or end it, and store paths below them are attributed to the list that is open, each once.
    The parser is proved to invert a printer, whatever headers and noise are printed. */
module DryRun {

  predicate Space(c: char) {
    c in {' ', '\t', '\n', '\r', '\U{000B}', '\U{000C}', '\U{0085}', '\U{00A0}', '\U{1680}',
          '\U{2028}', '\U{2029}', '\U{202F}', '\U{205F}', '\U{3000}'}
    || '\U{2000}' <= c <= '\U{200A}'
  }

  function TrimStart(s: string): string {
    if s != [] && Space(s[0]) then TrimStart(s[1..]) else s
  }

  function TrimEnd(s: string): string
    decreases |s|
  {
    if s != [] && Space(s[|s| - 1]) then TrimEnd(s[..|s| - 1]) else s
  }

  function Trim(s: string): string { TrimEnd(TrimStart(s)) }

  function Lower(c: char): char { if 'A' <= c <= 'Z' then c - 'A' + 'a' else c }

  /** `pattern` occurs in `s`, ASCII upper-case letters read as lower-case ones. */
  predicate Mentions(s: string, pattern: string) {
    exists i :: 0 <= i <= |s| - |pattern| && MentionsAt(s, pattern, i)
  }

  predicate MentionsAt(s: string, pattern: string, i: nat)
    requires i + |pattern| <= |s|
  {
    forall k | 0 <= k < |pattern| :: Lower(s[i + k]) == pattern[k]
  }

  const WILL_BE_BUILT := "will be built"
  const WILL_BE_FETCHED := "will be fetched"
  const STORE := "/nix/store/"

  datatype Section = Nothing | Build | Fetch

  /** The section a header line opens; any other header ends the section before it. */
  function SectionOf(header: string): Section {
    if Mentions(header, WILL_BE_BUILT) then Build
    else if Mentions(header, WILL_BE_FETCHED) then Fetch
    else Nothing
  }

  predicate IsHeader(line: string) { line != [] && line[|line| - 1] == ':' }

  predicate InStore(line: string) { STORE <= line }

  /** The text before an output selector. */
  function CutSelector(s: string): string {
    if s == [] || s[0] == '^' || s[0] == '!' then [] else [s[0]] + CutSelector(s[1..])
  }

  datatype State = State(section: Section, toBuild: seq<string>, toFetch: seq<string>)

  function Add(paths: seq<string>, path: string): seq<string> {
    if path in paths then paths else paths + [path]
  }

  function ReadLine(st: State, raw: string): State {
    var line := Trim(raw);
    if line == [] then st
    else if IsHeader(line) then st.(section := SectionOf(line))
    else if !InStore(line) then st
    else
      match st.section
      case Build => st.(toBuild := Add(st.toBuild, CutSelector(line)))
      case Fetch => st.(toFetch := Add(st.toFetch, CutSelector(line)))
      case Nothing => st
  }

  function ReadLines(st: State, lines: seq<string>): State
    decreases |lines|
  {
    if lines == [] then st else ReadLines(ReadLine(st, lines[0]), lines[1..])
  }

  const EMPTY := State(Nothing, [], [])

  method ParseDryRun(lines: seq<string>) returns (toBuild: seq<string>, toFetch: seq<string>)
    ensures toBuild == ReadLines(EMPTY, lines).toBuild && toFetch == ReadLines(EMPTY, lines).toFetch
  {
    toBuild, toFetch := [], [];
    var section := Nothing;
    var seenBuild, seenFetch := {}, {};
    for i := 0 to |lines|
      invariant ReadLines(EMPTY, lines) == ReadLines(State(section, toBuild, toFetch), lines[i..])
      invariant (forall p :: p in seenBuild <==> p in toBuild) && forall p :: p in seenFetch <==> p in toFetch
    {
      assert lines[i..][1..] == lines[i + 1..];
      var line := Trim(lines[i]);
      if line == [] {
        continue;
      }
      if line[|line| - 1] == ':' {
        section := SectionOf(line);
        continue;
      }
      if !InStore(line) {
        continue;
      }
      var path := CutSelector(line);
      match section {
        case Build =>
          if path !in seenBuild {
            seenBuild := seenBuild + {path};
            toBuild := toBuild + [path];
          }
        case Fetch =>
          if path !in seenFetch {
            seenFetch := seenFetch + {path};
            toFetch := toFetch + [path];
          }
        case Nothing =>
      }
    }
  }

  // ---- the printer it inverts ----

  /** A line below a header: a store path with an output selector, or anything that is
      neither a header nor a store path. */
  datatype Item = StorePath(path: string, selector: string) | Noise(text: string)

  datatype Block = Block(header: string, items: seq<Item>)

  predicate Solid(s: string) { forall c | c in s :: !Space(c) }

  predicate GoodItem(item: Item) {
    match item
    case StorePath(path, selector) =>
      && STORE <= path && Solid(path) && '^' !in path && '!' !in path
      && Solid(selector) && (selector == [] || selector[0] == '^' || selector[0] == '!')
      && (path + selector)[|path + selector| - 1] != ':'
    case Noise(text) => Trim(text) == [] || (!IsHeader(Trim(text)) && !InStore(Trim(text)))
  }

  predicate GoodBlock(b: Block) {
    IsHeader(Trim(b.header)) && forall item | item in b.items :: GoodItem(item)
  }

  function PrintItem(item: Item): string {
    match item
    case StorePath(path, selector) => "  " + (path + selector)
    case Noise(text) => text
  }

  function PrintItems(items: seq<Item>): seq<string> {
    if items == [] then [] else [PrintItem(items[0])] + PrintItems(items[1..])
  }

  function Print(blocks: seq<Block>): seq<string> {
    if blocks == [] then [] else [blocks[0].header] + PrintItems(blocks[0].items) + Print(blocks[1..])
  }

  function PathOf(item: Item): seq<string> {
    if item.StorePath? then [item.path] else []
  }

  function PathsIn(items: seq<Item>): seq<string> {
    if items == [] then []
    else PathOf(items[0]) + PathsIn(items[1..])
  }

  /** All paths listed under headers of one kind. */
  function Listed(blocks: seq<Block>, kind: Section): seq<string> {
    if blocks == [] then []
    else (if SectionOf(Trim(blocks[0].header)) == kind then PathsIn(blocks[0].items) else []) + Listed(blocks[1..], kind)
  }

  /** Without repeats, in order of first occurrence. */
  function Dedup(xs: seq<string>): seq<string>
    decreases |xs|
  {
    if xs == [] then [] else Add(Dedup(xs[..|xs| - 1]), xs[|xs| - 1])
  }

  /** No repeats, nothing lost or invented, and what comes first stays first. */
  lemma {:induction false} DedupExact(xs: seq<string>, n: nat)
    requires n <= |xs|
    ensures forall i, j | 0 <= i < j < |Dedup(xs)| :: Dedup(xs)[i] != Dedup(xs)[j]
    ensures forall x :: x in Dedup(xs) <==> x in xs
    ensures Dedup(xs[..n]) <= Dedup(xs)
    decreases |xs|
  {
    if n == |xs| {
      assert xs[..n] == xs;
    }
    if xs != [] {
      var init := xs[..|xs| - 1];
      assert xs == init + [xs[|xs| - 1]];
      if n < |xs| {
        assert xs[..n] == init[..n];
        DedupExact(init, n);
      } else {
        DedupExact(init, 0);
      }
    }
  }

  lemma DedupAdd(xs: seq<string>, x: string)
    ensures Dedup(xs + [x]) == Add(Dedup(xs), x)
  {
    assert (xs + [x])[..|xs|] == xs;
  }

  lemma TrimSolid(s: string)
    requires Solid(s)
    ensures Trim("  " + s) == s
  {
    assert ("  " + s)[1..] == " " + s && (" " + s)[1..] == s;
    assert s != [] ==> s[0] in s && s[|s| - 1] in s;
    assert TrimStart("  " + s) == TrimStart(" " + s) == TrimStart(s) == s;
  }

  lemma {:induction false} CutAtSelector(path: string, selector: string)
    requires '^' !in path && '!' !in path
    requires selector == [] || selector[0] == '^' || selector[0] == '!'
    ensures CutSelector(path + selector) == path
  {
    if path == [] {
      assert path + selector == selector;
    } else {
      assert path[0] in path;
      assert (path + selector)[1..] == path[1..] + selector;
      CutAtSelector(path[1..], selector);
      assert path == [path[0]] + path[1..];
    }
  }

  function Seen(section: Section, build: seq<string>, fetch: seq<string>): State {
    State(section, Dedup(build), Dedup(fetch))
  }

  /** `more` behind `xs`, if these lines are attributed to it. */
  function Grow(mine: bool, xs: seq<string>, more: seq<string>): seq<string> {
    if mine then xs + more else xs
  }

  lemma GrowTwice(mine: bool, xs: seq<string>, a: seq<string>, b: seq<string>)
    ensures Grow(mine, Grow(mine, xs, a), b) == Grow(mine, xs, a + b)
  {
    assert xs + a + b == xs + (a + b);
  }

  /** What an item adds to the list of the section it stands in. */
  function Credit(st: State, item: Item): State {
    match item
    case Noise(_) => st
    case StorePath(path, _) =>
      match st.section
      case Build => st.(toBuild := Add(st.toBuild, path))
      case Fetch => st.(toFetch := Add(st.toFetch, path))
      case Nothing => st
  }

  lemma ReadItem(st: State, item: Item)
    requires GoodItem(item)
    ensures ReadLine(st, PrintItem(item)) == Credit(st, item)
  {
    if item.StorePath? {
      var whole := item.path + item.selector;
      assert Solid(whole);
      TrimSolid(whole);
      CutAtSelector(item.path, item.selector);
      assert STORE <= whole && whole != [];
    }
  }

  lemma CreditSeen(section: Section, build: seq<string>, fetch: seq<string>, item: Item)
    ensures Credit(Seen(section, build, fetch), item) ==
            Seen(section, Grow(section == Build, build, PathOf(item)), Grow(section == Fetch, fetch, PathOf(item)))
  {
    if item.StorePath? {
      DedupAdd(build, item.path);
      DedupAdd(fetch, item.path);
    } else {
      assert build + [] == build && fetch + [] == fetch;
    }
  }

  lemma {:induction false} ReadItems(section: Section, build: seq<string>, fetch: seq<string>, items: seq<Item>, rest: seq<string>)
    requires forall item | item in items :: GoodItem(item)
    ensures ReadLines(Seen(section, build, fetch), PrintItems(items) + rest) ==
            ReadLines(Seen(section, Grow(section == Build, build, PathsIn(items)),
                           Grow(section == Fetch, fetch, PathsIn(items))), rest)
    decreases |items|
  {
    if items == [] {
      assert PrintItems(items) + rest == rest && build + [] == build && fetch + [] == fetch;
    } else {
      var item, more := items[0], items[1..];
      assert item in items && forall x | x in more :: x in items;
      ReadItem(Seen(section, build, fetch), item);
      CreditSeen(section, build, fetch, item);
      ReadFirst(Seen(section, build, fetch), PrintItem(item), PrintItems(more), rest);
      ReadItems(section, Grow(section == Build, build, PathOf(item)), Grow(section == Fetch, fetch, PathOf(item)), more, rest);
      GrowTwice(section == Build, build, PathOf(item), PathsIn(more));
      GrowTwice(section == Fetch, fetch, PathOf(item), PathsIn(more));
    }
  }

  lemma ReadFirst(st: State, line: string, more: seq<string>, rest: seq<string>)
    ensures ReadLines(st, [line] + more + rest) == ReadLines(ReadLine(st, line), more + rest)
  {
    assert ([line] + more + rest)[1..] == more + rest;
  }

  lemma {:induction false} ReadBlocks(section: Section, build: seq<string>, fetch: seq<string>, blocks: seq<Block>)
    requires forall b | b in blocks :: GoodBlock(b)
    ensures var end := ReadLines(Seen(section, build, fetch), Print(blocks));
            end.toBuild == Dedup(build + Listed(blocks, Build)) && end.toFetch == Dedup(fetch + Listed(blocks, Fetch))
    decreases |blocks|
  {
    if blocks == [] {
      assert build + [] == build && fetch + [] == fetch;
    } else {
      var b, more := blocks[0], blocks[1..];
      assert b in blocks && forall x | x in more :: x in blocks;
      var kind, paths := SectionOf(Trim(b.header)), PathsIn(b.items);
      assert Print(blocks) == [b.header] + (PrintItems(b.items) + Print(more));
      assert Print(blocks)[1..] == PrintItems(b.items) + Print(more);
      assert ReadLine(Seen(section, build, fetch), b.header) == Seen(kind, build, fetch);
      ReadItems(kind, build, fetch, b.items, Print(more));
      ReadBlocks(kind, Grow(kind == Build, build, paths), Grow(kind == Fetch, fetch, paths), more);
      ListedStep(build, kind == Build, paths, Listed(more, Build));
      ListedStep(fetch, kind == Fetch, paths, Listed(more, Fetch));
    }
  }

  lemma ListedStep(before: seq<string>, mine: bool, paths: seq<string>, later: seq<string>)
    ensures Grow(mine, before, paths) + later == before + ((if mine then paths else []) + later)
  {
  }

  /** Parsing inverts printing: from any sequence of blocks, whatever their headers, the
      parser reads back exactly the paths under build headers and under fetch headers, each
      list without repeats in order of first occurrence; nothing printed under another
      header is attributed to either. */
  lemma {:induction false} ParseInvertsPrint(blocks: seq<Block>)
    requires forall b | b in blocks :: GoodBlock(b)
    ensures ReadLines(EMPTY, Print(blocks)).toBuild == Dedup(Listed(blocks, Build))
    ensures ReadLines(EMPTY, Print(blocks)).toFetch == Dedup(Listed(blocks, Fetch))
  {
    NothingSeen(Print(blocks), Listed(blocks, Build), Listed(blocks, Fetch));
    ReadBlocks(Nothing, [], [], blocks);
  }

  lemma NothingSeen(lines: seq<string>, build: seq<string>, fetch: seq<string>)
    ensures ReadLines(EMPTY, lines) == ReadLines(Seen(Nothing, [], []), lines)
    ensures [] + build == build && [] + fetch == fetch
  {
    assert Dedup([]) == [];
  }

  /** The phrase, each of its letters in either case. */
  predicate Reads(s: string, phrase: string) {
    |s| == |phrase| && forall k | 0 <= k < |phrase| ::
      s[k] == phrase[k] || ('A' <= s[k] <= 'Z' && s[k] - 'A' + 'a' == phrase[k])
  }

  /** The phrase stands somewhere in the header. */
  ghost predicate Says(header: string, phrase: string) {
    exists before, words, after :: header == before + words + after && Reads(words, phrase)
  }

  lemma SaysMentions(header: string, phrase: string)
    requires forall k | 0 <= k < |phrase| :: !('A' <= phrase[k] <= 'Z')
    ensures Says(header, phrase) <==> Mentions(header, phrase)
  {
    if Says(header, phrase) {
      var before, words, after :| header == before + words + after && Reads(words, phrase);
      forall k | 0 <= k < |phrase| ensures header[|before| + k] == words[k] {
      }
      assert MentionsAt(header, phrase, |before|);
    }
    if Mentions(header, phrase) {
      var i :| 0 <= i <= |header| - |phrase| && MentionsAt(header, phrase, i);
      var words := header[i..i + |phrase|];
      assert header == header[..i] + words + header[i + |phrase|..];
      assert Reads(words, phrase);
    }
  }

  /** What a header opens, by what it says, in whatever case and surroundings: the build
      section if it speaks of building, else the fetch section if it speaks of fetching,
      and none otherwise, which ends the section before it. */
  lemma HeadersAreRecognised(header: string)
    ensures SectionOf(header).Build? <==> Says(header, "will be built")
    ensures SectionOf(header).Fetch? <==> Says(header, "will be fetched") && !Says(header, "will be built")
    ensures SectionOf(header).Nothing? <==> !Says(header, "will be built") && !Says(header, "will be fetched")
  {
    SaysMentions(header, WILL_BE_BUILT);
    SaysMentions(header, WILL_BE_FETCHED);
  }

  /** What stands under a header that speaks of neither is attributed to nothing, and neither
      is what stands before the first header. */
  lemma {:induction false} OtherHeadersCountForNothing(st: State, header: string, items: seq<Item>)
    requires IsHeader(Trim(header)) && forall item | item in items :: GoodItem(item)
    requires !Says(Trim(header), "will be built") && !Says(Trim(header), "will be fetched")
    ensures var end := ReadLines(st, [header] + PrintItems(items));
            end.toBuild == st.toBuild && end.toFetch == st.toFetch
  {
    HeadersAreRecognised(Trim(header));
    assert ([header] + PrintItems(items))[1..] == PrintItems(items);
    NothingCredited(st.(section := Nothing), items);
  }

  lemma {:induction false} NothingCredited(st: State, items: seq<Item>)
    requires st.section.Nothing? && forall item | item in items :: GoodItem(item)
    ensures ReadLines(st, PrintItems(items)) == st
  {
    if items != [] {
      assert items[0] in items && forall x | x in items[1..] :: x in items;
      ReadItem(st, items[0]);
      NothingCredited(st, items[1..]);
      assert PrintItems(items)[1..] == PrintItems(items[1..]);
    }
  }
}
