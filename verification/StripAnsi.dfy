/** The log's ANSI stripper (crates/deptui-core/src/deploy.rs, `strip_ansi`): a byte scanner
    over UTF-8 text. */
module StripAnsi {
  import opened Utf8

  const ESC := 0x1B
  const BEL := 0x07
  const DEL := 0x7F
  const TAB := 0x09
  const OPEN_BRACKET := 0x5B
  const CLOSE_BRACKET := 0x5D
  const BACKSLASH := 0x5C

  /** Bytes the stripper keeps. */
  predicate Plain(b: Byte) { b != ESC && b != DEL && (b >= 0x20 || b == TAB) }

  /** Behind the final byte of a control sequence (section 5.4 of ECMA-48), or the end. */
  function CsiEnd(s: seq<Byte>, j: nat): (r: nat)
    requires j <= |s|
    ensures j <= r <= |s| && (r < |s| ==> r > 0 && s[r - 1] < 0x80)
    decreases |s| - j
  {
    if j == |s| then j else if 0x40 <= s[j] <= 0x7E then j + 1 else CsiEnd(s, j + 1)
  }

  /** Behind the terminator of an operating system command, or the end. */
  function OscEnd(s: seq<Byte>, j: nat): (r: nat)
    requires j <= |s|
    ensures j <= r <= |s| && (r < |s| ==> r > 0 && s[r - 1] < 0x80)
    decreases |s| - j
  {
    if j == |s| then j
    else if s[j] == BEL then j + 1
    else if s[j] == ESC && j + 1 < |s| && s[j + 1] == BACKSLASH then j + 2
    else OscEnd(s, j + 1)
  }

  /** The end of the run of plain bytes. */
  function TextEnd(s: seq<Byte>, i: nat): (r: nat)
    requires i <= |s|
    ensures i <= r <= |s| && (r < |s| ==> !Plain(s[r])) && forall k | i <= k < r :: Plain(s[k])
    decreases |s| - i
  {
    if i == |s| || !Plain(s[i]) then i else TextEnd(s, i + 1)
  }

  /** Where the escape sequence at i ends. */
  function EscapeEnd(s: seq<Byte>, i: nat): (r: nat)
    requires i < |s| && s[i] == ESC
    ensures i < r <= |s|
  {
    if i + 1 == |s| then i + 1
    else if s[i + 1] == OPEN_BRACKET then CsiEnd(s, i + 2)
    else if s[i + 1] == CLOSE_BRACKET then OscEnd(s, i + 2)
    else i + 2
  }

  /** A slice that is not valid UTF-8 is dropped. */
  function Decode(slice: seq<Byte>): seq<Byte> { if Valid(slice) then slice else [] }

  function Scan(s: seq<Byte>, i: nat): seq<Byte>
    requires i <= |s|
    decreases |s| - i
  {
    if i == |s| then []
    else if s[i] == ESC then Scan(s, EscapeEnd(s, i))
    else if Plain(s[i]) then Decode(s[i..TextEnd(s, i)]) + Scan(s, TextEnd(s, i))
    else Scan(s, i + 1)
  }

  /** U+FE0E or U+FE0F starts at i. */
  predicate SelectorAt(s: seq<Byte>, i: nat) {
    i + 2 < |s| && s[i] == 0xEF && s[i + 1] == 0xB8 && (s[i + 2] == 0x8E || s[i + 2] == 0x8F)
  }

  predicate Selector(c: seq<Byte>) { |c| == 3 && SelectorAt(c, 0) }

  /** The characters that are not variation selectors. */
  function DropSelectors(s: seq<Byte>): seq<Byte>
    requires Valid(s)
    decreases |s|
  {
    if s == [] then []
    else
      var n := CharLen(s);
      (if Selector(s[..n]) then [] else s[..n]) + DropSelectors(s[n..])
  }

  function Strip(s: seq<Byte>): seq<Byte> {
    ScanIsValid(s, 0);
    DropSelectors(Scan(s, 0))
  }

  method StripAnsi(s: seq<Byte>) returns (out: seq<Byte>)
    ensures out == Strip(s)
  {
    out := KeepText(s);
    ScanIsValid(s, 0);
    out := RetainCharacters(out);
  }

  method KeepText(s: seq<Byte>) returns (out: seq<Byte>)
    ensures out == Scan(s, 0)
  {
    out := [];
    var i := 0;
    while i < |s|
      invariant i <= |s| && Scan(s, 0) == out + Scan(s, i)
    {
      var b := s[i];
      if b == ESC {
        i := SkipEscape(s, i);
        continue;
      }
      if b == TAB || (b >= 0x20 && b != DEL) {
        var start := i;
        i := SkipText(s, i);
        var text := Decode(s[start..i]);
        assert out + (text + Scan(s, i)) == out + text + Scan(s, i);
        out := out + text;
        continue;
      }
      i := i + 1;
    }
  }

  method SkipEscape(s: seq<Byte>, i: nat) returns (j: nat)
    requires i < |s| && s[i] == ESC
    ensures j == EscapeEnd(s, i)
  {
    if i + 1 >= |s| {
      return i + 1;
    }
    if s[i + 1] == OPEN_BRACKET {
      j := SkipCsi(s, i + 2);
    } else if s[i + 1] == CLOSE_BRACKET {
      j := SkipOsc(s, i + 2);
    } else {
      j := i + 2;
    }
  }

  method SkipCsi(s: seq<Byte>, from: nat) returns (j: nat)
    requires from <= |s|
    ensures j == CsiEnd(s, from)
  {
    j := from;
    while j < |s|
      invariant from <= j <= |s| && CsiEnd(s, from) == CsiEnd(s, j)
    {
      if 0x40 <= s[j] <= 0x7E {
        return j + 1;
      }
      j := j + 1;
    }
  }

  method SkipOsc(s: seq<Byte>, from: nat) returns (j: nat)
    requires from <= |s|
    ensures j == OscEnd(s, from)
  {
    j := from;
    while j < |s|
      invariant from <= j <= |s| && OscEnd(s, from) == OscEnd(s, j)
    {
      if s[j] == BEL {
        return j + 1;
      }
      if s[j] == ESC && j + 1 < |s| && s[j + 1] == BACKSLASH {
        return j + 2;
      }
      j := j + 1;
    }
  }

  method SkipText(s: seq<Byte>, from: nat) returns (i: nat)
    requires from <= |s|
    ensures i == TextEnd(s, from)
  {
    i := from;
    while i < |s|
      invariant from <= i <= |s| && TextEnd(s, from) == TextEnd(s, i)
    {
      var c := s[i];
      if c == ESC || (c < 0x20 && c != TAB) || c == DEL {
        break;
      }
      i := i + 1;
    }
  }

  method RetainCharacters(s: seq<Byte>) returns (out: seq<Byte>)
    requires Valid(s)
    ensures out == DropSelectors(s)
  {
    out := [];
    var rest := s;
    while rest != []
      invariant Valid(rest) && DropSelectors(s) == out + DropSelectors(rest)
      decreases |rest|
    {
      var c := rest[..CharLen(rest)];
      ghost var more := DropSelectors(rest[|c|..]);
      if !Selector(c) {
        assert out + (c + more) == out + c + more;
        out := out + c;
      } else {
        assert [] + more == more;
      }
      rest := rest[|c|..];
    }
  }

  // ---- the output is clean ----

  lemma {:induction false} ScanIsValid(s: seq<Byte>, i: nat)
    requires i <= |s|
    ensures Valid(Scan(s, i)) && forall b | b in Scan(s, i) :: Plain(b)
    decreases |s| - i
  {
    if i < |s| {
      if s[i] == ESC {
        ScanIsValid(s, EscapeEnd(s, i));
      } else if Plain(s[i]) {
        var e := TextEnd(s, i);
        ScanIsValid(s, e);
        ValidConcat(Decode(s[i..e]), Scan(s, e));
      } else {
        ScanIsValid(s, i + 1);
      }
    }
  }

  predicate NoSelector(s: seq<Byte>) {
    forall i | 0 <= i < |s| :: !SelectorAt(s, i)
  }

  /** Valid text without ESC, DEL, variation selectors or control bytes other than tab. */
  predicate Clean(s: seq<Byte>) {
    Valid(s) && NoSelector(s) && forall b | b in s :: Plain(b)
  }

  lemma PrependChar(c: seq<Byte>, rest: seq<Byte>)
    requires c != [] && CharLen(c) == |c| && !Selector(c) && NoSelector(rest)
    ensures NoSelector(c + rest)
  {
    var s := c + rest;
    forall i | 0 <= i < |s| ensures !SelectorAt(s, i) {
      if i >= |c| {
        assert SelectorAt(s, i) == SelectorAt(rest, i - |c|);
      } else if i == 0 && c[0] == 0xEF {
        assert |c| == 3 && SelectorAt(s, 0) == SelectorAt(c, 0);
      }
    }
  }

  lemma {:induction false} DroppedIsClean(s: seq<Byte>)
    requires Valid(s) && forall b | b in s :: Plain(b)
    ensures Clean(DropSelectors(s))
    decreases |s|
  {
    if s != [] {
      var n := CharLen(s);
      var c, rest := s[..n], s[n..];
      assert s == c + rest;
      DroppedIsClean(rest);
      if !Selector(c) {
        CharLenCut(s, n);
        assert Valid(c) by { assert c[n..] == []; }
        ValidConcat(c, DropSelectors(rest));
        PrependChar(c, DropSelectors(rest));
      } else {
        assert [] + DropSelectors(rest) == DropSelectors(rest);
      }
    }
  }

  // ---- what dropping selectors leaves ----

  /** Text in parts: characters other than selectors, and the selectors between them. */
  datatype Part = Kept(letter: seq<Byte>) | Mark(last: Byte)

  predicate WellParted(p: Part) {
    match p
    case Kept(c) => c != [] && CharLen(c) == |c| && !(|c| == 3 && c[0] == 0xEF && c[1] == 0xB8 && 0x8E <= c[2] <= 0x8F)
    case Mark(last) => last == 0x8E || last == 0x8F
  }

  function PartText(p: Part): seq<Byte> {
    match p
    case Kept(c) => c
    case Mark(last) => [0xEF, 0xB8, last]
  }

  function Woven(parts: seq<Part>): seq<Byte> {
    if parts == [] then [] else PartText(parts[0]) + Woven(parts[1..])
  }

  function KeptOf(parts: seq<Part>): seq<Byte> {
    if parts == [] then [] else (if parts[0].Kept? then parts[0].letter else []) + KeptOf(parts[1..])
  }

  lemma PartIsACharacter(p: Part)
    requires WellParted(p)
    ensures var c := PartText(p); c != [] && CharLen(c) == |c| && (Selector(c) <==> p.Mark?)
  {
  }

  /** Dropping selectors drops those and nothing else, wherever they stand: every other
      character stays, in its place. */
  lemma {:induction false} OnlySelectorsDrop(parts: seq<Part>)
    requires forall p | p in parts :: WellParted(p)
    ensures Valid(Woven(parts)) && DropSelectors(Woven(parts)) == KeptOf(parts)
  {
    if parts != [] {
      var p, rest := parts[0], parts[1..];
      assert p in parts && forall q | q in rest :: q in parts;
      OnlySelectorsDrop(rest);
      WovenFirst(p, Woven(rest));
    }
  }

  lemma WovenFirst(p: Part, rest: seq<Byte>)
    requires WellParted(p) && Valid(rest)
    ensures Valid(PartText(p) + rest)
    ensures DropSelectors(PartText(p) + rest) == (if p.Kept? then p.letter else []) + DropSelectors(rest)
  {
    PartIsACharacter(p);
    DropFirst(PartText(p), rest);
  }

  lemma DropFirst(c: seq<Byte>, rest: seq<Byte>)
    requires c != [] && CharLen(c) == |c| && Valid(rest)
    ensures Valid(c + rest) && DropSelectors(c + rest) == (if Selector(c) then [] else c) + DropSelectors(rest)
  {
    CharLenPrefix(c, rest);
    assert (c + rest)[..|c|] == c && (c + rest)[|c|..] == rest;
  }

  /** Whatever the input, the output is clean. */
  lemma StripIsClean(s: seq<Byte>)
    ensures Clean(Strip(s))
  {
    ScanIsValid(s, 0);
    DroppedIsClean(Scan(s, 0));
  }

  lemma {:induction false} CleanHasNothingToDrop(s: seq<Byte>)
    requires Valid(s) && NoSelector(s)
    ensures DropSelectors(s) == s
    decreases |s|
  {
    if s != [] {
      var n := CharLen(s);
      var rest := s[n..];
      assert s == s[..n] + rest;
      assert !Selector(s[..n]) by { assert !SelectorAt(s, 0); }
      forall i | 0 <= i < |rest| ensures !SelectorAt(rest, i) {
        assert !SelectorAt(s, n + i);
      }
      CleanHasNothingToDrop(rest);
    }
  }

  /** Clean text passes through unchanged. */
  lemma StripKeepsClean(s: seq<Byte>)
    requires Clean(s)
    ensures Strip(s) == s
  {
    if s != [] {
      assert s[0] in s && TextEnd(s, 0) == |s|;
      assert s[0..|s|] == s;
      assert Scan(s, 0) == s + [] == s;
    }
    CleanHasNothingToDrop(s);
  }

  /** So stripping twice is stripping once. */
  lemma StripIdempotent(s: seq<Byte>)
    ensures Strip(Strip(s)) == Strip(s)
  {
    StripIsClean(s);
    StripKeepsClean(Strip(s));
  }

  // ---- the output is part of the input ----

  predicate Subsequence(a: seq<Byte>, b: seq<Byte>)
    decreases |b|
  {
    a == [] || (b != [] && ((a[0] == b[0] && Subsequence(a[1..], b[1..])) || Subsequence(a, b[1..])))
  }

  lemma {:induction false} SubsequenceSkip(a: seq<Byte>, skipped: seq<Byte>, b: seq<Byte>)
    requires Subsequence(a, b)
    ensures Subsequence(a, skipped + b)
    decreases |skipped|
  {
    if skipped == [] {
      assert skipped + b == b;
    } else {
      assert (skipped + b)[1..] == skipped[1..] + b;
      SubsequenceSkip(a, skipped[1..], b);
    }
  }

  lemma {:induction false} SubsequenceAppend(common: seq<Byte>, a: seq<Byte>, b: seq<Byte>)
    requires Subsequence(a, b)
    ensures Subsequence(common + a, common + b)
    decreases |common|
  {
    if common == [] {
      assert common + a == a && common + b == b;
    } else {
      assert (common + a)[1..] == common[1..] + a && (common + b)[1..] == common[1..] + b;
      SubsequenceAppend(common[1..], a, b);
    }
  }

  lemma {:induction false} SubsequenceTransitive(a: seq<Byte>, b: seq<Byte>, c: seq<Byte>)
    requires Subsequence(a, b) && Subsequence(b, c)
    ensures Subsequence(a, c)
    decreases |c|
  {
    if a != [] {
      if b[0] == c[0] && Subsequence(b[1..], c[1..]) {
        if a[0] == b[0] && Subsequence(a[1..], b[1..]) {
          SubsequenceTransitive(a[1..], b[1..], c[1..]);
        } else {
          SubsequenceTransitive(a, b[1..], c[1..]);
        }
      } else {
        SubsequenceTransitive(a, b, c[1..]);
      }
    }
  }

  lemma {:induction false} ScanIsSubsequence(s: seq<Byte>, i: nat)
    requires i <= |s|
    ensures Subsequence(Scan(s, i), s[i..])
    decreases |s| - i
  {
    if i < |s| {
      if s[i] == ESC {
        var e := EscapeEnd(s, i);
        ScanIsSubsequence(s, e);
        SubsequenceSkip(Scan(s, e), s[i..e], s[e..]);
        assert s[i..] == s[i..e] + s[e..];
      } else if Plain(s[i]) {
        var e := TextEnd(s, i);
        ScanIsSubsequence(s, e);
        assert s[i..] == s[i..e] + s[e..];
        if Valid(s[i..e]) {
          SubsequenceAppend(s[i..e], Scan(s, e), s[e..]);
        } else {
          SubsequenceSkip(Scan(s, e), s[i..e], s[e..]);
          assert [] + Scan(s, e) == Scan(s, e);
        }
      } else {
        ScanIsSubsequence(s, i + 1);
        SubsequenceSkip(Scan(s, i + 1), s[i..i + 1], s[i + 1..]);
        assert s[i..] == s[i..i + 1] + s[i + 1..];
      }
    }
  }

  lemma {:induction false} DroppedIsSubsequence(s: seq<Byte>)
    requires Valid(s)
    ensures Subsequence(DropSelectors(s), s)
    decreases |s|
  {
    if s != [] {
      var n := CharLen(s);
      assert s == s[..n] + s[n..];
      DroppedIsSubsequence(s[n..]);
      if Selector(s[..n]) {
        SubsequenceSkip(DropSelectors(s[n..]), s[..n], s[n..]);
        assert [] + DropSelectors(s[n..]) == DropSelectors(s[n..]);
      } else {
        SubsequenceAppend(s[..n], DropSelectors(s[n..]), s[n..]);
      }
    }
  }

  /** Stripping only ever removes bytes. */
  lemma StripIsSubsequence(s: seq<Byte>)
    ensures Subsequence(Strip(s), s)
  {
    ScanIsValid(s, 0);
    ScanIsSubsequence(s, 0);
    DroppedIsSubsequence(Scan(s, 0));
    assert s[0..] == s;
    SubsequenceTransitive(Strip(s), Scan(s, 0), s);
  }

  // ---- when text is lost ----

  /** All plain runs the scanner visits, before any of them is dropped as invalid. */
  function Visited(s: seq<Byte>, i: nat): seq<Byte>
    requires i <= |s|
    decreases |s| - i
  {
    if i == |s| then []
    else if s[i] == ESC then Visited(s, EscapeEnd(s, i))
    else if Plain(s[i]) then s[i..TextEnd(s, i)] + Visited(s, TextEnd(s, i))
    else Visited(s, i + 1)
  }

  /** The scanner meets an ESC that is directly followed by a non-ASCII character: the
      two-byte escape swallows its first byte only. */
  predicate CutsCharacter(s: seq<Byte>, i: nat)
    requires i <= |s|
    decreases |s| - i
  {
    if i == |s| then false
    else if s[i] == ESC then
      (i + 1 < |s| && s[i + 1] >= 0x80) || CutsCharacter(s, EscapeEnd(s, i))
    else if Plain(s[i]) then CutsCharacter(s, TextEnd(s, i))
    else CutsCharacter(s, i + 1)
  }

  lemma {:induction false} ScanNoLonger(s: seq<Byte>, i: nat)
    requires i <= |s|
    ensures |Scan(s, i)| <= |Visited(s, i)|
    decreases |s| - i
  {
    if i < |s| {
      if s[i] == ESC {
        ScanNoLonger(s, EscapeEnd(s, i));
      } else if Plain(s[i]) {
        ScanNoLonger(s, TextEnd(s, i));
      } else {
        ScanNoLonger(s, i + 1);
      }
    }
  }

  lemma EscapeEndsAscii(s: seq<Byte>, i: nat)
    requires i < |s| && s[i] == ESC && (i + 1 < |s| ==> s[i + 1] < 0x80)
    ensures s[EscapeEnd(s, i) - 1] < 0x80 || EscapeEnd(s, i) == |s|
  {
  }

  lemma EscapeEndsOnBoundary(s: seq<Byte>, i: nat)
    requires Valid(s) && i < |s| && s[i] == ESC && (i + 1 < |s| ==> s[i + 1] < 0x80)
    ensures Valid(s[EscapeEnd(s, i)..])
  {
    EscapeEndsAscii(s, i);
    var e := EscapeEnd(s, i);
    if e < |s| {
      ValidBehindAscii(s, e - 1);
    } else {
      assert s[e..] == [];
    }
  }

  lemma {:induction false} LosesIffCuts(s: seq<Byte>, i: nat)
    requires Valid(s) && i <= |s| && Valid(s[i..])
    ensures Scan(s, i) == Visited(s, i) <==> !CutsCharacter(s, i)
    decreases |s| - i
  {
    if i < |s| {
      if s[i] == ESC {
        if i + 1 < |s| && s[i + 1] >= 0x80 {
          CutLoses(s, i);
        } else {
          EscapeEndsOnBoundary(s, i);
          LosesIffCuts(s, EscapeEnd(s, i));
        }
      } else if Plain(s[i]) {
        PlainRunIsValid(s, i);
        LosesIffCuts(s, TextEnd(s, i));
        SamePrefix(s[i..TextEnd(s, i)], Scan(s, TextEnd(s, i)), Visited(s, TextEnd(s, i)));
      } else {
        ValidBehindAscii(s, i);
        LosesIffCuts(s, i + 1);
      }
    }
  }

  /** What follows the first byte of a cut character is no valid text, and goes. */
  lemma CutLoses(s: seq<Byte>, i: nat)
    requires Valid(s) && i + 1 < |s| && s[i] == ESC && s[i + 1] >= 0x80
    ensures Scan(s, i) != Visited(s, i)
  {
    ValidBehindAscii(s, i);
    assert !Tail(s[i + 1]) by { assert s[i + 1..][0] == s[i + 1]; }
    LeadIsFollowed(s, i + 1);
    ContinuationIsDropped(s, i + 2);
    assert EscapeEnd(s, i) == i + 2;
  }

  lemma PlainRunIsValid(s: seq<Byte>, i: nat)
    requires i <= |s| && Valid(s[i..])
    ensures Valid(s[i..TextEnd(s, i)]) && Valid(s[TextEnd(s, i)..])
  {
    var e := TextEnd(s, i);
    assert e < |s| ==> !Tail(s[e]);
    ValidCutBehind(s, i, e);
  }

  lemma SamePrefix(common: seq<Byte>, a: seq<Byte>, b: seq<Byte>)
    ensures common + a == common + b <==> a == b
  {
    assert (common + a)[|common|..] == a && (common + b)[|common|..] == b;
  }

  lemma ContinuationIsDropped(s: seq<Byte>, i: nat)
    requires i < |s| && Tail(s[i])
    ensures Scan(s, i) != Visited(s, i)
  {
    var e := TextEnd(s, i);
    assert !Valid(s[i..e]);
    ScanNoLonger(s, e);
    assert |Scan(s, i)| < |Visited(s, i)|;
  }

  /** No text is lost exactly when the scanner meets no escape that cuts a character. */
  lemma NothingLostExactly(s: seq<Byte>)
    requires Valid(s)
    ensures Scan(s, 0) == Visited(s, 0) <==> !CutsCharacter(s, 0)
  {
    assert s[0..] == s;
    LosesIffCuts(s, 0);
  }

  lemma {:induction false} NoEscapeBeforeCharacter(s: seq<Byte>, i: nat)
    requires i <= |s| && forall k | 0 <= k < |s| - 1 && s[k] == ESC :: s[k + 1] < 0x80
    ensures !CutsCharacter(s, i)
    decreases |s| - i
  {
    if i < |s| {
      if s[i] == ESC {
        NoEscapeBeforeCharacter(s, EscapeEnd(s, i));
      } else if Plain(s[i]) {
        NoEscapeBeforeCharacter(s, TextEnd(s, i));
      } else {
        NoEscapeBeforeCharacter(s, i + 1);
      }
    }
  }

  /** In particular, nothing is lost when no ESC is directly followed by a non-ASCII byte. */
  lemma {:induction false} NothingLostOnOrdinaryEscapes(s: seq<Byte>)
    requires Valid(s) && forall k | 0 <= k < |s| - 1 && s[k] == ESC :: s[k + 1] < 0x80
    ensures Scan(s, 0) == Visited(s, 0)
  {
    NoEscapeBeforeCharacter(s, 0);
    NothingLostExactly(s);
  }

  /** ESC, e-acute, "a": the letter behind the cut character is lost. */
  lemma TextCanBeLost()
    ensures var s := [ESC, 0xC3, 0xA9, 0x61];
            Valid(s) && 0x61 in Visited(s, 0) && Scan(s, 0) == []
  {
    var s: seq<Byte> := [ESC, 0xC3, 0xA9, 0x61];
    assert s[1..] == [0xC3, 0xA9, 0x61] && s[1..][2..] == [0x61];
    assert CharLen(s[1..]) == 2 && Valid([0x61]) by { assert [0x61][1..] == []; }
    assert TextEnd(s, 2) == 4 by { assert TextEnd(s, 3) == TextEnd(s, 4); }
    assert s[2..4] == [0xA9, 0x61];
    assert !Valid(s[2..4]);
    assert Scan(s, 4) == [] && Visited(s, 4) == [];
    assert Scan(s, 2) == [] + [];
    assert Visited(s, 2)[1] == 0x61;
  }

  // ---- what terminals are sent ----

  /** Text, and the things a program interleaves with it: control sequences (section 5.4 of
      ECMA-48), operating system commands closed by BEL or by ESC backslash, two-byte
      escapes, bare control bytes, and at the very end something cut off. */
  datatype Piece =
    | Text(bytes: seq<Byte>)
    | Csi(params: seq<Byte>, final: Byte)
    | OscBel(body: seq<Byte>)
    | OscSt(body: seq<Byte>)
    | TwoByte(behind: Byte)
    | Control(byte: Byte)
    | Cut(start: Cut)

  /** A sequence cut off by the end of the input. */
  datatype Cut = LoneEsc | OpenCsi(params: seq<Byte>) | OpenOsc(body: seq<Byte>)

  function RenderedCut(c: Cut): seq<Byte> {
    match c
    case LoneEsc => [ESC]
    case OpenCsi(params) => [ESC, OPEN_BRACKET] + params
    case OpenOsc(body) => [ESC, CLOSE_BRACKET] + body
  }

  function Rendered(p: Piece): seq<Byte> {
    match p
    case Text(bytes) => bytes
    case Csi(params, final) => [ESC, OPEN_BRACKET] + params + [final]
    case OscBel(body) => [ESC, CLOSE_BRACKET] + body + [BEL]
    case OscSt(body) => [ESC, CLOSE_BRACKET] + body + [ESC, BACKSLASH]
    case TwoByte(b) => [ESC, b]
    case Control(b) => [b]
    case Cut(c) => RenderedCut(c)
  }

  predicate Final(b: Byte) { 0x40 <= b <= 0x7E }

  /** An operating system command ends at k. */
  predicate Terminates(s: seq<Byte>, k: nat)
    requires k < |s|
  {
    s[k] == BEL || (s[k] == ESC && k + 1 < |s| && s[k + 1] == BACKSLASH)
  }

  predicate WellFormed(p: Piece) {
    match p
    case Text(bytes) => bytes != [] && Valid(bytes) && forall b | b in bytes :: Plain(b)
    case Csi(params, final) => Final(final) && forall b | b in params :: !Final(b)
    case OscBel(body) => forall k | 0 <= k < |body| :: !Terminates(body, k)
    case OscSt(body) => forall k | 0 <= k < |body| :: !Terminates(body, k)
    case TwoByte(b) => b != OPEN_BRACKET && b != CLOSE_BRACKET
    case Control(b) => b != ESC && !Plain(b)
    case Cut(LoneEsc) => true
    case Cut(OpenCsi(params)) => forall b | b in params :: !Final(b)
    case Cut(OpenOsc(body)) => forall k | 0 <= k < |body| :: !Terminates(body, k)
  }

  /** Pieces in order; a stretch of text is one piece, and only the last may be cut off. */
  predicate Stream(ps: seq<Piece>) {
    && (forall p | p in ps :: WellFormed(p))
    && (forall k | 0 <= k < |ps| - 1 :: !ps[k].Cut?)
    && (forall k | 0 <= k < |ps| - 1 :: !(ps[k].Text? && ps[k + 1].Text?))
  }

  function RenderedAll(ps: seq<Piece>): seq<Byte> {
    if ps == [] then [] else Rendered(ps[0]) + RenderedAll(ps[1..])
  }

  function TextOf(ps: seq<Piece>): seq<Byte> {
    if ps == [] then [] else (if ps[0].Text? then ps[0].bytes else []) + TextOf(ps[1..])
  }

  lemma {:induction false} CsiEndAt(s: seq<Byte>, j: nat, e: nat)
    requires j <= e < |s| && Final(s[e]) && forall k | j <= k < e :: !Final(s[k])
    ensures CsiEnd(s, j) == e + 1
    decreases e - j
  {
    if j < e {
      CsiEndAt(s, j + 1, e);
    }
  }

  lemma {:induction false} OscEndAt(s: seq<Byte>, j: nat, e: nat)
    requires j <= e < |s| && Terminates(s, e) && forall k | j <= k < e :: !Terminates(s, k)
    ensures OscEnd(s, j) == if s[e] == BEL then e + 1 else e + 2
    decreases e - j
  {
    if j < e {
      assert !Terminates(s, j);
      OscEndAt(s, j + 1, e);
    }
  }

  lemma {:induction false} TextEndAt(s: seq<Byte>, i: nat, e: nat)
    requires i <= e <= |s| && (e < |s| ==> !Plain(s[e])) && forall k | i <= k < e :: Plain(s[k])
    ensures TextEnd(s, i) == e
    decreases e - i
  {
    if i < e {
      TextEndAt(s, i + 1, e);
    }
  }

  /** The scanner reads an escape piece to its end and no further. */
  lemma EscapeEndAt(s: seq<Byte>, i: nat, n: nat, p: Piece)
    requires WellFormed(p) && !p.Text? && !p.Control? && !p.Cut?
    requires i <= n <= |s| && s[i..n] == Rendered(p)
    ensures i < |s| && s[i] == ESC && EscapeEnd(s, i) == n
  {
    var r := Rendered(p);
    assert forall k | 0 <= k < |r| :: s[i + k] == s[i..n][k] == r[k];
    assert s[i] == r[0] && s[i + 1] == r[1];
    match p {
      case Csi(params, final) =>
        var e := i + 2 + |params|;
        assert s[e] == r[|params| + 2];
        forall k | i + 2 <= k < e ensures !Final(s[k]) {
          assert s[k] == r[k - i] == params[k - i - 2];
        }
        CsiEndAt(s, i + 2, e);
      case OscBel(body) => OscPieceEnd(s, i, n, p, body);
      case OscSt(body) => OscPieceEnd(s, i, n, p, body);
      case TwoByte(_) =>
    }
  }

  lemma OscPieceEnd(s: seq<Byte>, i: nat, n: nat, p: Piece, body: seq<Byte>)
    requires WellFormed(p) && (p == OscBel(body) || p == OscSt(body))
    requires i <= n <= |s| && s[i..n] == Rendered(p)
    ensures OscEnd(s, i + 2) == n
  {
    var r, e := Rendered(p), i + 2 + |body|;
    assert forall k | 0 <= k < |r| :: s[i + k] == s[i..n][k] == r[k];
    assert s[e] == r[|body| + 2];
    if p.OscSt? {
      assert s[e + 1] == r[|body| + 3];
    }
    forall k | i + 2 <= k < e ensures !Terminates(s, k) {
      var b := k - i - 2;
      assert s[k] == r[b + 2] == body[b] && s[k + 1] == r[b + 3];
      assert !Terminates(body, b);
      if b + 1 < |body| {
        assert r[b + 3] == body[b + 1];
      }
    }
    OscEndAt(s, i + 2, e);
  }

  lemma StartsUnplain(ps: seq<Piece>)
    requires ps != [] && WellFormed(ps[0]) && !ps[0].Text?
    ensures RenderedAll(ps) != [] && !Plain(RenderedAll(ps)[0])
  {
  }

  /** A stretch of text is read as one run. */
  lemma TextPieceEnd(s: seq<Byte>, i: nat, n: nat, p: Piece)
    requires p.Text? && WellFormed(p) && i <= n <= |s| && s[i..n] == p.bytes && (n < |s| ==> !Plain(s[n]))
    ensures i < |s| && Plain(s[i]) && TextEnd(s, i) == n && Decode(s[i..TextEnd(s, i)]) == p.bytes
  {
    forall k | i <= k < n ensures Plain(s[k]) {
      assert s[k] == p.bytes[k - i] && p.bytes[k - i] in p.bytes;
    }
    TextEndAt(s, i, n);
    assert Plain(s[i]);
  }

  lemma {:induction false} CsiRunsOut(s: seq<Byte>, j: nat)
    requires j <= |s| && forall k | j <= k < |s| :: !Final(s[k])
    ensures CsiEnd(s, j) == |s|
    decreases |s| - j
  {
    if j < |s| {
      CsiRunsOut(s, j + 1);
    }
  }

  lemma {:induction false} OscRunsOut(s: seq<Byte>, j: nat)
    requires j <= |s| && forall k | j <= k < |s| :: !Terminates(s, k)
    ensures OscEnd(s, j) == |s|
    decreases |s| - j
  {
    if j < |s| {
      assert !Terminates(s, j);
      OscRunsOut(s, j + 1);
    }
  }

  /** A sequence that is cut off swallows the rest of the input, which is all it has. */
  lemma CutRunsOut(s: seq<Byte>, i: nat, c: Cut)
    requires WellFormed(Cut(c)) && i <= |s| && s[i..] == RenderedCut(c)
    ensures i < |s| && s[i] == ESC && EscapeEnd(s, i) == |s|
  {
    var r := RenderedCut(c);
    assert |s| == i + |r| && forall k | 0 <= k < |r| :: s[i + k] == s[i..][k] == r[k];
    assert s[i] == r[0] && (|r| > 1 ==> s[i + 1] == r[1]);
    match c {
      case LoneEsc =>
      case OpenCsi(params) =>
        forall k | i + 2 <= k < |s| ensures !Final(s[k]) {
          assert s[k] == r[k - i] == params[k - i - 2];
        }
        CsiRunsOut(s, i + 2);
      case OpenOsc(body) =>
        forall k | i + 2 <= k < |s| ensures !Terminates(s, k) {
          var b := k - i - 2;
          assert s[k] == r[b + 2] == body[b] && !Terminates(body, b);
          if b + 1 < |body| {
            assert s[k + 1] == r[b + 3] == body[b + 1];
          }
        }
        OscRunsOut(s, i + 2);
    }
  }

  lemma ScanOnePiece(s: seq<Byte>, i: nat, n: nat, p: Piece)
    requires WellFormed(p) && i <= n <= |s| && s[i..n] == Rendered(p)
    requires p.Text? && n < |s| ==> !Plain(s[n])
    requires p.Cut? ==> n == |s|
    ensures Scan(s, i) == (if p.Text? then p.bytes else []) + Scan(s, n)
  {
    if p.Text? {
      TextPieceEnd(s, i, n, p);
    } else if p.Control? {
      assert s[i] == s[i..n][0] == p.byte;
      assert [] + Scan(s, n) == Scan(s, n);
    } else if p.Cut? {
      assert s[i..] == s[i..n];
      CutRunsOut(s, i, p.start);
    } else {
      EscapeEndAt(s, i, n, p);
      assert [] + Scan(s, n) == Scan(s, n);
    }
  }

  lemma StreamTail(ps: seq<Piece>)
    requires Stream(ps) && ps != []
    ensures WellFormed(ps[0]) && Stream(ps[1..])
    ensures ps[0].Text? && |ps| > 1 ==> WellFormed(ps[1]) && !ps[1].Text?
    ensures ps[0].Cut? ==> ps[1..] == []
  {
    assert |ps| > 1 ==> !ps[0].Cut?;
    assert forall k | 0 <= k < |ps| - 1 :: ps[1..][k] == ps[k + 1];
    assert ps[0] in ps && forall q | q in ps[1..] :: q in ps;
  }

  lemma FrontAndRest(s: seq<Byte>, i: nat, front: seq<Byte>, rest: seq<Byte>)
    requires i <= |s| && s[i..] == front + rest
    ensures var n := i + |front|;
            && n <= |s| && s[i..n] == front && s[n..] == rest
            && (rest != [] ==> n < |s| && s[n] == rest[0])
  {
    var n := i + |front|;
    assert s[i..n] == (front + rest)[..|front|];
    assert s[n..] == (front + rest)[|front|..];
    assert rest != [] ==> s[n..][0] == s[n];
  }

  lemma {:induction false} ScanFindsText(ps: seq<Piece>, s: seq<Byte>, i: nat)
    requires Stream(ps) && i <= |s| && s[i..] == RenderedAll(ps)
    ensures Scan(s, i) == TextOf(ps)
    decreases |ps|
  {
    if ps != [] {
      var p, rest := ps[0], ps[1..];
      var n := i + |Rendered(p)|;
      StreamTail(ps);
      FrontAndRest(s, i, Rendered(p), RenderedAll(rest));
      ScanFindsText(rest, s, n);
      if p.Text? && rest != [] {
        StartsUnplain(rest);
      }
      ScanOnePiece(s, i, n, p);
    }
  }

  /** Of everything a terminal is sent, stripping keeps exactly the text (less the variation
      selectors in it), whatever sequences stand between. */
  lemma StripKeepsExactlyTheText(ps: seq<Piece>)
    requires Stream(ps)
    ensures Valid(TextOf(ps)) && Strip(RenderedAll(ps)) == DropSelectors(TextOf(ps))
  {
    var s := RenderedAll(ps);
    assert s[0..] == s;
    ScanFindsText(ps, s, 0);
    ScanIsValid(s, 0);
  }
}
