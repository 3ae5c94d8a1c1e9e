/** Well-formed UTF-8, by the byte ranges of section 4 of RFC 3629: what `str::from_utf8`
    accepts. A text is valid when it falls into characters of one to four bytes, each of
    one of the forms of that section; overlong forms, surrogates and anything past U+10FFFF
    are excluded by the ranges of the second byte. The lemmas say where a valid text may be
    cut: before any byte that does not continue a character, and behind every ASCII byte. */
module Utf8 {
  type Byte = b: int | 0 <= b < 0x100

  predicate Tail(b: Byte) { 0x80 <= b <= 0xBF }

  predicate TwoBytes(s: seq<Byte>) { |s| >= 2 && 0xC2 <= s[0] <= 0xDF && Tail(s[1]) }

  predicate ThreeBytes(s: seq<Byte>) {
    |s| >= 3 && Tail(s[2]) &&
    (|| (s[0] == 0xE0 && 0xA0 <= s[1] <= 0xBF)
     || (0xE1 <= s[0] <= 0xEC && Tail(s[1]))
     || (s[0] == 0xED && 0x80 <= s[1] <= 0x9F)
     || (0xEE <= s[0] <= 0xEF && Tail(s[1])))
  }

  predicate FourBytes(s: seq<Byte>) {
    |s| >= 4 && Tail(s[2]) && Tail(s[3]) &&
    (|| (s[0] == 0xF0 && 0x90 <= s[1] <= 0xBF)
     || (0xF1 <= s[0] <= 0xF3 && Tail(s[1]))
     || (s[0] == 0xF4 && 0x80 <= s[1] <= 0x8F))
  }

  /** Length of the character at the front, 0 if there is none. */
  function CharLen(s: seq<Byte>): (n: nat)
    ensures n <= |s| && n <= 4
    ensures forall i | 0 < i < n :: Tail(s[i])
    ensures n > 0 ==> !Tail(s[0]) && (n == 1 <==> s[0] < 0x80)
  {
    if |s| >= 1 && s[0] < 0x80 then 1
    else if TwoBytes(s) then 2
    else if ThreeBytes(s) then 3
    else if FourBytes(s) then 4
    else 0
  }

  predicate Valid(s: seq<Byte>)
    decreases |s|
  {
    s == [] || (CharLen(s) > 0 && Valid(s[CharLen(s)..]))
  }

  lemma CharLenPrefix(a: seq<Byte>, b: seq<Byte>)
    requires CharLen(a) > 0
    ensures CharLen(a + b) == CharLen(a)
  {
  }

  lemma CharLenCut(s: seq<Byte>, i: nat)
    requires CharLen(s) <= i <= |s|
    ensures CharLen(s) > 0 ==> CharLen(s[..i]) == CharLen(s)
  {
  }

  lemma {:induction false} ValidConcat(a: seq<Byte>, b: seq<Byte>)
    requires Valid(a) && Valid(b)
    ensures Valid(a + b)
    decreases |a|
  {
    if a == [] {
      assert a + b == b;
    } else {
      CharLenPrefix(a, b);
      var n := CharLen(a);
      assert (a + b)[n..] == a[n..] + b;
      ValidConcat(a[n..], b);
    }
  }

  /** A valid text may be cut wherever a character does not continue. */
  lemma {:induction false} ValidCut(s: seq<Byte>, i: nat)
    requires Valid(s) && i <= |s| && (i < |s| ==> !Tail(s[i]))
    ensures Valid(s[..i]) && Valid(s[i..])
    decreases |s|
  {
    if i == 0 {
      assert s[i..] == s;
    } else {
      var n := CharLen(s);
      assert n <= i;
      ValidCut(s[n..], i - n);
      CharLenCut(s, i);
      Slices(s, n, i);
    }
  }

  lemma Slices(s: seq<Byte>, n: nat, i: nat)
    requires n <= i <= |s|
    ensures s[..i][n..] == s[n..i] == s[n..][..i - n] && s[i..] == s[n..][i - n..]
  {
  }

  lemma ValidCutBehind(s: seq<Byte>, i: nat, e: nat)
    requires i <= e <= |s| && Valid(s[i..]) && (e < |s| ==> !Tail(s[e]))
    ensures Valid(s[i..e]) && Valid(s[e..])
  {
    var t := s[i..];
    assert e < |s| ==> t[e - i] == s[e];
    ValidCut(t, e - i);
    Slices(s, i, e);
  }

  /** The byte behind an ASCII byte starts a character. */
  lemma ValidBehindAscii(s: seq<Byte>, i: nat)
    requires Valid(s) && i < |s| && s[i] < 0x80
    ensures Valid(s[i + 1..])
  {
    ValidCut(s, i);
    assert s[i..][1..] == s[i + 1..];
  }

  /** A non-ASCII byte that starts a character is followed by a continuation byte. */
  lemma LeadIsFollowed(s: seq<Byte>, i: nat)
    requires Valid(s) && i < |s| && s[i] >= 0x80 && !Tail(s[i])
    ensures i + 1 < |s| && Tail(s[i + 1])
  {
    ValidCut(s, i);
    assert CharLen(s[i..]) >= 2;
    assert s[i..][1] == s[i + 1];
  }
}
