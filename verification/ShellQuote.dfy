/** Quoting string lists for the seeding script (crates/deptui-core/src/host.rs,
    `shell_quote`), and how a POSIX shell reads them back. */
module ShellQuote {

  datatype Option<+T> = None | Some(value: T)

  const QUOTE := '\''
  const BACKSLASH := '\\'

  /** Close the quotes, add an escaped quote, open them again. */
  const ESCAPED_QUOTE := [QUOTE, BACKSLASH, QUOTE, QUOTE]

  function EscapeQuotes(s: string): string {
    if s == [] then []
    else (if s[0] == QUOTE then ESCAPED_QUOTE else [s[0]]) + EscapeQuotes(s[1..])
  }

  function Quote(s: string): string { [QUOTE] + EscapeQuotes(s) + [QUOTE] }

  /** The space-joined quoted list. */
  function QuoteList(items: seq<string>): string {
    if items == [] then ""
    else if |items| == 1 then Quote(items[0])
    else Quote(items[0]) + [' '] + QuoteList(items[1..])
  }

  // ---- reading words back ----

  /** Inside single quotes, behind an unquoted backslash, or neither. */
  datatype Mode = Plain | Quoted | Escaped

  /** Unquoted characters that do not simply stand for themselves in a word. */
  predicate Special(c: char) {
    c in {'|', '&', ';', '<', '>', '(', ')', '$', '`', '"', '*', '?', '[', ']', '#', '~', '=', '%', '{', '}', '!', '\n'}
  }

  predicate Blank(c: char) { c == ' ' || c == '\t' }

  /** Field splitting and quote removal by sections 2.2.1 and 2.2.2 of POSIX.1-2017 Shell
      Command Language; no result on an unterminated quote or an unquoted special character. */
  function Words(input: string, mode: Mode, word: Option<string>, done: seq<string>): Option<seq<string>>
    decreases |input|
  {
    if input == [] then
      if mode != Plain then None else Some(if word.Some? then done + [word.value] else done)
    else
      var c, rest := input[0], input[1..];
      var sofar := if word.Some? then word.value else "";
      match mode
      case Quoted =>
        if c == QUOTE then Words(rest, Plain, Some(sofar), done) else Words(rest, Quoted, Some(sofar + [c]), done)
      case Escaped =>
        // An escaped newline is a line continuation.
        Words(rest, Plain, if c == '\n' then word else Some(sofar + [c]), done)
      case Plain =>
        if Blank(c) then Words(rest, Plain, None, if word.Some? then done + [word.value] else done)
        else if c == QUOTE then Words(rest, Quoted, Some(sofar), done)
        else if c == BACKSLASH then Words(rest, Escaped, word, done)
        else if Special(c) then None
        else Words(rest, Plain, Some(sofar + [c]), done)
  }

  function Tokenize(input: string): Option<seq<string>> { Words(input, Plain, None, []) }

  lemma EscapedQuoteReads(tail: string, word: string, done: seq<string>)
    ensures Words(ESCAPED_QUOTE + tail, Quoted, Some(word), done) == Words(tail, Quoted, Some(word + [QUOTE]), done)
  {
    var a := ESCAPED_QUOTE + tail;
    assert a[1..] == [BACKSLASH, QUOTE, QUOTE] + tail;
    assert a[1..][1..] == [QUOTE, QUOTE] + tail;
    assert a[1..][1..][1..] == [QUOTE] + tail;
    assert a[1..][1..][1..][1..] == tail;
    assert Words(a, Quoted, Some(word), done) == Words(a[1..], Plain, Some(word), done);
    assert Words(a[1..], Plain, Some(word), done) == Words(a[1..][1..], Escaped, Some(word), done);
    assert Words(a[1..][1..], Escaped, Some(word), done) == Words(a[1..][1..][1..], Plain, Some(word + [QUOTE]), done);
  }

  lemma {:induction false} BodyReads(s: string, tail: string, word: string, done: seq<string>)
    ensures Words(EscapeQuotes(s) + [QUOTE] + tail, Quoted, Some(word), done) == Words(tail, Plain, Some(word + s), done)
    decreases |s|
  {
    if s == [] {
      assert EscapeQuotes(s) + [QUOTE] + tail == [QUOTE] + tail;
      assert ([QUOTE] + tail)[1..] == tail && word + s == word;
    } else {
      var more := EscapeQuotes(s[1..]) + [QUOTE] + tail;
      BodyReads(s[1..], tail, word + [s[0]], done);
      assert word + [s[0]] + s[1..] == word + s;
      if s[0] == QUOTE {
        assert EscapeQuotes(s) + [QUOTE] + tail == ESCAPED_QUOTE + more;
        EscapedQuoteReads(more, word, done);
      } else {
        assert EscapeQuotes(s) + [QUOTE] + tail == [s[0]] + more;
        assert ([s[0]] + more)[1..] == more;
      }
    }
  }

  /** A quoted string reads as one word, the string itself, whatever follows. */
  lemma QuoteReads(s: string, tail: string, done: seq<string>)
    ensures Words(Quote(s) + tail, Plain, None, done) == Words(tail, Plain, Some(s), done)
  {
    var body := EscapeQuotes(s) + [QUOTE] + tail;
    assert Quote(s) + tail == [QUOTE] + body;
    assert ([QUOTE] + body)[1..] == body;
    BodyReads(s, tail, "", done);
    assert "" + s == s;
  }

  lemma {:induction false} ListReads(items: seq<string>, done: seq<string>)
    ensures Words(QuoteList(items), Plain, None, done) == Some(done + items)
    decreases |items|
  {
    if items == [] {
      assert done + items == done;
    } else if |items| == 1 {
      QuoteReads(items[0], [], done);
      assert Quote(items[0]) + [] == Quote(items[0]);
      assert done + [items[0]] == done + items;
    } else {
      var rest := QuoteList(items[1..]);
      assert QuoteList(items) == Quote(items[0]) + ([' '] + rest);
      QuoteReads(items[0], [' '] + rest, done);
      assert ([' '] + rest)[1..] == rest;
      ListReads(items[1..], done + [items[0]]);
      assert done + [items[0]] + items[1..] == done + items;
    }
  }

  /** The round trip: a shell reads the quoted list back as exactly the original strings,
      empty ones and ones full of quotes included. */
  lemma QuotedListRoundTrips(items: seq<string>)
    ensures Tokenize(QuoteList(items)) == Some(items)
  {
    ListReads(items, []);
    assert [] + items == items;
  }

  /** So different lists never quote alike. */
  lemma QuoteListInjective(a: seq<string>, b: seq<string>)
    requires QuoteList(a) == QuoteList(b)
    ensures a == b
  {
    QuotedListRoundTrips(a);
    QuotedListRoundTrips(b);
  }
}
