/** The two readers of the deploy child's output (crates/deptui-core/src/deploy.rs,
    `forward_lines`, `read_stderr_interactive_impl`, `flush_line`): bytes arrive in chunks of
    any size and leave as log lines and sudo prompts. Lines are the raw bytes handed to the
    flush, before they are decoded. */
module LineReader {
  import opened Utf8

  const MAX_LINE := 16 * 1024
  const LF := 0x0A
  const CR := 0x0D
  const COLON := 0x3A
  const SPACE := 0x20

  datatype Emission = Line(raw: seq<Byte>) | Prompt(raw: seq<Byte>)

  datatype State = State(buf: seq<Byte>, out: seq<Emission>)

  const START := State([], [])

  predicate Terminator(b: Byte) { b == LF || b == CR }

  /** Blank buffers produce nothing. */
  function Flush(st: State): State {
    if st.buf == [] then st else State([], st.out + [Line(st.buf)])
  }

  function ForwardByte(st: State, b: Byte): State {
    if Terminator(b) then Flush(st)
    else
      var grown := st.(buf := st.buf + [b]);
      if |grown.buf| >= MAX_LINE then Flush(grown) else grown
  }

  // ---- sudo prompts ----

  function Lower(b: Byte): Byte { if 0x41 <= b <= 0x5A then b + 0x20 else b }

  predicate WordAt(s: seq<Byte>, i: nat, word: seq<Byte>) {
    i + |word| <= |s| && forall k | 0 <= k < |word| :: Lower(s[i + k]) == word[k]
  }

  predicate Contains(s: seq<Byte>, word: seq<Byte>) {
    exists i :: 0 <= i <= |s| && WordAt(s, i, word)
  }

  /** "password" and "passphrase". */
  const PASSWORD: seq<Byte> := [0x70, 0x61, 0x73, 0x73, 0x77, 0x6F, 0x72, 0x64]
  const PASSPHRASE: seq<Byte> := [0x70, 0x61, 0x73, 0x73, 0x70, 0x68, 0x72, 0x61, 0x73, 0x65]

  /** Ends with a colon, or a colon and a space. */
  predicate EndsLikePrompt(s: seq<Byte>) {
    (|s| >= 1 && s[|s| - 1] == COLON) || (|s| >= 2 && s[|s| - 2] == COLON && s[|s| - 1] == SPACE)
  }

  predicate IsSudoPrompt(s: seq<Byte>) {
    EndsLikePrompt(s) && (Contains(s, PASSWORD) || Contains(s, PASSPHRASE))
  }

  /** The byte at k could complete a prompt. */
  predicate Colonish(s: seq<Byte>, k: nat)
    requires k < |s|
  {
    s[k] == COLON || (k >= 1 && s[k] == SPACE && s[k - 1] == COLON)
  }

  function InteractiveByte(st: State, b: Byte): State {
    if Terminator(b) then Flush(st)
    else
      var grown := st.(buf := st.buf + [b]);
      if Colonish(grown.buf, |st.buf|) then
        if IsSudoPrompt(grown.buf) then State([], grown.out + [Prompt(grown.buf)]) else grown
      else if |grown.buf| >= MAX_LINE then Flush(grown)
      else grown
  }

  function Byte1(interactive: bool, st: State, b: Byte): State {
    if interactive then InteractiveByte(st, b) else ForwardByte(st, b)
  }

  function Feed(interactive: bool, st: State, bytes: seq<Byte>): State
    decreases |bytes|
  {
    if bytes == [] then st else Feed(interactive, Byte1(interactive, st, bytes[0]), bytes[1..])
  }

  /** What a reader sends for a whole input. */
  function Read(interactive: bool, input: seq<Byte>): seq<Emission> {
    Flush(Feed(interactive, START, input)).out
  }

  function Concat(chunks: seq<seq<Byte>>): seq<Byte> {
    if chunks == [] then [] else chunks[0] + Concat(chunks[1..])
  }

  lemma {:induction false} FeedTwice(interactive: bool, st: State, a: seq<Byte>, b: seq<Byte>)
    ensures Feed(interactive, Feed(interactive, st, a), b) == Feed(interactive, st, a + b)
    decreases |a|
  {
    if a == [] {
      assert a + b == b;
    } else {
      assert (a + b)[1..] == a[1..] + b;
      FeedTwice(interactive, Byte1(interactive, st, a[0]), a[1..], b);
    }
  }

  /** `forward_lines`: however the bytes are chunked, the lines are those of the whole input. */
  method ForwardLines(chunks: seq<seq<Byte>>) returns (out: seq<Emission>)
    ensures out == Read(false, Concat(chunks))
  {
    var buf: seq<Byte> := [];
    out := [];
    for c := 0 to |chunks|
      invariant Feed(false, START, Concat(chunks)) == Feed(false, State(buf, out), Concat(chunks[c..]))
    {
      var chunk := chunks[c];
      ghost var st, later := State(buf, out), Concat(chunks[c + 1..]);
      assert chunks[c..][1..] == chunks[c + 1..];
      FeedTwice(false, st, chunk, later);
      for i := 0 to |chunk|
        invariant Feed(false, st, chunk) == Feed(false, State(buf, out), chunk[i..])
      {
        assert chunk[i..][1..] == chunk[i + 1..];
        var b := chunk[i];
        if b == LF || b == CR {
          buf, out := FlushLine(buf, out);
        } else {
          buf := buf + [b];
          if |buf| >= MAX_LINE {
            buf, out := FlushLine(buf, out);
          }
        }
      }
    }
    buf, out := FlushLine(buf, out);
  }

  method FlushLine(buf: seq<Byte>, out: seq<Emission>) returns (buf': seq<Byte>, out': seq<Emission>)
    ensures State(buf', out') == Flush(State(buf, out))
  {
    if buf == [] {
      return buf, out;
    }
    return [], out + [Line(buf)];
  }

  /** `read_stderr_interactive_impl`. */
  method ReadInteractive(chunks: seq<seq<Byte>>) returns (out: seq<Emission>)
    ensures out == Read(true, Concat(chunks))
    ensures forall e | e in out :: e.Prompt? <==> Asks(e.raw)
  {
    PromptsExactly(Concat(chunks));
    var buf: seq<Byte> := [];
    out := [];
    for c := 0 to |chunks|
      invariant Feed(true, START, Concat(chunks)) == Feed(true, State(buf, out), Concat(chunks[c..]))
    {
      var chunk := chunks[c];
      ghost var st, later := State(buf, out), Concat(chunks[c + 1..]);
      assert chunks[c..][1..] == chunks[c + 1..];
      FeedTwice(true, st, chunk, later);
      for i := 0 to |chunk|
        invariant Feed(true, st, chunk) == Feed(true, State(buf, out), chunk[i..])
      {
        assert chunk[i..][1..] == chunk[i + 1..];
        buf, out := TakeByte(buf, out, chunk[i]);
      }
    }
    buf, out := FlushLine(buf, out);
  }

  method TakeByte(buf: seq<Byte>, out: seq<Emission>, b: Byte) returns (buf': seq<Byte>, out': seq<Emission>)
    ensures State(buf', out') == InteractiveByte(State(buf, out), b)
  {
    if b == LF || b == CR {
      buf', out' := FlushLine(buf, out);
      return;
    }
    buf', out' := buf + [b], out;
    if b == COLON || (b == SPACE && |buf'| >= 2 && buf'[|buf'| - 2] == COLON) {
      if IsSudoPrompt(buf') {
        return [], out' + [Prompt(buf')];
      }
    } else if |buf'| >= MAX_LINE {
      buf', out' := FlushLine(buf', out');
    }
  }

  // ---- nothing is lost ----

  function Raw(out: seq<Emission>): seq<Byte> {
    if out == [] then [] else out[0].raw + Raw(out[1..])
  }

  function Payload(input: seq<Byte>): seq<Byte> {
    if input == [] then []
    else if Terminator(input[0]) then Payload(input[1..])
    else [input[0]] + Payload(input[1..])
  }

  lemma {:induction false} RawAppend(out: seq<Emission>, e: Emission)
    ensures Raw(out + [e]) == Raw(out) + e.raw
  {
    if out == [] {
      assert out + [e] == [e] && [e][1..] == [];
      assert e.raw + [] == e.raw;
    } else {
      assert (out + [e])[1..] == out[1..] + [e];
      RawAppend(out[1..], e);
      assert out[0].raw + (Raw(out[1..]) + e.raw) == out[0].raw + Raw(out[1..]) + e.raw;
    }
  }

  function Held(st: State): seq<Byte> { Raw(st.out) + st.buf }

  lemma FlushHolds(st: State)
    ensures Held(Flush(st)) == Held(st)
  {
    RawAppend(st.out, Line(st.buf));
  }

  lemma ByteHolds(interactive: bool, st: State, b: Byte)
    ensures Held(Byte1(interactive, st, b)) == if Terminator(b) then Held(st) else Held(st) + [b]
  {
    FlushHolds(st);
    var grown := st.(buf := st.buf + [b]);
    FlushHolds(grown);
    RawAppend(grown.out, Prompt(grown.buf));
    assert Held(grown) == Held(st) + [b];
  }

  lemma {:induction false} FeedHolds(interactive: bool, st: State, input: seq<Byte>)
    ensures Held(Feed(interactive, st, input)) == Held(st) + Payload(input)
    decreases |input|
  {
    if input != [] {
      ByteHolds(interactive, st, input[0]);
      FeedHolds(interactive, Byte1(interactive, st, input[0]), input[1..]);
      assert Held(st) + ([input[0]] + Payload(input[1..])) == Held(st) + [input[0]] + Payload(input[1..]);
    }
  }

  /** For both readers, what is sent, joined together, is the input without CR and LF. */
  lemma NothingLost(interactive: bool, input: seq<Byte>)
    ensures Raw(Read(interactive, input)) == Payload(input)
  {
    FeedHolds(interactive, START, input);
    var st := Feed(interactive, START, input);
    FlushHolds(st);
    assert Flush(st).buf == [];
    assert Held(Flush(st)) == Raw(Flush(st).out);
  }

  // ---- forward_lines refines whole-input splitting ----

  /** The text before the first terminator. */
  function FirstLine(s: seq<Byte>): seq<Byte> {
    if s == [] || Terminator(s[0]) then [] else [s[0]] + FirstLine(s[1..])
  }

  lemma {:induction false} FirstLineIsPrefix(s: seq<Byte>)
    ensures FirstLine(s) <= s && forall b | b in FirstLine(s) :: !Terminator(b)
    ensures |FirstLine(s)| < |s| ==> Terminator(s[|FirstLine(s)|])
  {
    if s != [] && !Terminator(s[0]) {
      FirstLineIsPrefix(s[1..]);
      assert s == [s[0]] + s[1..];
    }
  }

  /** A line in pieces of at most MAX_LINE bytes; a blank line in none. */
  function Chop(line: seq<Byte>): seq<Emission>
    decreases |line|
  {
    if line == [] then []
    else if |line| <= MAX_LINE then [Line(line)]
    else [Line(line[..MAX_LINE])] + Chop(line[MAX_LINE..])
  }

  /** Split the whole input at terminators, then chop every line. */
  function Reference(input: seq<Byte>): seq<Emission>
    decreases |input|
  {
    FirstLineIsPrefix(input);
    var line := FirstLine(input);
    if |line| == |input| then Chop(line)
    else Chop(line) + Reference(input[|line| + 1..])
  }

  lemma {:induction false} FirstLineBehind(text: seq<Byte>, input: seq<Byte>)
    requires forall b | b in text :: !Terminator(b)
    ensures FirstLine(text + input) == text + FirstLine(input)
  {
    if text == [] {
      assert text + input == input;
    } else {
      assert (text + input)[1..] == text[1..] + input;
      FirstLineBehind(text[1..], input);
    }
  }

  lemma ReferenceAtTerminator(text: seq<Byte>, b: Byte, rest: seq<Byte>)
    requires (forall x | x in text :: !Terminator(x)) && Terminator(b)
    ensures Reference(text + ([b] + rest)) == Chop(text) + Reference(rest)
  {
    FirstLineBehind(text, [b] + rest);
    assert FirstLine(text + ([b] + rest)) == text + [] == text;
    assert (text + ([b] + rest))[|text| + 1..] == rest;
  }

  lemma ReferenceAtFullLine(full: seq<Byte>, rest: seq<Byte>)
    requires |full| == MAX_LINE && forall x | x in full :: !Terminator(x)
    ensures Reference(full + rest) == [Line(full)] + Reference(rest)
  {
    FirstLineBehind(full, rest);
    FirstLineIsPrefix(rest);
    var line := FirstLine(rest);
    ChopFull(full, line);
    if |line| < |rest| {
      assert (full + rest)[|full + line| + 1..] == rest[|line| + 1..];
      assert [Line(full)] + (Chop(line) + Reference(rest[|line| + 1..]))
          == [Line(full)] + Chop(line) + Reference(rest[|line| + 1..]);
    }
  }

  lemma ChopFull(full: seq<Byte>, line: seq<Byte>)
    requires |full| == MAX_LINE
    ensures Chop(full + line) == [Line(full)] + Chop(line)
  {
    if line == [] {
      assert full + line == full;
    } else {
      assert (full + line)[..MAX_LINE] == full && (full + line)[MAX_LINE..] == line;
    }
  }

  predicate Partial(st: State) {
    |st.buf| < MAX_LINE && forall b | b in st.buf :: !Terminator(b)
  }

  /** One byte moves finished lines from what is still to be split into what was sent. */
  lemma ForwardStep(st: State, b: Byte, rest: seq<Byte>)
    requires Partial(st)
    ensures var st' := ForwardByte(st, b);
            Partial(st') && st'.out + Reference(st'.buf + rest) == st.out + Reference(st.buf + ([b] + rest))
  {
    assert [] + rest == rest;
    if Terminator(b) {
      ReferenceAtTerminator(st.buf, b, rest);
      assert st.out + (Chop(st.buf) + Reference(rest)) == st.out + Chop(st.buf) + Reference(rest);
      assert st.out + Chop(st.buf) == Flush(st).out;
    } else {
      var grown := st.buf + [b];
      assert st.buf + ([b] + rest) == grown + rest;
      if |grown| == MAX_LINE {
        ReferenceAtFullLine(grown, rest);
        assert st.out + ([Line(grown)] + Reference(rest)) == st.out + [Line(grown)] + Reference(rest);
      }
    }
  }

  lemma {:induction false} ForwardFrom(st: State, input: seq<Byte>)
    requires Partial(st)
    ensures Flush(Feed(false, st, input)).out == st.out + Reference(st.buf + input)
    decreases |input|
  {
    if input == [] {
      assert st.buf + [] == st.buf;
      ReferenceOfLine(st.buf);
    } else {
      ForwardStep(st, input[0], input[1..]);
      assert input == [input[0]] + input[1..];
      ForwardFrom(ForwardByte(st, input[0]), input[1..]);
    }
  }

  lemma ReferenceOfLine(line: seq<Byte>)
    requires forall b | b in line :: !Terminator(b)
    ensures Reference(line) == Chop(line)
  {
    FirstLineBehind(line, []);
    assert line + [] == line;
  }

  /** The byte-fed reader sends exactly what splitting the whole input would. */
  lemma ForwardIsReference(input: seq<Byte>)
    ensures Read(false, input) == Reference(input)
  {
    ForwardFrom(START, input);
    assert START.buf + input == input;
  }

  predicate SoundLine(e: Emission) {
    e.Line? && 0 < |e.raw| <= MAX_LINE && forall b | b in e.raw :: !Terminator(b)
  }

  lemma {:induction false} ChopSound(line: seq<Byte>)
    requires forall b | b in line :: !Terminator(b)
    ensures forall e | e in Chop(line) :: SoundLine(e)
    decreases |line|
  {
    if |line| > MAX_LINE {
      ChopSound(line[MAX_LINE..]);
    }
  }

  lemma {:induction false} ReferenceSound(input: seq<Byte>)
    ensures forall e | e in Reference(input) :: SoundLine(e)
    decreases |input|
  {
    FirstLineIsPrefix(input);
    ChopSound(FirstLine(input));
    if |FirstLine(input)| < |input| {
      ReferenceSound(input[|FirstLine(input)| + 1..]);
    }
  }

  /** Every segment the reader sends is non-blank, within the cap, and free of terminators. */
  lemma ForwardSound(input: seq<Byte>)
    ensures forall e | e in Read(false, input) :: SoundLine(e)
  {
    ForwardIsReference(input);
    ReferenceSound(input);
  }

  // ---- the interactive reader ----

  /** Past the cap, only bytes that could complete a prompt were let through. */
  predicate OverrunByColons(raw: seq<Byte>) {
    forall k | MAX_LINE - 1 <= k < |raw| - 1 :: Colonish(raw, k)
  }

  /** The buffer, and every byte of it past the cap. */
  predicate InteractiveInv(st: State) {
    && (forall k | MAX_LINE - 1 <= k < |st.buf| :: Colonish(st.buf, k))
    && (forall e | e in st.out :: OverrunByColons(e.raw))
    && !IsSudoPrompt(st.buf)
  }

  lemma InteractiveByteKeeps(st: State, b: Byte)
    requires InteractiveInv(st)
    ensures InteractiveInv(InteractiveByte(st, b))
  {
    var grown := st.buf + [b];
    assert forall k | 0 <= k < |st.buf| :: Colonish(grown, k) == Colonish(st.buf, k);
    assert OverrunByColons(st.buf) && OverrunByColons(grown);
    var st' := InteractiveByte(st, b);
    assert forall e | e in st'.out :: e in st.out || e.raw == st.buf || e.raw == grown;
  }

  lemma {:induction false} InteractiveFeedKeeps(st: State, input: seq<Byte>)
    requires InteractiveInv(st)
    ensures InteractiveInv(Feed(true, st, input))
    decreases |input|
  {
    if input != [] {
      InteractiveByteKeeps(st, input[0]);
      InteractiveFeedKeeps(InteractiveByte(st, input[0]), input[1..]);
    }
  }

  // ---- prompts are sent as prompts ----

  /** The word stands at i, each letter in either case. */
  predicate SpelledAt(s: seq<Byte>, i: int, word: seq<Byte>) {
    && 0 <= i <= |s| - |word|
    && forall k | 0 <= k < |word| :: s[i + k] == word[k] || s[i + k] as int + 0x20 == word[k] as int
  }

  /** "password" or "passphrase" stands somewhere in the text. */
  ghost predicate NamesSecret(s: seq<Byte>) {
    || (exists i :: SpelledAt(s, i, [0x70, 0x61, 0x73, 0x73, 0x77, 0x6F, 0x72, 0x64]))
    || (exists i :: SpelledAt(s, i, [0x70, 0x61, 0x73, 0x73, 0x70, 0x68, 0x72, 0x61, 0x73, 0x65]))
  }

  /** Text that asks for a secret: it names one and ends with a colon, or a colon and a space. */
  ghost predicate Asks(s: seq<Byte>) {
    NamesSecret(s) && (s[|s| - 1] == COLON || (s[|s| - 2] == COLON && s[|s| - 1] == SPACE))
  }

  lemma ContainsIsSpelled(s: seq<Byte>, word: seq<Byte>)
    requires word != [] && forall k | 0 <= k < |word| :: 0x61 <= word[k] <= 0x7A
    ensures Contains(s, word) <==> exists i :: SpelledAt(s, i, word)
  {
    forall i | 0 <= i <= |s| ensures WordAt(s, i, word) <==> SpelledAt(s, i, word) {
      if i + |word| <= |s| {
        forall k | 0 <= k < |word|
          ensures Lower(s[i + k]) == word[k] <==> s[i + k] == word[k] || s[i + k] as int + 0x20 == word[k] as int
        {
        }
      }
    }
    if i :| SpelledAt(s, i, word) {
      assert WordAt(s, i, word);
    }
  }

  lemma PromptsAsk(s: seq<Byte>)
    ensures IsSudoPrompt(s) <==> Asks(s)
  {
    ContainsIsSpelled(s, PASSWORD);
    ContainsIsSpelled(s, PASSPHRASE);
  }

  /** Sent so far: prompts are what asks for a secret, and the buffer does not. */
  ghost predicate PromptsMarked(st: State) {
    !IsSudoPrompt(st.buf) && forall e | e in st.out :: e.Prompt? <==> IsSudoPrompt(e.raw)
  }

  lemma PromptsMarkedStep(st: State, b: Byte)
    requires PromptsMarked(st)
    ensures PromptsMarked(InteractiveByte(st, b))
  {
    var st', grown := InteractiveByte(st, b), st.buf + [b];
    assert grown[|st.buf|] == b && (|st.buf| >= 1 ==> grown[|st.buf| - 1] == st.buf[|st.buf| - 1]);
    assert IsSudoPrompt(grown) ==> Colonish(grown, |st.buf|);
    assert forall e | e in st'.out :: e in st.out || e == Line(st.buf) || e == Line(grown) || e == Prompt(grown);
  }

  lemma {:induction false} PromptsMarkedFeed(st: State, input: seq<Byte>)
    requires PromptsMarked(st)
    ensures PromptsMarked(Feed(true, st, input))
    decreases |input|
  {
    if input != [] {
      PromptsMarkedStep(st, input[0]);
      PromptsMarkedFeed(InteractiveByte(st, input[0]), input[1..]);
    }
  }

  /** Of everything the interactive reader sends, exactly what asks for a secret is sent as a
      prompt; the plain reader sends none. */
  lemma PromptsExactly(input: seq<Byte>)
    ensures forall e | e in Read(true, input) :: e.Prompt? <==> Asks(e.raw)
    ensures forall e | e in Read(false, input) :: e.Line?
  {
    ForwardSound(input);
    PromptsMarkedFeed(START, input);
    forall e | e in Read(true, input) ensures e.Prompt? <==> Asks(e.raw) {
      PromptsAsk(e.raw);
    }
  }

  /** What was sent before makes no difference to what follows. */
  lemma {:induction false} SentBefore(interactive: bool, out: seq<Emission>, st: State, input: seq<Byte>)
    ensures Feed(interactive, State(st.buf, out + st.out), input) ==
            State(Feed(interactive, st, input).buf, out + Feed(interactive, st, input).out)
    decreases |input|
  {
    if input != [] {
      var st' := Byte1(interactive, st, input[0]);
      SentOneBefore(interactive, out, st, input[0]);
      SentBefore(interactive, out, st', input[1..]);
    }
  }

  lemma SentOneBefore(interactive: bool, out: seq<Emission>, st: State, b: Byte)
    ensures var st' := Byte1(interactive, st, b);
            Byte1(interactive, State(st.buf, out + st.out), b) == State(st'.buf, out + st'.out)
  {
    var grown := st.buf + [b];
    assert forall e :: out + st.out + [e] == out + (st.out + [e]);
  }

  /** Once its buffer is empty, a reader goes on as if it had just started. */
  lemma ReadBehind(interactive: bool, a: seq<Byte>, b: seq<Byte>)
    requires Feed(interactive, START, a).buf == []
    ensures Read(interactive, a + b) == Read(interactive, a) + Read(interactive, b)
  {
    var st := Feed(interactive, START, a);
    FeedTwice(interactive, START, a, b);
    SentBefore(interactive, st.out, START, b);
    assert st == State(START.buf, st.out + START.out);
    var end := Feed(interactive, START, b);
    assert st.out + end.out + [Line(end.buf)] == st.out + (end.out + [Line(end.buf)]);
  }

  lemma FeedOne(interactive: bool, a: seq<Byte>, b: Byte)
    ensures Feed(interactive, START, a + [b]) == Byte1(interactive, Feed(interactive, START, a), b)
  {
    FeedTwice(interactive, START, a, [b]);
    assert [b][1..] == [];
  }

  /** A terminator cuts the input in two that are read apart, for both readers. */
  lemma TerminatorSeparates(interactive: bool, a: seq<Byte>, t: Byte, b: seq<Byte>)
    requires Terminator(t)
    ensures Read(interactive, a + [t] + b) == Read(interactive, a) + Read(interactive, b)
  {
    FeedOne(interactive, a, t);
    ReadBehind(interactive, a + [t], b);
  }

  lemma {:induction false} QuietFeed(buf: seq<Byte>, text: seq<Byte>)
    requires |buf + text| < MAX_LINE && forall b | b in text :: !Terminator(b)
    requires forall n | |buf| < n <= |buf + text| :: !IsSudoPrompt((buf + text)[..n])
    ensures Feed(true, State(buf, []), text) == State(buf + text, [])
    decreases |text|
  {
    if text == [] {
      assert buf + text == buf;
    } else {
      var grown := buf + [text[0]];
      assert grown + text[1..] == buf + text && (buf + text)[..|grown|] == grown;
      assert text[0] in text;
      QuietFeed(grown, text[1..]);
    }
  }

  /** A line below the cap of which no part asks for a secret is sent as one line. */
  lemma HarmlessLine(line: seq<Byte>)
    requires 0 < |line| < MAX_LINE && (forall b | b in line :: !Terminator(b))
    requires forall n | 0 < n <= |line| :: !Asks(line[..n])
    ensures Read(true, line) == [Line(line)]
  {
    assert [] + line == line;
    forall n | 0 < n <= |line| ensures !IsSudoPrompt(line[..n]) {
      PromptsAsk(line[..n]);
    }
    QuietFeed([], line);
  }

  lemma SpelledStays(s: seq<Byte>, t: seq<Byte>, i: int, word: seq<Byte>)
    requires SpelledAt(s, i, word)
    ensures SpelledAt(s + t, i, word)
  {
  }

  lemma SecretStays(text: seq<Byte>)
    requires NamesSecret(text)
    ensures Asks(text + [COLON])
  {
    forall i, word | SpelledAt(text, i, word) ensures SpelledAt(text + [COLON], i, word) {
      SpelledStays(text, [COLON], i, word);
    }
  }

  lemma NoColonNoPrompt(text: seq<Byte>, n: nat)
    requires COLON !in text && 0 < n <= |text|
    ensures !IsSudoPrompt(text[..n])
  {
    assert forall k | 0 <= k < n :: text[..n][k] == text[k] && text[k] in text;
  }

  /** A request for a secret is a prompt the moment its colon arrives, without any line end,
      and reading starts afresh behind it. */
  lemma PromptAtItsColon(text: seq<Byte>, rest: seq<Byte>)
    requires |text| < MAX_LINE && COLON !in text && (forall b | b in text :: !Terminator(b)) && NamesSecret(text)
    ensures Read(true, text + [COLON] + rest) == [Prompt(text + [COLON])] + Read(true, rest)
  {
    TextBeforeColon(text);
    FeedOne(true, text, COLON);
    SecretStays(text);
    PromptsAsk(text + [COLON]);
    PromptTaken(text);
    ReadBehind(true, text + [COLON], rest);
  }

  lemma TextBeforeColon(text: seq<Byte>)
    requires |text| < MAX_LINE && COLON !in text && forall b | b in text :: !Terminator(b)
    ensures Feed(true, START, text) == State(text, [])
  {
    forall n | 0 < n <= |text| ensures !IsSudoPrompt(text[..n]) {
      NoColonNoPrompt(text, n);
    }
    assert [] + text == text;
    QuietFeed([], text);
  }

  lemma PromptTaken(text: seq<Byte>)
    requires IsSudoPrompt(text + [COLON])
    ensures InteractiveByte(State(text, []), COLON) == State([], [Prompt(text + [COLON])])
  {
    assert (text + [COLON])[|text|] == COLON;
  }

  /** After every byte, the buffer holds no prompt: a prompt never waits unnoticed. */
  lemma NoPromptWaits(input: seq<Byte>)
    ensures !IsSudoPrompt(Feed(true, START, input).buf)
  {
    InteractiveFeedKeeps(START, input);
  }

  /** The cap holds of the interactive reader except for runs of colons: whatever it sends,
      every byte from the cap on, but the last, could have completed a prompt. */
  lemma InteractiveOverruns(input: seq<Byte>)
    ensures forall e | e in Read(true, input) :: OverrunByColons(e.raw)
  {
    InteractiveFeedKeeps(START, input);
    var st := Feed(true, START, input);
    assert OverrunByColons(st.buf);
  }

  predicate WithinCap(out: seq<Emission>) { forall e | e in out :: |e.raw| <= MAX_LINE }

  /** Some byte of a line arrives while the buffer is already full. */
  predicate Bursts(st: State, input: seq<Byte>)
    decreases |input|
  {
    input != [] &&
    ((!Terminator(input[0]) && |st.buf| >= MAX_LINE) || Bursts(InteractiveByte(st, input[0]), input[1..]))
  }

  /** An overlong buffer or segment stays overlong. */
  lemma {:induction false} OverlongStays(st: State, input: seq<Byte>)
    requires |st.buf| > MAX_LINE || !WithinCap(st.out)
    ensures !WithinCap(Flush(Feed(true, st, input)).out)
    decreases |input|
  {
    if input == [] {
      assert st.buf != [] ==> Line(st.buf) in Flush(st).out;
    } else {
      var st' := InteractiveByte(st, input[0]);
      assert forall e | e in st.out :: e in st'.out;
      assert |st.buf| > MAX_LINE ==> |st'.buf| > MAX_LINE || |st'.out[|st'.out| - 1].raw| > MAX_LINE;
      OverlongStays(st', input[1..]);
    }
  }

  lemma {:induction false} CapFrom(st: State, input: seq<Byte>)
    requires |st.buf| <= MAX_LINE && WithinCap(st.out)
    ensures WithinCap(Flush(Feed(true, st, input)).out) <==> !Bursts(st, input)
    decreases |input|
  {
    if input != [] {
      var st' := InteractiveByte(st, input[0]);
      if !Terminator(input[0]) && |st.buf| >= MAX_LINE {
        assert |st'.buf| > MAX_LINE || |st'.out[|st'.out| - 1].raw| > MAX_LINE;
        OverlongStays(st', input[1..]);
      } else {
        CapFrom(st', input[1..]);
      }
    }
  }

  lemma {:induction false} BurstsSomewhere(st: State, input: seq<Byte>)
    ensures Bursts(st, input) <==>
            exists i | 0 <= i < |input| :: !Terminator(input[i]) && |Feed(true, st, input[..i]).buf| >= MAX_LINE
    decreases |input|
  {
    if input != [] {
      var st', rest := InteractiveByte(st, input[0]), input[1..];
      BurstsSomewhere(st', rest);
      assert input[..0] == [];
      forall i | 0 <= i < |rest|
        ensures rest[i] == input[i + 1] && Feed(true, st', rest[..i]) == Feed(true, st, input[..i + 1])
      {
        assert input[..i + 1][1..] == rest[..i];
      }
      if i :| 0 < i < |input| && !Terminator(input[i]) && |Feed(true, st, input[..i]).buf| >= MAX_LINE {
        assert rest[i - 1] == input[i];
      }
    }
  }

  /** A full buffer is one whose last byte took the colon branch without completing a prompt. */
  lemma FullMeansColon(input: seq<Byte>)
    ensures var buf := Feed(true, START, input).buf;
            |buf| >= MAX_LINE ==> Colonish(buf, |buf| - 1) && !IsSudoPrompt(buf)
  {
    InteractiveFeedKeeps(START, input);
  }

  /** The interactive reader keeps to the cap if and only if every byte it takes while its
      buffer is full is a terminator. */
  lemma CapHoldsExactly(input: seq<Byte>)
    ensures (forall e | e in Read(true, input) :: |e.raw| <= MAX_LINE) <==>
            forall i | 0 <= i < |input| && |Feed(true, START, input[..i]).buf| >= MAX_LINE :: Terminator(input[i])
  {
    CapFrom(START, input);
    BurstsSomewhere(START, input);
  }

  lemma NoWordInColons(s: seq<Byte>, word: seq<Byte>)
    requires (forall b | b in s :: b == COLON) && word != [] && word[0] != COLON
    ensures !Contains(s, word)
  {
    forall i | 0 <= i <= |s| ensures !WordAt(s, i, word) {
      if i < |s| {
        assert s[i] in s && Lower(s[i + 0]) == COLON;
      }
    }
  }

  lemma {:induction false} ColonsPileUp(n: nat, st: State)
    requires st.out == [] && forall b | b in st.buf :: b == COLON
    ensures Feed(true, st, seq(n, _ => COLON)) == State(st.buf + seq(n, _ => COLON), [])
    decreases n
  {
    var input := seq(n, _ => COLON);
    if n == 0 {
      assert st.buf + input == st.buf;
    } else {
      var grown := st.buf + [COLON];
      assert !Contains(grown, PASSWORD) && !Contains(grown, PASSPHRASE) by {
        NoWordInColons(grown, PASSWORD);
        NoWordInColons(grown, PASSPHRASE);
      }
      assert input[0] == COLON && input[1..] == seq(n - 1, _ => COLON);
      ColonsPileUp(n - 1, State(grown, []));
      assert grown + seq(n - 1, _ => COLON) == st.buf + input;
    }
  }

  /** And there it does fail: any number of colons is sent as one segment. */
  lemma ColonsExceedTheCap(n: nat)
    requires n > 0
    ensures Read(true, seq(n, _ => COLON)) == [Line(seq(n, _ => COLON))]
  {
    ColonsPileUp(n, START);
    assert START.buf + seq(n, _ => COLON) == seq(n, _ => COLON);
  }

  lemma {:induction false} NoColonsNoDifference(st: State, input: seq<Byte>)
    requires COLON !in st.buf && COLON !in input
    ensures Feed(true, st, input) == Feed(false, st, input)
    decreases |input|
  {
    if input != [] {
      var st' := ForwardByte(st, input[0]);
      assert input == [input[0]] + input[1..];
      NoColonsNoDifference(st', input[1..]);
    }
  }

  /** Without colons the two readers agree, so then the cap holds of both. */
  lemma ReadersAgreeWithoutColons(input: seq<Byte>)
    requires COLON !in input
    ensures Read(true, input) == Read(false, input)
    ensures forall e | e in Read(true, input) :: SoundLine(e)
  {
    NoColonsNoDifference(START, input);
    ForwardSound(input);
  }
}
