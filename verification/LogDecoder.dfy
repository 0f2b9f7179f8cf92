/** The log decoder on the text of real log lines. */
module LogDecoder {
  import opened Limits
  import opened Options
  import opened Text
  import opened LogStack
  import opened LogNoise

  // ---- One line ----

  function ParseInvokeDepth(after: string): Option<nat> {
    var start, end := Find(after, '['), Find(after, ']');
    if start.None? || end.None? || end.value <= start.value + 1 then None
    else ParseUnsigned(after[start.value + 1..end.value], U64_MAX)
  }

  /** Words that make a line look like the start or the end of an invocation. */
  predicate LooksLikeFrame(after: string) {
    HasPrefix(after, "invoke") || HasPrefix(after, "success") || HasPrefix(after, "failed")
  }

  function PayloadOf(line: string): Token {
    if HasPrefix(line, "Program data: ") then Payload(line[|"Program data: "|..]) else Other
  }

  function Read(line: string): Token {
    if !HasPrefix(line, "Program ") then PayloadOf(line)
    else
      var rest := line[|"Program "|..];
      var space := Find(rest, ' ');
      if space.None? then PayloadOf(line)
      else
        var id, after := rest[..space.value], rest[space.value + 1..];
        if HasPrefix(after, "invoke") then Invoke(id, ParseInvokeDepth(after))
        else if HasPrefix(after, "success") || HasPrefix(after, "failed") then Close(id)
        else PayloadOf(line)
  }

  method ExtractProtocolEvents<E>(program: string, decode: Decode<E>, signature: string, slot: nat, logs: seq<string>)
    returns (out: seq<RawEvent<E>>)
    ensures out == Numbered(signature, slot, Found(program, decode, [], Tokens(Read, logs)))
  {
    out := Extract(Read, program, decode, signature, slot, logs);
  }

  // ---- Logs of call trees ----

  function InvokeLine(id: string, shown: bool, depth: nat): string {
    "Program " + id + " " + (if shown then "invoke [" + Print(depth) + "]" else "invoke")
  }

  function CloseLine(id: string, failure: Option<string>): string {
    "Program " + id + " " + (if failure.Some? then "failed: " + failure.value else "success")
  }

  function DataLine(text: string): string {
    "Program data: " + text
  }

  /** A program's own message. */
  function LogLine(text: string): string {
    "Program log: " + text
  }

  /** Any line of the runtime that carries a label instead of a program id. */
  function LabelledLine(tag: string, text: string): string {
    "Program " + tag + " " + text
  }

  /** The log the runtime writes for a trace whose invocations have the given depth. */
  function Render(t: Trace, depth: nat): seq<string>
    decreases t, 0
  {
    match t
    case Done => []
    case Data(text, rest) => [DataLine(text)] + Render(rest, depth)
    case Note(line, rest) => [line] + Render(rest, depth)
    case Call(id, shown, body, failure, rest) =>
      RenderCall(id, shown, body, failure, depth) + Render(rest, depth)
  }

  function RenderCall(id: string, shown: bool, body: Trace, failure: Option<string>, depth: nat): seq<string>
    decreases body, 1
  {
    [InvokeLine(id, shown, depth)] + Render(body, depth + 1) + [CloseLine(id, failure)]
  }

  /** No data text and no other line reads as the start or the end of an invocation. */
  predicate Quiet(t: Trace) {
    match t
    case Done => true
    case Data(text, rest) => !LooksLikeFrame(text) && Quiet(rest)
    case Note(line, rest) => Read(line).Other? && Quiet(rest)
    case Call(id, _, body, _, rest) => ' ' !in id && Quiet(body) && Quiet(rest)
  }

  // ---- Reading back what the runtime writes ----

  lemma ReadFramed(id: string, after: string)
    requires ' ' !in id
    ensures HasPrefix(after, "invoke") ==> Read("Program " + id + " " + after) == Invoke(id, ParseInvokeDepth(after))
    ensures HasPrefix(after, "success") || HasPrefix(after, "failed") ==> Read("Program " + id + " " + after) == Close(id)
    ensures !LooksLikeFrame(after) ==> Read("Program " + id + " " + after) == PayloadOf("Program " + id + " " + after)
  {
    var line := "Program " + id + " " + after;
    var rest := id + [' '] + after;
    assert line == "Program " + rest;
    assert line[..|"Program "|] == "Program " && line[|"Program "|..] == rest;
    FindAfter(id, ' ', after);
    assert rest[..|id|] == id && rest[|id| + 1..] == after;
    assert HasPrefix(after, "success") || HasPrefix(after, "failed") ==> after[0] != 'i';
    assert HasPrefix(after, "invoke") ==> after[0] == "invoke"[0];
  }

  /** The opening bracket ends the word before it. */
  lemma FindOpening(word: string, prefix: string, digits: string)
    requires '[' !in word && prefix == word + ['[']
    ensures Find(prefix + digits + "]", '[') == Some(|word|)
  {
    FindAfter(word, '[', digits + "]");
    assert word + ['['] + (digits + "]") == prefix + digits + "]";
  }

  /** The closing bracket ends the digits. */
  lemma FindClosing(prefix: string, digits: string)
    requires ']' !in prefix && ']' !in digits
    ensures Find(prefix + digits + "]", ']') == Some(|prefix| + |digits|)
  {
    var text := prefix + digits;
    FindAfter(text, ']', "");
    assert text + [']'] + "" == text + "]";
  }

  lemma DigitsLackBracket(digits: string)
    requires AllDigits(digits)
    ensures ']' !in digits
  {
    forall i | 0 <= i < |digits| ensures digits[i] != ']' {
      assert IsDigit(digits[i]);
    }
  }

  lemma ReadBrackets(word: string, prefix: string, depth: nat)
    requires '[' !in word && prefix == word + ['['] && ']' !in prefix && depth <= U64_MAX
    ensures ParseInvokeDepth(prefix + Print(depth) + "]") == Some(depth)
  {
    var digits := Print(depth);
    DigitsLackBracket(digits);
    FindOpening(word, prefix, digits);
    FindClosing(prefix, digits);
    assert (prefix + digits + "]")[|prefix|..|prefix| + |digits|] == digits;
    UnsignedRoundTrip(depth, U64_MAX);
  }

  lemma ReadDepth(depth: nat)
    requires depth <= U64_MAX
    ensures ParseInvokeDepth("invoke [" + Print(depth) + "]") == Some(depth)
  {
    ReadBrackets("invoke ", "invoke [", depth);
  }

  lemma InvokeWord(digits: string)
    ensures HasPrefix("invoke [" + digits + "]", "invoke")
  {
    assert ("invoke [" + digits + "]")[..|"invoke"|] == "invoke";
  }

  lemma ReadInvoke(id: string, shown: bool, depth: nat)
    requires ' ' !in id && depth <= U64_MAX
    ensures Read(InvokeLine(id, shown, depth)) == Invoke(id, if shown then Some(depth) else None)
  {
    if shown {
      ReadDepth(depth);
      InvokeWord(Print(depth));
      ReadFramed(id, "invoke [" + Print(depth) + "]");
    } else {
      assert Find("invoke", '[').None?;
      ReadFramed(id, "invoke");
    }
  }

  lemma ReadClose(id: string, failure: Option<string>)
    requires ' ' !in id
    ensures Read(CloseLine(id, failure)) == Close(id)
  {
    var after := if failure.Some? then "failed: " + failure.value else "success";
    assert failure.Some? ==> after[..|"failed"|] == "failed";
    ReadFramed(id, after);
  }

  lemma ReadData(text: string)
    ensures !LooksLikeFrame(text) ==> Read(DataLine(text)) == Payload(text)
    ensures HasPrefix(text, "invoke") ==> Read(DataLine(text)) == Invoke("data:", ParseInvokeDepth(text))
    ensures HasPrefix(text, "success") || HasPrefix(text, "failed") ==> Read(DataLine(text)) == Close("data:")
  {
    assert DataLine(text) == "Program " + "data:" + " " + text;
    ReadFramed("data:", text);
    assert DataLine(text)[..|"Program data: "|] == "Program data: ";
    assert DataLine(text)[|"Program data: "|..] == text;
  }

  /** A program's own message is noise, unless it starts with one of the three words. */
  lemma ReadLog(text: string)
    ensures !LooksLikeFrame(text) ==> Read(LogLine(text)).Other?
    ensures HasPrefix(text, "invoke") ==> Read(LogLine(text)) == Invoke("log:", ParseInvokeDepth(text))
    ensures HasPrefix(text, "success") || HasPrefix(text, "failed") ==> Read(LogLine(text)) == Close("log:")
  {
    assert LogLine(text) == "Program " + "log:" + " " + text;
    ReadFramed("log:", text);
    assert LogLine(text)[8] == 'l';
    assert "Program data: "[8] == 'd';
  }

  lemma TokensAppend(read: string -> Token, a: seq<string>, b: seq<string>)
    ensures Tokens(read, a + b) == Tokens(read, a) + Tokens(read, b)
  {
  }

  // ---- Whole logs ----

  const READER: Reader := Reader(Read, (text: string) => Read(DataLine(text)))

  /** No invocation has a space in its name. */
  predicate Named(t: Trace) {
    match t
    case Done => true
    case Data(_, rest) => Named(rest)
    case Note(_, rest) => Named(rest)
    case Call(id, _, body, _, rest) => ' ' !in id && Named(body) && Named(rest)
  }

  lemma CallReads(id: string, shown: bool, body: Trace, failure: Option<string>, depth: nat, inner: seq<Token>)
    requires ' ' !in id && depth <= U64_MAX && Tokens(Read, Render(body, depth + 1)) == inner
    ensures Tokens(Read, RenderCall(id, shown, body, failure, depth))
            == [Invoke(id, if shown then Some(depth) else None)] + inner + [Close(id)]
  {
    ReadInvoke(id, shown, depth);
    ReadClose(id, failure);
    var opening, lines, closing := [InvokeLine(id, shown, depth)], Render(body, depth + 1), [CloseLine(id, failure)];
    TokensAppend(Read, opening, lines);
    TokensAppend(Read, opening + lines, closing);
    assert Tokens(Read, opening) == [Read(opening[0])];
    assert Tokens(Read, closing) == [Read(closing[0])];
  }

  lemma OneLineMore(line: string, lines: seq<string>)
    ensures Tokens(Read, [line] + lines) == [Read(line)] + Tokens(Read, lines)
  {
    TokensAppend(Read, [line], lines);
    assert Tokens(Read, [line]) == [Read(line)];
  }

  /** The lines of a rendered tree are read one by one; those of the invocations as what they were written for. */
  lemma {:induction false} RenderedReads(t: Trace, depth: nat)
    requires Named(t) && depth + Depth(t) <= U64_MAX + 1
    ensures Tokens(Read, Render(t, depth)) == NoisyTrail(READER, t, depth)
    decreases t
  {
    match t
    case Done =>
    case Data(text, rest) =>
      RenderedReads(rest, depth);
      OneLineMore(DataLine(text), Render(rest, depth));
    case Note(line, rest) =>
      RenderedReads(rest, depth);
      OneLineMore(line, Render(rest, depth));
    case Call(id, shown, body, failure, rest) =>
      RenderedReads(body, depth + 1);
      CallReads(id, shown, body, failure, depth, NoisyTrail(READER, body, depth + 1));
      RenderedReads(rest, depth);
      TokensAppend(Read, RenderCall(id, shown, body, failure, depth), Render(rest, depth));
  }

  lemma {:induction false} QuietIsNamed(t: Trace)
    requires Quiet(t)
    ensures Named(t) && IsQuiet(READER, t)
    decreases t
  {
    match t
    case Done =>
    case Data(text, rest) =>
      ReadData(text);
      QuietIsNamed(rest);
    case Note(_, rest) => QuietIsNamed(rest);
    case Call(_, _, body, _, rest) =>
      QuietIsNamed(body);
      QuietIsNamed(rest);
  }

  lemma QuietReads(t: Trace)
    requires Quiet(t) && Depth(t) <= MAX_STACK_DEPTH
    ensures Tokens(Read, Render(t, 1)) == Trail(t, 1)
  {
    QuietIsNamed(t);
    RenderedReads(t, 1);
    QuietTrail(READER, t, 1);
  }

  /**
   * For every well-nested call tree of depth at most 64 the decoder inverts the rendering: it returns the events
   * whose innermost invocation is the program's, in order.
   */
  lemma ExtractionIsExact<E>(program: string, decode: Decode<E>, t: Trace)
    requires Quiet(t) && Depth(t) <= 64
    ensures Found(program, decode, [], Tokens(Read, Render(t, 1))) == Events(program, decode, t, None)
    ensures Stack([], Tokens(Read, Render(t, 1))) == []
  {
    QuietReads(t);
    TrailIsExact(program, decode, t, []);
  }

  /** The decoder's output for such a tree: the k-th event of the tree under number k. */
  lemma ExtractionIsNumbered<E>(program: string, decode: Decode<E>, t: Trace, signature: string, slot: nat)
    requires Quiet(t) && Depth(t) <= 64 && |Events(program, decode, t, None)| <= 4_294_967_296
    ensures var out := Numbered(signature, slot, Found(program, decode, [], Tokens(Read, Render(t, 1))));
            var events := Events(program, decode, t, None);
            |out| == |events| && forall k :: 0 <= k < |out| ==> out[k] == RawEvent(signature, k, slot, events[k])
  {
    ExtractionIsExact(program, decode, t);
  }

  /**
   * After any garbage at most one complete top-level invocation is lost, and only if the garbage left frames on
   * the stack; everything after it is extracted exactly.
   */
  lemma RecoversAfterGarbage<E>(program: string, decode: Decode<E>, garbage: seq<string>, t: Trace)
    requires Quiet(t) && Shown(t) && TopLevel(t) && Depth(t) <= 64
    ensures var stale := Stack([], Tokens(Read, garbage));
            Found(program, decode, [], Tokens(Read, garbage + Render(t, 1)))
            == Found(program, decode, [], Tokens(Read, garbage))
               + Events(program, decode, if stale == [] || t.Done? then t else t.rest, None)
    ensures t.Call? ==> Stack([], Tokens(Read, garbage + Render(t, 1))) == []
  {
    TokensAppend(Read, garbage, Render(t, 1));
    QuietReads(t);
    Splits(program, decode, [], Tokens(Read, garbage), Trail(t, 1));
    Recovers(program, decode, Stack([], Tokens(Read, garbage)), t);
  }
}
