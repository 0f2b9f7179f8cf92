/** What the decoder returns, said through the lines themselves: which line each event comes from. */
module LogLaws {
  import opened Limits
  import opened Options
  import opened Text
  import opened LogStack
  import opened LogDecoder

  // ---- One line ----

  predicate StartsFrame(after: string) {
    HasPrefix(after, "invoke")
  }

  predicate EndsFrame(after: string) {
    HasPrefix(after, "success") || HasPrefix(after, "failed")
  }

  /** The line names this id and goes on with this text. */
  predicate Names(line: string, id: string, after: string) {
    ' ' !in id && line == "Program " + id + " " + after
  }

  lemma NamedLines(line: string, id: string, after: string)
    requires Names(line, id, after)
    ensures StartsFrame(after) ==> Read(line) == Invoke(id, ParseInvokeDepth(after))
    ensures EndsFrame(after) ==> Read(line) == Close(id)
    ensures !StartsFrame(after) && !EndsFrame(after) ==> Read(line) == PayloadOf(line)
  {
    ReadFramed(id, after);
  }

  /** A line that reads as a frame names what it was read as. */
  lemma FramesAreNamed(line: string) returns (id: string, after: string)
    ensures Read(line).Invoke? ==> Names(line, id, after) && StartsFrame(after) && Read(line).id == id
    ensures Read(line).Close? ==> Names(line, id, after) && EndsFrame(after) && Read(line).id == id
  {
    id, after := "", "";
    if HasPrefix(line, "Program ") {
      var rest := line[|"Program "|..];
      var space := Find(rest, ' ');
      if space.Some? {
        id, after := rest[..space.value], rest[space.value + 1..];
        assert rest == id + " " + after;
        assert line == "Program " + rest;
        assert line == "Program " + id + " " + after;
      }
    }
  }

  /** Data lines are those with the label whose text does not read as a frame, and carry the text after the label. */
  lemma PayloadsAreLabelled(line: string, text: string)
    ensures Read(line) == Payload(text) <==> line == "Program data: " + text && !StartsFrame(text) && !EndsFrame(text)
  {
    if line == "Program data: " + text {
      assert Names(line, "data:", text);
      NamedLines(line, "data:", text);
      assert line[..|"Program data: "|] == "Program data: " && line[|"Program data: "|..] == text;
    } else if Read(line).Payload? {
      assert line == "Program data: " + line[|"Program data: "|..];
    }
  }

  /** The depth between the first brackets, if it is a number of 64 bits. */
  ghost predicate DepthText(after: string, depth: nat) {
    exists head, digits, tail ::
      && after == head + "[" + digits + "]" + tail && '[' !in head && ']' !in head && ']' !in digits
      && ParseUnsigned(digits, 0xFFFF_FFFF_FFFF_FFFF) == Some(depth)
  }

  lemma DepthIsRead(after: string, head: string, digits: string, tail: string)
    requires after == head + "[" + digits + "]" + tail && '[' !in head && ']' !in head && ']' !in digits && digits != ""
    ensures ParseInvokeDepth(after) == ParseUnsigned(digits, 0xFFFF_FFFF_FFFF_FFFF)
  {
    FindAfter(head, '[', digits + "]" + tail);
    assert after == head + ['['] + (digits + "]" + tail);
    var before := head + "[" + digits;
    FindAfter(before, ']', tail);
    assert after == before + [']'] + tail;
    assert after[|head| + 1..|before|] == digits;
  }

  lemma PartsLack(s: string, c: char, n: nat, i: nat, j: nat)
    requires i <= j <= n <= |s| && c !in s[..n]
    ensures c !in s[i..j]
  {
    forall k | i <= k < j ensures s[k] != c {
      assert s[..n][k] == s[k];
    }
  }

  lemma CutAtBrackets(after: string, i: nat, j: nat)
    requires i < j < |after| && after[i] == '[' && after[j] == ']'
    ensures after == after[..i] + "[" + after[i + 1..j] + "]" + after[j + 1..]
  {
  }

  lemma DepthIsWritten(after: string)
    requires ParseInvokeDepth(after).Some?
    ensures DepthText(after, ParseInvokeDepth(after).value)
  {
    var i, j := Find(after, '[').value, Find(after, ']').value;
    CutAtBrackets(after, i, j);
    PartsLack(after, ']', j, 0, i);
    PartsLack(after, ']', j, i + 1, j);
    var head, digits, tail := after[..i], after[i + 1..j], after[j + 1..];
    assert after[0..i] == head;
    assert ParseUnsigned(digits, 0xFFFF_FFFF_FFFF_FFFF) == ParseInvokeDepth(after);
    assert after == head + "[" + digits + "]" + tail;
  }

  lemma DepthsAreRead(after: string, depth: nat)
    ensures ParseInvokeDepth(after) == Some(depth) <==> DepthText(after, depth)
  {
    if DepthText(after, depth) {
      var head, digits, tail :|
        && after == head + "[" + digits + "]" + tail && '[' !in head && ']' !in head && ']' !in digits
        && ParseUnsigned(digits, 0xFFFF_FFFF_FFFF_FFFF) == Some(depth);
      DepthIsRead(after, head, digits, tail);
    }
    if ParseInvokeDepth(after) == Some(depth) {
      DepthIsWritten(after);
    }
  }

  /**
   * What any line reads as: the start of an invocation with the number between its first brackets, the end of one, a
   * data line, or nothing.
   */
  lemma LinesRead(line: string, id: string, depth: nat, text: string)
    ensures Read(line) == Invoke(id, Some(depth)) <==>
              exists after :: Names(line, id, after) && StartsFrame(after) && DepthText(after, depth)
    ensures Read(line) == Invoke(id, None) <==>
              exists after :: Names(line, id, after) && StartsFrame(after) && forall d: nat :: !DepthText(after, d)
    ensures Read(line) == Close(id) <==> exists after :: Names(line, id, after) && EndsFrame(after)
    ensures Read(line) == Payload(text) <==> line == "Program data: " + text && !StartsFrame(text) && !EndsFrame(text)
  {
    PayloadsAreLabelled(line, text);
    FramesRead(line, id, depth);
  }

  lemma StartOrEnd(after: string)
    ensures !(StartsFrame(after) && EndsFrame(after))
  {
    assert EndsFrame(after) ==> after[0] != 'i';
    assert StartsFrame(after) ==> after[0] == "invoke"[0];
  }

  lemma FramesRead(line: string, id: string, depth: nat)
    ensures Read(line) == Invoke(id, Some(depth)) <==>
              exists after :: Names(line, id, after) && StartsFrame(after) && DepthText(after, depth)
    ensures Read(line) == Invoke(id, None) <==>
              exists after :: Names(line, id, after) && StartsFrame(after) && forall d: nat :: !DepthText(after, d)
    ensures Read(line) == Close(id) <==> exists after :: Names(line, id, after) && EndsFrame(after)
  {
    var id', after' := FramesAreNamed(line);
    if Names(line, id', after') {
      NamedLines(line, id', after');
      AllDepths(after');
    }
    forall after | Names(line, id, after)
      ensures StartsFrame(after) ==> Read(line) == Invoke(id, ParseInvokeDepth(after))
      ensures EndsFrame(after) ==> Read(line) == Close(id)
      ensures forall d: nat :: ParseInvokeDepth(after) == Some(d) <==> DepthText(after, d)
    {
      NamedLines(line, id, after);
      AllDepths(after);
    }
  }

  lemma AllDepths(after: string)
    ensures forall d: nat :: ParseInvokeDepth(after) == Some(d) <==> DepthText(after, d)
  {
    forall d: nat ensures ParseInvokeDepth(after) == Some(d) <==> DepthText(after, d) {
      DepthsAreRead(after, d);
    }
  }

  // ---- On lines ----

  /** The n-th line is a data line that decodes, read while the program's frame is on top. */
  predicate Tells<E>(program: string, decode: Decode<E>, stack: seq<string>, tokens: seq<Token>, n: nat) {
    && n < |tokens| && tokens[n].Payload? && decode(tokens[n].text).Some?
    && Top(Stack(stack, tokens[..n])) == Some(program)
  }

  /** Each of these lines is such a line, in order, and yields its own event. */
  ghost predicate EachTells<E>(program: string, decode: Decode<E>, stack: seq<string>, tokens: seq<Token>,
                               places: seq<nat>, events: seq<E>) {
    && |places| == |events|
    && (forall k :: 0 <= k < |places| ==>
          Tells(program, decode, stack, tokens, places[k]) && decode(tokens[places[k]].text) == Some(events[k]))
    && (forall j, k :: 0 <= j < k < |places| ==> places[j] < places[k])
  }

  /** No such line is missing. */
  predicate AllTold<E>(program: string, decode: Decode<E>, stack: seq<string>, tokens: seq<Token>, places: seq<nat>) {
    forall n :: 0 <= n < |tokens| && Tells(program, decode, stack, tokens, n) ==> n in places
  }

  /** `places` are all such lines, in order, and `events` what they decode to, one each. */
  ghost predicate OnePerLine<E>(program: string, decode: Decode<E>, stack: seq<string>, tokens: seq<Token>,
                                places: seq<nat>, events: seq<E>) {
    EachTells(program, decode, stack, tokens, places, events) && AllTold(program, decode, stack, tokens, places)
  }

  lemma TellsPrefix<E>(program: string, decode: Decode<E>, stack: seq<string>, init: seq<Token>, last: Token, n: nat)
    ensures n < |init| ==>
              (Tells(program, decode, stack, init + [last], n) <==> Tells(program, decode, stack, init, n))
    ensures n > |init| ==> !Tells(program, decode, stack, init + [last], n)
    ensures n == |init| ==>
              (Tells(program, decode, stack, init + [last], n)
               <==> last.Payload? && decode(last.text).Some? && Top(Stack(stack, init)) == Some(program))
  {
    if n <= |init| {
      assert (init + [last])[..n] == init[..n];
      assert init[..|init|] == init;
    }
  }

  lemma OneMoreLine<E>(program: string, decode: Decode<E>, stack: seq<string>, init: seq<Token>, last: Token)
    ensures Found(program, decode, stack, init + [last])
            == Found(program, decode, stack, init)
               + if last.Payload? && decode(last.text).Some? && Top(Stack(stack, init)) == Some(program)
                 then [decode(last.text).value] else []
  {
    Splits(program, decode, stack, init, [last]);
    OneToken(program, decode, Stack(stack, init), last);
  }

  /** From any stack, over any lines: one event for each such line and no other, in order. */
  lemma {:induction false} EventsOfLines<E>(program: string, decode: Decode<E>, stack: seq<string>, tokens: seq<Token>)
    returns (places: seq<nat>)
    ensures OnePerLine(program, decode, stack, tokens, places, Found(program, decode, stack, tokens))
    decreases |tokens|
  {
    if tokens == [] {
      places := [];
    } else {
      var n := |tokens| - 1;
      var init, last := tokens[..n], tokens[n];
      assert tokens == init + [last];
      var before := EventsOfLines(program, decode, stack, init);
      OneMoreLine(program, decode, stack, init, last);
      var tells := last.Payload? && decode(last.text).Some? && Top(Stack(stack, init)) == Some(program);
      places := if tells then before + [n] else before;
      OneMorePlace(program, decode, stack, init, last, before, places);
    }
  }

  lemma StillTell<E>(program: string, decode: Decode<E>, stack: seq<string>, init: seq<Token>, last: Token,
                     places: seq<nat>, events: seq<E>)
    requires EachTells(program, decode, stack, init, places, events)
    ensures EachTells(program, decode, stack, init + [last], places, events)
    ensures forall k :: 0 <= k < |places| ==> places[k] < |init|
  {
    forall k | 0 <= k < |places|
      ensures Tells(program, decode, stack, init + [last], places[k]) && (init + [last])[places[k]] == init[places[k]]
    {
      TellsPrefix(program, decode, stack, init, last, places[k]);
    }
  }

  lemma OneMoreTells<E>(program: string, decode: Decode<E>, stack: seq<string>, tokens: seq<Token>,
                        places: seq<nat>, events: seq<E>, n: nat)
    requires EachTells(program, decode, stack, tokens, places, events) && forall k :: 0 <= k < |places| ==> places[k] < n
    requires Tells(program, decode, stack, tokens, n)
    ensures EachTells(program, decode, stack, tokens, places + [n], events + [decode(tokens[n].text).value])
  {
  }

  lemma StillAll<E>(program: string, decode: Decode<E>, stack: seq<string>, init: seq<Token>, last: Token,
                    before: seq<nat>, places: seq<nat>)
    requires AllTold(program, decode, stack, init, before)
    requires places == before + [|init|] || (places == before && !Tells(program, decode, stack, init + [last], |init|))
    ensures AllTold(program, decode, stack, init + [last], places)
  {
    forall n | 0 <= n < |init + [last]| && Tells(program, decode, stack, init + [last], n) ensures n in places {
      TellsPrefix(program, decode, stack, init, last, n);
    }
  }

  lemma OneMorePlace<E>(program: string, decode: Decode<E>, stack: seq<string>, init: seq<Token>, last: Token,
                        before: seq<nat>, places: seq<nat>)
    requires OnePerLine(program, decode, stack, init, before, Found(program, decode, stack, init))
    requires var tells := last.Payload? && decode(last.text).Some? && Top(Stack(stack, init)) == Some(program);
             places == if tells then before + [|init|] else before
    ensures OnePerLine(program, decode, stack, init + [last], places, Found(program, decode, stack, init + [last]))
  {
    OneMoreLine(program, decode, stack, init, last);
    TellsPrefix(program, decode, stack, init, last, |init|);
    StillTell(program, decode, stack, init, last, before, Found(program, decode, stack, init));
    StillAll(program, decode, stack, init, last, before, places);
    if Tells(program, decode, stack, init + [last], |init|) {
      OneMoreTells(program, decode, stack, init + [last], before, Found(program, decode, stack, init), |init|);
    } else {
      assert Found(program, decode, stack, init) + [] == Found(program, decode, stack, init);
    }
  }

  /** The decoder's output, line by line: content, number, signature and slot of every event. */
  lemma OutputOfLines<E>(program: string, decode: Decode<E>, signature: string, slot: nat, logs: seq<string>)
    returns (places: seq<nat>)
    ensures var out := Numbered(signature, slot, Found(program, decode, [], Tokens(Read, logs)));
            && |out| == |places|
            && (forall k :: 0 <= k < |out| ==>
                  && Tells(program, decode, [], Tokens(Read, logs), places[k])
                  && out[k] == RawEvent(signature, if k < 4_294_967_295 then k else 4_294_967_295, slot,
                                        decode(Tokens(Read, logs)[places[k]].text).value))
            && (forall j, k :: 0 <= j < k < |places| ==> places[j] < places[k])
            && (forall n :: Tells(program, decode, [], Tokens(Read, logs), n) ==> n in places)
  {
    places := EventsOfLines(program, decode, [], Tokens(Read, logs));
  }

  // ---- On the tree ----

  /** All data lines of a trace with the invocation they stand in, in order, each once. */
  function DataLines(t: Trace, frame: Option<string>): seq<(Option<string>, string)> {
    match t
    case Done => []
    case Data(text, rest) => [(frame, text)] + DataLines(rest, frame)
    case Note(_, rest) => DataLines(rest, frame)
    case Call(id, _, body, _, rest) => DataLines(body, Some(id)) + DataLines(rest, frame)
  }

  /** The texts among these lines that stand in the program's own invocations and decode. */
  function Own<E>(program: string, decode: Decode<E>, lines: seq<(Option<string>, string)>): seq<string> {
    if lines == [] then []
    else
      (if lines[0].0 == Some(program) && decode(lines[0].1).Some? then [lines[0].1] else [])
      + Own(program, decode, lines[1..])
  }

  lemma {:induction false} OwnAppend<E>(program: string, decode: Decode<E>,
      a: seq<(Option<string>, string)>, b: seq<(Option<string>, string)>)
    ensures Own(program, decode, a + b) == Own(program, decode, a) + Own(program, decode, b)
    decreases |a|
  {
    if a == [] {
      assert a + b == b;
    } else {
      OwnAppend(program, decode, a[1..], b);
      assert (a + b)[1..] == a[1..] + b;
    }
  }

  /** Each event is what its own text decodes to, one for one. */
  predicate Decodes<E(==)>(decode: Decode<E>, texts: seq<string>, events: seq<E>) {
    |texts| == |events| && forall k :: 0 <= k < |texts| ==> decode(texts[k]) == Some(events[k])
  }

  /** The events of a tree are what its own decodable data lines decode to, each line once. */
  lemma {:induction false} EventsOfTree<E>(program: string, decode: Decode<E>, t: Trace, frame: Option<string>)
    ensures Decodes(decode, Own(program, decode, DataLines(t, frame)), Events(program, decode, t, frame))
    decreases t
  {
    match t
    case Done =>
    case Data(text, rest) =>
      EventsOfTree(program, decode, rest, frame);
      assert DataLines(t, frame)[1..] == DataLines(rest, frame);
    case Note(_, rest) => EventsOfTree(program, decode, rest, frame);
    case Call(id, _, body, _, rest) =>
      EventsOfTree(program, decode, body, Some(id));
      EventsOfTree(program, decode, rest, frame);
      OwnAppend(program, decode, DataLines(body, Some(id)), DataLines(rest, frame));
  }

  /** So the decoder returns, for every well-nested tree of depth at most 64, exactly those, one per line. */
  lemma ExtractionByTexts<E>(program: string, decode: Decode<E>, t: Trace)
    requires Quiet(t) && Depth(t) <= 64
    ensures Decodes(decode, Own(program, decode, DataLines(t, None)), Found(program, decode, [], Tokens(Read, Render(t, 1))))
  {
    ExtractionIsExact(program, decode, t);
    EventsOfTree(program, decode, t, None);
  }

  /** An invocation below 64 frames clears the stack. */
  lemma DepthLimit(stack: seq<string>, id: string, depth: Option<nat>)
    requires |stack| >= 64
    ensures Next(stack, Invoke(id, depth)) == []
  {
  }
}
