/**
 * Real log lines that only look like the start or the end of an invocation: what the decoder returns then, for every
 * log, and exactly when that is right.
 */
module LogLoud {
  import opened Limits
  import opened Options
  import opened Text
  import opened LogStack
  import opened LogNoise
  import opened LogSpoiled
  import opened LogDecoder

  /** Program ids have no colon; the labels of message, data and return lines have one. */
  predicate HasColon(name: string) {
    ':' in name
  }

  /** Other lines read as nothing, or as a frame named by a label; invocations have proper ids. */
  predicate Plain(t: Trace) {
    match t
    case Done => true
    case Data(_, rest) => Plain(rest)
    case Note(line, rest) => (Read(line).Other? || AlienFrame(Read(line), HasColon)) && Plain(rest)
    case Call(id, _, body, _, rest) => ' ' !in id && ':' !in id && Plain(body) && Plain(rest)
  }

  /** Whatever its tag, a line whose text starts with one of the three words reads as a frame. */
  lemma LabelledIsAlien(tag: string, text: string)
    requires ' ' !in tag && ':' in tag && LooksLikeFrame(text)
    ensures AlienFrame(Read(LabelledLine(tag, text)), HasColon)
    ensures HasPrefix(text, "invoke") ==> Read(LabelledLine(tag, text)) == Invoke(tag, ParseInvokeDepth(text))
    ensures HasPrefix(text, "success") || HasPrefix(text, "failed") ==> Read(LabelledLine(tag, text)) == Close(tag)
  {
    ReadFramed(tag, text);
  }

  lemma LoudDataIsAlien(text: string)
    requires LoudData(READER, text)
    ensures AlienFrame(Read(DataLine(text)), HasColon)
  {
    ReadData(text);
    assert HasColon("data:") by {
      assert "data:"[4] == ':';
    }
  }

  lemma {:induction false} PlainIsFair(t: Trace)
    requires Plain(t)
    ensures Named(t) && Fair(READER, HasColon, t)
    decreases t
  {
    match t
    case Done =>
    case Data(text, rest) =>
      if LoudData(READER, text) {
        LoudDataIsAlien(text);
      }
      PlainIsFair(rest);
    case Note(_, rest) => PlainIsFair(rest);
    case Call(_, _, body, _, rest) =>
      PlainIsFair(body);
      PlainIsFair(rest);
  }

  // ---- Every log ----

  /**
   * The exact output for every log of a call tree, whatever its lines look like, shown depths or not: the events of
   * the quiet data lines at which the tree says that the decoder is in step.
   */
  lemma NoisyExtraction<E>(program: string, decode: Decode<E>, t: Trace)
    requires Plain(t) && Depth(t) <= U64_MAX && ':' !in program
    ensures Found(program, decode, [], Tokens(Read, Render(t, 1))) == Output(READER, program, decode, t, None, 1, 0, HERE)
  {
    PlainIsFair(t);
    RenderedReads(t, 1);
    NoisyLog(READER, HasColon, program, decode, t);
  }

  /** Nothing is ever attributed wrongly, repeated or reordered: what is returned is a subsequence of the events. */
  lemma NeverWrong<E(!new)>(program: string, decode: Decode<E>, t: Trace)
    requires Plain(t) && Depth(t) <= U64_MAX && ':' !in program
    ensures Subsequence(Found(program, decode, [], Tokens(Read, Render(t, 1))), Events(program, decode, t, None))
  {
    NoisyExtraction(program, decode, t);
    OutputIsSubsequence(READER, program, decode, t, None, 1, 0, HERE);
  }

  /**
   * A log is decoded right if and only if every decodable data line of the program is quiet and stands where the
   * decoder is in step.
   */
  lemma ExactIffAllHeard<E>(program: string, decode: Decode<E>, t: Trace)
    requires Plain(t) && Depth(t) <= U64_MAX && ':' !in program
    ensures Found(program, decode, [], Tokens(Read, Render(t, 1))) == Events(program, decode, t, None)
            <==> AllHeard(READER, program, decode, t, None, 1, 0, HERE)
  {
    NoisyExtraction(program, decode, t);
    OutputIsAllIff(READER, program, decode, t, None, 1, 0, HERE);
  }

  /**
   * In particular, where nothing brings the decoder back into step: then a log is decoded right if and only if, in
   * each top-level invocation, no decodable data line of the program stands at or after a line that looks like a frame.
   */
  lemma LoudLinesLoseTheRest<E>(program: string, decode: Decode<E>, t: Trace)
    requires Plain(t) && Shown(t) && TopLevel(t) && Depth(t) <= MAX_STACK_DEPTH && ':' !in program
    requires EachSpoiledOnce(READER, t)
    ensures Found(program, decode, [], Tokens(Read, Render(t, 1))) == AllKept(READER, program, decode, t)
    ensures Found(program, decode, [], Tokens(Read, Render(t, 1))) == Events(program, decode, t, None)
            <==> NothingLost(READER, program, decode, t)
  {
    PlainIsFair(t);
    NoisyExtraction(program, decode, t);
    TopOutput(READER, HasColon, program, decode, t, HERE);
    AllKeptIff(READER, program, decode, t);
  }

  // ---- The smallest such logs ----

  /** One event after one other line. */
  function AfterNote(program: string, line: string, text: string): Trace {
    Call(program, true, Note(line, Data(text, Done)), None, Done)
  }

  /** One event after two other lines. */
  function AfterTwo(program: string, first: string, second: string, text: string): Trace {
    Call(program, true, Note(first, Note(second, Data(text, Done))), None, Done)
  }

  /** One event after another program's data line. */
  function AfterData(program: string, other: string, loud: string, text: string): Trace {
    Call(program, true, Call(other, true, Data(loud, Done), None, Data(text, Done)), None, Done)
  }

  lemma LastIsUnheard<E>(r: Reader, program: string, decode: Decode<E>, text: string, depth: nat, base: nat, p: Place)
    requires decode(text).Some? && p != HERE
    ensures !AllHeard(r, program, decode, Data(text, Done), Some(program), depth, base, p)
  {
  }

  lemma NoteIsUnheard<E>(r: Reader, program: string, decode: Decode<E>, line: string, text: string)
    requires (r.note(line).Invoke? || r.note(line).Close?) && decode(text).Some?
    ensures !AllHeard(r, program, decode, AfterNote(program, line, text), None, 1, 0, HERE)
  {
    var p := Moved(HERE, 1, r.note(line));
    LastIsUnheard(r, program, decode, text, 2, 1, p);
    assert !AllHeard(r, program, decode, Note(line, Data(text, Done)), Some(program), 2, 1, HERE);
  }

  lemma DataIsUnheard<E>(r: Reader, program: string, decode: Decode<E>, other: string, loud: string, text: string)
    requires (r.data(loud).Invoke? || r.data(loud).Close?) && decode(text).Some?
    ensures !AllHeard(r, program, decode, AfterData(program, other, loud, text), None, 1, 0, HERE)
  {
    var inner, last := Data(loud, Done), Data(text, Done);
    assert PlaceAfter(r, inner, 3, 2, HERE) == Moved(HERE, 2, r.data(loud));
    assert !ComesBack(r, true, inner, 2, 1);
    LastIsUnheard(r, program, decode, text, 2, 1, LOST);
    assert !AllHeard(r, program, decode, Call(other, true, inner, None, last), Some(program), 2, 1, HERE);
  }

  lemma PairIsHeard<E>(r: Reader, program: string, decode: Decode<E>, first: string, second: string, text: string, x: string)
    requires r.note(first) == Invoke(x, None) && r.note(second) == Close(x) && !LoudData(r, text)
    ensures AllHeard(r, program, decode, AfterTwo(program, first, second, text), None, 1, 0, HERE)
  {
    var last := Data(text, Done);
    var inner := Note(second, last);
    PairPlaces(r, first, second, x);
    assert AllHeard(r, program, decode, Done, Some(program), 2, 1, HERE);
    assert AllHeard(r, program, decode, last, Some(program), 2, 1, HERE);
    assert AllHeard(r, program, decode, inner, Some(program), 2, 1, Place(true, [x]));
    assert AllHeard(r, program, decode, Note(first, inner), Some(program), 2, 1, HERE);
  }

  lemma PairPlaces(r: Reader, first: string, second: string, x: string)
    requires r.note(first) == Invoke(x, None) && r.note(second) == Close(x)
    ensures Moved(HERE, 1, r.note(first)) == Place(true, [x]) && Moved(Place(true, [x]), 1, r.note(second)) == HERE
  {
  }

  lemma PairIsFollowed<E>(r: Reader, program: string, decode: Decode<E>, first: string, second: string, text: string)
    requires LoudNote(r, first) && decode(text).Some?
    ensures !NothingLost(r, program, decode, AfterTwo(program, first, second, text))
  {
    var last := Data(text, Done);
    var inner := Note(second, last);
    SilentHasNoEvents(program, decode, last, Some(program));
    assert Events(program, decode, Done, Some(program)) == [];
    assert !Silent(program, decode, inner, Some(program));
    assert !SilentAfter(r, program, decode, Note(first, inner), Some(program));
  }

  lemma PlainShapes(program: string, other: string, loud: string, text: string)
    requires ' ' !in program && ':' !in program && ' ' !in other && ':' !in other
    ensures Plain(AfterData(program, other, loud, text))
  {
    assert Plain(Done);
    var inner, last := Data(loud, Done), Data(text, Done);
    assert Plain(inner);
    assert Plain(last);
    assert Plain(Call(other, true, inner, None, last));
  }

  lemma SmallDepths(program: string, other: string, first: string, second: string, loud: string, text: string)
    ensures Depth(AfterNote(program, first, text)) == 1 && Depth(AfterTwo(program, first, second, text)) == 1
    ensures Depth(AfterData(program, other, loud, text)) == 2
  {
    var last := Data(text, Done);
    assert Depth(last) == 0 && Depth(Note(second, last)) == 0 && Depth(Note(first, last)) == 0;
    assert Depth(Note(first, Note(second, last))) == 0;
    assert Depth(Call(other, true, Data(loud, Done), None, last)) == 1;
  }

  /** A message, return or other labelled line with any of the three words costs the event after it. */
  lemma MessageExample<E>(program: string, decode: Decode<E>, tag: string, message: string, text: string)
    requires ' ' !in program && ':' !in program && ' ' !in tag && ':' in tag
    requires LooksLikeFrame(message) && !LooksLikeFrame(text) && decode(text).Some?
    ensures var t := AfterNote(program, LabelledLine(tag, message), text);
            Found(program, decode, [], Tokens(Read, Render(t, 1))) != Events(program, decode, t, None)
  {
    var line, last := LabelledLine(tag, message), Data(text, Done);
    LabelledIsAlien(tag, message);
    NoteIsUnheard(READER, program, decode, line, text);
    SmallDepths(program, program, line, line, text, text);
    assert Plain(last) && Plain(Note(line, last));
    ExactIffAllHeard(program, decode, AfterNote(program, line, text));
  }

  /** So does a data line of another program whose text starts with one of them. */
  lemma DataExample<E>(program: string, decode: Decode<E>, other: string, loud: string, text: string)
    requires ' ' !in program && ':' !in program && ' ' !in other && ':' !in other && LooksLikeFrame(loud)
    requires !LooksLikeFrame(text) && decode(text).Some?
    ensures var t := AfterData(program, other, loud, text);
            Found(program, decode, [], Tokens(Read, Render(t, 1))) != Events(program, decode, t, None)
  {
    ReadData(loud);
    DataIsUnheard(READER, program, decode, other, loud, text);
    SmallDepths(program, other, loud, loud, loud, text);
    PlainShapes(program, other, loud, text);
    ExactIffAllHeard(program, decode, AfterData(program, other, loud, text));
  }

  /** But a word that starts a frame and one that ends it cancel: the event after the pair is returned. */
  lemma PairExample<E>(program: string, decode: Decode<E>, tag: string, first: string, second: string, text: string)
    requires ' ' !in program && ':' !in program && ' ' !in tag && ':' in tag
    requires HasPrefix(first, "invoke") && ParseInvokeDepth(first).None?
    requires HasPrefix(second, "success") || HasPrefix(second, "failed")
    requires !LooksLikeFrame(text) && decode(text).Some?
    ensures var t := AfterTwo(program, LabelledLine(tag, first), LabelledLine(tag, second), text);
            && Found(program, decode, [], Tokens(Read, Render(t, 1))) == Events(program, decode, t, None)
            && !NothingLost(READER, program, decode, t)
  {
    var one, two, last := LabelledLine(tag, first), LabelledLine(tag, second), Data(text, Done);
    LabelledIsAlien(tag, first);
    LabelledIsAlien(tag, second);
    ReadData(text);
    PairIsHeard(READER, program, decode, one, two, text, tag);
    PairIsFollowed(READER, program, decode, one, two, text);
    SmallDepths(program, program, one, two, text, text);
    assert Plain(last) && Plain(Note(two, last)) && Plain(Note(one, Note(two, last)));
    ExactIffAllHeard(program, decode, AfterTwo(program, one, two, text));
  }
}
