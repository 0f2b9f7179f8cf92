/** The invoke stack of the log decoder, on lines already read. */
module LogStack {
  import opened Limits
  import opened Options

  const MAX_STACK_DEPTH: nat := 64

  /** What a line means to the decoder. */
  datatype Token = Invoke(id: string, depth: Option<nat>) | Close(id: string) | Payload(text: string) | Other

  /** Reading the text of a data line: trimming, the length limits, base64 and the event codec together. */
  type Decode<!E> = string -> Option<E>

  function Push(stack: seq<string>, id: string, depth: Option<nat>): seq<string> {
    if depth.Some? && depth.value != |stack| + 1 then []
    else if |stack| >= MAX_STACK_DEPTH then []
    else stack + [id]
  }

  function Pop(stack: seq<string>, id: string): seq<string> {
    if |stack| > 0 && stack[|stack| - 1] == id then stack[..|stack| - 1] else []
  }

  function Next(stack: seq<string>, token: Token): seq<string> {
    match token
    case Invoke(id, depth) => Push(stack, id, depth)
    case Close(id) => Pop(stack, id)
    case Payload(_) => stack
    case Other => stack
  }

  function Top(stack: seq<string>): Option<string> {
    if stack == [] then None else Some(stack[|stack| - 1])
  }

  function Taken<E>(program: string, decode: Decode<E>, top: Option<string>, text: string): seq<E> {
    if top == Some(program) && decode(text).Some? then [decode(text).value] else []
  }

  function FoundAt<E>(program: string, decode: Decode<E>, stack: seq<string>, token: Token): seq<E> {
    if token.Payload? then Taken(program, decode, Top(stack), token.text) else []
  }

  /** The stack after a number of lines. */
  function Stack(stack: seq<string>, tokens: seq<Token>): seq<string>
    decreases |tokens|
  {
    if tokens == [] then stack else Stack(Next(stack, tokens[0]), tokens[1..])
  }

  /** The events taken from a number of lines. */
  function Found<E>(program: string, decode: Decode<E>, stack: seq<string>, tokens: seq<Token>): seq<E>
    decreases |tokens|
  {
    if tokens == [] then []
    else FoundAt(program, decode, stack, tokens[0]) + Found(program, decode, Next(stack, tokens[0]), tokens[1..])
  }

  // ---- The loop ----

  datatype RawEvent<E> = RawEvent(signature: string, index: nat, slot: nat, content: E)

  /** Events numbered in order; the counter stops at the largest 32-bit number. */
  function Numbered<E>(signature: string, slot: nat, events: seq<E>): seq<RawEvent<E>> {
    seq(|events|, i requires 0 <= i < |events| =>
      RawEvent(signature, if i < U32_MAX then i else U32_MAX, slot, events[i]))
  }

  function Tokens(read: string -> Token, lines: seq<string>): (tokens: seq<Token>)
    ensures |tokens| == |lines|
  {
    seq(|lines|, i requires 0 <= i < |lines| => read(lines[i]))
  }

  lemma NumberedAppend<E>(signature: string, slot: nat, events: seq<E>, e: E)
    ensures Numbered(signature, slot, events + [e])
            == Numbered(signature, slot, events) + [RawEvent(signature, if |events| < U32_MAX then |events| else U32_MAX, slot, e)]
  {
  }

  lemma OneMore<E>(program: string, decode: Decode<E>, stack: seq<string>, tokens: seq<Token>, n: nat)
    requires n < |tokens|
    ensures Stack(stack, tokens[..n + 1]) == Next(Stack(stack, tokens[..n]), tokens[n])
    ensures Found(program, decode, stack, tokens[..n + 1])
            == Found(program, decode, stack, tokens[..n]) + FoundAt(program, decode, Stack(stack, tokens[..n]), tokens[n])
  {
    assert tokens[..n + 1] == tokens[..n] + [tokens[n]];
    Splits(program, decode, stack, tokens[..n], [tokens[n]]);
    OneToken(program, decode, Stack(stack, tokens[..n]), tokens[n]);
  }

  /** The stack part of the loop. */
  method Track(before: seq<string>, token: Token) returns (stack: seq<string>)
    ensures stack == Next(before, token)
  {
    stack := before;
    if token.Invoke? {
      if token.depth.Some? && token.depth.value != |stack| + 1 {
        stack := [];
      } else if |stack| >= MAX_STACK_DEPTH {
        stack := [];
      } else {
        stack := stack + [token.id];
      }
    } else if token.Close? {
      if |stack| > 0 && stack[|stack| - 1] == token.id {
        stack := stack[..|stack| - 1];
      } else {
        stack := [];
      }
    }
  }

  method Extract<E>(read: string -> Token, program: string, decode: Decode<E>,
      signature: string, slot: nat, logs: seq<string>)
    returns (out: seq<RawEvent<E>>)
    ensures out == Numbered(signature, slot, Found(program, decode, [], Tokens(read, logs)))
  {
    out := [];
    var stack: seq<string> := [];
    var index: nat := 0;
    ghost var tokens := Tokens(read, logs);
    ghost var found: seq<E> := [];
    for n := 0 to |logs|
      invariant stack == Stack([], tokens[..n])
      invariant found == Found(program, decode, [], tokens[..n])
      invariant index == if |found| < U32_MAX then |found| else U32_MAX
      invariant out == Numbered(signature, slot, found)
    {
      var token := read(logs[n]);
      OneMore(program, decode, [], tokens, n);
      if token.Payload? && |stack| > 0 && stack[|stack| - 1] == program {
        var event := decode(token.text);
        if event.Some? {
          NumberedAppend(signature, slot, found, event.value);
          out := out + [RawEvent(signature, index, slot, event.value)];
          found := found + [event.value];
          if index < U32_MAX {
            index := index + 1;
          }
        }
      }
      stack := Track(stack, token);
    }
    assert tokens[..|logs|] == tokens;
  }

  // ---- Call trees ----

  /** What happens inside one invocation, in order: data lines, other lines, and nested invocations. */
  datatype Trace =
    | Done
    | Data(text: string, rest: Trace)
    | Note(line: string, rest: Trace)
    | Call(id: string, shown: bool, body: Trace, failure: Option<string>, rest: Trace)

  /** What the decoder is meant to read in that log. */
  function Trail(t: Trace, depth: nat): seq<Token>
    decreases t, 0
  {
    match t
    case Done => []
    case Data(text, rest) => [Payload(text)] + Trail(rest, depth)
    case Note(_, rest) => [Other] + Trail(rest, depth)
    case Call(id, shown, body, _, rest) => TrailCall(id, shown, body, depth) + Trail(rest, depth)
  }

  function TrailCall(id: string, shown: bool, body: Trace, depth: nat): seq<Token>
    decreases body, 1
  {
    [Invoke(id, if shown then Some(depth) else None)] + Trail(body, depth + 1) + [Close(id)]
  }

  /** The events of a trace: data lines whose innermost invocation is the program's. */
  function Events<E>(program: string, decode: Decode<E>, t: Trace, frame: Option<string>): seq<E> {
    match t
    case Done => []
    case Data(text, rest) => Taken(program, decode, frame, text) + Events(program, decode, rest, frame)
    case Note(_, rest) => Events(program, decode, rest, frame)
    case Call(id, _, body, _, rest) =>
      Events(program, decode, body, Some(id)) + Events(program, decode, rest, frame)
  }

  function Depth(t: Trace): nat {
    match t
    case Done => 0
    case Data(_, rest) => Depth(rest)
    case Note(_, rest) => Depth(rest)
    case Call(_, _, body, _, rest) => if Depth(rest) > Depth(body) + 1 then Depth(rest) else Depth(body) + 1
  }

  // ---- Splitting a log ----

  lemma {:induction false} Splits<E>(program: string, decode: Decode<E>, stack: seq<string>, a: seq<Token>, b: seq<Token>)
    ensures Stack(stack, a + b) == Stack(Stack(stack, a), b)
    ensures Found(program, decode, stack, a + b)
            == Found(program, decode, stack, a) + Found(program, decode, Stack(stack, a), b)
    decreases |a|
  {
    if a == [] {
      assert a + b == b;
    } else {
      var next := Next(stack, a[0]);
      Splits(program, decode, next, a[1..], b);
      assert (a + b)[1..] == a[1..] + b;
      Associative(FoundAt(program, decode, stack, a[0]), Found(program, decode, next, a[1..]),
                  Found(program, decode, Stack(next, a[1..]), b));
    }
  }

  lemma Associative<E>(a: seq<E>, b: seq<E>, c: seq<E>)
    ensures a + (b + c) == a + b + c
  {
  }

  lemma OneToken<E>(program: string, decode: Decode<E>, stack: seq<string>, token: Token)
    ensures Stack(stack, [token]) == Next(stack, token)
    ensures Found(program, decode, stack, [token]) == FoundAt(program, decode, stack, token)
  {
    assert [token][1..] == [];
    assert Stack(Next(stack, token), []) == Next(stack, token);
    assert Found(program, decode, Next(stack, token), []) == [];
  }

  // ---- Exactness ----

  /** Reading a trace leaves the stack as it was and takes exactly the events of the trace. */
  lemma {:induction false} TrailIsExact<E>(program: string, decode: Decode<E>, t: Trace, stack: seq<string>)
    requires |stack| + Depth(t) <= MAX_STACK_DEPTH
    ensures Stack(stack, Trail(t, |stack| + 1)) == stack
    ensures Found(program, decode, stack, Trail(t, |stack| + 1)) == Events(program, decode, t, Top(stack))
    decreases t, 0
  {
    var d := |stack| + 1;
    match t
    case Done =>
    case Data(text, rest) =>
      TrailIsExact(program, decode, rest, stack);
      OneToken(program, decode, stack, Payload(text));
      Splits(program, decode, stack, [Payload(text)], Trail(rest, d));
    case Note(_, rest) =>
      TrailIsExact(program, decode, rest, stack);
      OneToken(program, decode, stack, Other);
      Splits(program, decode, stack, [Other], Trail(rest, d));
    case Call(id, shown, body, _, rest) =>
      CallIsExact(program, decode, id, shown, body, stack);
      TrailIsExact(program, decode, rest, stack);
      Splits(program, decode, stack, TrailCall(id, shown, body, d), Trail(rest, d));
  }

  lemma Framed<E>(program: string, decode: Decode<E>, stack: seq<string>, inside: seq<string>,
      opening: Token, inner: seq<Token>, closing: Token)
    requires !opening.Payload? && !closing.Payload?
    requires Next(stack, opening) == inside && Stack(inside, inner) == inside && Next(inside, closing) == stack
    ensures Stack(stack, [opening] + inner + [closing]) == stack
    ensures Found(program, decode, stack, [opening] + inner + [closing]) == Found(program, decode, inside, inner)
  {
    OneToken(program, decode, stack, opening);
    Splits(program, decode, stack, [opening], inner);
    OneToken(program, decode, inside, closing);
    Splits(program, decode, stack, [opening] + inner, [closing]);
  }

  lemma {:induction false} CallIsExact<E>(program: string, decode: Decode<E>,
      id: string, shown: bool, body: Trace, stack: seq<string>)
    requires |stack| + 1 + Depth(body) <= MAX_STACK_DEPTH
    ensures Stack(stack, TrailCall(id, shown, body, |stack| + 1)) == stack
    ensures Found(program, decode, stack, TrailCall(id, shown, body, |stack| + 1))
            == Events(program, decode, body, Some(id))
    decreases body, 1
  {
    var inside := stack + [id];
    TrailIsExact(program, decode, body, inside);
    Framed(program, decode, stack, inside,
           Invoke(id, if shown then Some(|stack| + 1) else None), Trail(body, |stack| + 2), Close(id));
  }

  // ---- Recovery ----

  /** A line that neither starts a frame on an empty stack nor yields an event there. */
  predicate Deaf(token: Token) {
    token.Invoke? ==> token.depth.Some? && token.depth.value != 1
  }

  lemma {:induction false} DeafLinesAreIgnored<E>(program: string, decode: Decode<E>, tokens: seq<Token>)
    requires forall i :: 0 <= i < |tokens| ==> Deaf(tokens[i])
    ensures Stack([], tokens) == [] && Found(program, decode, [], tokens) == []
    decreases |tokens|
  {
    if tokens == [] {
    } else {
      assert Deaf(tokens[0]);
      DeafLinesAreIgnored(program, decode, tokens[1..]);
    }
  }

  /** Every invocation prints its depth. */
  predicate Shown(t: Trace) {
    match t
    case Done => true
    case Data(_, rest) => Shown(rest)
    case Note(_, rest) => Shown(rest)
    case Call(_, shown, body, _, rest) => shown && Shown(body) && Shown(rest)
  }

  lemma {:induction false} NestedIsDeaf(t: Trace, depth: nat)
    requires Shown(t) && depth > 1
    ensures forall i :: 0 <= i < |Trail(t, depth)| ==> Deaf(Trail(t, depth)[i])
    decreases t
  {
    match t
    case Done =>
    case Data(_, rest) => NestedIsDeaf(rest, depth);
    case Note(_, rest) => NestedIsDeaf(rest, depth);
    case Call(_, _, body, _, rest) =>
      NestedIsDeaf(body, depth + 1);
      NestedIsDeaf(rest, depth);
  }

  /** All of a top-level invocation after its first line. */
  lemma TailIsDeaf(id: string, body: Trace, k: nat)
    requires Shown(body) && 1 <= k <= |TrailCall(id, true, body, 1)|
    ensures forall i :: k <= i < |TrailCall(id, true, body, 1)| ==> Deaf(TrailCall(id, true, body, 1)[i])
  {
    NestedIsDeaf(body, 2);
  }

  /** The log of a whole transaction: nothing outside invocations. */
  predicate TopLevel(t: Trace) {
    t.Done? || (t.Call? && TopLevel(t.rest))
  }

  /** A top-level invocation read over a stale stack is lost as a whole, and the stack is empty after it. */
  lemma StaleCallIsLost<E>(program: string, decode: Decode<E>, id: string, body: Trace, stack: seq<string>)
    requires Shown(body) && stack != []
    ensures Stack(stack, TrailCall(id, true, body, 1)) == []
    ensures Found(program, decode, stack, TrailCall(id, true, body, 1)) == []
  {
    var all := TrailCall(id, true, body, 1);
    TailIsDeaf(id, body, 1);
    assert all == all[..1] + all[1..];
    assert all[..1] == [Invoke(id, Some(1))];
    OneToken(program, decode, stack, all[0]);
    Splits(program, decode, stack, all[..1], all[1..]);
    DeafLinesAreIgnored(program, decode, all[1..]);
  }

  lemma SilentPrefix<E>(program: string, decode: Decode<E>, stack: seq<string>, a: seq<Token>, b: seq<Token>)
    requires Found(program, decode, stack, a) == []
    ensures Stack(stack, a + b) == Stack(Stack(stack, a), b)
    ensures Found(program, decode, stack, a + b) == Found(program, decode, Stack(stack, a), b)
  {
    Splits(program, decode, stack, a, b);
  }

  lemma ExactAfterSilence<E>(program: string, decode: Decode<E>, stack: seq<string>, silent: seq<Token>, rest: Trace)
    requires Stack(stack, silent) == [] && Found(program, decode, stack, silent) == [] && Depth(rest) <= MAX_STACK_DEPTH
    ensures Found(program, decode, stack, silent + Trail(rest, 1)) == Events(program, decode, rest, None)
    ensures Stack(stack, silent + Trail(rest, 1)) == []
  {
    SilentPrefix(program, decode, stack, silent, Trail(rest, 1));
    TrailIsExact(program, decode, rest, []);
  }

  lemma TrailOfCall(t: Trace, depth: nat)
    requires t.Call?
    ensures Trail(t, depth) == TrailCall(t.id, t.shown, t.body, depth) + Trail(t.rest, depth)
  {
  }

  lemma LosesFirst<E>(program: string, decode: Decode<E>, stack: seq<string>, t: Trace)
    requires t.Call? && stack != [] && t.shown && Shown(t.body) && Depth(t.rest) <= MAX_STACK_DEPTH
    ensures Found(program, decode, stack, Trail(t, 1)) == Events(program, decode, t.rest, None)
    ensures Stack(stack, Trail(t, 1)) == []
  {
    TrailOfCall(t, 1);
    var lost := TrailCall(t.id, true, t.body, 1);
    StaleCallIsLost(program, decode, t.id, t.body, stack);
    ExactAfterSilence(program, decode, stack, lost, t.rest);
  }

  /** From any stack, at most the first top-level invocation is lost. */
  lemma Recovers<E>(program: string, decode: Decode<E>, stack: seq<string>, t: Trace)
    requires Shown(t) && TopLevel(t) && Depth(t) <= MAX_STACK_DEPTH
    ensures Found(program, decode, stack, Trail(t, 1))
            == Events(program, decode, if stack == [] || t.Done? then t else t.rest, None)
    ensures Stack(stack, Trail(t, 1)) == if t.Call? then [] else stack
  {
    if stack == [] {
      TrailIsExact(program, decode, t, []);
    } else if t.Call? {
      LosesFirst(program, decode, stack, t);
    }
  }
}
