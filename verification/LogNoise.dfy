/** Call trees whose data and message lines may read as the start or the end of an invocation. */
module LogNoise {
  import opened Options
  import opened LogStack

  /** How message lines and the text of data lines are read. */
  datatype Reader = Reader(note: string -> Token, data: string -> Token)

  /** Names that no invocation has. */
  type Aliens = string -> bool

  predicate LoudData(r: Reader, text: string) {
    r.data(text) != Payload(text)
  }

  predicate LoudNote(r: Reader, line: string) {
    r.note(line) != Other
  }

  predicate AlienFrame(token: Token, alien: Aliens) {
    (token.Invoke? || token.Close?) && alien(token.id)
  }

  /** Loud lines read as frames with alien names, and no invocation has such a name. */
  predicate Fair(r: Reader, alien: Aliens, t: Trace) {
    match t
    case Done => true
    case Data(text, rest) => (LoudData(r, text) ==> AlienFrame(r.data(text), alien)) && Fair(r, alien, rest)
    case Note(line, rest) => (LoudNote(r, line) ==> AlienFrame(r.note(line), alien)) && Fair(r, alien, rest)
    case Call(id, _, body, _, rest) => !alien(id) && Fair(r, alien, body) && Fair(r, alien, rest)
  }

  /** No line is loud. */
  predicate IsQuiet(r: Reader, t: Trace) {
    match t
    case Done => true
    case Data(text, rest) => !LoudData(r, text) && IsQuiet(r, rest)
    case Note(line, rest) => !LoudNote(r, line) && IsQuiet(r, rest)
    case Call(_, _, body, _, rest) => IsQuiet(r, body) && IsQuiet(r, rest)
  }

  /** What the decoder reads. */
  function NoisyTrail(r: Reader, t: Trace, depth: nat): seq<Token>
    decreases t, 0
  {
    match t
    case Done => []
    case Data(text, rest) => [r.data(text)] + NoisyTrail(r, rest, depth)
    case Note(line, rest) => [r.note(line)] + NoisyTrail(r, rest, depth)
    case Call(id, shown, body, _, rest) => NoisyCall(r, id, shown, body, depth) + NoisyTrail(r, rest, depth)
  }

  function NoisyCall(r: Reader, id: string, shown: bool, body: Trace, depth: nat): seq<Token>
    decreases body, 1
  {
    [Invoke(id, if shown then Some(depth) else None)] + NoisyTrail(r, body, depth + 1) + [Close(id)]
  }

  lemma {:induction false} QuietTrail(r: Reader, t: Trace, depth: nat)
    requires IsQuiet(r, t)
    ensures NoisyTrail(r, t, depth) == Trail(t, depth)
    decreases t
  {
    match t
    case Done =>
    case Data(_, rest) => QuietTrail(r, rest, depth);
    case Note(_, rest) => QuietTrail(r, rest, depth);
    case Call(_, _, body, _, rest) =>
      QuietTrail(r, body, depth + 1);
      QuietTrail(r, rest, depth);
  }

  // ---- Where the decoder stands, on the tree ----

  /**
   * The decoder's place within an invocation: whether the invocation's own frame is still on the stack, and the alien
   * frames above it.
   */
  datatype Place = Place(mine: bool, extra: seq<string>)

  const HERE := Place(true, [])
  const LOST := Place(false, [])

  /** The size of the stack, when the own frame is the `base`-th. */
  function Height(p: Place, base: nat): nat {
    (if p.mine then base else 0) + |p.extra|
  }

  /** A loud line adds an alien frame, takes one away, or clears the stack. */
  function Moved(p: Place, base: nat, token: Token): Place {
    match token
    case Invoke(x, depth) =>
      if (depth.Some? && depth.value != Height(p, base) + 1) || Height(p, base) >= MAX_STACK_DEPTH then LOST
      else p.(extra := p.extra + [x])
    case Close(x) =>
      if p.extra != [] && p.extra[|p.extra| - 1] == x then p.(extra := p.extra[..|p.extra| - 1]) else LOST
    case Payload(_) => p
    case Other => p
  }

  /** Whether an invocation of the given depth is pushed on a stack of this height; else it clears the stack. */
  predicate Enters(height: nat, shown: bool, depth: nat) {
    (shown ==> depth == height + 1) && height < MAX_STACK_DEPTH
  }

  /** The place at the end of a trace. */
  function PlaceAfter(r: Reader, t: Trace, depth: nat, base: nat, p: Place): Place
    decreases t, 0
  {
    match t
    case Done => p
    case Data(text, rest) => PlaceAfter(r, rest, depth, base, Moved(p, base, r.data(text)))
    case Note(line, rest) => PlaceAfter(r, rest, depth, base, Moved(p, base, r.note(line)))
    case Call(_, shown, body, _, rest) =>
      PlaceAfter(r, rest, depth, base, if ComesBack(r, shown, body, depth, Height(p, base)) then p else LOST)
  }

  /** A nested invocation gives the caller's place back if it was pushed and ends in step; else the caller is lost. */
  predicate ComesBack(r: Reader, shown: bool, body: Trace, depth: nat, height: nat)
    decreases body, 1
  {
    Enters(height, shown, depth) && PlaceAfter(r, body, depth + 1, height + 1, HERE) == HERE
  }

  /** The events taken: those of quiet data lines at which the invocation's own frame is on top. */
  function Output<E>(r: Reader, program: string, decode: Decode<E>, t: Trace, frame: Option<string>,
                     depth: nat, base: nat, p: Place): seq<E>
    decreases t, 0
  {
    match t
    case Done => []
    case Data(text, rest) =>
      (if p == HERE && !LoudData(r, text) then Taken(program, decode, frame, text) else [])
      + Output(r, program, decode, rest, frame, depth, base, Moved(p, base, r.data(text)))
    case Note(line, rest) => Output(r, program, decode, rest, frame, depth, base, Moved(p, base, r.note(line)))
    case Call(id, shown, body, _, rest) =>
      CallOutput(r, program, decode, id, shown, body, depth, Height(p, base))
      + Output(r, program, decode, rest, frame, depth, base,
               if ComesBack(r, shown, body, depth, Height(p, base)) then p else LOST)
  }

  function CallOutput<E>(r: Reader, program: string, decode: Decode<E>, id: string, shown: bool, body: Trace,
                         depth: nat, height: nat): seq<E>
    decreases body, 1
  {
    if Enters(height, shown, depth) then Output(r, program, decode, body, Some(id), depth + 1, height + 1, HERE)
    else Output(r, program, decode, body, Some(id), depth + 1, 0, LOST)
  }

  /** Every decodable data line of the program is quiet and stands where the decoder is in step. */
  predicate AllHeard<E>(r: Reader, program: string, decode: Decode<E>, t: Trace, frame: Option<string>,
                        depth: nat, base: nat, p: Place) {
    match t
    case Done => true
    case Data(text, rest) =>
      && (frame == Some(program) && decode(text).Some? ==> p == HERE && !LoudData(r, text))
      && AllHeard(r, program, decode, rest, frame, depth, base, Moved(p, base, r.data(text)))
    case Note(line, rest) => AllHeard(r, program, decode, rest, frame, depth, base, Moved(p, base, r.note(line)))
    case Call(id, shown, body, _, rest) =>
      && (if Enters(Height(p, base), shown, depth)
          then AllHeard(r, program, decode, body, Some(id), depth + 1, Height(p, base) + 1, HERE)
          else AllHeard(r, program, decode, body, Some(id), depth + 1, 0, LOST))
      && AllHeard(r, program, decode, rest, frame, depth, base,
                  if ComesBack(r, shown, body, depth, Height(p, base)) then p else LOST)
  }

  // ---- The decoder stands where the tree says ----

  /** The stack at a place. */
  function StackAt(frames: seq<string>, p: Place): seq<string> {
    (if p.mine then frames else []) + p.extra
  }

  /** The frames up to the own one, as far as they matter. */
  ghost predicate Standing(alien: Aliens, frames: seq<string>, frame: Option<string>, p: Place) {
    && (p.mine ==> Top(frames) == frame && (frames != [] ==> !alien(frames[|frames| - 1])))
    && forall i :: 0 <= i < |p.extra| ==> alien(p.extra[i])
  }

  /** One loud line. */
  lemma MovedStack(alien: Aliens, frames: seq<string>, frame: Option<string>, p: Place, token: Token)
    requires Standing(alien, frames, frame, p) && AlienFrame(token, alien)
    ensures Standing(alien, frames, frame, Moved(p, |frames|, token))
    ensures Next(StackAt(frames, p), token) == StackAt(frames, Moved(p, |frames|, token))
  {
  }

  /** What is on top at a place. */
  lemma TopAt(alien: Aliens, frames: seq<string>, frame: Option<string>, p: Place, name: string)
    requires Standing(alien, frames, frame, p) && !alien(name)
    ensures Top(StackAt(frames, p)) == Some(name) <==> p == HERE && frame == Some(name)
  {
  }

  lemma OneThen<E>(program: string, decode: Decode<E>, stack: seq<string>, token: Token, rest: seq<Token>)
    ensures Stack(stack, [token] + rest) == Stack(Next(stack, token), rest)
    ensures Found(program, decode, stack, [token] + rest)
            == FoundAt(program, decode, stack, token) + Found(program, decode, Next(stack, token), rest)
  {
    assert ([token] + rest)[1..] == rest;
  }

  /** The exact output and the exact stack, for every tree, from any place. */
  lemma {:induction false} NoisyRun<E>(r: Reader, alien: Aliens, program: string, decode: Decode<E>, t: Trace,
      frame: Option<string>, depth: nat, frames: seq<string>, p: Place)
    requires Fair(r, alien, t) && !alien(program) && Standing(alien, frames, frame, p)
    ensures Found(program, decode, StackAt(frames, p), NoisyTrail(r, t, depth))
            == Output(r, program, decode, t, frame, depth, |frames|, p)
    ensures Stack(StackAt(frames, p), NoisyTrail(r, t, depth)) == StackAt(frames, PlaceAfter(r, t, depth, |frames|, p))
    ensures Standing(alien, frames, frame, PlaceAfter(r, t, depth, |frames|, p))
    decreases t, 2
  {
    match t
    case Done =>
    case Data(text, rest) =>
      LineRun(r, alien, program, decode, r.data(text), rest, frame, depth, frames, p);
      TopAt(alien, frames, frame, p, program);
    case Note(line, rest) =>
      LineRun(r, alien, program, decode, r.note(line), rest, frame, depth, frames, p);
    case Call(_, _, _, _, _) =>
      NestedRun(r, alien, program, decode, t, frame, depth, frames, p);
  }

  lemma {:induction false} LineRun<E>(r: Reader, alien: Aliens, program: string, decode: Decode<E>, token: Token, rest: Trace,
      frame: Option<string>, depth: nat, frames: seq<string>, p: Place)
    requires Fair(r, alien, rest) && !alien(program) && Standing(alien, frames, frame, p)
    requires token.Payload? || token.Other? || AlienFrame(token, alien)
    ensures var next := Moved(p, |frames|, token);
            && Found(program, decode, StackAt(frames, p), [token] + NoisyTrail(r, rest, depth))
               == FoundAt(program, decode, StackAt(frames, p), token)
                  + Output(r, program, decode, rest, frame, depth, |frames|, next)
            && Stack(StackAt(frames, p), [token] + NoisyTrail(r, rest, depth))
               == StackAt(frames, PlaceAfter(r, rest, depth, |frames|, next))
            && Standing(alien, frames, frame, PlaceAfter(r, rest, depth, |frames|, next))
    decreases rest, 3
  {
    if AlienFrame(token, alien) {
      MovedStack(alien, frames, frame, p, token);
    }
    OneThen(program, decode, StackAt(frames, p), token, NoisyTrail(r, rest, depth));
    NoisyRun(r, alien, program, decode, rest, frame, depth, frames, Moved(p, |frames|, token));
  }

  lemma {:induction false} NestedRun<E>(r: Reader, alien: Aliens, program: string, decode: Decode<E>, t: Trace,
      frame: Option<string>, depth: nat, frames: seq<string>, p: Place)
    requires t.Call? && Fair(r, alien, t) && !alien(program) && Standing(alien, frames, frame, p)
    ensures Found(program, decode, StackAt(frames, p), NoisyTrail(r, t, depth))
            == Output(r, program, decode, t, frame, depth, |frames|, p)
    ensures Stack(StackAt(frames, p), NoisyTrail(r, t, depth)) == StackAt(frames, PlaceAfter(r, t, depth, |frames|, p))
    ensures Standing(alien, frames, frame, PlaceAfter(r, t, depth, |frames|, p))
    decreases t, 1
  {
    var stack := StackAt(frames, p);
    var back := if ComesBack(r, t.shown, t.body, depth, |stack|) then p else LOST;
    assert |stack| == Height(p, |frames|) && StackAt(frames, LOST) == [];
    CallRun(r, alien, program, decode, t.id, t.shown, t.body, depth, stack);
    NoisyRun(r, alien, program, decode, t.rest, frame, depth, frames, back);
    Splits(program, decode, stack, NoisyCall(r, t.id, t.shown, t.body, depth), NoisyTrail(r, t.rest, depth));
  }

  lemma {:induction false} CallRun<E>(r: Reader, alien: Aliens, program: string, decode: Decode<E>,
      id: string, shown: bool, body: Trace, depth: nat, stack: seq<string>)
    requires Fair(r, alien, body) && !alien(program) && !alien(id)
    ensures Found(program, decode, stack, NoisyCall(r, id, shown, body, depth))
            == CallOutput(r, program, decode, id, shown, body, depth, |stack|)
    ensures Stack(stack, NoisyCall(r, id, shown, body, depth))
            == if ComesBack(r, shown, body, depth, |stack|) then stack else []
    decreases body, 4
  {
    if Enters(|stack|, shown, depth) {
      PushedRun(r, alien, program, decode, id, shown, body, depth, stack);
    } else {
      RefusedRun(r, alien, program, decode, id, shown, body, depth, stack);
    }
  }

  lemma {:induction false} PushedRun<E>(r: Reader, alien: Aliens, program: string, decode: Decode<E>,
      id: string, shown: bool, body: Trace, depth: nat, stack: seq<string>)
    requires Fair(r, alien, body) && !alien(program) && !alien(id) && Enters(|stack|, shown, depth)
    ensures Found(program, decode, stack, NoisyCall(r, id, shown, body, depth))
            == Output(r, program, decode, body, Some(id), depth + 1, |stack| + 1, HERE)
    ensures Stack(stack, NoisyCall(r, id, shown, body, depth))
            == if PlaceAfter(r, body, depth + 1, |stack| + 1, HERE) == HERE then stack else []
    decreases body, 3
  {
    var own := stack + [id];
    assert StackAt(own, HERE) == own && own[..|own| - 1] == stack;
    NoisyRun(r, alien, program, decode, body, Some(id), depth + 1, own, HERE);
    Closed(alien, program, decode, stack, Invoke(id, if shown then Some(depth) else None),
           NoisyTrail(r, body, depth + 1), id, own, PlaceAfter(r, body, depth + 1, |own|, HERE));
  }

  lemma {:induction false} RefusedRun<E>(r: Reader, alien: Aliens, program: string, decode: Decode<E>,
      id: string, shown: bool, body: Trace, depth: nat, stack: seq<string>)
    requires Fair(r, alien, body) && !alien(program) && !alien(id) && !Enters(|stack|, shown, depth)
    ensures Found(program, decode, stack, NoisyCall(r, id, shown, body, depth))
            == Output(r, program, decode, body, Some(id), depth + 1, 0, LOST)
    ensures Stack(stack, NoisyCall(r, id, shown, body, depth)) == []
    decreases body, 3
  {
    assert StackAt([], LOST) == [];
    NoisyRun(r, alien, program, decode, body, Some(id), depth + 1, [], LOST);
    StaysForeign(r, body, depth + 1, 0, LOST);
    Closed(alien, program, decode, stack, Invoke(id, if shown then Some(depth) else None),
           NoisyTrail(r, body, depth + 1), id, [], PlaceAfter(r, body, depth + 1, 0, LOST));
  }

  /** The closing line pops the own frame where it is on top, and clears the stack elsewhere. */
  lemma Closed<E>(alien: Aliens, program: string, decode: Decode<E>, stack: seq<string>, opening: Token,
      inner: seq<Token>, id: string, own: seq<string>, end: Place)
    requires opening.Invoke? && !alien(id) && Standing(alien, own, Some(id), end)
    requires Stack(Next(stack, opening), inner) == StackAt(own, end)
    ensures var all := [opening] + inner + [Close(id)];
            && Found(program, decode, stack, all) == Found(program, decode, Next(stack, opening), inner)
            && Stack(stack, all) == if end == HERE then own[..|own| - 1] else []
  {
    OneThen(program, decode, stack, opening, inner);
    TopAt(alien, own, Some(id), end, id);
    OneToken(program, decode, StackAt(own, end), Close(id));
    Splits(program, decode, stack, [opening] + inner, [Close(id)]);
  }

  /** A frame that is gone does not come back. */
  lemma {:induction false} StaysForeign(r: Reader, t: Trace, depth: nat, base: nat, p: Place)
    requires !p.mine
    ensures !PlaceAfter(r, t, depth, base, p).mine
    decreases t
  {
    match t
    case Done =>
    case Data(text, rest) => StaysForeign(r, rest, depth, base, Moved(p, base, r.data(text)));
    case Note(line, rest) => StaysForeign(r, rest, depth, base, Moved(p, base, r.note(line)));
    case Call(_, shown, body, _, rest) =>
      StaysForeign(r, rest, depth, base, if ComesBack(r, shown, body, depth, Height(p, base)) then p else LOST);
  }

  /** The exact output for every log, with any number of loud lines, shown depths or not, at any depth. */
  lemma NoisyLog<E>(r: Reader, alien: Aliens, program: string, decode: Decode<E>, t: Trace)
    requires Fair(r, alien, t) && !alien(program)
    ensures Found(program, decode, [], NoisyTrail(r, t, 1)) == Output(r, program, decode, t, None, 1, 0, HERE)
  {
    NoisyRun(r, alien, program, decode, t, None, 1, [], HERE);
  }

  // ---- The output against the events ----

  /** `a` is `b` with some elements left out. */
  ghost predicate Subsequence<E(!new)>(a: seq<E>, b: seq<E>)
    decreases |b|
  {
    || a == []
    || (b != [] && (Subsequence(a, b[1..]) || (a[0] == b[0] && Subsequence(a[1..], b[1..]))))
  }

  lemma {:induction false} SubsequenceAfter<E(!new)>(a: seq<E>, front: seq<E>, b: seq<E>)
    requires Subsequence(a, b)
    ensures Subsequence(a, front + b)
    decreases |front|
  {
    if front == [] {
      assert front + b == b;
    } else {
      SubsequenceAfter(a, front[1..], b);
      assert (front + b)[1..] == front[1..] + b;
    }
  }

  lemma {:induction false} SubsequencesJoin<E(!new)>(a: seq<E>, b: seq<E>, c: seq<E>, d: seq<E>)
    requires Subsequence(a, b) && Subsequence(c, d)
    ensures Subsequence(a + c, b + d)
    decreases |b|
  {
    if a == [] {
      assert a + c == c;
      SubsequenceAfter(c, b, d);
    } else if Subsequence(a, b[1..]) {
      SubsequencesJoin(a, b[1..], c, d);
      assert (b + d)[1..] == b[1..] + d;
    } else {
      SubsequencesJoin(a[1..], b[1..], c, d);
      assert (b + d)[1..] == b[1..] + d && (a + c)[1..] == a[1..] + c;
    }
  }

  /** Nothing is ever attributed wrongly or out of order: from any place the output is a subsequence of the events. */
  lemma {:induction false} OutputIsSubsequence<E(!new)>(r: Reader, program: string, decode: Decode<E>, t: Trace,
      frame: Option<string>, depth: nat, base: nat, p: Place)
    ensures Subsequence(Output(r, program, decode, t, frame, depth, base, p), Events(program, decode, t, frame))
    decreases t
  {
    match t
    case Done =>
    case Data(text, rest) =>
      var next, taken := Moved(p, base, r.data(text)), Taken(program, decode, frame, text);
      OutputIsSubsequence(r, program, decode, rest, frame, depth, base, next);
      SubsequencesJoin(if p == HERE && !LoudData(r, text) then taken else [], taken,
                       Output(r, program, decode, rest, frame, depth, base, next), Events(program, decode, rest, frame));
    case Note(line, rest) =>
      OutputIsSubsequence(r, program, decode, rest, frame, depth, base, Moved(p, base, r.note(line)));
    case Call(id, shown, body, _, rest) =>
      var enters := Enters(Height(p, base), shown, depth);
      var inside, start := if enters then Height(p, base) + 1 else 0, if enters then HERE else LOST;
      var back := if ComesBack(r, shown, body, depth, Height(p, base)) then p else LOST;
      OutputIsSubsequence(r, program, decode, body, Some(id), depth + 1, inside, start);
      OutputIsSubsequence(r, program, decode, rest, frame, depth, base, back);
      SubsequencesJoin(Output(r, program, decode, body, Some(id), depth + 1, inside, start),
                       Events(program, decode, body, Some(id)),
                       Output(r, program, decode, rest, frame, depth, base, back), Events(program, decode, rest, frame));
  }

  /** The output is all events if and only if all are heard. */
  lemma {:induction false} OutputIsAllIff<E>(r: Reader, program: string, decode: Decode<E>, t: Trace,
      frame: Option<string>, depth: nat, base: nat, p: Place)
    ensures |Output(r, program, decode, t, frame, depth, base, p)| <= |Events(program, decode, t, frame)|
    ensures |Output(r, program, decode, t, frame, depth, base, p)| == |Events(program, decode, t, frame)|
            <==> AllHeard(r, program, decode, t, frame, depth, base, p)
    ensures AllHeard(r, program, decode, t, frame, depth, base, p) ==>
              Output(r, program, decode, t, frame, depth, base, p) == Events(program, decode, t, frame)
    decreases t
  {
    match t
    case Done =>
    case Data(text, rest) =>
      OutputIsAllIff(r, program, decode, rest, frame, depth, base, Moved(p, base, r.data(text)));
    case Note(line, rest) =>
      OutputIsAllIff(r, program, decode, rest, frame, depth, base, Moved(p, base, r.note(line)));
    case Call(id, shown, body, _, rest) =>
      if Enters(Height(p, base), shown, depth) {
        OutputIsAllIff(r, program, decode, body, Some(id), depth + 1, Height(p, base) + 1, HERE);
      } else {
        OutputIsAllIff(r, program, decode, body, Some(id), depth + 1, 0, LOST);
      }
      OutputIsAllIff(r, program, decode, rest, frame, depth, base,
                     if ComesBack(r, shown, body, depth, Height(p, base)) then p else LOST);
  }
}
