/**
 * Logs in which nothing brings the decoder back into step after a loud line: there the rest of the top-level
 * invocation is lost.
 */
module LogSpoiled {
  import opened Options
  import opened LogStack
  import opened LogNoise

  /** No line starts a frame on an empty stack, except at the outermost level. */
  predicate Mute(r: Reader, t: Trace) {
    match t
    case Done => true
    case Data(text, rest) => Deaf(r.data(text)) && Mute(r, rest)
    case Note(line, rest) => Deaf(r.note(line)) && Mute(r, rest)
    case Call(_, shown, body, _, rest) => shown && Mute(r, body) && Mute(r, rest)
  }

  /** After a closing line others may follow that do not start a frame; after a starting line the invocation is quiet. */
  predicate Followed(r: Reader, token: Token, rest: Trace) {
    if token.Close? then Mute(r, rest) else IsQuiet(r, rest)
  }

  /** There is a loud line, and after the first one nothing that could bring the decoder back into step. */
  predicate Spoiled(r: Reader, t: Trace) {
    match t
    case Done => false
    case Data(text, rest) => if LoudData(r, text) then Followed(r, r.data(text), rest) else Spoiled(r, rest)
    case Note(line, rest) => if LoudNote(r, line) then Followed(r, r.note(line), rest) else Spoiled(r, rest)
    case Call(_, _, body, _, rest) =>
      if IsQuiet(r, body) then Spoiled(r, rest) else Spoiled(r, body) && Mute(r, rest)
  }

  // ---- What is kept and what is lost, on the tree ----

  /** The events before the first loud line. */
  function Kept<E>(r: Reader, program: string, decode: Decode<E>, t: Trace, frame: Option<string>): seq<E> {
    match t
    case Done => []
    case Data(text, rest) =>
      if LoudData(r, text) then [] else Taken(program, decode, frame, text) + Kept(r, program, decode, rest, frame)
    case Note(line, rest) => if LoudNote(r, line) then [] else Kept(r, program, decode, rest, frame)
    case Call(id, _, body, _, rest) =>
      if IsQuiet(r, body) then Events(program, decode, body, Some(id)) + Kept(r, program, decode, rest, frame)
      else Kept(r, program, decode, body, Some(id))
  }

  /** No data line of the program decodes. */
  predicate Silent<E>(program: string, decode: Decode<E>, t: Trace, frame: Option<string>) {
    match t
    case Done => true
    case Data(text, rest) => !(frame == Some(program) && decode(text).Some?) && Silent(program, decode, rest, frame)
    case Note(_, rest) => Silent(program, decode, rest, frame)
    case Call(id, _, body, _, rest) => Silent(program, decode, body, Some(id)) && Silent(program, decode, rest, frame)
  }

  /** No data line of the program decodes from the first loud line on, that line included. */
  predicate SilentAfter<E>(r: Reader, program: string, decode: Decode<E>, t: Trace, frame: Option<string>) {
    match t
    case Done => true
    case Data(text, rest) =>
      if LoudData(r, text) then Silent(program, decode, t, frame) else SilentAfter(r, program, decode, rest, frame)
    case Note(line, rest) =>
      if LoudNote(r, line) then Silent(program, decode, rest, frame) else SilentAfter(r, program, decode, rest, frame)
    case Call(id, _, body, _, rest) =>
      if IsQuiet(r, body) then SilentAfter(r, program, decode, rest, frame)
      else SilentAfter(r, program, decode, body, Some(id)) && Silent(program, decode, rest, frame)
  }

  lemma {:induction false} SilentHasNoEvents<E>(program: string, decode: Decode<E>, t: Trace, frame: Option<string>)
    ensures Silent(program, decode, t, frame) <==> |Events(program, decode, t, frame)| == 0
    decreases t
  {
    match t
    case Done =>
    case Data(_, rest) => SilentHasNoEvents(program, decode, rest, frame);
    case Note(_, rest) => SilentHasNoEvents(program, decode, rest, frame);
    case Call(id, _, body, _, rest) =>
      SilentHasNoEvents(program, decode, body, Some(id));
      SilentHasNoEvents(program, decode, rest, frame);
  }

  /** What is kept never exceeds the events, and is all of them exactly when silence follows. */
  lemma {:induction false} KeptIsAllIff<E>(r: Reader, program: string, decode: Decode<E>, t: Trace, frame: Option<string>)
    ensures |Kept(r, program, decode, t, frame)| <= |Events(program, decode, t, frame)|
    ensures |Kept(r, program, decode, t, frame)| == |Events(program, decode, t, frame)|
            <==> SilentAfter(r, program, decode, t, frame)
    ensures SilentAfter(r, program, decode, t, frame) ==>
              Kept(r, program, decode, t, frame) == Events(program, decode, t, frame)
    decreases t
  {
    SilentHasNoEvents(program, decode, t, frame);
    match t
    case Done =>
    case Data(_, rest) => KeptIsAllIff(r, program, decode, rest, frame);
    case Note(_, rest) =>
      SilentHasNoEvents(program, decode, rest, frame);
      KeptIsAllIff(r, program, decode, rest, frame);
    case Call(id, _, body, _, rest) =>
      SilentHasNoEvents(program, decode, rest, frame);
      KeptIsAllIff(r, program, decode, body, Some(id));
      KeptIsAllIff(r, program, decode, rest, frame);
  }

  // ---- Out of step ----

  lemma {:induction false} QuietIsMute(r: Reader, t: Trace)
    requires IsQuiet(r, t) && Shown(t)
    ensures Mute(r, t)
    decreases t
  {
    match t
    case Done =>
    case Data(_, rest) => QuietIsMute(r, rest);
    case Note(_, rest) => QuietIsMute(r, rest);
    case Call(_, _, body, _, rest) =>
      QuietIsMute(r, body);
      QuietIsMute(r, rest);
  }

  /** Lost, a mute trace yields nothing and stays lost. */
  lemma {:induction false} LostStays<E>(r: Reader, program: string, decode: Decode<E>, t: Trace, frame: Option<string>,
      depth: nat, base: nat)
    requires Mute(r, t) && depth > 1
    ensures Output(r, program, decode, t, frame, depth, base, LOST) == []
    ensures PlaceAfter(r, t, depth, base, LOST) == LOST
    decreases t
  {
    match t
    case Done =>
    case Data(_, rest) => LostStays(r, program, decode, rest, frame, depth, base);
    case Note(_, rest) => LostStays(r, program, decode, rest, frame, depth, base);
    case Call(id, _, body, _, rest) =>
      LostStays(r, program, decode, body, Some(id), depth + 1, 0);
      LostStays(r, program, decode, rest, frame, depth, base);
  }

  /** Under one alien frame too many, a quiet trace yields nothing and does not end in step. */
  lemma {:induction false} ExtraStays<E>(r: Reader, program: string, decode: Decode<E>, t: Trace, frame: Option<string>,
      base: nat, x: string)
    requires IsQuiet(r, t) && Shown(t) && base > 0
    ensures Output(r, program, decode, t, frame, base + 1, base, Place(true, [x])) == []
    ensures PlaceAfter(r, t, base + 1, base, Place(true, [x])) != HERE
    decreases t
  {
    match t
    case Done =>
    case Data(_, rest) => ExtraStays(r, program, decode, rest, frame, base, x);
    case Note(_, rest) => ExtraStays(r, program, decode, rest, frame, base, x);
    case Call(id, _, body, _, rest) =>
      QuietIsMute(r, body);
      QuietIsMute(r, rest);
      LostStays(r, program, decode, body, Some(id), base + 2, 0);
      LostStays(r, program, decode, rest, frame, base + 1, base);
  }

  /** In step, a quiet trace yields its events and stays in step. */
  lemma {:induction false} HereStays<E>(r: Reader, program: string, decode: Decode<E>, t: Trace, frame: Option<string>, base: nat)
    requires IsQuiet(r, t) && base + Depth(t) <= MAX_STACK_DEPTH
    ensures Output(r, program, decode, t, frame, base + 1, base, HERE) == Events(program, decode, t, frame)
    ensures PlaceAfter(r, t, base + 1, base, HERE) == HERE
    decreases t
  {
    match t
    case Done =>
    case Data(_, rest) => HereStays(r, program, decode, rest, frame, base);
    case Note(_, rest) => HereStays(r, program, decode, rest, frame, base);
    case Call(id, _, body, _, rest) =>
      HereStays(r, program, decode, body, Some(id), base + 1);
      HereStays(r, program, decode, rest, frame, base);
  }

  /** A loud line, and what follows it. */
  lemma LoudLine<E>(r: Reader, program: string, decode: Decode<E>, token: Token, rest: Trace, frame: Option<string>, base: nat)
    requires (token.Close? || token.Invoke?) && Followed(r, token, rest) && Shown(rest) && base > 0
    ensures var next := Moved(HERE, base, token);
            && Output(r, program, decode, rest, frame, base + 1, base, next) == []
            && PlaceAfter(r, rest, base + 1, base, next) != HERE
  {
    if Moved(HERE, base, token) == LOST {
      if token.Invoke? {
        QuietIsMute(r, rest);
      }
      LostStays(r, program, decode, rest, frame, base + 1, base);
    } else {
      assert Moved(HERE, base, token) == Place(true, [token.id]);
      ExtraStays(r, program, decode, rest, frame, base, token.id);
    }
  }

  /** From a loud line on, a spoiled invocation yields nothing. */
  lemma {:induction false} SpoiledOutput<E>(r: Reader, alien: Aliens, program: string, decode: Decode<E>, t: Trace,
      frame: Option<string>, base: nat)
    requires Fair(r, alien, t) && Spoiled(r, t) && Shown(t) && base > 0 && base + Depth(t) <= MAX_STACK_DEPTH
    ensures Output(r, program, decode, t, frame, base + 1, base, HERE) == Kept(r, program, decode, t, frame)
    ensures PlaceAfter(r, t, base + 1, base, HERE) != HERE
    decreases t
  {
    match t
    case Done =>
    case Data(text, rest) =>
      if LoudData(r, text) {
        LoudLine(r, program, decode, r.data(text), rest, frame, base);
      } else {
        SpoiledOutput(r, alien, program, decode, rest, frame, base);
      }
    case Note(line, rest) =>
      if LoudNote(r, line) {
        LoudLine(r, program, decode, r.note(line), rest, frame, base);
      } else {
        SpoiledOutput(r, alien, program, decode, rest, frame, base);
      }
    case Call(id, _, body, _, rest) =>
      if IsQuiet(r, body) {
        HereStays(r, program, decode, body, Some(id), base + 1);
        SpoiledOutput(r, alien, program, decode, rest, frame, base);
      } else {
        SpoiledOutput(r, alien, program, decode, body, Some(id), base + 1);
        LostStays(r, program, decode, rest, frame, base + 1, base);
      }
  }

  // ---- Whole logs ----

  /** Every top-level invocation is quiet or spoiled. */
  predicate EachSpoiledOnce(r: Reader, t: Trace) {
    t.Call? ==> (IsQuiet(r, t.body) || Spoiled(r, t.body)) && EachSpoiledOnce(r, t.rest)
  }

  /** What the decoder keeps of a whole log. */
  function AllKept<E>(r: Reader, program: string, decode: Decode<E>, t: Trace): seq<E> {
    if !t.Call? then []
    else Kept(r, program, decode, Call(t.id, t.shown, t.body, t.failure, Done), None) + AllKept(r, program, decode, t.rest)
  }

  /** In no top-level invocation does an event follow a loud line. */
  predicate NothingLost<E>(r: Reader, program: string, decode: Decode<E>, t: Trace) {
    t.Call? ==> SilentAfter(r, program, decode, t.body, Some(t.id)) && NothingLost(r, program, decode, t.rest)
  }

  lemma {:induction false} TopOutput<E>(r: Reader, alien: Aliens, program: string, decode: Decode<E>, t: Trace, p: Place)
    requires TopLevel(t) && Fair(r, alien, t) && Shown(t) && EachSpoiledOnce(r, t) && Depth(t) <= MAX_STACK_DEPTH
    requires p == HERE || p == LOST
    ensures Output(r, program, decode, t, None, 1, 0, p) == AllKept(r, program, decode, t)
    decreases t
  {
    if t.Done? {
    } else {
      if IsQuiet(r, t.body) {
        HereStays(r, program, decode, t.body, Some(t.id), 1);
      } else {
        SpoiledOutput(r, alien, program, decode, t.body, Some(t.id), 1);
      }
      KeptOfOne(r, program, decode, t);
      TopOutput(r, alien, program, decode, t.rest, if ComesBack(r, t.shown, t.body, 1, Height(p, 0)) then p else LOST);
    }
  }

  lemma {:induction false} AllKeptIff<E>(r: Reader, program: string, decode: Decode<E>, t: Trace)
    requires TopLevel(t)
    ensures |AllKept(r, program, decode, t)| <= |Events(program, decode, t, None)|
    ensures |AllKept(r, program, decode, t)| == |Events(program, decode, t, None)| <==> NothingLost(r, program, decode, t)
    ensures NothingLost(r, program, decode, t) ==> AllKept(r, program, decode, t) == Events(program, decode, t, None)
    decreases t
  {
    if t.Done? {
    } else {
      AllKeptIff(r, program, decode, t.rest);
      KeptIsAllIff(r, program, decode, t.body, Some(t.id));
      KeptOfOne(r, program, decode, t);
    }
  }

  lemma KeptOfOne<E>(r: Reader, program: string, decode: Decode<E>, t: Trace)
    requires t.Call?
    ensures var one := Kept(r, program, decode, Call(t.id, t.shown, t.body, t.failure, Done), None);
            one == if IsQuiet(r, t.body) then Events(program, decode, t.body, Some(t.id))
                   else Kept(r, program, decode, t.body, Some(t.id))
    ensures IsQuiet(r, t.body) ==> SilentAfter(r, program, decode, t.body, Some(t.id))
  {
    if IsQuiet(r, t.body) {
      QuietIsSilentAfter(r, program, decode, t.body, Some(t.id));
    }
  }

  lemma {:induction false} QuietIsSilentAfter<E>(r: Reader, program: string, decode: Decode<E>, t: Trace, frame: Option<string>)
    requires IsQuiet(r, t)
    ensures SilentAfter(r, program, decode, t, frame)
    decreases t
  {
    match t
    case Done =>
    case Data(_, rest) => QuietIsSilentAfter(r, program, decode, rest, frame);
    case Note(_, rest) => QuietIsSilentAfter(r, program, decode, rest, frame);
    case Call(_, _, _, _, rest) => QuietIsSilentAfter(r, program, decode, rest, frame);
  }
}
