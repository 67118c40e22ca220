/**
 The shell-integration hook tap: a byte machine that lifts our own envelopes
 (`ESC P $ d <hex> ESC \`) out of the pty stream and lets every other byte pass.

 `Scan` is the machine's meaning: the stream is cut, in order, into items that
 passed, envelopes that decoded and envelopes that were dropped. The class
 `Tap` is the loop the reader thread runs.
 */
module HookTap {
  import opened Base
  import Streams

  const ESC: byte := 0x1b
  const PREFIX: seq<byte> := [0x1b, 0x50, 0x24, 0x64]
  const BACKSLASH: byte := 0x5c
  const MAX_BODY: nat := 64 * 1024

  datatype HookEvent =
    | InitShell(sessionId: Option<string>, shell: Option<string>, host: Option<string>,
                cwd: Option<string>, honorPs1: Option<bool>)
    | Bootstrapped(version: Option<string>)
    | Precmd(prompt: PromptFacts)
    | Preexec(command: Option<string>)
    | CommandFinished(exitCode: int, nextBlockId: Option<string>)
    | InputBuffer(buffer: string, cursor: Option<nat>)
    | Clear

  datatype PromptFacts = PromptFacts(
    pwd: Option<string>, gitBranch: Option<string>, rprompt: Option<string>,
    sessionId: Option<string>, virtualEnv: Option<string>, condaEnv: Option<string>,
    nodeVersion: Option<string>, honorPs1: Option<bool>)

  /** Hex and JSON decoding of an envelope's body. */
  type Decoder = seq<byte> -> Option<HookEvent>

  datatype State =
    | Ground
    | Prefix(held: seq<byte>)
    | Body(body: seq<byte>)

  /** What became of a stretch of the stream. */
  datatype Item =
    | Pass(bytes: seq<byte>)
    | Lifted(raw: seq<byte>, event: HookEvent)
    | Dropped(raw: seq<byte>)

  /** Whether the string terminator, ESC and a backslash, ends `s`. */
  predicate Terminated(s: seq<byte>) {
    |s| >= 2 && s[|s| - 2] == ESC && s[|s| - 1] == BACKSLASH
  }

  /** The transition on one byte, with the item the byte completes, if any. */
  function Step(decode: Decoder, state: State, b: byte): (State, seq<Item>) {
    match state
    case Ground =>
      if b == ESC then (Prefix([b]), []) else (Ground, [Pass([b])])
    case Prefix(held) =>
      var p := held + [b];
      if !(p <= PREFIX) then (Ground, [Pass(p)])
      else if |p| == |PREFIX| then (Body([]), [])
      else (Prefix(p), [])
    case Body(body) =>
      var afterEscape := body != [] && body[|body| - 1] == ESC;
      var full := body + [b];
      if Terminated(full) then
        match decode(full[..|full| - 2])
        case Some(event) => (Ground, [Lifted(PREFIX + full, event)])
        case None => (Ground, [Dropped(PREFIX + full)])
      else if (afterEscape && b != BACKSLASH) || |full| > MAX_BODY then
        (Ground, [Dropped(PREFIX + full)])
      else (Body(full), [])
  }

  function Stepper(decode: Decoder): (State, byte) -> (State, seq<Item>) {
    (state, b) => Step(decode, state, b)
  }

  function Scan(decode: Decoder, state: State, input: seq<byte>): (State, seq<Item>) {
    Streams.Run(Stepper(decode), state, input)
  }

  /** What an item lets through to the VT parser. */
  function PassedBytes(item: Item): seq<byte> {
    if item.Pass? then item.bytes else []
  }

  /** The bytes the VT parser gets to see. */
  function Passed(items: seq<Item>): seq<byte> {
    FlatMap(PassedBytes, items)
  }

  /** The hooks, each with the number of passed bytes that precede it. */
  function Hooks(items: seq<Item>): seq<(nat, HookEvent)> {
    if items == [] then []
    else
      var rest, last := items[..|items| - 1], items[|items| - 1];
      if last.Lifted? then Hooks(rest) + [(|Passed(rest)|, last.event)] else Hooks(rest)
  }

  /** The envelopes given up as malformed, oversized or undecodable. */
  function DropMarks(item: Item): seq<Item> {
    if item.Dropped? then [item] else []
  }

  function DropCount(items: seq<Item>): nat {
    |FlatMap(DropMarks, items)|
  }

  /** Every byte an item accounts for. */
  function RawBytes(item: Item): seq<byte> {
    if item.Pass? then item.bytes else item.raw
  }

  function Raw(items: seq<Item>): seq<byte> {
    FlatMap(RawBytes, items)
  }

  /** The bytes a state holds back until it knows what they are. */
  function Held(state: State): seq<byte> {
    match state
    case Ground => []
    case Prefix(held) => held
    case Body(body) => PREFIX + body
  }

  lemma ScanSnoc(decode: Decoder, state: State, a: seq<byte>, b: byte)
    ensures var (s, items) := Scan(decode, state, a);
            var (s', last) := Step(decode, s, b);
            && Scan(decode, state, a + [b]) == (s', items + last)
            && (last == [] ==> items + last == items)
            && (items == [] ==> items + last == last)
  {
    Streams.RunSnoc(Stepper(decode), state, a, b);
  }

  /** Scanning in two calls is scanning once: the state carries everything. */
  lemma ScanAppend(decode: Decoder, state: State, a: seq<byte>, b: seq<byte>)
    ensures var (s, items) := Scan(decode, state, a);
            var (s', items') := Scan(decode, s, b);
            Scan(decode, state, a + b) == (s', items + items')
  {
    Streams.RunAppend(Stepper(decode), state, a, b);
  }

  lemma ScanCons(decode: Decoder, state: State, b: byte, rest: seq<byte>)
    ensures var (s, first) := Step(decode, state, b);
            var (s', items) := Scan(decode, s, rest);
            && Scan(decode, state, [b] + rest) == (s', first + items)
            && (first == [] ==> first + items == items)
            && (items == [] ==> first + items == first)
  {
    ScanAppend(decode, state, [b], rest);
    ScanSnoc(decode, state, [], b);
    assert [] + [b] == [b];
    var (s, first) := Step(decode, state, b);
    assert [] + first == first;
  }

  /** No byte is lost, repeated or reordered: what was held plus the input is
      what the items account for plus what is held now. */
  lemma {:induction false} ScanConserves(decode: Decoder, state: State, input: seq<byte>)
    ensures var (s, items) := Scan(decode, state, input);
            Held(state) + input == Raw(items) + Held(s)
  {
    if input == [] {
    } else {
      var rest, b := input[..|input| - 1], input[|input| - 1];
      ScanConserves(decode, state, rest);
      var (s, items) := Scan(decode, state, rest);
      var (s', last) := Step(decode, s, b);
      StepConserves(decode, s, b);
      FlatMapAppend(RawBytes, items, last);
      Regroup(Held(state), rest, b, Raw(items), Held(s), Raw(last), Held(s'));
      assert input == rest + [b];
    }
  }

  lemma Regroup(h: seq<byte>, rest: seq<byte>, b: byte, raw: seq<byte>, hs: seq<byte>, last: seq<byte>, h': seq<byte>)
    requires h + rest == raw + hs
    requires hs + [b] == last + h'
    ensures h + (rest + [b]) == (raw + last) + h'
  {
    assert h + (rest + [b]) == (h + rest) + [b];
    assert (raw + hs) + [b] == raw + (hs + [b]);
    assert raw + (last + h') == (raw + last) + h';
  }

  lemma RawOne(item: Item)
    ensures Raw([item]) == RawBytes(item)
  {
    FlatMapOne(RawBytes, [], item);
    assert [] + [item] == [item] && [] + RawBytes(item) == RawBytes(item);
  }

  lemma StepConserves(decode: Decoder, s: State, b: byte)
    ensures var (s', last) := Step(decode, s, b);
            Held(s) + [b] == Raw(last) + Held(s')
  {
    var (s', last) := Step(decode, s, b);
    if last != [] {
      RawOne(last[0]);
      assert last == [last[0]];
      assert s'.Ground? && RawBytes(last[0]) == Held(s) + [b] by {
        StepGivesAll(decode, s, b);
      }
    } else if s.Body? {
      assert s' == Body(s.body + [b]);
      assert (PREFIX + s.body) + [b] == PREFIX + (s.body + [b]);
    } else if s'.Body? {
      assert Held(s) + [b] == PREFIX;
    }
  }

  /** A step that completes an item accounts for everything held. */
  lemma StepGivesAll(decode: Decoder, s: State, b: byte)
    requires Step(decode, s, b).1 != []
    ensures var (s', last) := Step(decode, s, b);
            s'.Ground? && RawBytes(last[0]) == Held(s) + [b]
  {
    if s.Ground? {
      assert Held(s) + [b] == [b];
    } else if s.Body? {
      assert (PREFIX + s.body) + [b] == PREFIX + (s.body + [b]);
    }
  }

  /** A body the tap can close: no ESC inside it and room for the terminator. */
  ghost predicate PlainBody(body: seq<byte>) {
    ESC !in body
  }

  function Envelope(body: seq<byte>): seq<byte> {
    PREFIX + body + [ESC, BACKSLASH]
  }

  /** From which states an envelope's introducer is recognised: only from ground.
      An ESC already held hides the envelope behind it. */
  lemma PrefixRecognised(decode: Decoder, state: State)
    requires state.Prefix? ==> state.held != [] && state.held < PREFIX
    ensures Scan(decode, state, PREFIX).0 == Body([]) <==> state == Ground
    ensures state == Ground ==> Scan(decode, state, PREFIX) == (Body([]), [])
  {
    if state == Ground {
      IntroducerFromGround(decode);
    } else {
      var (s, items) := Step(decode, state, ESC);
      AfterEscape(decode, state);
      assert PREFIX == [ESC] + PREFIX[1..];
      ScanCons(decode, state, ESC, PREFIX[1..]);
      if s == Ground {
        TailFromGround(decode);
      } else {
        assert PREFIX[1..] == [PREFIX[1]] + PREFIX[2..];
        ScanCons(decode, s, PREFIX[1], PREFIX[2..]);
        TailFromGround(decode);
      }
    }
  }

  /** What is held after `k` bytes of the introducer. */
  function Introducing(k: nat): State
    requires k <= |PREFIX|
  {
    if k == 0 then Ground else if k == |PREFIX| then Body([]) else Prefix(PREFIX[..k])
  }

  lemma IntroducingStep(decode: Decoder, k: nat)
    requires k < |PREFIX|
    ensures Step(decode, Introducing(k), PREFIX[k]) == (Introducing(k + 1), [])
  {
    var p := PREFIX[..k + 1];
    assert PREFIX[..k] + [PREFIX[k]] == p && p <= PREFIX;
    if k == 0 {
      assert [PREFIX[0]] == p;
    }
  }

  lemma {:induction false} IntroducingScan(decode: Decoder, k: nat)
    requires k <= |PREFIX|
    ensures Scan(decode, Ground, PREFIX[..k]) == (Introducing(k), [])
  {
    if k == 0 {
      assert PREFIX[..0] == [];
    } else {
      IntroducingScan(decode, k - 1);
      IntroducingStep(decode, k - 1);
      ScanSnoc(decode, Ground, PREFIX[..k - 1], PREFIX[k - 1]);
      assert PREFIX[..k - 1] + [PREFIX[k - 1]] == PREFIX[..k];
    }
  }

  lemma IntroducerFromGround(decode: Decoder)
    ensures Scan(decode, Ground, PREFIX) == (Body([]), [])
  {
    IntroducingScan(decode, |PREFIX|);
    assert PREFIX[..|PREFIX|] == PREFIX;
  }

  /** Without its ESC the introducer is ordinary text. */
  lemma TailFromGround(decode: Decoder)
    ensures Scan(decode, Ground, PREFIX[1..]) ==
            (Ground, [Pass([PREFIX[1]]), Pass([PREFIX[2]]), Pass([PREFIX[3]])])
    ensures Scan(decode, Ground, PREFIX[2..]) == (Ground, [Pass([PREFIX[2]]), Pass([PREFIX[3]])])
  {
    var p := PREFIX;
    ScanCons(decode, Ground, p[3], []);
    assert [p[3]] + [] == p[3..];
    ScanCons(decode, Ground, p[2], p[3..]);
    assert [p[2]] + p[3..] == p[2..];
    var i3, i2, i1 := Pass([p[3]]), Pass([p[2]]), Pass([p[1]]);
    assert [i2] + [i3] == [i2, i3];
    ScanCons(decode, Ground, p[1], p[2..]);
    assert [p[1]] + p[2..] == p[1..];
    assert [i1] + [i2, i3] == [i1, i2, i3];
  }

  /** An ESC met outside ground either ends what was held, or leaves a body
      that the introducer's `P` then ends. */
  lemma AfterEscape(decode: Decoder, state: State)
    requires state != Ground
    requires state.Prefix? ==> state.held != [] && state.held < PREFIX
    ensures var s := Step(decode, state, ESC).0;
            s != Ground ==> Step(decode, s, PREFIX[1]).0 == Ground
  {
    match state
    case Prefix(held) =>
      var p := held + [ESC];
      assert p[|held|] != PREFIX[|held|];
    case Body(body) =>
  }

  /** A body without ESC is collected whole while it fits. */
  lemma {:induction false} BodyCollects(decode: Decoder, body: seq<byte>)
    requires PlainBody(body) && |body| <= MAX_BODY
    ensures Scan(decode, Body([]), body) == (Body(body), [])
  {
    if body == [] {
    } else {
      var rest, x := body[..|body| - 1], body[|body| - 1];
      BodyCollects(decode, rest);
      assert body == rest + [x];
      ScanSnoc(decode, Body([]), rest, x);
      assert forall k :: 0 <= k < |body| ==> body[k] in body;
    }
  }

  /** An envelope met in ground state is lifted whole, passing nothing, exactly
      when its body is shorter than the bound (and decodes). A body of exactly
      MAX_BODY bytes is within what the decoder accepts, yet is cut off when the
      terminator's ESC is pushed, and the closing backslash reaches the screen. */
  lemma EnvelopeLifted(decode: Decoder, body: seq<byte>)
    requires PlainBody(body) && |body| <= MAX_BODY
    ensures Scan(decode, Ground, Envelope(body)) ==
            if |body| == MAX_BODY then
              (Ground, [Dropped(PREFIX + body + [ESC]), Pass([BACKSLASH])])
            else match decode(body)
              case Some(event) => (Ground, [Lifted(Envelope(body), event)])
              case None => (Ground, [Dropped(Envelope(body))])
  {
    IntroducerFromGround(decode);
    BodyCollects(decode, body);
    ScanAppend(decode, Ground, PREFIX, body);
    var start := PREFIX + body;
    assert Scan(decode, Ground, start) == (Body(body), [] + []);
    ScanSnoc(decode, Ground, start, ESC);
    ScanSnoc(decode, Ground, start + [ESC], BACKSLASH);
    assert start + [ESC] + [BACKSLASH] == Envelope(body);
    CloseBody(decode, body);
    if |body| == MAX_BODY {
      assert [Dropped(start + [ESC])] + [Pass([BACKSLASH])] == [Dropped(start + [ESC]), Pass([BACKSLASH])];
    }
  }

  /** The terminator's two bytes, met after a plain body. */
  lemma CloseBody(decode: Decoder, body: seq<byte>)
    requires PlainBody(body) && |body| <= MAX_BODY
    ensures Step(decode, Body(body), ESC) ==
            if |body| == MAX_BODY then (Ground, [Dropped(PREFIX + body + [ESC])]) else (Body(body + [ESC]), [])
    ensures Step(decode, Body(body + [ESC]), BACKSLASH) ==
            match decode(body)
              case Some(event) => (Ground, [Lifted(Envelope(body), event)])
              case None => (Ground, [Dropped(Envelope(body))])
  {
    assert forall k :: 0 <= k < |body| ==> body[k] in body;
    var full := body + [ESC];
    assert PREFIX + full == PREFIX + body + [ESC];
    var closed := full + [BACKSLASH];
    assert closed[..|closed| - 2] == body;
    assert PREFIX + closed == Envelope(body);
  }

  /** The stream `ESC` followed by an introducer: the held ESC makes the
      introducer unrecognisable and all of it reaches the screen. */
  lemma EscapeHidesEnvelope(decode: Decoder)
    ensures Scan(decode, Ground, [ESC] + PREFIX) ==
            (Ground, [Pass([ESC, ESC]), Pass([PREFIX[1]]), Pass([PREFIX[2]]), Pass([PREFIX[3]])])
  {
    assert PREFIX == [ESC] + PREFIX[1..];
    ScanCons(decode, Ground, ESC, PREFIX);
    ScanCons(decode, Prefix([ESC]), ESC, PREFIX[1..]);
    TailFromGround(decode);
    var p := [ESC] + [ESC];
    assert p == [ESC, ESC] && p[1] != PREFIX[1];
    var tail := [Pass([PREFIX[1]]), Pass([PREFIX[2]]), Pass([PREFIX[3]])];
    assert [Pass(p)] + tail == [Pass([ESC, ESC]), tail[0], tail[1], tail[2]];
  }

  /** Text without an ESC passes, and leaves the tap where it was. */
  lemma {:induction false} TextPasses(decode: Decoder, text: seq<byte>)
    requires ESC !in text
    ensures var (s, items) := Scan(decode, Ground, text);
            s == Ground && Passed(items) == text && FlatMap(DropMarks, items) == [] && Hooks(items) == []
  {
    if text != [] {
      var rest, b := text[..|text| - 1], text[|text| - 1];
      TextPasses(decode, rest);
      assert text == rest + [b];
      ScanSnoc(decode, Ground, rest, b);
      ItemsGrow(Scan(decode, Ground, rest).1, [Pass([b])]);
    }
  }

  /** The start of an introducer, and a byte that does not go on with it: all of it passes. */
  lemma BrokenIntroducer(decode: Decoder, k: nat, b: byte)
    requires 0 < k < |PREFIX| && b != PREFIX[k]
    ensures Scan(decode, Ground, PREFIX[..k] + [b]) == (Ground, [Pass(PREFIX[..k] + [b])])
  {
    IntroducingScan(decode, k);
    ScanSnoc(decode, Ground, PREFIX[..k], b);
    var p := PREFIX[..k] + [b];
    assert p[k] == b && !(p <= PREFIX);
  }

  /** The introducer and a plain body that fits are held back. */
  lemma BodyIsHeld(decode: Decoder, body: seq<byte>)
    requires PlainBody(body) && |body| <= MAX_BODY
    ensures Scan(decode, Ground, PREFIX + body) == (Body(body), [])
  {
    IntroducerFromGround(decode);
    BodyCollects(decode, body);
    ScanAppend(decode, Ground, PREFIX, body);
    var none: seq<Item> := [];
    assert none + none == none;
  }

  /** An ESC inside a body with another byte than the terminator's behind it: the whole
      is dropped, and counted once. */
  lemma BrokenEnvelope(decode: Decoder, body: seq<byte>, b: byte)
    requires PlainBody(body) && |body| < MAX_BODY && b != BACKSLASH
    ensures Scan(decode, Ground, PREFIX + body + [ESC] + [b]) == (Ground, [Dropped(PREFIX + body + [ESC] + [b])])
  {
    BodyIsHeld(decode, body);
    CloseBody(decode, body);
    ScanSnoc(decode, Ground, PREFIX + body, ESC);
    ScanSnoc(decode, Ground, PREFIX + body + [ESC], b);
    assert PREFIX + (body + [ESC] + [b]) == PREFIX + body + [ESC] + [b];
  }

  /** A body that is too long is dropped at its first byte over the bound. */
  lemma LongBodyDropped(decode: Decoder, body: seq<byte>, b: byte)
    requires PlainBody(body) && |body| == MAX_BODY && b != ESC
    ensures Scan(decode, Ground, PREFIX + body + [b]) == (Ground, [Dropped(PREFIX + body + [b])])
  {
    BodyIsHeld(decode, body);
    ScanSnoc(decode, Ground, PREFIX + body, b);
    assert body[|body| - 1] in body;
    assert (body + [b])[|body| - 1] == body[|body| - 1];
    assert PREFIX + (body + [b]) == PREFIX + body + [b];
  }

  /** The tap as the emulator owns it. */
  class Tap {
    const decode: Decoder
    var state: State
    var dropped: nat

    constructor (decode: Decoder)
      ensures this.decode == decode && state == Ground && dropped == 0
    {
      this.decode := decode;
      state := Ground;
      dropped := 0;
    }

    /** Split `input` into an empty buffer, as the emulator does per chunk. Each
        hook carries the buffer offset it appeared at. */
    method TapOrdered(input: seq<byte>)
      returns (passthrough: seq<byte>, hooks: seq<(nat, HookEvent)>)
      modifies this
      ensures var (s, items) := Scan(decode, old(state), input);
              && state == s
              && passthrough == Passed(items)
              && hooks == Hooks(items)
              && dropped == old(dropped) + DropCount(items)
    {
      passthrough, hooks := [], [];
      ghost var items: seq<Item> := [];
      for i := 0 to |input|
        invariant (state, items) == Scan(decode, old(state), input[..i])
        invariant passthrough == Passed(items)
        invariant hooks == Hooks(items)
        invariant dropped == old(dropped) + DropCount(items)
      {
        ghost var last := Step(decode, state, input[i]).1;
        assert input[..i + 1] == input[..i] + [input[i]];
        ScanSnoc(decode, old(state), input[..i], input[i]);
        ItemsGrow(items, last);
        items := items + last;
        var released, hook := Push(input[i]);
        passthrough := passthrough + released;
        if hook.Some? {
          hooks := hooks + [(|passthrough|, hook.value)];
        }
      }
      assert input[..|input|] == input;
    }

    /** The loop's body: what one byte releases, and the hook it completes. */
    method Push(b: byte) returns (released: seq<byte>, hook: Option<HookEvent>)
      modifies this
      ensures var (s, last) := Step(decode, old(state), b);
              && state == s
              && released == (if last == [] then [] else PassedBytes(last[0]))
              && hook == (if last != [] && last[0].Lifted? then Some(last[0].event) else None)
              && dropped == old(dropped) + (if last != [] && last[0].Dropped? then 1 else 0)
    {
      released, hook := [], None;
      match state {
        case Ground =>
          if b == ESC {
            state := Prefix([ESC]);
          } else {
            released := [b];
          }
        case Prefix(held) =>
          var prefix := held + [b];
          if !(prefix <= PREFIX) {
            released := prefix;
            state := Ground;
          } else if |prefix| == |PREFIX| {
            state := Body([]);
          } else {
            state := Prefix(prefix);
          }
        case Body(body) =>
          var afterEscape := body != [] && body[|body| - 1] == ESC;
          var full := body + [b];
          state := Body(full);
          if Terminated(full) {
            hook := decode(full[..|full| - 2]);
            if hook.None? {
              dropped := dropped + 1;
            }
            state := Ground;
          } else if afterEscape && b != BACKSLASH {
            dropped := dropped + 1;
            state := Ground;
          } else if |full| > MAX_BODY {
            dropped := dropped + 1;
            state := Ground;
          }
      }
    }
  }

  /** How one more byte's items extend what the loop has collected. */
  lemma ItemsGrow(items: seq<Item>, last: seq<Item>)
    requires |last| <= 1
    ensures last == [] ==> items + last == items
    ensures last != [] ==>
              && Passed(items + last) == Passed(items) + PassedBytes(last[0])
              && Hooks(items + last) ==
                 (if last[0].Lifted? then Hooks(items) + [(|Passed(items)|, last[0].event)] else Hooks(items))
              && DropCount(items + last) == DropCount(items) + (if last[0].Dropped? then 1 else 0)
  {
    if last != [] {
      assert last == [last[0]];
      assert (items + last)[..|items + last| - 1] == items;
      FlatMapOne(PassedBytes, items, last[0]);
      FlatMapOne(DropMarks, items, last[0]);
    }
  }
}
