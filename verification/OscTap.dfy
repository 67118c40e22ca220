/**
 The OSC tap: it observes `OSC 7` and `OSC 133` in the byte stream and hides
 nothing, so every byte given to it is given back.
 */
module OscTap {
  import opened Base
  import Streams

  const ESC: byte := 0x1b
  const BEL: byte := 0x07
  const BRACKET: byte := 0x5d
  const BACKSLASH: byte := 0x5c
  const MAX_BODY: nat := 8 * 1024

  datatype PromptMarker =
    | PromptStart
    | CommandStart
    | OutputStart
    | CommandEnd(exitCode: Option<int>)

  datatype OscEvent =
    | WorkingDirectory(path: string)
    | Prompt(marker: PromptMarker)

  /** Decoding of a completed body; `None` for a sequence that is somebody else's. */
  type Decoder = seq<byte> -> Option<OscEvent>

  datatype State =
    | Ground
    | Escape
    | Body(body: seq<byte>, esc: bool)

  /** The tap's carried state: the machine and the count of abandoned sequences. */
  datatype Osc = Osc(state: State, dropped: nat)

  function Finish(decode: Decoder, body: seq<byte>): seq<OscEvent> {
    match decode(body)
    case Some(event) => [event]
    case None => []
  }

  function Step(decode: Decoder, o: Osc, b: byte): (Osc, seq<OscEvent>) {
    match o.state
    case Ground =>
      (if b == ESC then o.(state := Escape) else o, [])
    case Escape =>
      (o.(state := if b == BRACKET then Body([], false) else if b == ESC then Escape else Ground), [])
    case Body(body, esc) =>
      if esc then
        if b == BACKSLASH then (o.(state := Ground), Finish(decode, body))
        else if b == ESC then (o, [])
        else (Osc(Ground, o.dropped + 1), [])
      else if b == BEL then (o.(state := Ground), Finish(decode, body))
      else if b == ESC then (o.(state := Body(body, true)), [])
      else if |body| >= MAX_BODY then (Osc(Ground, o.dropped + 1), [])
      else (o.(state := Body(body + [b], false)), [])
  }

  function Stepper(decode: Decoder): (Osc, byte) -> (Osc, seq<OscEvent>) {
    (o, b) => Step(decode, o, b)
  }

  function Run(decode: Decoder, o: Osc, input: seq<byte>): (Osc, seq<OscEvent>) {
    Streams.Run(Stepper(decode), o, input)
  }

  lemma RunSnoc(decode: Decoder, o: Osc, a: seq<byte>, b: byte)
    ensures var (mid, events) := Run(decode, o, a);
            var (o', last) := Step(decode, mid, b);
            && Run(decode, o, a + [b]) == (o', events + last)
            && (events == [] ==> events + last == last)
  {
    Streams.RunSnoc(Stepper(decode), o, a, b);
  }

  lemma RunAppend(decode: Decoder, o: Osc, a: seq<byte>, b: seq<byte>)
    ensures var (mid, events) := Run(decode, o, a);
            var (end, more) := Run(decode, mid, b);
            Run(decode, o, a + b) == (end, events + more)
  {
    Streams.RunAppend(Stepper(decode), o, a, b);
  }

  // ---- What is recognised ----

  /** A run that finds nothing, before another. */
  lemma QuietThen(decode: Decoder, o: Osc, a: seq<byte>, mid: Osc, b: seq<byte>)
    requires Run(decode, o, a) == (mid, [])
    ensures Run(decode, o, a + b) == Run(decode, mid, b)
  {
    RunAppend(decode, o, a, b);
    assert [] + Run(decode, mid, b).1 == Run(decode, mid, b).1;
  }

  lemma RunOne(decode: Decoder, o: Osc, b: byte)
    ensures Run(decode, o, [b]) == Step(decode, o, b)
  {
    RunSnoc(decode, o, [], b);
    assert [] + [b] == [b] && [] + Step(decode, o, b).1 == Step(decode, o, b).1;
  }

  function Escapes(n: nat): seq<byte> {
    seq(n, _ => ESC)
  }

  lemma EscapesSnoc(n: nat)
    requires n > 0
    ensures Escapes(n) == Escapes(n - 1) + [ESC]
  {
  }

  /** `ESC ]`, or more ESCs before the bracket. */
  function Introducer(escapes: nat): seq<byte> {
    Escapes(escapes) + [BRACKET]
  }

  /** BEL, or a backslash behind at least one ESC. */
  predicate Terminator(t: seq<byte>) {
    t == [BEL] || (|t| >= 2 && t == Escapes(|t| - 1) + [BACKSLASH])
  }

  /** What ends no body. */
  predicate Plain(body: seq<byte>) {
    ESC !in body && BEL !in body
  }

  /** Text is only text. */
  lemma {:induction false} TextIsQuiet(decode: Decoder, n: nat, text: seq<byte>)
    requires ESC !in text
    ensures Run(decode, Osc(Ground, n), text) == (Osc(Ground, n), [])
  {
    if text != [] {
      var front, b := text[..|text| - 1], text[|text| - 1];
      TextIsQuiet(decode, n, front);
      RunSnoc(decode, Osc(Ground, n), front, b);
      assert text == front + [b];
    }
  }

  /** Any number of ESCs in a row promise an introducer. */
  lemma {:induction false} EscapesPromise(decode: Decoder, n: nat, escapes: nat)
    requires escapes > 0
    ensures Run(decode, Osc(Ground, n), Escapes(escapes)) == (Osc(Escape, n), [])
  {
    EscapesSnoc(escapes);
    RunSnoc(decode, Osc(Ground, n), Escapes(escapes - 1), ESC);
    if escapes > 1 {
      EscapesPromise(decode, n, escapes - 1);
    } else {
      assert Escapes(0) == [];
    }
  }

  lemma Introduced(decode: Decoder, n: nat, escapes: nat)
    requires escapes > 0
    ensures Run(decode, Osc(Ground, n), Introducer(escapes)) == (Osc(Body([], false), n), [])
  {
    EscapesPromise(decode, n, escapes);
    RunSnoc(decode, Osc(Ground, n), Escapes(escapes), BRACKET);
  }

  /** An ESC before anything else promised nothing. */
  lemma EscapedByte(decode: Decoder, n: nat, escapes: nat, b: byte)
    requires escapes > 0 && b != ESC && b != BRACKET
    ensures Run(decode, Osc(Ground, n), Escapes(escapes) + [b]) == (Osc(Ground, n), [])
  {
    EscapesPromise(decode, n, escapes);
    RunSnoc(decode, Osc(Ground, n), Escapes(escapes), b);
  }

  /** A body grows to the bound; one byte more and it is dropped, the rest being text. */
  lemma {:induction false} BodyGrows(decode: Decoder, n: nat, body: seq<byte>)
    requires Plain(body)
    ensures Run(decode, Osc(Body([], false), n), body)
         == if |body| <= MAX_BODY then (Osc(Body(body, false), n), []) else (Osc(Ground, n + 1), [])
  {
    if body != [] {
      var front, b := body[..|body| - 1], body[|body| - 1];
      BodyGrows(decode, n, front);
      RunSnoc(decode, Osc(Body([], false), n), front, b);
      assert body == front + [b];
    }
  }

  /** ESCs inside a body leave it waiting for its backslash. */
  lemma {:induction false} EscapesPend(decode: Decoder, n: nat, body: seq<byte>, escapes: nat)
    requires escapes > 0
    ensures Run(decode, Osc(Body(body, false), n), Escapes(escapes)) == (Osc(Body(body, true), n), [])
  {
    EscapesSnoc(escapes);
    RunSnoc(decode, Osc(Body(body, false), n), Escapes(escapes - 1), ESC);
    if escapes > 1 {
      EscapesPend(decode, n, body, escapes - 1);
    } else {
      assert Escapes(0) == [];
    }
  }

  lemma Terminates(decode: Decoder, n: nat, body: seq<byte>, end: seq<byte>)
    requires Terminator(end)
    ensures Run(decode, Osc(Body(body, false), n), end)
         == (Osc(Ground, n), match decode(body) { case Some(event) => [event] case None => [] })
  {
    if end == [BEL] {
      RunOne(decode, Osc(Body(body, false), n), BEL);
    } else {
      EscapesPend(decode, n, body, |end| - 1);
      QuietThen(decode, Osc(Body(body, false), n), Escapes(|end| - 1), Osc(Body(body, true), n), [BACKSLASH]);
      RunOne(decode, Osc(Body(body, true), n), BACKSLASH);
    }
  }

  lemma TerminatorIsText(decode: Decoder, n: nat, end: seq<byte>)
    requires Terminator(end)
    ensures Run(decode, Osc(Ground, n), end) == (Osc(Ground, n), [])
  {
    if end == [BEL] {
      TextIsQuiet(decode, n, end);
    } else {
      EscapedByte(decode, n, |end| - 1, BACKSLASH);
    }
  }

  lemma AfterBody(decode: Decoder, n: nat, escapes: nat, body: seq<byte>, end: seq<byte>)
    requires escapes > 0 && Plain(body)
    ensures Run(decode, Osc(Ground, n), Introducer(escapes) + body + end)
         == if |body| <= MAX_BODY then Run(decode, Osc(Body(body, false), n), end) else Run(decode, Osc(Ground, n + 1), end)
  {
    Introduced(decode, n, escapes);
    QuietThen(decode, Osc(Ground, n), Introducer(escapes), Osc(Body([], false), n), body);
    BodyGrows(decode, n, body);
    var mid := if |body| <= MAX_BODY then Osc(Body(body, false), n) else Osc(Ground, n + 1);
    QuietThen(decode, Osc(Ground, n), Introducer(escapes) + body, mid, end);
  }

  /** A whole sequence, from ground back to ground: its body within the bound is handed
      to the decoder, whose event is the one found; a longer one is dropped and
      counted once. */
  lemma SequenceIsFound(decode: Decoder, n: nat, escapes: nat, body: seq<byte>, end: seq<byte>)
    requires escapes > 0 && Plain(body) && Terminator(end)
    ensures Run(decode, Osc(Ground, n), Introducer(escapes) + body + end)
         == if |body| > MAX_BODY then (Osc(Ground, n + 1), [])
            else (Osc(Ground, n), match decode(body) { case Some(event) => [event] case None => [] })
  {
    AfterBody(decode, n, escapes, body, end);
    if |body| <= MAX_BODY {
      Terminates(decode, n, body, end);
    } else {
      TerminatorIsText(decode, n + 1, end);
    }
  }

  /** An ESC inside a body, with another byte than the terminator's behind it: the
      sequence is dropped, counted once, and that byte opens nothing. */
  lemma EscapeAbandons(decode: Decoder, n: nat, escapes: nat, body: seq<byte>, pending: nat, b: byte)
    requires escapes > 0 && Plain(body) && |body| <= MAX_BODY && pending > 0 && b != ESC && b != BACKSLASH
    ensures Run(decode, Osc(Ground, n), Introducer(escapes) + body + (Escapes(pending) + [b])) == (Osc(Ground, n + 1), [])
  {
    AfterBody(decode, n, escapes, body, Escapes(pending) + [b]);
    EscapesPend(decode, n, body, pending);
    QuietThen(decode, Osc(Body(body, false), n), Escapes(pending), Osc(Body(body, true), n), [b]);
    RunOne(decode, Osc(Body(body, true), n), b);
  }

  /** The tap as the emulator owns it. */
  class Tap {
    const decode: Decoder
    var state: State
    var dropped: nat

    constructor (decode: Decoder)
      ensures this.decode == decode && Value() == Osc(Ground, 0)
    {
      this.decode := decode;
      state := Ground;
      dropped := 0;
    }

    function Value(): Osc
      reads this
    {
      Osc(state, dropped)
    }

    /** Observe `input`, passing every byte on. */
    method Observe(input: seq<byte>) returns (passthrough: seq<byte>, events: seq<OscEvent>)
      modifies this
      ensures passthrough == input
      ensures (Value(), events) == Run(decode, old(Value()), input)
    {
      passthrough, events := [], [];
      for i := 0 to |input|
        invariant passthrough == input[..i]
        invariant (Value(), events) == Run(decode, old(Value()), input[..i])
      {
        var b := input[i];
        RunSnoc(decode, old(Value()), input[..i], b);
        assert input[..i + 1] == input[..i] + [b];
        passthrough := passthrough + [b];
        var found := Push(b);
        events := events + found;
      }
      assert input[..|input|] == input;
    }

    /** The loop's body: the transition on one byte. */
    method Push(b: byte) returns (found: seq<OscEvent>)
      modifies this
      ensures (Value(), found) == Step(decode, old(Value()), b)
    {
      found := [];
      match state {
        case Ground =>
          if b == ESC {
            state := Escape;
          }
        case Escape =>
          if b == BRACKET {
            state := Body([], false);
          } else if b != ESC {
            state := Ground;
          }
        case Body(body, esc) =>
          if esc {
            if b == BACKSLASH {
              found := Finish(decode, body);
              state := Ground;
            } else if b != ESC {
              dropped := dropped + 1;
              state := Ground;
            }
          } else if b == BEL {
            found := Finish(decode, body);
            state := Ground;
          } else if b == ESC {
            state := Body(body, true);
          } else if |body| >= MAX_BODY {
            dropped := dropped + 1;
            state := Ground;
          } else {
            state := Body(body + [b], false);
          }
      }
    }
  }
}
