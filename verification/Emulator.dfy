/**
 The VT state behind a terminal pane: one pty chunk goes through both taps, is
 given to the block list in segments with the hooks applied between them, and
 then whole to the screen.

 The meaning of a chunk is a run of micro steps, one pass-through byte or one
 hook at a time, in stream order. `Emulator.Feed` is proved to perform exactly
 that run, and the run is proved not to depend on where the stream is cut.
 */
module Emulator {
  import opened Base
  import opened Blocks
  import HookTap
  import OscTap
  import Streams

  /** The decoders and the screen interpreter the emulator is built over. */
  datatype Env = Env(hook: HookTap.Decoder, osc: OscTap.Decoder, vt: Vt)

  /** What the micro steps change: everything but the hook tap and the screen. */
  datatype Core = Core(osc: OscTap.Osc, blocks: ValidList, hookEvents: seq<HookTap.HookEvent>,
                       oscEvents: seq<OscTap.OscEvent>, blockEvents: seq<BlockEvent>)

  /** One step of the stream as the blocks see it. */
  datatype Micro = Byte(b: byte) | Hook(event: HookTap.HookEvent)

  function AssociateAll(blocks: BlockList, events: seq<BlockEvent>): (r: BlockList)
    ensures blocks.Valid() ==> r.Valid()
  {
    if events == [] then blocks
    else
      var before := AssociateAll(blocks, events[..|events| - 1]);
      var event := events[|events| - 1];
      if event.BlockStarted? then before.AssociateOwner(event.id) else before
  }

  function StepMicro(env: Env, c: Core, m: Micro): (r: Core)
  {
    match m
    case Byte(b) =>
      var (osc, found) := OscTap.Step(env.osc, c.osc, b);
      c.(osc := osc, oscEvents := c.oscEvents + found, blocks := c.blocks.Feed([b]))
    case Hook(event) =>
      var (blocks, events) := c.blocks.Apply(env.vt, event);
      c.(blocks := AssociateAll(blocks, events), hookEvents := c.hookEvents + [event],
         blockEvents := c.blockEvents + events)
  }

  function Stepper(env: Env): (Core, Micro) -> Core {
    (c, m) => StepMicro(env, c, m)
  }

  function RunMicros(env: Env, c: Core, ms: seq<Micro>): Core {
    Streams.Fold(Stepper(env), c, ms)
  }

  function Bytes(bytes: seq<byte>): seq<Micro> {
    seq(|bytes|, i requires 0 <= i < |bytes| => Byte(bytes[i]))
  }

  function MicrosOf(item: HookTap.Item): seq<Micro> {
    match item
    case Pass(bytes) => Bytes(bytes)
    case Lifted(_, event) => [Hook(event)]
    case Dropped(_) => []
  }

  /** The merge, in stream order, of the bytes that passed and the hooks. */
  function Micros(items: seq<HookTap.Item>): seq<Micro> {
    FlatMap(MicrosOf, items)
  }

  /** The pane's whole VT state. `revision` counts changes of the screen. */
  datatype Pane = Pane(hooks: HookTap.State, hooksDropped: nat, core: Core, screen: Screen, revision: nat)

  /** What feeding one chunk means. */
  function FeedPane(env: Env, p: Pane, chunk: seq<byte>): (r: Pane)
  {
    var (state, items) := HookTap.Scan(env.hook, p.hooks, chunk);
    Pane(state, p.hooksDropped + HookTap.DropCount(items), RunMicros(env, p.core, Micros(items)),
         p.screen.Feed(HookTap.Passed(items)), p.revision + if p.screen.frozen then 0 else 1)
  }

  function FeedAll(env: Env, p: Pane, chunks: seq<seq<byte>>): (r: Pane)
  {
    if chunks == [] then p
    else FeedPane(env, FeedAll(env, p, chunks[..|chunks| - 1]), chunks[|chunks| - 1])
  }

  lemma RunSnoc(env: Env, c: Core, a: seq<Micro>, m: Micro)
    ensures RunMicros(env, c, a + [m]) == StepMicro(env, RunMicros(env, c, a), m)
  {
    Streams.FoldSnoc(Stepper(env), c, a, m);
  }

  lemma RunAppend(env: Env, c: Core, a: seq<Micro>, b: seq<Micro>)
    ensures RunMicros(env, c, a + b) == RunMicros(env, RunMicros(env, c, a), b)
  {
    Streams.FoldAppend(Stepper(env), c, a, b);
  }

  /** One segment given at once, to the OSC tap and then to the blocks. */
  function FeedSegment(env: Env, c: Core, segment: seq<byte>): Core
  {
    var (osc, found) := OscTap.Run(env.osc, c.osc, segment);
    c.(osc := osc, oscEvents := c.oscEvents + found, blocks := c.blocks.Feed(segment))
  }

  /** A segment given at once is the segment given byte by byte. */
  lemma {:induction false} SegmentIsBytes(env: Env, c: Core, segment: seq<byte>)
    ensures RunMicros(env, c, Bytes(segment)) == FeedSegment(env, c, segment)
  {
    if segment == [] {
      assert c.oscEvents + [] == c.oscEvents;
    } else {
      var rest, b := segment[..|segment| - 1], segment[|segment| - 1];
      SegmentIsBytes(env, c, rest);
      assert segment == rest + [b] && Bytes(segment) == Bytes(rest) + [Byte(b)];
      RunSnoc(env, c, Bytes(rest), Byte(b));
      OscTap.RunSnoc(env.osc, c.osc, rest, b);
      FeedAppend(c.blocks, rest, [b]);
      var found := OscTap.Run(env.osc, c.osc, rest).1;
      var last := OscTap.Step(env.osc, OscTap.Run(env.osc, c.osc, rest).0, b).1;
      assert c.oscEvents + (found + last) == (c.oscEvents + found) + last;
    }
  }

  /** The order the cursor loop handles bytes and hooks in, after the first
      `hooks`: the cursor, and the micro steps behind it. */
  function Weave(staged: seq<byte>, hooks: seq<(nat, HookTap.HookEvent)>): (r: (nat, seq<Micro>))
    ensures r.0 <= |staged|
  {
    if hooks == [] then (0, [])
    else
      var (cursor, ms) := Weave(staged, hooks[..|hooks| - 1]);
      var (at, event) := hooks[|hooks| - 1];
      var offset := if at < |staged| then at else |staged|;
      if offset > cursor then (offset, ms + Bytes(staged[cursor..offset]) + [Hook(event)])
      else (cursor, ms + [Hook(event)])
  }

  lemma MoreBytes(ms: seq<Micro>, passed: seq<byte>, bytes: seq<byte>, cursor: nat)
    requires cursor <= |passed|
    ensures ms + Bytes((passed + bytes)[cursor..]) == (ms + Bytes(passed[cursor..])) + Bytes(bytes)
  {
    assert Bytes((passed + bytes)[cursor..]) == Bytes(passed[cursor..]) + Bytes(bytes);
  }

  /** A hook behind all that was passed brings the cursor there. */
  lemma WeaveHook(staged: seq<byte>, hooks: seq<(nat, HookTap.HookEvent)>, passed: seq<byte>, event: HookTap.HookEvent)
    requires passed <= staged && Weave(staged, hooks).0 <= |passed|
    ensures var (cursor, ms) := Weave(staged, hooks);
            Weave(staged, hooks + [(|passed|, event)]) == (|passed|, ms + Bytes(passed[cursor..]) + [Hook(event)])
  {
    var (cursor, ms) := Weave(staged, hooks);
    assert (hooks + [(|passed|, event)])[..|hooks|] == hooks;
    assert staged[cursor..|passed|] == passed[cursor..];
    if cursor == |passed| {
      assert ms + Bytes(passed[cursor..]) == ms;
    }
  }

  /** The cursor loop neither skips, repeats nor reorders: what it does with the
      tap's offsets is the merge of bytes and hooks in stream order. */
  lemma {:induction false} WeaveIsMerge(staged: seq<byte>, items: seq<HookTap.Item>)
    requires HookTap.Passed(items) <= staged
    ensures var (cursor, ms) := Weave(staged, HookTap.Hooks(items));
            && cursor <= |HookTap.Passed(items)|
            && Micros(items) == ms + Bytes(HookTap.Passed(items)[cursor..])
  {
    if items != [] {
      var rest, x := items[..|items| - 1], items[|items| - 1];
      assert items == rest + [x];
      FlatMapOne(HookTap.PassedBytes, rest, x);
      FlatMapOne(MicrosOf, rest, x);
      var passed := HookTap.Passed(rest);
      assert passed <= staged;
      WeaveIsMerge(staged, rest);
      var (cursor, ms) := Weave(staged, HookTap.Hooks(rest));
      match x
      case Pass(bytes) => MoreBytes(ms, passed, bytes, cursor);
      case Lifted(_, event) =>
        WeaveHook(staged, HookTap.Hooks(rest), passed, event);
        assert passed + [] == passed;
      case Dropped(_) => assert passed + [] == passed;
    }
  }

  /** The whole chunk: what the loop leaves behind its cursor, then the tail. */
  lemma ChunkIsMerge(items: seq<HookTap.Item>)
    ensures var staged := HookTap.Passed(items);
            var (cursor, ms) := Weave(staged, HookTap.Hooks(items));
            Micros(items) == ms + Bytes(staged[cursor..])
  {
    WeaveIsMerge(HookTap.Passed(items), items);
  }

  /** The bytes among the micro steps, which is what the screen is given. */
  function MicroBytes(m: Micro): seq<byte> {
    if m.Byte? then [m.b] else []
  }

  lemma {:induction false} BytesOfBytes(bytes: seq<byte>)
    ensures FlatMap(MicroBytes, Bytes(bytes)) == bytes
  {
    if bytes != [] {
      var rest, b := bytes[..|bytes| - 1], bytes[|bytes| - 1];
      BytesOfBytes(rest);
      assert Bytes(bytes) == Bytes(rest) + [Byte(b)];
      FlatMapOne(MicroBytes, Bytes(rest), Byte(b));
    }
  }

  /** The screen and the blocks are given the same bytes in the same order. */
  lemma {:induction false} ScreenSeesWhatBlocksSee(items: seq<HookTap.Item>)
    ensures FlatMap(MicroBytes, Micros(items)) == HookTap.Passed(items)
  {
    if items != [] {
      var rest, x := items[..|items| - 1], items[|items| - 1];
      ScreenSeesWhatBlocksSee(rest);
      assert items == rest + [x];
      FlatMapOne(MicrosOf, rest, x);
      FlatMapOne(HookTap.PassedBytes, rest, x);
      FlatMapAppend(MicroBytes, Micros(rest), MicrosOf(x));
      match x
      case Pass(bytes) => BytesOfBytes(bytes);
      case Lifted(_, event) => assert MicrosOf(x) == [] + [Hook(event)]; FlatMapOne(MicroBytes, [], Hook(event));
      case Dropped(_) =>
    }
  }

  lemma OscSeesOne(env: Env, r: Core, m: Micro, c: Core, bytes: seq<byte>)
    requires var (osc, found) := OscTap.Run(env.osc, c.osc, bytes);
             r.osc == osc && r.oscEvents == c.oscEvents + found
    ensures var next := StepMicro(env, r, m);
            var (osc, found) := OscTap.Run(env.osc, c.osc, bytes + MicroBytes(m));
            next.osc == osc && next.oscEvents == c.oscEvents + found
  {
    if m.Byte? {
      OscTap.RunSnoc(env.osc, c.osc, bytes, m.b);
    } else {
      assert bytes + [] == bytes;
    }
  }

  /** The OSC tap sees exactly those bytes; a hook is no matter to it. */
  lemma {:induction false} OscSeesBytes(env: Env, c: Core, ms: seq<Micro>)
    ensures var r := RunMicros(env, c, ms);
            var (osc, found) := OscTap.Run(env.osc, c.osc, FlatMap(MicroBytes, ms));
            r.osc == osc && r.oscEvents == c.oscEvents + found
  {
    if ms == [] {
      assert c.oscEvents + [] == c.oscEvents;
    } else {
      var rest, m := ms[..|ms| - 1], ms[|ms| - 1];
      OscSeesBytes(env, c, rest);
      assert ms == rest + [m];
      RunSnoc(env, c, rest, m);
      FlatMapOne(MicroBytes, rest, m);
      OscSeesOne(env, RunMicros(env, c, rest), m, c, FlatMap(MicroBytes, rest));
    }
  }

  /** The hooks queued are the envelopes lifted, in order. */
  function HookOf(item: HookTap.Item): seq<HookTap.HookEvent> {
    if item.Lifted? then [item.event] else []
  }

  function MicroHook(m: Micro): seq<HookTap.HookEvent> {
    if m.Hook? then [m.event] else []
  }

  lemma {:induction false} NoHookInBytes(bytes: seq<byte>)
    ensures FlatMap(MicroHook, Bytes(bytes)) == []
  {
    if bytes != [] {
      var rest, b := bytes[..|bytes| - 1], bytes[|bytes| - 1];
      NoHookInBytes(rest);
      assert Bytes(bytes) == Bytes(rest) + [Byte(b)];
      FlatMapOne(MicroHook, Bytes(rest), Byte(b));
    }
  }

  lemma {:induction false} HooksOfMicros(items: seq<HookTap.Item>)
    ensures FlatMap(MicroHook, Micros(items)) == FlatMap(HookOf, items)
  {
    if items != [] {
      var rest, x := items[..|items| - 1], items[|items| - 1];
      HooksOfMicros(rest);
      assert items == rest + [x];
      FlatMapOne(MicrosOf, rest, x);
      FlatMapOne(HookOf, rest, x);
      FlatMapAppend(MicroHook, Micros(rest), MicrosOf(x));
      match x
      case Pass(bytes) => NoHookInBytes(bytes);
      case Lifted(_, event) => assert MicrosOf(x) == [] + [Hook(event)]; FlatMapOne(MicroHook, [], Hook(event));
      case Dropped(_) =>
    }
  }

  lemma HookIsQueued(env: Env, c: Core, m: Micro)
    ensures StepMicro(env, c, m).hookEvents == c.hookEvents + MicroHook(m)
  {
  }

  lemma {:induction false} HooksAreQueued(env: Env, c: Core, ms: seq<Micro>)
    ensures RunMicros(env, c, ms).hookEvents == c.hookEvents + FlatMap(MicroHook, ms)
  {
    if ms == [] {
      assert c.hookEvents + [] == c.hookEvents;
    } else {
      var rest, m := ms[..|ms| - 1], ms[|ms| - 1];
      HooksAreQueued(env, c, rest);
      assert ms == rest + [m];
      RunSnoc(env, c, rest, m);
      FlatMapOne(MicroHook, rest, m);
      HookIsQueued(env, RunMicros(env, c, rest), m);
    }
  }

  /** Cutting one chunk in two: everything but the revision is the same, and the
      revision counts the cut. */
  lemma FeedCut(env: Env, p: Pane, a: seq<byte>, b: seq<byte>)
    ensures var cut := FeedPane(env, FeedPane(env, p, a), b);
            var whole := FeedPane(env, p, a + b);
            && cut.(revision := 0) == whole.(revision := 0)
            && cut.revision == whole.revision + (if p.screen.frozen then 0 else 1)
  {
    HookTap.ScanAppend(env.hook, p.hooks, a, b);
    var (s, first) := HookTap.Scan(env.hook, p.hooks, a);
    var (s', second) := HookTap.Scan(env.hook, s, b);
    FlatMapAppend(MicrosOf, first, second);
    FlatMapAppend(HookTap.PassedBytes, first, second);
    FlatMapAppend(HookTap.DropMarks, first, second);
    RunAppend(env, p.core, Micros(first), Micros(second));
    ScreenFeedAppend(p.screen, HookTap.Passed(first), HookTap.Passed(second));
  }

  /** Chunk independence: however a stream is cut into chunks, feeding them in
      turn leaves the taps, the blocks, the bytes on the screen and every event
      queue as feeding the whole stream once does. */
  lemma {:induction false} ChunkIndependence(env: Env, p: Pane, chunks: seq<seq<byte>>)
    ensures FeedAll(env, p, chunks).(revision := 0) == FeedPane(env, p, Concat(chunks)).(revision := 0)
    ensures FeedAll(env, p, chunks).revision == p.revision + (if p.screen.frozen then 0 else |chunks|)
  {
    if chunks == [] {
      assert p.core == RunMicros(env, p.core, []);
      assert p.screen.Feed([]) == p.screen by {
        assert p.screen.current + [] == p.screen.current;
      }
    } else {
      var rest, c := chunks[..|chunks| - 1], chunks[|chunks| - 1];
      ChunkIndependence(env, p, rest);
      FeedCut(env, p, Concat(rest), c);
      var one, all := FeedPane(env, p, Concat(rest)), FeedAll(env, p, rest);
      assert one.(revision := all.revision) == all;
      assert FeedPane(env, one, c).(revision := 0) == FeedPane(env, all, c).(revision := 0);
      assert one.screen.frozen == p.screen.frozen;
    }
  }

  /** Of two cuttings, the bytes given to blocks and screen are the same; the
      revision agrees exactly when as many chunks were fed (or the screen is
      frozen). What images a screen shows besides is in `Displays`. */
  lemma RevisionCountsChunks(env: Env, p: Pane, one: seq<seq<byte>>, other: seq<seq<byte>>)
    requires Concat(one) == Concat(other)
    ensures FeedAll(env, p, one) == FeedAll(env, p, other) <==> p.screen.frozen || |one| == |other|
  {
    ChunkIndependence(env, p, one);
    ChunkIndependence(env, p, other);
    var a, b := FeedAll(env, p, one), FeedAll(env, p, other);
    assert a.(revision := 0) == b.(revision := 0);
    assert a.revision == b.revision ==> a == b;
  }

  /** However a stream is cut: the events queued are those the taps find in it, the OSC
      tap in the bytes that passed, and the hooks in the envelopes lifted. */
  lemma QueuesAreFound(env: Env, p: Pane, chunks: seq<seq<byte>>)
    ensures var items := HookTap.Scan(env.hook, p.hooks, Concat(chunks)).1;
            var (osc, found) := OscTap.Run(env.osc, p.core.osc, HookTap.Passed(items));
            var r := FeedAll(env, p, chunks).core;
            && r.osc == osc && r.oscEvents == p.core.oscEvents + found
            && r.hookEvents == p.core.hookEvents + FlatMap(HookOf, items)
  {
    ChunkIndependence(env, p, chunks);
    var cut, whole := FeedAll(env, p, chunks), FeedPane(env, p, Concat(chunks));
    assert cut.core == cut.(revision := 0).core && whole.core == whole.(revision := 0).core;
    var items := HookTap.Scan(env.hook, p.hooks, Concat(chunks)).1;
    ScreenSeesWhatBlocksSee(items);
    OscSeesBytes(env, p.core, Micros(items));
    HooksOfMicros(items);
    HooksAreQueued(env, p.core, Micros(items));
  }

  /** A sequence that passes the hook tap while the OSC tap waits for one: its event is
      queued, between those found before it and behind it, however the stream is cut. */
  lemma SequenceIsQueued(env: Env, p: Pane, chunks: seq<seq<byte>>, before: seq<byte>, escapes: nat, body: seq<byte>,
                         end: seq<byte>, after: seq<byte>, event: OscTap.OscEvent)
    requires escapes > 0 && OscTap.Plain(body) && |body| <= OscTap.MAX_BODY && OscTap.Terminator(end)
    requires env.osc(body) == Some(event)
    requires HookTap.Passed(HookTap.Scan(env.hook, p.hooks, Concat(chunks)).1)
          == before + (OscTap.Introducer(escapes) + body + end) + after
    requires OscTap.Run(env.osc, p.core.osc, before).0.state == OscTap.Ground
    ensures var (osc, found) := OscTap.Run(env.osc, p.core.osc, before);
            FeedAll(env, p, chunks).core.oscEvents == p.core.oscEvents + (found + [event] + OscTap.Run(env.osc, osc, after).1)
  {
    QueuesAreFound(env, p, chunks);
    var sequence := OscTap.Introducer(escapes) + body + end;
    var osc := OscTap.Run(env.osc, p.core.osc, before).0;
    OscTap.SequenceIsFound(env.osc, osc.dropped, escapes, body, end);
    OscTap.RunAppend(env.osc, p.core.osc, before, sequence);
    OscTap.RunAppend(env.osc, p.core.osc, before + sequence, after);
  }

  /** A pane before its first byte. */
  const NEW_PANE := Pane(HookTap.Ground, 0, Core(OscTap.Osc(OscTap.Ground, 0), EMPTY_LIST, [], [], []), BLANK_SCREEN, 0)

  /** The terminal pane's emulator. */
  class Emulator {
    const vt: Vt
    const hooks: HookTap.Tap
    const osc: OscTap.Tap
    var screen: Screen
    var revision: nat
    var blocks: ValidList
    var hookEvents: seq<HookTap.HookEvent>
    var oscEvents: seq<OscTap.OscEvent>
    var blockEvents: seq<BlockEvent>

    constructor (env: Env)
      ensures fresh(hooks) && fresh(osc)
      ensures Environment() == env
      ensures Value() == NEW_PANE
    {
      vt := env.vt;
      hooks := new HookTap.Tap(env.hook);
      osc := new OscTap.Tap(env.osc);
      screen, revision, blocks := BLANK_SCREEN, 0, EMPTY_LIST;
      hookEvents, oscEvents, blockEvents := [], [], [];
    }

    function Environment(): Env {
      Env(hooks.decode, osc.decode, vt)
    }

    ghost function CoreValue(): Core
      reads this, osc
    {
      Core(osc.Value(), blocks, hookEvents, oscEvents, blockEvents)
    }

    ghost function Value(): Pane
      reads this, hooks, osc
    {
      Pane(hooks.state, hooks.dropped, CoreValue(), screen, revision)
    }

    /** Interpret one chunk of pty output. */
    method Feed(bytes: seq<byte>)
      modifies this, hooks, osc
      ensures Value() == FeedPane(Environment(), old(Value()), bytes)
    {
      ghost var items := HookTap.Scan(hooks.decode, hooks.state, bytes).1;
      var staged, found := hooks.TapOrdered(bytes);
      ChunkIsMerge(items);
      var passthrough := FeedInOrder(staged, found);
      if !screen.frozen {
        revision := revision + 1;
      }
      screen := screen.Feed(passthrough);
    }

    /** The cursor loop: the bytes before a hook go to the blocks before it is
        applied, the bytes after it after. Returns what the screen is to see. */
    method FeedInOrder(staged: seq<byte>, found: seq<(nat, HookTap.HookEvent)>)
      returns (passthrough: seq<byte>)
      modifies this`blocks, this`oscEvents, this`hookEvents, this`blockEvents, osc
      ensures passthrough == staged
      ensures var (cursor, ms) := Weave(staged, found);
              CoreValue() == RunMicros(Environment(), old(CoreValue()), ms + Bytes(staged[cursor..]))
    {
      ghost var env, core := Environment(), CoreValue();
      passthrough := [];
      var cursor := 0;
      ghost var ms: seq<Micro> := [];
      for k := 0 to |found|
        invariant cursor <= |staged|
        invariant (cursor, ms) == Weave(staged, found[..k])
        invariant CoreValue() == RunMicros(env, core, ms)
        invariant passthrough == staged[..cursor]
      {
        assert found[..k + 1][..k] == found[..k];
        var (at, hook) := found[k];
        var offset := if at < |staged| then at else |staged|;
        if offset > cursor {
          ms := Behind(env, core, ms, staged[cursor..offset]);
          FeedPiece(staged[cursor..offset]);
          passthrough := passthrough + staged[cursor..offset];
          SliceJoin(staged, cursor, offset);
          cursor := offset;
        }
        RunSnoc(env, core, ms, Hook(hook));
        ms := ms + [Hook(hook)];
        ApplyHook(hook);
      }
      assert found[..|found|] == found;
      ghost var all := Behind(env, core, ms, staged[cursor..]);
      if cursor < |staged| {
        FeedPiece(staged[cursor..]);
        passthrough := passthrough + staged[cursor..];
        SliceJoin(staged, cursor, |staged|);
      } else {
        assert CoreValue().oscEvents + [] == CoreValue().oscEvents;
      }
    }

    /** One segment: through the OSC tap, then to the blocks. */
    method FeedPiece(segment: seq<byte>)
      modifies this`blocks, this`oscEvents, osc
      ensures CoreValue() == FeedSegment(Environment(), old(CoreValue()), segment)
    {
      var passed, found := osc.Observe(segment);
      oscEvents := oscEvents + found;
      blocks := blocks.Feed(passed);
    }

    /** One hook: applied to the blocks, recorded, and its block shown in the
        view of the conversation that owns it. */
    method ApplyHook(hook: HookTap.HookEvent)
      modifies this`blocks, this`hookEvents, this`blockEvents
      ensures CoreValue() == StepMicro(Environment(), old(CoreValue()), Hook(hook))
    {
      var (applied, events) := blocks.Apply(vt, hook);
      blocks := applied;
      hookEvents := hookEvents + [hook];
      for i := 0 to |events|
        invariant blocks == AssociateAll(applied, events[..i])
        invariant hookEvents == old(hookEvents) + [hook] && blockEvents == old(blockEvents)
      {
        assert events[..i + 1][..i] == events[..i];
        if events[i].BlockStarted? {
          blocks := blocks.AssociateOwner(events[i].id);
        }
      }
      assert events[..|events|] == events;
      blockEvents := blockEvents + events;
    }
  }

  lemma SliceJoin<T>(s: seq<T>, i: nat, j: nat)
    requires i <= j <= |s|
    ensures s[..i] + s[i..j] == s[..j]
    ensures s[..|s|] == s && s[i..|s|] == s[i..]
  {
  }

  /** Extending what has run by one segment. */
  lemma Behind(env: Env, core: Core, ms: seq<Micro>, segment: seq<byte>) returns (more: seq<Micro>)
    ensures more == ms + Bytes(segment)
    ensures RunMicros(env, core, more) == FeedSegment(env, RunMicros(env, core, ms), segment)
  {
    more := ms + Bytes(segment);
    RunAppend(env, core, ms, Bytes(segment));
    SegmentIsBytes(env, RunMicros(env, core, ms), segment);
  }
}
