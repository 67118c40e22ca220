/**
 The pane's whole display: the bytes the emulator passes on, given to a screen that
 also holds images. Cutting the pty stream shows in the revision, and in the images
 where a cut is not quiet; nowhere else.
 */
module Displays {
  import opened Base
  import opened ScreenImages
  import Streams
  import HookTap
  import E = Emulator

  /** The interpreter, the bounds of the image cache and the image tap. */
  datatype Screen<!T> = Screen(vt: Vt, bounds: Bounds, tap: (T, byte) -> (T, seq<Piece>))

  datatype Shown<T> = Shown(pane: E.Pane, display: Display<T>)

  /** The bytes one chunk puts on the screen; a frozen screen takes none. */
  function Given(env: E.Env, p: E.Pane, chunk: seq<byte>): seq<byte> {
    HookTap.Passed(HookTap.Scan(env.hook, p.hooks, chunk).1)
  }

  function FeedShown<T>(env: E.Env, screen: Screen<T>, s: Shown<T>, chunk: seq<byte>): Shown<T> {
    Shown(E.FeedPane(env, s.pane, chunk),
          if s.pane.screen.frozen then s.display
          else Feed(screen.vt, screen.bounds, screen.tap, s.display, Given(env, s.pane, chunk)))
  }

  function FeedAllShown<T>(env: E.Env, screen: Screen<T>, s: Shown<T>, chunks: seq<seq<byte>>): Shown<T> {
    if chunks == [] then s
    else FeedShown(env, screen, FeedAllShown(env, screen, s, chunks[..|chunks| - 1]), chunks[|chunks| - 1])
  }

  /** What each chunk in turn puts on the screen. */
  function GivenAll(env: E.Env, p: E.Pane, chunks: seq<seq<byte>>): seq<seq<byte>> {
    if chunks == [] then []
    else
      var front := chunks[..|chunks| - 1];
      GivenAll(env, p, front) + [Given(env, E.FeedAll(env, p, front), chunks[|chunks| - 1])]
  }

  lemma {:induction false} PaneIsFed<T>(env: E.Env, screen: Screen<T>, s: Shown<T>, chunks: seq<seq<byte>>)
    ensures FeedAllShown(env, screen, s, chunks).pane == E.FeedAll(env, s.pane, chunks)
  {
    if chunks != [] {
      PaneIsFed(env, screen, s, chunks[..|chunks| - 1]);
    }
  }

  lemma FrozenStays(env: E.Env, p: E.Pane, chunks: seq<seq<byte>>)
    ensures E.FeedAll(env, p, chunks).screen.frozen == p.screen.frozen
  {
    E.ChunkIndependence(env, p, chunks);
    var a, b := E.FeedAll(env, p, chunks), E.FeedPane(env, p, Concat(chunks));
    assert a.screen == a.(revision := 0).screen && b.screen == b.(revision := 0).screen;
  }

  /** The display is fed what the chunks put on the screen, one after the other. */
  lemma {:induction false} DisplayIsFed<T>(env: E.Env, screen: Screen<T>, s: Shown<T>, chunks: seq<seq<byte>>)
    requires !s.pane.screen.frozen
    ensures FeedAllShown(env, screen, s, chunks).display
         == FeedEach(screen.vt, screen.bounds, screen.tap, s.display, GivenAll(env, s.pane, chunks))
  {
    if chunks != [] {
      var front := chunks[..|chunks| - 1];
      DisplayIsFed(env, screen, s, front);
      PaneIsFed(env, screen, s, front);
      FrozenStays(env, s.pane, front);
      Streams.FoldSnoc(Feeder(screen.vt, screen.bounds, screen.tap), s.display, GivenAll(env, s.pane, front),
                       Given(env, E.FeedAll(env, s.pane, front), chunks[|chunks| - 1]));
    }
  }

  lemma {:induction false} DisplayFrozen<T>(env: E.Env, screen: Screen<T>, s: Shown<T>, chunks: seq<seq<byte>>)
    requires s.pane.screen.frozen
    ensures FeedAllShown(env, screen, s, chunks).display == s.display
  {
    if chunks != [] {
      var front := chunks[..|chunks| - 1];
      DisplayFrozen(env, screen, s, front);
      PaneIsFed(env, screen, s, front);
      FrozenStays(env, s.pane, front);
    }
  }

  /** Whatever the cutting, the same bytes reach the screen. */
  lemma {:induction false} GivenIsTheStream(env: E.Env, p: E.Pane, chunks: seq<seq<byte>>)
    ensures Concat(GivenAll(env, p, chunks)) == Given(env, p, Concat(chunks))
  {
    if chunks != [] {
      var front, last := chunks[..|chunks| - 1], chunks[|chunks| - 1];
      GivenIsTheStream(env, p, front);
      E.ChunkIndependence(env, p, front);
      var fed := E.FeedAll(env, p, front);
      assert fed.(revision := 0).hooks == fed.hooks;
      HookTap.ScanAppend(env.hook, p.hooks, Concat(front), last);
      var (mid, items) := HookTap.Scan(env.hook, p.hooks, Concat(front));
      FlatMapAppend(HookTap.PassedBytes, items, HookTap.Scan(env.hook, mid, last).1);
      ConcatSnoc(GivenAll(env, p, front), Given(env, fed, last));
    }
  }

  /** The cuts are quiet where they fall in the bytes given to the screen. */
  predicate Quiet<T>(env: E.Env, screen: Screen<T>, s: Shown<T>, chunks: seq<seq<byte>>) {
    QuietCuts(screen.vt, screen.bounds, screen.tap, s.display, GivenAll(env, s.pane, chunks))
  }

  /** Cut quietly, a stream leaves pane and images as fed once, but for the revision. */
  lemma QuietIndependence<T>(env: E.Env, screen: Screen<T>, s: Shown<T>, chunks: seq<seq<byte>>)
    requires Counted(s.display.surface) && Quiet(env, screen, s, chunks)
    ensures var cut, whole := FeedAllShown(env, screen, s, chunks), FeedShown(env, screen, s, Concat(chunks));
            cut.display == whole.display && cut.pane.(revision := 0) == whole.pane.(revision := 0)
  {
    PaneIsFed(env, screen, s, chunks);
    E.ChunkIndependence(env, s.pane, chunks);
    if s.pane.screen.frozen {
      DisplayFrozen(env, screen, s, chunks);
    } else {
      DisplayIsFed(env, screen, s, chunks);
      GivenIsTheStream(env, s.pane, chunks);
      QuietCutsAgree(screen.vt, screen.bounds, screen.tap, s.display, GivenAll(env, s.pane, chunks));
    }
  }

  /** The cutoff of a cutting, in the bytes given to the screen. */
  function CutoffOf<T>(env: E.Env, screen: Screen<T>, s: Shown<T>, chunks: seq<seq<byte>>): nat {
    Cutoff(screen.vt, screen.bounds, screen.tap, s.display, GivenAll(env, s.pane, chunks))
  }

  /** The images of the stream fed once. */
  function WholeImages<T>(env: E.Env, screen: Screen<T>, s: Shown<T>, stream: seq<byte>): Surface {
    Feed(screen.vt, screen.bounds, screen.tap, s.display, Given(env, s.pane, stream)).surface
  }

  /** A cut stream shows the images it shows fed once exactly when the screen is frozen
      or no image of the whole is older than the cutoff. */
  lemma ImagesAgreeIff<T>(env: E.Env, screen: Screen<T>, s: Shown<T>, chunks: seq<seq<byte>>)
    requires Counted(s.display.surface)
    ensures FeedAllShown(env, screen, s, chunks).display == FeedShown(env, screen, s, Concat(chunks)).display <==>
            s.pane.screen.frozen || !OlderThan(WholeImages(env, screen, s, Concat(chunks)), CutoffOf(env, screen, s, chunks))
  {
    if s.pane.screen.frozen {
      DisplayFrozen(env, screen, s, chunks);
    } else {
      DisplayIsFed(env, screen, s, chunks);
      GivenIsTheStream(env, s.pane, chunks);
      CuttingAgreesIff(screen.vt, screen.bounds, screen.tap, s.display, GivenAll(env, s.pane, chunks));
    }
  }

  lemma TwoDisplaysIff<T>(env: E.Env, screen: Screen<T>, s: Shown<T>, one: seq<seq<byte>>, other: seq<seq<byte>>)
    requires Concat(one) == Concat(other) && Counted(s.display.surface) && !s.pane.screen.frozen
    ensures FeedAllShown(env, screen, s, one).display == FeedAllShown(env, screen, s, other).display <==>
            !PlacedBetween(WholeImages(env, screen, s, Concat(one)), CutoffOf(env, screen, s, one), CutoffOf(env, screen, s, other))
  {
    DisplayIsFed(env, screen, s, one);
    DisplayIsFed(env, screen, s, other);
    GivenIsTheStream(env, s.pane, one);
    GivenIsTheStream(env, s.pane, other);
    TwoCuttingsIff(screen.vt, screen.bounds, screen.tap, s.display, GivenAll(env, s.pane, one), GivenAll(env, s.pane, other));
  }

  /** Exactly when two cuttings of one stream agree in everything: the screen is frozen,
      or they have as many chunks and no image of the whole lies between their cutoffs. */
  lemma CuttingsAgreeIff<T>(env: E.Env, screen: Screen<T>, s: Shown<T>, one: seq<seq<byte>>, other: seq<seq<byte>>)
    requires Concat(one) == Concat(other) && Counted(s.display.surface)
    ensures FeedAllShown(env, screen, s, one) == FeedAllShown(env, screen, s, other) <==>
            || s.pane.screen.frozen
            || (|one| == |other| && !PlacedBetween(WholeImages(env, screen, s, Concat(one)),
                                                  CutoffOf(env, screen, s, one), CutoffOf(env, screen, s, other)))
  {
    PaneIsFed(env, screen, s, one);
    PaneIsFed(env, screen, s, other);
    E.RevisionCountsChunks(env, s.pane, one, other);
    if s.pane.screen.frozen {
      DisplayFrozen(env, screen, s, one);
      DisplayFrozen(env, screen, s, other);
    } else {
      TwoDisplaysIff(env, screen, s, one, other);
    }
  }

  /** Equal counts are not enough. Two cuttings into two, of which one is quiet, have
      the same images exactly when the other's cut is not harmful. */
  lemma EqualCountsDiffer<T>(screen: Screen<T>, d: Display<T>, a: seq<byte>, x: seq<byte>, y: seq<byte>)
    requires Counted(d.surface) && QuietCut(screen.vt, screen.bounds, screen.tap, d, a)
    ensures FeedEach(screen.vt, screen.bounds, screen.tap, d, [a + x, y])
              == FeedEach(screen.vt, screen.bounds, screen.tap, d, [a, x + y]) <==>
            !Harmful(screen.vt, screen.bounds, screen.tap, d, a + x, y)
  {
    assert a + (x + y) == (a + x) + y;
    TwoFeedsIff(screen.vt, screen.bounds, screen.tap, d, a + x, y);
    QuietCutIsHarmless(screen.vt, screen.bounds, screen.tap, d, a, x + y);
    FedTwice(Feeder(screen.vt, screen.bounds, screen.tap), d, a + x, y);
    FedTwice(Feeder(screen.vt, screen.bounds, screen.tap), d, a, x + y);
  }

  lemma FedTwice<S, B>(f: (S, B) -> S, s: S, x: B, y: B)
    ensures Streams.Fold(f, s, [x, y]) == f(f(s, x), y)
  {
    Streams.FoldSnoc(f, s, [], x);
    Streams.FoldSnoc(f, s, [x], y);
    assert [] + [x] == [x] && [x] + [y] == [x, y];
  }
}
