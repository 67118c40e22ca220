/**
 Image placements of one screen. The image tap cuts what it is fed into runs of
 ordinary bytes and images; the screen parses a run, then drops its placements
 if the run moved it to the other surface (primary or alternate).

 The comparison is made once per run, so this is where cutting the stream into
 chunks does show: a program that enters and leaves the alternate screen inside
 one run keeps the placements it would lose had the chunk ended in between.
 */
module ScreenImages {
  import opened Base
  import Streams

  /** The interpreter, as far as placements depend on it: which surface is up,
      and where the cursor is, after the bytes parsed so far. */
  datatype Vt = Vt(alternate: seq<byte> -> bool, cell: seq<byte> -> (nat, nat))

  /** The most images and bytes kept; zero is no bound. */
  datatype Bounds = Bounds(images: nat, bytes: nat)

  datatype Placement = Placement(id: nat, cell: (nat, nat), cost: nat, number: nat)

  /** `next` numbers placements in the order they are made. */
  datatype Surface = Surface(parsed: seq<byte>, images: seq<Placement>, next: nat)

  /** What one call of the tap hands to the screen. An image without a cost is one
      that cannot be drawn. */
  datatype Chunk = Run(bytes: seq<byte>) | Image(id: nat, cost: Option<nat>) | DeleteImage(id: nat) | DeleteAll

  function Remove(images: seq<Placement>, id: nat): seq<Placement> {
    if images == [] then []
    else Remove(images[..|images| - 1], id) + if images[|images| - 1].id == id then [] else [images[|images| - 1]]
  }

  function Cost(images: seq<Placement>): nat {
    if images == [] then 0 else images[0].cost + Cost(images[1..])
  }

  predicate Fits(b: Bounds, images: seq<Placement>) {
    (b.images == 0 || |images| <= b.images) && (b.bytes == 0 || Cost(images) <= b.bytes)
  }

  /** Drop the oldest placements until the rest fits. */
  function Fit(b: Bounds, images: seq<Placement>): seq<Placement> {
    if images == [] || Fits(b, images) then images else Fit(b, images[1..])
  }

  /** Parse one run. */
  function Advance(vt: Vt, s: Surface, bytes: seq<byte>): Surface {
    var parsed := s.parsed + bytes;
    s.(parsed := parsed, images := if vt.alternate(parsed) != vt.alternate(s.parsed) then [] else s.images)
  }

  function Apply(vt: Vt, b: Bounds, s: Surface, c: Chunk): Surface {
    match c
    case Run(bytes) => Advance(vt, s, bytes)
    case Image(id, cost) =>
      if cost.None? || (b.bytes > 0 && cost.value > b.bytes) then s
      else s.(images := Fit(b, Remove(s.images, id) + [Placement(id, vt.cell(s.parsed), cost.value, s.next)]), next := s.next + 1)
    case DeleteImage(id) => s.(images := Remove(s.images, id))
    case DeleteAll => s.(images := [])
  }

  function Applier(vt: Vt, b: Bounds): (Surface, Chunk) -> Surface {
    (s, c) => Apply(vt, b, s, c)
  }

  function ApplyAll(vt: Vt, b: Bounds, s: Surface, chunks: seq<Chunk>): Surface {
    Streams.Fold(Applier(vt, b), s, chunks)
  }

  // ---- One cut inside one run ----

  /** The cut falls on the other surface, the run as a whole does not end on it, and
      something is placed. */
  predicate CutShows(vt: Vt, s: Surface, a: seq<byte>, b: seq<byte>) {
    && s.images != []
    && vt.alternate(s.parsed + a) != vt.alternate(s.parsed)
    && vt.alternate(s.parsed + a + b) == vt.alternate(s.parsed)
  }

  /** A cut inside a run changes the surface exactly when it shows; what it then
      loses is every placement. */
  lemma CutInsideRun(vt: Vt, s: Surface, a: seq<byte>, b: seq<byte>)
    ensures Advance(vt, Advance(vt, s, a), b) == Advance(vt, s, a + b) <==> !CutShows(vt, s, a, b)
    ensures CutShows(vt, s, a, b) ==>
              Advance(vt, Advance(vt, s, a), b) == Advance(vt, s, a + b).(images := []) && Advance(vt, s, a + b).images == s.images
  {
    assert s.parsed + (a + b) == s.parsed + a + b;
  }

  /** The failing family: an image, then a visit to the alternate screen. In one
      chunk the image survives the visit, in two it does not. */
  lemma VisitKeepsOrDropsImages(vt: Vt, b: Bounds, s: Surface, enter: seq<byte>, leave: seq<byte>, id: nat, cost: nat)
    requires vt.alternate(s.parsed + enter) != vt.alternate(s.parsed)
    requires vt.alternate(s.parsed + enter + leave) == vt.alternate(s.parsed)
    requires b.bytes > 0 ==> cost <= b.bytes
    ensures var placed := Apply(vt, b, s, Image(id, Some(cost)));
            && Apply(vt, b, placed, Run(enter + leave)).images == placed.images != []
            && Apply(vt, b, Apply(vt, b, placed, Run(enter)), Run(leave)).images == []
  {
    var placed := Apply(vt, b, s, Image(id, Some(cost)));
    NewestStays(b, Remove(s.images, id), Placement(id, vt.cell(s.parsed), cost, s.next));
    CutInsideRun(vt, placed, enter, leave);
  }

  lemma {:induction false} NewestStays(b: Bounds, images: seq<Placement>, p: Placement)
    requires b.bytes > 0 ==> p.cost <= b.bytes
    ensures Fit(b, images + [p]) != []
  {
    if images == [] {
      assert [] + [p] == [p] && [p][1..] == [];
      assert Cost([p]) == p.cost && Fits(b, [p]);
    } else if !Fits(b, images + [p]) {
      assert (images + [p])[1..] == images[1..] + [p];
      NewestStays(b, images[1..], p);
    }
  }

  // ---- What a placement keeps ----

  /** Removing an id takes its placements and leaves the others, in order: it works piece by
      piece, and on one placement. */
  lemma RemoveIs(a: seq<Placement>, p: Placement, c: seq<Placement>, id: nat)
    ensures Remove(a + [p] + c, id) == Remove(a, id) + (if p.id == id then [] else [p]) + Remove(c, id)
  {
    RemoveTogether(a + [p], c, id);
    RemoveTogether(a, [p], id);
    assert [p][..0] == [] && Remove([], id) == [];
  }

  lemma {:induction false} CostIs(a: seq<Placement>, p: Placement)
    ensures Cost(a + [p]) == Cost(a) + p.cost && Cost([]) == 0
  {
    if a == [] {
      assert [] + [p] == [p] && [p][1..] == [];
    } else {
      assert (a + [p])[1..] == a[1..] + [p];
      CostIs(a[1..], p);
    }
  }

  /** Within both bounds, of which zero is none. */
  predicate Within(b: Bounds, images: seq<Placement>) {
    (b.images > 0 ==> |images| <= b.images) && (b.bytes > 0 ==> Cost(images) <= b.bytes)
  }

  /** Making room drops the oldest, as many as it must and no more. */
  lemma {:induction false} FitKeepsMost(b: Bounds, images: seq<Placement>) returns (k: nat)
    ensures k <= |images| && Fit(b, images) == images[k..] && Within(b, images[k..])
    ensures forall j :: 0 <= j < k ==> !Within(b, images[j..])
  {
    assert images[0..] == images;
    if images == [] || Fits(b, images) {
      k := 0;
    } else {
      var rest := FitKeepsMost(b, images[1..]);
      k := rest + 1;
      assert images[1..][rest..] == images[k..];
      forall j | 0 <= j < k ensures !Within(b, images[j..]) {
        if j > 0 {
          assert images[1..][j - 1..] == images[j..];
        }
      }
    }
  }

  /** An image is placed at the cursor in place of its older copies, as the newest; the oldest
      make room for it. One that cannot be drawn, or is over the bound alone, changes
      nothing. Deletions take one id or all. */
  lemma PlacementDoes(vt: Vt, b: Bounds, s: Surface, id: nat, cost: Option<nat>) returns (k: nat)
    ensures var r := Apply(vt, b, s, Image(id, cost));
            if cost.None? || (b.bytes > 0 && cost.value > b.bytes) then r == s
            else
              var all := Remove(s.images, id) + [Placement(id, vt.cell(s.parsed), cost.value, s.next)];
              && k < |all| && r == Surface(s.parsed, all[k..], s.next + 1) && Within(b, all[k..])
              && forall j :: 0 <= j < k ==> !Within(b, all[j..])
    ensures Apply(vt, b, s, DeleteImage(id)) == s.(images := Remove(s.images, id))
    ensures Apply(vt, b, s, DeleteAll) == s.(images := [])
  {
    k := 0;
    if cost.Some? && !(b.bytes > 0 && cost.value > b.bytes) {
      var p := Placement(id, vt.cell(s.parsed), cost.value, s.next);
      NewestStays(b, Remove(s.images, id), p);
      k := FitKeepsMost(b, Remove(s.images, id) + [p]);
    }
  }

  /** A run is parsed; when it ends on the other surface it takes every placement. */
  lemma RunDoes(vt: Vt, b: Bounds, s: Surface, bytes: seq<byte>)
    ensures var r := Apply(vt, b, s, Run(bytes));
            && r.parsed == s.parsed + bytes && r.next == s.next
            && r.images == if vt.alternate(s.parsed + bytes) == vt.alternate(s.parsed) then s.images else []
  {
  }

  // ---- What comes after the cut ----

  lemma {:induction false} RemoveTogether(a: seq<Placement>, b: seq<Placement>, id: nat)
    ensures Remove(a + b, id) == Remove(a, id) + Remove(b, id)
  {
    if b == [] {
      assert a + b == a;
    } else {
      assert (a + b)[..|a + b| - 1] == a + b[..|b| - 1];
      RemoveTogether(a, b[..|b| - 1], id);
    }
  }

  lemma {:induction false} RemoveKeepsNumbers(images: seq<Placement>, id: nat, from: nat, to: nat)
    requires Numbered(images, from, to)
    ensures Numbered(Remove(images, id), from, to)
  {
    if images != [] {
      RemoveKeepsNumbers(images[..|images| - 1], id, from, to);
    }
  }

  /** All made from number `from` on, before number `to`. */
  predicate Numbered(images: seq<Placement>, from: nat, to: nat) {
    forall i :: 0 <= i < |images| ==> from <= images[i].number < to
  }

  lemma {:induction false} CostOfRest(images: seq<Placement>, k: nat)
    requires k <= |images|
    ensures Cost(images[k..]) <= Cost(images)
  {
    if k > 0 {
      assert images[1..][k - 1..] == images[k..];
      CostOfRest(images[1..], k - 1);
    } else {
      assert images[0..] == images;
    }
  }

  /** Making room takes the oldest first, so what is newer is kept as if alone. */
  lemma {:induction false} FitSplits(b: Bounds, old': seq<Placement>, new': seq<Placement>) returns (k: nat)
    ensures k <= |old'| && Fit(b, old' + new') == old'[k..] + Fit(b, new')
  {
    if old' == [] {
      k := 0;
      assert old' + new' == new' && old'[0..] + Fit(b, new') == Fit(b, new');
    } else if Fits(b, old' + new') {
      k := 0;
      CostOfRest(old' + new', |old'|);
      assert (old' + new')[|old'|..] == new';
      assert old'[0..] == old';
    } else {
      assert (old' + new')[1..] == old'[1..] + new';
      var j := FitSplits(b, old'[1..], new');
      k := j + 1;
      assert old'[k..] == old'[1..][j..];
    }
  }

  lemma {:induction false} FitIsRest(b: Bounds, images: seq<Placement>) returns (k: nat)
    ensures k <= |images| && Fit(b, images) == images[k..]
  {
    k := FitSplits(b, images, []);
    assert images + [] == images;
  }

  /** `cut` is `whole` without the first `k` placements, which are those made before
      number `n`. */
  predicate Behind(n: nat, whole: Surface, cut: Surface, k: nat) {
    && whole.parsed == cut.parsed && whole.next == cut.next && n <= cut.next
    && k <= |whole.images| && cut.images == whole.images[k..]
    && Numbered(whole.images[..k], 0, n) && Numbered(cut.images, n, cut.next)
  }

  lemma StepStaysBehind(vt: Vt, b: Bounds, n: nat, whole: Surface, cut: Surface, k: nat, c: Chunk) returns (j: nat)
    requires Behind(n, whole, cut, k)
    ensures Behind(n, Apply(vt, b, whole, c), Apply(vt, b, cut, c), j)
  {
    var old' := whole.images[..k];
    assert whole.images == old' + cut.images;
    match c
    case Run(bytes) =>
      j := if vt.alternate(whole.parsed + bytes) != vt.alternate(whole.parsed) then 0 else k;
    case DeleteAll =>
      j := 0;
    case DeleteImage(id) =>
      j := |Remove(old', id)|;
      RemoveTogether(old', cut.images, id);
      RemoveKeepsNumbers(old', id, 0, n);
      RemoveKeepsNumbers(cut.images, id, n, cut.next);
      assert Remove(whole.images, id)[..j] == Remove(old', id);
    case Image(id, cost) =>
      if cost.None? || (b.bytes > 0 && cost.value > b.bytes) {
        j := k;
      } else {
        j := InsertStaysBehind(b, n, old', cut.images, cut.next, Placement(id, vt.cell(cut.parsed), cost.value, cut.next));
      }
  }

  lemma InsertStaysBehind(b: Bounds, n: nat, old': seq<Placement>, new': seq<Placement>, next: nat, p: Placement) returns (j: nat)
    requires n <= next && p.number == next && Numbered(old', 0, n) && Numbered(new', n, next)
    ensures var all, alone := Fit(b, Remove(old' + new', p.id) + [p]), Fit(b, Remove(new', p.id) + [p]);
            && j <= |all| && alone == all[j..] && Numbered(all[..j], 0, n) && Numbered(alone, n, next + 1)
  {
    var left, right := Remove(old', p.id), Remove(new', p.id) + [p];
    RemoveTogether(old', new', p.id);
    assert Remove(old' + new', p.id) + [p] == left + right;
    RemoveKeepsNumbers(old', p.id, 0, n);
    RemoveKeepsNumbers(new', p.id, n, next);
    j := RoomStaysBehind(b, n, left, right, next + 1);
  }

  lemma RoomStaysBehind(b: Bounds, n: nat, left: seq<Placement>, right: seq<Placement>, next: nat) returns (j: nat)
    requires Numbered(left, 0, n) && Numbered(right, n, next)
    ensures var all, alone := Fit(b, left + right), Fit(b, right);
            j <= |all| && alone == all[j..] && Numbered(all[..j], 0, n) && Numbered(alone, n, next)
  {
    var k := FitSplits(b, left, right);
    var m := FitIsRest(b, right);
    j := |left| - k;
    var kept, alone := left[k..], Fit(b, right);
    assert (kept + alone)[..j] == kept && (kept + alone)[j..] == alone;
  }

  lemma {:induction false} StaysBehind(vt: Vt, b: Bounds, n: nat, whole: Surface, cut: Surface, k: nat, chunks: seq<Chunk>)
    returns (j: nat)
    requires Behind(n, whole, cut, k)
    ensures Behind(n, ApplyAll(vt, b, whole, chunks), ApplyAll(vt, b, cut, chunks), j)
  {
    if chunks == [] {
      j := k;
    } else {
      var front := chunks[..|chunks| - 1];
      var i := StaysBehind(vt, b, n, whole, cut, k, front);
      j := StepStaysBehind(vt, b, n, ApplyAll(vt, b, whole, front), ApplyAll(vt, b, cut, front), i, chunks[|chunks| - 1]);
    }
  }

  /** Numbers are those given out so far. */
  predicate Counted(s: Surface) {
    Numbered(s.images, 0, s.next)
  }

  lemma StepKeepsCounted(vt: Vt, b: Bounds, s: Surface, c: Chunk)
    requires Counted(s)
    ensures Counted(Apply(vt, b, s, c)) && Apply(vt, b, s, c).next >= s.next
  {
    if c.DeleteImage? {
      RemoveKeepsNumbers(s.images, c.id, 0, s.next);
    } else if c.Image? && c.cost.Some? {
      InsertKeepsCounted(b, s.images, s.next, Placement(c.id, vt.cell(s.parsed), c.cost.value, s.next));
    }
  }

  lemma InsertKeepsCounted(b: Bounds, images: seq<Placement>, next: nat, p: Placement)
    requires Numbered(images, 0, next) && p.number == next
    ensures Numbered(Fit(b, Remove(images, p.id) + [p]), 0, next + 1)
  {
    RemoveKeepsNumbers(images, p.id, 0, next);
    var k := FitIsRest(b, Remove(images, p.id) + [p]);
  }

  lemma {:induction false} KeepsCounted(vt: Vt, b: Bounds, s: Surface, chunks: seq<Chunk>)
    requires Counted(s)
    ensures Counted(ApplyAll(vt, b, s, chunks)) && ApplyAll(vt, b, s, chunks).next >= s.next
  {
    if chunks != [] {
      KeepsCounted(vt, b, s, chunks[..|chunks| - 1]);
      StepKeepsCounted(vt, b, ApplyAll(vt, b, s, chunks[..|chunks| - 1]), chunks[|chunks| - 1]);
    }
  }

  /** A placement made before number `n` is still there. */
  predicate OlderThan(s: Surface, n: nat) {
    exists i :: 0 <= i < |s.images| && s.images[i].number < n
  }

  /** A feed with one run in it, whole and cut in two: the run, then what follows. */
  lemma CutUnfolds(vt: Vt, b: Bounds, s: Surface, before: seq<Chunk>, x: seq<byte>, y: seq<byte>, after: seq<Chunk>)
    ensures var at := ApplyAll(vt, b, s, before);
            && ApplyAll(vt, b, s, before + [Run(x + y)] + after) == ApplyAll(vt, b, Advance(vt, at, x + y), after)
            && ApplyAll(vt, b, s, before + [Run(x), Run(y)] + after) == ApplyAll(vt, b, Advance(vt, Advance(vt, at, x), y), after)
  {
    var f := Applier(vt, b);
    Streams.FoldAppend(f, s, before + [Run(x + y)], after);
    Streams.FoldSnoc(f, s, before, Run(x + y));
    Streams.FoldAppend(f, s, before + [Run(x), Run(y)], after);
    assert before + [Run(x), Run(y)] == (before + [Run(x)]) + [Run(y)];
    Streams.FoldSnoc(f, s, before + [Run(x)], Run(y));
    Streams.FoldSnoc(f, s, before, Run(x));
  }

  /** A run cut in two with a whole feed around it: the surfaces differ in the end
      exactly when the cut shows and, uncut, a placement older than the run is
      still there. */
  lemma CutInFeed(vt: Vt, b: Bounds, s: Surface, before: seq<Chunk>, x: seq<byte>, y: seq<byte>, after: seq<Chunk>)
    requires Counted(s)
    ensures var at := ApplyAll(vt, b, s, before);
            var whole := ApplyAll(vt, b, s, before + [Run(x + y)] + after);
            var cut := ApplyAll(vt, b, s, before + [Run(x), Run(y)] + after);
            cut == whole <==> !(CutShows(vt, at, x, y) && OlderThan(whole, at.next))
  {
    var at := ApplyAll(vt, b, s, before);
    CutUnfolds(vt, b, s, before, x, y, after);
    KeepsCounted(vt, b, s, before);
    CutInsideRun(vt, at, x, y);
    if CutShows(vt, at, x, y) {
      CutDiffers(vt, b, at.next, Advance(vt, at, x + y), after);
    }
  }

  /** A cut that shows loses the placements older than its run, of those the whole has. */
  lemma CutLoses(vt: Vt, b: Bounds, s: Surface, before: seq<Chunk>, x: seq<byte>, y: seq<byte>, after: seq<Chunk>) returns (k: nat)
    requires Counted(s) && CutShows(vt, ApplyAll(vt, b, s, before), x, y)
    ensures Behind(ApplyAll(vt, b, s, before).next, ApplyAll(vt, b, s, before + [Run(x + y)] + after),
                   ApplyAll(vt, b, s, before + [Run(x), Run(y)] + after), k)
  {
    var at := ApplyAll(vt, b, s, before);
    CutUnfolds(vt, b, s, before, x, y, after);
    KeepsCounted(vt, b, s, before);
    CutInsideRun(vt, at, x, y);
    var whole := Advance(vt, at, x + y);
    assert whole.images[..|whole.images|] == whole.images && whole.images[|whole.images|..] == [];
    k := StaysBehind(vt, b, at.next, whole, whole.(images := []), |whole.images|, after);
  }

  lemma CutDiffers(vt: Vt, b: Bounds, n: nat, at: Surface, after: seq<Chunk>)
    requires Counted(at) && at.next == n
    ensures ApplyAll(vt, b, at.(images := []), after) == ApplyAll(vt, b, at, after) <==> !OlderThan(ApplyAll(vt, b, at, after), n)
  {
    assert at.images[..|at.images|] == at.images && at.images[|at.images|..] == [];
    var k := StaysBehind(vt, b, n, at, at.(images := []), |at.images|, after);
    var whole := ApplyAll(vt, b, at, after);
    if k > 0 {
      assert whole.images[..k][0] == whole.images[0];
    }
  }

  // ---- What one feed is cut into ----

  /** What a byte makes the image tap put out: bytes that join the run before them in
      the same call, or bytes that open a run of their own. */
  datatype Piece = Joins(bytes: seq<byte>) | Opens(bytes: seq<byte>) | Other(chunk: Chunk)

  function Push(out: seq<Chunk>, p: Piece): seq<Chunk> {
    match p
    case Joins(bytes) =>
      if out != [] && out[|out| - 1].Run? then out[..|out| - 1] + [Run(out[|out| - 1].bytes + bytes)] else out + [Run(bytes)]
    case Opens(bytes) => out + [Run(bytes)]
    case Other(chunk) => out + [chunk]
  }

  function Chunks(pieces: seq<Piece>): seq<Chunk> {
    if pieces == [] then [] else Push(Chunks(pieces[..|pieces| - 1]), pieces[|pieces| - 1])
  }

  /** The end of the first call and the start of the second are one run when they
      come in one call. */
  predicate Merges(a: seq<Piece>, b: seq<Piece>) {
    Chunks(a) != [] && Chunks(a)[|Chunks(a)| - 1].Run? && b != [] && b[0].Joins?
  }

  /** The first run with `x` in front of it. */
  function WithHead(x: seq<byte>, more: seq<Chunk>): seq<Chunk>
    requires more != [] && more[0].Run?
  {
    [Run(x + more[0].bytes)] + more[1..]
  }

  function Merged(out: seq<Chunk>, more: seq<Chunk>): seq<Chunk>
    requires out != [] && out[|out| - 1].Run? && more != [] && more[0].Run?
  {
    out[..|out| - 1] + WithHead(out[|out| - 1].bytes, more)
  }

  lemma {:induction false} ChunksStart(b: seq<Piece>)
    requires b != []
    ensures Chunks(b) != [] && (b[0].Joins? ==> Chunks(b)[0].Run?)
  {
    if |b| > 1 {
      ChunksStart(b[..|b| - 1]);
    } else {
      assert b[..0] == [];
    }
  }

  /** One call's chunks against those of two. */
  lemma {:induction false} ChunksOfTwo(a: seq<Piece>, b: seq<Piece>)
    ensures Merges(a, b) ==> Chunks(b) != [] && Chunks(b)[0].Run?
    ensures Chunks(a + b) == if Merges(a, b) then Merged(Chunks(a), Chunks(b)) else Chunks(a) + Chunks(b)
  {
    if b == [] {
      assert a + b == a;
    } else {
      var front, last := b[..|b| - 1], b[|b| - 1];
      assert (a + b)[..|a + b| - 1] == a + front;
      ChunksOfTwo(a, front);
      ChunksStart(b);
      if front == [] {
        assert a + front == a;
        PushFirst(Chunks(a), last);
      } else {
        ChunksStart(front);
        PushBoth(Chunks(a), Chunks(front), last);
      }
    }
  }

  lemma PushBoth(out: seq<Chunk>, more: seq<Chunk>, p: Piece)
    requires more != []
    ensures Push(more, p) != [] && (more[0].Run? ==> Push(more, p)[0].Run?)
    ensures Push(out + more, p) == out + Push(more, p)
    ensures out != [] && out[|out| - 1].Run? && more[0].Run? ==> Push(Merged(out, more), p) == Merged(out, Push(more, p))
  {
    PushLater(out, more, p);
    if out != [] && out[|out| - 1].Run? && more[0].Run? {
      PushMerged(out, more, p);
    }
  }

  lemma PushFirst(out: seq<Chunk>, p: Piece)
    ensures Push([], p) == [if p.Joins? || p.Opens? then Run(p.bytes) else p.chunk]
    ensures Push(out, p) == if out != [] && out[|out| - 1].Run? && p.Joins? then Merged(out, Push([], p)) else out + Push([], p)
  {
    assert [] + [if p.Joins? || p.Opens? then Run(p.bytes) else p.chunk] == [if p.Joins? || p.Opens? then Run(p.bytes) else p.chunk];
  }

  lemma PushLater(out: seq<Chunk>, more: seq<Chunk>, p: Piece)
    requires more != []
    ensures Push(more, p) != [] && (more[0].Run? ==> Push(more, p)[0].Run?)
    ensures Push(out + more, p) == out + Push(more, p)
  {
    var last := more[|more| - 1];
    assert (out + more)[..|out + more| - 1] == out + more[..|more| - 1] && (out + more)[|out + more| - 1] == last;
    if p.Joins? && last.Run? {
      assert (out + more[..|more| - 1]) + [Run(last.bytes + p.bytes)] == out + (more[..|more| - 1] + [Run(last.bytes + p.bytes)]);
    } else {
      var x := if p.Joins? || p.Opens? then Run(p.bytes) else p.chunk;
      assert (out + more) + [x] == out + (more + [x]);
    }
  }

  lemma PushMerged(out: seq<Chunk>, more: seq<Chunk>, p: Piece)
    requires out != [] && out[|out| - 1].Run? && more != [] && more[0].Run?
    ensures Push(more, p) != [] && Push(more, p)[0].Run?
    ensures Push(Merged(out, more), p) == Merged(out, Push(more, p))
  {
    var x := out[|out| - 1].bytes;
    if |more| == 1 {
      assert more == [more[0]];
      PushSingle(x, more[0].bytes, p);
    } else {
      PushBehind(x, more, p);
    }
    PushLater(out[..|out| - 1], WithHead(x, more), p);
  }

  lemma PushSingle(x: seq<byte>, y: seq<byte>, p: Piece)
    ensures Push([Run(y)], p) != [] && Push([Run(y)], p)[0].Run?
    ensures Push(WithHead(x, [Run(y)]), p) == WithHead(x, Push([Run(y)], p))
  {
    assert WithHead(x, [Run(y)]) == [Run(x + y)];
    if p.Joins? {
      assert [Run(y)][..0] == [] && [Run(x + y)][..0] == [];
      assert Push([Run(y)], p) == [Run(y + p.bytes)] && Push([Run(x + y)], p) == [Run((x + y) + p.bytes)];
      assert (x + y) + p.bytes == x + (y + p.bytes);
    }
  }

  lemma PushBehind(x: seq<byte>, more: seq<Chunk>, p: Piece)
    requires |more| > 1 && more[0].Run?
    ensures Push(more, p) != [] && Push(more, p)[0].Run?
    ensures Push(WithHead(x, more), p) == WithHead(x, Push(more, p))
  {
    PushLater([Run(x + more[0].bytes)], more[1..], p);
    PushLater([more[0]], more[1..], p);
    assert more == [more[0]] + more[1..];
  }

  /** Two calls against one, in the pieces they put out: the surfaces differ exactly
      when the cut falls inside a run, shows there, and a placement older than that
      run outlives the whole. */
  lemma CutFeedIff(vt: Vt, b: Bounds, s: Surface, p: seq<Piece>, q: seq<Piece>)
    requires Counted(s)
    ensures var whole := ApplyAll(vt, b, s, Chunks(p + q));
            ApplyAll(vt, b, ApplyAll(vt, b, s, Chunks(p)), Chunks(q)) == whole <==>
            !(CutRunShows(vt, b, s, p, q) && OlderThan(whole, RunStart(vt, b, s, p).next))
  {
    ChunksOfTwo(p, q);
    Streams.FoldAppend(Applier(vt, b), s, Chunks(p), Chunks(q));
    if Merges(p, q) {
      MergedCut(vt, b, s, Chunks(p), Chunks(q));
    }
  }

  lemma MergedCut(vt: Vt, b: Bounds, s: Surface, a: seq<Chunk>, c: seq<Chunk>)
    requires Counted(s) && a != [] && a[|a| - 1].Run? && c != [] && c[0].Run?
    ensures var whole, at := ApplyAll(vt, b, s, Merged(a, c)), ApplyAll(vt, b, s, a[..|a| - 1]);
            ApplyAll(vt, b, s, a + c) == whole <==>
            !(CutShows(vt, at, a[|a| - 1].bytes, c[0].bytes) && OlderThan(whole, at.next))
  {
    AroundCut(a, c);
    CutInFeed(vt, b, s, a[..|a| - 1], a[|a| - 1].bytes, c[0].bytes, c[1..]);
  }

  /** The surface before the last run of a call. */
  function RunStart(vt: Vt, b: Bounds, s: Surface, p: seq<Piece>): Surface {
    var a := Chunks(p);
    if a != [] then ApplyAll(vt, b, s, a[..|a| - 1]) else s
  }

  predicate CutRunShows(vt: Vt, b: Bounds, s: Surface, p: seq<Piece>, q: seq<Piece>) {
    && Merges(p, q)
    && Chunks(q) != [] && Chunks(q)[0].Run?
    && CutShows(vt, RunStart(vt, b, s, p), Chunks(p)[|Chunks(p)| - 1].bytes, Chunks(q)[0].bytes)
  }

  // ---- Feeding the screen ----

  /** The tap is any machine over bytes; its decoding is no matter here. */
  datatype Display<T> = Display(tap: T, surface: Surface)

  function Feed<T>(vt: Vt, b: Bounds, tap: (T, byte) -> (T, seq<Piece>), d: Display<T>, bytes: seq<byte>): Display<T> {
    var (t, pieces) := Streams.Run(tap, d.tap, bytes);
    Display(t, ApplyAll(vt, b, d.surface, Chunks(pieces)))
  }

  function Feeder<T>(vt: Vt, b: Bounds, tap: (T, byte) -> (T, seq<Piece>)): (Display<T>, seq<byte>) -> Display<T> {
    (d, bytes) => Feed(vt, b, tap, d, bytes)
  }

  function FeedEach<T>(vt: Vt, b: Bounds, tap: (T, byte) -> (T, seq<Piece>), d: Display<T>, feeds: seq<seq<byte>>): Display<T> {
    Streams.Fold(Feeder(vt, b, tap), d, feeds)
  }

  /** A cut after these bytes: no run is open there, or nothing was placed when it
      opened, or the surface that was up then is up. */
  predicate QuietCut<T>(vt: Vt, b: Bounds, tap: (T, byte) -> (T, seq<Piece>), d: Display<T>, bytes: seq<byte>) {
    var chunks := Chunks(Streams.Run(tap, d.tap, bytes).1);
    chunks != [] && chunks[|chunks| - 1].Run? ==>
      var start := ApplyAll(vt, b, d.surface, chunks[..|chunks| - 1]);
      start.images == [] || vt.alternate(start.parsed + chunks[|chunks| - 1].bytes) == vt.alternate(start.parsed)
  }

  /** Every cut is quiet, seen from the stream fed whole up to it. */
  predicate QuietCuts<T>(vt: Vt, b: Bounds, tap: (T, byte) -> (T, seq<Piece>), d: Display<T>, feeds: seq<seq<byte>>) {
    feeds == [] ||
    (QuietCuts(vt, b, tap, d, feeds[..|feeds| - 1]) && QuietCut(vt, b, tap, d, Concat(feeds[..|feeds| - 1])))
  }

  /** The cut falls inside a run, shows there, and loses a placement that outlives
      the two feeds given as one. */
  predicate Harmful<T>(vt: Vt, b: Bounds, tap: (T, byte) -> (T, seq<Piece>), d: Display<T>, x: seq<byte>, y: seq<byte>) {
    var (mid, p) := Streams.Run(tap, d.tap, x);
    CutRunShows(vt, b, d.surface, p, Streams.Run(tap, mid, y).1)
    && OlderThan(Feed(vt, b, tap, d, x + y).surface, RunStart(vt, b, d.surface, p).next)
  }

  /** Two feeds against one, over any tap. */
  lemma TwoFeedsIff<T>(vt: Vt, b: Bounds, tap: (T, byte) -> (T, seq<Piece>), d: Display<T>, x: seq<byte>, y: seq<byte>)
    requires Counted(d.surface)
    ensures Feed(vt, b, tap, Feed(vt, b, tap, d, x), y) == Feed(vt, b, tap, d, x + y) <==> !Harmful(vt, b, tap, d, x, y)
  {
    Streams.RunAppend(tap, d.tap, x, y);
    var (mid, p) := Streams.Run(tap, d.tap, x);
    CutFeedIff(vt, b, d.surface, p, Streams.Run(tap, mid, y).1);
  }

  lemma QuietCutIsHarmless<T>(vt: Vt, b: Bounds, tap: (T, byte) -> (T, seq<Piece>), d: Display<T>, x: seq<byte>, y: seq<byte>)
    requires Counted(d.surface) && QuietCut(vt, b, tap, d, x)
    ensures Feed(vt, b, tap, Feed(vt, b, tap, d, x), y) == Feed(vt, b, tap, d, x + y)
  {
    TwoFeedsIff(vt, b, tap, d, x, y);
  }

  /** Over any cutting: while no cut falls on the other surface with something
      placed, the screen ends as if it had been fed once. */
  lemma {:induction false} QuietCutsAgree<T>(vt: Vt, b: Bounds, tap: (T, byte) -> (T, seq<Piece>), d: Display<T>, feeds: seq<seq<byte>>)
    requires Counted(d.surface) && QuietCuts(vt, b, tap, d, feeds)
    ensures FeedEach(vt, b, tap, d, feeds) == Feed(vt, b, tap, d, Concat(feeds))
  {
    if feeds != [] {
      var front, last := feeds[..|feeds| - 1], feeds[|feeds| - 1];
      QuietCutsAgree(vt, b, tap, d, front);
      QuietCutIsHarmless(vt, b, tap, d, Concat(front), last);
    }
  }

  // ---- Any cutting ----

  /** The number from which on placements are kept at one cut: nothing is lost, or what
      is older than the run that is cut. */
  function CutoffAt<T>(vt: Vt, b: Bounds, tap: (T, byte) -> (T, seq<Piece>), d: Display<T>, x: seq<byte>, y: seq<byte>): nat {
    var (mid, p) := Streams.Run(tap, d.tap, x);
    if CutRunShows(vt, b, d.surface, p, Streams.Run(tap, mid, y).1) then RunStart(vt, b, d.surface, p).next else 0
  }

  /** The same of a cutting: the highest of its cuts', each seen from the stream fed
      whole up to it. */
  function Cutoff<T>(vt: Vt, b: Bounds, tap: (T, byte) -> (T, seq<Piece>), d: Display<T>, feeds: seq<seq<byte>>): nat {
    if feeds == [] then 0
    else
      var front := feeds[..|feeds| - 1];
      Max(Cutoff(vt, b, tap, d, front), CutoffAt(vt, b, tap, d, Concat(front), feeds[|feeds| - 1]))
  }

  function Max(a: nat, b: nat): nat {
    if a < b then b else a
  }

  lemma SameIsBehind(s: Surface)
    requires Counted(s)
    ensures Behind(0, s, s, 0)
  {
    assert s.images[0..] == s.images && s.images[..0] == [];
  }

  /** Losing what is older than `a`, then what is older than `c`. */
  lemma BehindTwice(a: nat, c: nat, whole: Surface, mid: Surface, cut: Surface, i: nat, j: nat)
    requires Behind(a, whole, mid, i) && Behind(c, mid, cut, j)
    ensures Behind(Max(a, c), whole, cut, i + j)
  {
    assert whole.images[i + j..] == mid.images[j..];
    var gone := whole.images[..i + j];
    forall k | 0 <= k < |gone| ensures gone[k].number < Max(a, c) {
      if k < i {
        assert whole.images[..i][k] == whole.images[k];
      } else {
        assert mid.images[..j][k - i] == whole.images[k];
      }
    }
    forall k | 0 <= k < |cut.images| ensures Max(a, c) <= cut.images[k].number {
      assert cut.images[k] == mid.images[j + k];
    }
  }

  lemma OneCutBehind<T>(vt: Vt, b: Bounds, tap: (T, byte) -> (T, seq<Piece>), d: Display<T>, x: seq<byte>, y: seq<byte>) returns (k: nat)
    requires Counted(d.surface)
    ensures var whole, cut := Feed(vt, b, tap, d, x + y), Feed(vt, b, tap, Feed(vt, b, tap, d, x), y);
            cut.tap == whole.tap && Behind(CutoffAt(vt, b, tap, d, x, y), whole.surface, cut.surface, k)
  {
    Streams.RunAppend(tap, d.tap, x, y);
    var (mid, p) := Streams.Run(tap, d.tap, x);
    var q := Streams.Run(tap, mid, y).1;
    if CutRunShows(vt, b, d.surface, p, q) {
      k := PiecesBehind(vt, b, d.surface, p, q);
    } else {
      k := 0;
      TwoFeedsIff(vt, b, tap, d, x, y);
      KeepsCounted(vt, b, d.surface, Chunks(p + q));
      SameIsBehind(Feed(vt, b, tap, d, x + y).surface);
    }
  }

  lemma PiecesBehind(vt: Vt, b: Bounds, s: Surface, p: seq<Piece>, q: seq<Piece>) returns (k: nat)
    requires Counted(s) && CutRunShows(vt, b, s, p, q)
    ensures Behind(RunStart(vt, b, s, p).next, ApplyAll(vt, b, s, Chunks(p + q)),
                   ApplyAll(vt, b, ApplyAll(vt, b, s, Chunks(p)), Chunks(q)), k)
  {
    ChunksOfTwo(p, q);
    Streams.FoldAppend(Applier(vt, b), s, Chunks(p), Chunks(q));
    k := MergedBehind(vt, b, s, Chunks(p), Chunks(q));
  }

  lemma MergedBehind(vt: Vt, b: Bounds, s: Surface, a: seq<Chunk>, c: seq<Chunk>) returns (k: nat)
    requires Counted(s) && a != [] && a[|a| - 1].Run? && c != [] && c[0].Run?
    requires CutShows(vt, ApplyAll(vt, b, s, a[..|a| - 1]), a[|a| - 1].bytes, c[0].bytes)
    ensures Behind(ApplyAll(vt, b, s, a[..|a| - 1]).next, ApplyAll(vt, b, s, Merged(a, c)), ApplyAll(vt, b, s, a + c), k)
  {
    AroundCut(a, c);
    k := CutLoses(vt, b, s, a[..|a| - 1], a[|a| - 1].bytes, c[0].bytes, c[1..]);
  }

  lemma AroundCut(a: seq<Chunk>, c: seq<Chunk>)
    requires a != [] && a[|a| - 1].Run? && c != [] && c[0].Run?
    ensures var before, x, y, after := a[..|a| - 1], a[|a| - 1].bytes, c[0].bytes, c[1..];
            a + c == before + [Run(x), Run(y)] + after && Merged(a, c) == before + [Run(x + y)] + after
  {
    var before, x, y, after := a[..|a| - 1], a[|a| - 1].bytes, c[0].bytes, c[1..];
    assert before + ([Run(x + y)] + after) == before + [Run(x + y)] + after;
  }

  /** Over every cutting: the images are those of the stream fed once, without what is
      older than the cutoff. */
  lemma {:induction false} CuttingLoses<T>(vt: Vt, b: Bounds, tap: (T, byte) -> (T, seq<Piece>), d: Display<T>, feeds: seq<seq<byte>>)
    returns (k: nat)
    requires Counted(d.surface)
    ensures var whole, cut := Feed(vt, b, tap, d, Concat(feeds)), FeedEach(vt, b, tap, d, feeds);
            cut.tap == whole.tap && Behind(Cutoff(vt, b, tap, d, feeds), whole.surface, cut.surface, k)
  {
    if feeds == [] {
      k := 0;
      SameIsBehind(d.surface);
    } else {
      var front, last := feeds[..|feeds| - 1], feeds[|feeds| - 1];
      var i := CuttingLoses(vt, b, tap, d, front);
      var once, each := Feed(vt, b, tap, d, Concat(front)), FeedEach(vt, b, tap, d, front);
      var j := StaysBehind(vt, b, Cutoff(vt, b, tap, d, front), once.surface, each.surface, i, Chunks(Streams.Run(tap, once.tap, last).1));
      var m := OneCutBehind(vt, b, tap, d, Concat(front), last);
      k := LastCut(vt, b, tap, d, feeds, m, j);
    }
  }

  lemma LastCut<T>(vt: Vt, b: Bounds, tap: (T, byte) -> (T, seq<Piece>), d: Display<T>, feeds: seq<seq<byte>>, m: nat, j: nat)
    returns (k: nat)
    requires feeds != []
    requires var front, last := feeds[..|feeds| - 1], feeds[|feeds| - 1];
             var whole, mid := Feed(vt, b, tap, d, Concat(feeds)), Feed(vt, b, tap, Feed(vt, b, tap, d, Concat(front)), last);
             && mid.tap == whole.tap && Behind(CutoffAt(vt, b, tap, d, Concat(front), last), whole.surface, mid.surface, m)
             && FeedEach(vt, b, tap, d, feeds).tap == mid.tap
             && Behind(Cutoff(vt, b, tap, d, front), mid.surface, FeedEach(vt, b, tap, d, feeds).surface, j)
    ensures var whole, cut := Feed(vt, b, tap, d, Concat(feeds)), FeedEach(vt, b, tap, d, feeds);
            cut.tap == whole.tap && Behind(Cutoff(vt, b, tap, d, feeds), whole.surface, cut.surface, k)
  {
    var front, last := feeds[..|feeds| - 1], feeds[|feeds| - 1];
    BehindTwice(CutoffAt(vt, b, tap, d, Concat(front), last), Cutoff(vt, b, tap, d, front),
                Feed(vt, b, tap, d, Concat(feeds)).surface, Feed(vt, b, tap, Feed(vt, b, tap, d, Concat(front)), last).surface,
                FeedEach(vt, b, tap, d, feeds).surface, m, j);
    k := m + j;
  }

  /** What is behind is the same exactly when nothing older was there. */
  lemma BehindIsSame(n: nat, whole: Surface, cut: Surface, k: nat)
    requires Behind(n, whole, cut, k)
    ensures cut == whole <==> !OlderThan(whole, n)
  {
    if k > 0 {
      assert whole.images[..k][0] == whole.images[0];
    } else {
      assert whole.images[0..] == whole.images;
    }
  }

  /** Exactly when a cutting ends as one feed: no image of the whole is older than its
      cutoff. */
  lemma CuttingAgreesIff<T>(vt: Vt, b: Bounds, tap: (T, byte) -> (T, seq<Piece>), d: Display<T>, feeds: seq<seq<byte>>)
    requires Counted(d.surface)
    ensures FeedEach(vt, b, tap, d, feeds) == Feed(vt, b, tap, d, Concat(feeds)) <==>
            !OlderThan(Feed(vt, b, tap, d, Concat(feeds)).surface, Cutoff(vt, b, tap, d, feeds))
  {
    var k := CuttingLoses(vt, b, tap, d, feeds);
    BehindIsSame(Cutoff(vt, b, tap, d, feeds), Feed(vt, b, tap, d, Concat(feeds)).surface, FeedEach(vt, b, tap, d, feeds).surface, k);
  }

  /** A placement with a number from one cutoff up to the other, whichever is higher. */
  predicate PlacedBetween(s: Surface, n: nat, m: nat) {
    exists i :: 0 <= i < |s.images| && ((n <= s.images[i].number < m) || (m <= s.images[i].number < n))
  }

  lemma BehindBoth(n: nat, m: nat, whole: Surface, one: Surface, other: Surface, i: nat, j: nat)
    requires Behind(n, whole, one, i) && Behind(m, whole, other, j)
    ensures one == other <==> !PlacedBetween(whole, n, m)
  {
    if i < j {
      assert whole.images[i] == one.images[0] && whole.images[..j][i] == whole.images[i];
    } else if j < i {
      assert whole.images[j] == other.images[0] && whole.images[..i][j] == whole.images[j];
    } else {
      forall k | 0 <= k < |whole.images|
        ensures !(n <= whole.images[k].number < m) && !(m <= whole.images[k].number < n)
      {
        if k < i {
          assert whole.images[..i][k] == whole.images[k] && whole.images[..j][k] == whole.images[k];
        } else {
          assert whole.images[k] == one.images[k - i] && whole.images[k] == other.images[k - j];
        }
      }
    }
  }

  /** Exactly when two cuttings of one stream end alike: no image of the whole lies
      between their cutoffs. */
  lemma TwoCuttingsIff<T>(vt: Vt, b: Bounds, tap: (T, byte) -> (T, seq<Piece>), d: Display<T>, one: seq<seq<byte>>, other: seq<seq<byte>>)
    requires Counted(d.surface) && Concat(one) == Concat(other)
    ensures FeedEach(vt, b, tap, d, one) == FeedEach(vt, b, tap, d, other) <==>
            !PlacedBetween(Feed(vt, b, tap, d, Concat(one)).surface, Cutoff(vt, b, tap, d, one), Cutoff(vt, b, tap, d, other))
  {
    var i := CuttingLoses(vt, b, tap, d, one);
    var j := CuttingLoses(vt, b, tap, d, other);
    BehindBoth(Cutoff(vt, b, tap, d, one), Cutoff(vt, b, tap, d, other), Feed(vt, b, tap, d, Concat(one)).surface,
               FeedEach(vt, b, tap, d, one).surface, FeedEach(vt, b, tap, d, other).surface, i, j);
  }
}
