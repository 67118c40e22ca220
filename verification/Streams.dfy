/** Machines that read a stream one element at a time and put out items. */
module Streams {

  function Run<S, B, I>(step: (S, B) -> (S, seq<I>), s: S, input: seq<B>): (S, seq<I>) {
    if input == [] then (s, [])
    else
      var n := |input| - 1;
      var (mid, items) := Run(step, s, input[..n]);
      var (end, last) := step(mid, input[n]);
      (end, items + last)
  }

  lemma RunSnoc<S, B, I>(step: (S, B) -> (S, seq<I>), s: S, a: seq<B>, b: B)
    ensures var (mid, items) := Run(step, s, a);
            var (end, last) := step(mid, b);
            && Run(step, s, a + [b]) == (end, items + last)
            && (last == [] ==> items + last == items)
            && (items == [] ==> items + last == last)
  {
    assert (a + [b])[..|a + [b]| - 1] == a;
  }

  /** Reading in two goes is reading in one. */
  lemma {:induction false} RunAppend<S, B, I>(step: (S, B) -> (S, seq<I>), s: S, a: seq<B>, b: seq<B>)
    ensures var (mid, items) := Run(step, s, a);
            var (end, more) := Run(step, mid, b);
            Run(step, s, a + b) == (end, items + more)
  {
    var (mid, items) := Run(step, s, a);
    if b == [] {
      assert a + b == a;
      assert items + [] == items;
    } else {
      var rest, x := b[..|b| - 1], b[|b| - 1];
      RunAppend(step, s, a, rest);
      RunSnoc(step, s, a + rest, x);
      assert a + b == (a + rest) + [x];
      var (s1, more) := Run(step, mid, rest);
      Together(items, more, step(s1, x).1);
    }
  }

  /** A machine that puts nothing out. */
  function Fold<S, B>(step: (S, B) -> S, s: S, input: seq<B>): S {
    if input == [] then s else step(Fold(step, s, input[..|input| - 1]), input[|input| - 1])
  }

  lemma FoldSnoc<S, B>(step: (S, B) -> S, s: S, a: seq<B>, b: B)
    ensures Fold(step, s, a + [b]) == step(Fold(step, s, a), b)
  {
    assert (a + [b])[..|a + [b]| - 1] == a;
  }

  lemma {:induction false} FoldAppend<S, B>(step: (S, B) -> S, s: S, a: seq<B>, b: seq<B>)
    ensures Fold(step, s, a + b) == Fold(step, Fold(step, s, a), b)
  {
    if b == [] {
      assert a + b == a;
    } else {
      var rest, x := b[..|b| - 1], b[|b| - 1];
      FoldAppend(step, s, a, rest);
      FoldSnoc(step, s, a + rest, x);
      assert a + b == (a + rest) + [x];
    }
  }

  lemma Together<I>(a: seq<I>, b: seq<I>, c: seq<I>)
    ensures a + (b + c) == (a + b) + c
  {
  }
}
