/** Types shared by the modules of the model. */
module Base {

  /** One byte of a pty stream. */
  newtype byte = b: int | 0 <= b < 256

  datatype Option<+T> = None | Some(value: T)

  datatype Result<+R, +E> = Ok(value: R) | Err(error: E)

  /** No element occurs twice. */
  ghost predicate Distinct<T>(s: seq<T>) {
    forall i, j :: 0 <= i < j < |s| ==> s[i] != s[j]
  }

  lemma DistinctAppend<T>(a: seq<T>, b: seq<T>)
    requires Distinct(a) && Distinct(b)
    requires forall x :: x in a ==> x !in b
    ensures Distinct(a + b)
  {
    forall i, j | 0 <= i < j < |a + b|
      ensures (a + b)[i] != (a + b)[j]
    {
      if i < |a| <= j {
        assert (a + b)[i] in a && (a + b)[j] == b[j - |a|];
      }
    }
  }

  lemma DistinctParts<T>(a: seq<T>, b: seq<T>)
    requires Distinct(a + b)
    ensures Distinct(a) && Distinct(b)
    ensures forall x :: x in a ==> x !in b
  {
    forall i, j | 0 <= i < j < |a| ensures a[i] != a[j] {
      assert (a + b)[i] == a[i] && (a + b)[j] == a[j];
    }
    forall i, j | 0 <= i < j < |b| ensures b[i] != b[j] {
      assert (a + b)[i + |a|] == b[i] && (a + b)[j + |a|] == b[j];
    }
    forall i, j | 0 <= i < |a| && 0 <= j < |b| ensures a[i] != b[j] {
      assert (a + b)[i] == a[i] && (a + b)[j + |a|] == b[j];
    }
  }

  /** Each element replaced by what `f` makes of it, in order. */
  function FlatMap<A, B>(f: A -> seq<B>, s: seq<A>): seq<B> {
    if s == [] then [] else FlatMap(f, s[..|s| - 1]) + f(s[|s| - 1])
  }

  lemma {:induction false} FlatMapAppend<A, B>(f: A -> seq<B>, s: seq<A>, t: seq<A>)
    ensures FlatMap(f, s + t) == FlatMap(f, s) + FlatMap(f, t)
  {
    if t == [] {
      assert s + t == s;
    } else {
      var n := |t| - 1;
      FlatMapAppend(f, s, t[..n]);
      assert (s + t)[..|s + t| - 1] == s + t[..n];
    }
  }

  lemma FlatMapOne<A, B>(f: A -> seq<B>, s: seq<A>, x: A)
    ensures FlatMap(f, s + [x]) == FlatMap(f, s) + f(x)
  {
    assert (s + [x])[..|s + [x]| - 1] == s;
  }

  function Same<T>(piece: seq<T>): seq<T> {
    piece
  }

  function Concat<T>(pieces: seq<seq<T>>): seq<T> {
    FlatMap(Same, pieces)
  }

  lemma ConcatSnoc<T>(pieces: seq<seq<T>>, piece: seq<T>)
    ensures Concat(pieces + [piece]) == Concat(pieces) + piece
  {
    FlatMapOne(Same, pieces, piece);
  }

  lemma ConcatAppend<T>(a: seq<seq<T>>, b: seq<seq<T>>)
    ensures Concat(a + b) == Concat(a) + Concat(b)
  {
    FlatMapAppend(Same, a, b);
  }

  /** The first `n` parts, one after the other. */
  function Joined<T>(part: nat -> seq<T>, n: nat): seq<T> {
    if n == 0 then [] else Joined(part, n - 1) + part(n - 1)
  }

  lemma {:induction false} InJoined<T>(part: nat -> seq<T>, n: nat, x: T)
    ensures x in Joined(part, n) <==> exists k: nat :: k < n && x in part(k)
  {
    if n > 0 {
      InJoined(part, n - 1, x);
    }
  }

  /** Parts without repetitions that share nothing join without repetitions. */
  lemma {:induction false} JoinedDistinct<T>(part: nat -> seq<T>, n: nat)
    requires forall k: nat :: k < n ==> Distinct(part(k))
    requires forall i: nat, j: nat, x :: i < j < n && x in part(i) ==> x !in part(j)
    ensures Distinct(Joined(part, n))
  {
    if n > 0 {
      JoinedDistinct(part, n - 1);
      var before, last := Joined(part, n - 1), part(n - 1);
      forall x | x in before ensures x !in last {
        InJoined(part, n - 1, x);
      }
      DistinctAppend(before, last);
    }
  }

  /** Rust's `char::is_whitespace`. */
  predicate IsWhitespace(c: char) {
    || '\t' <= c <= '\r' || c == ' ' || c == '\U{0085}' || c == '\U{00A0}' || c == '\U{1680}'
    || '\U{2000}' <= c <= '\U{200A}' || c == '\U{2028}' || c == '\U{2029}'
    || c == '\U{202F}' || c == '\U{205F}' || c == '\U{3000}'
  }

  /** Whether trimming leaves nothing. */
  predicate Blank(s: string) {
    forall i :: 0 <= i < |s| ==> IsWhitespace(s[i])
  }

  /** The text without its leading and trailing whitespace. */
  function Trim(s: string): (t: string)
    ensures t == [] <==> Blank(s)
    ensures t != [] ==> !IsWhitespace(t[0]) && !IsWhitespace(t[|t| - 1])
  {
    if s == [] then []
    else if IsWhitespace(s[0]) then Trim(s[1..])
    else if IsWhitespace(s[|s| - 1]) then Trim(s[..|s| - 1])
    else s
  }

  lemma BlankJoin(a: string, b: string)
    requires Blank(a) && Blank(b)
    ensures Blank(a + b)
  {
  }

  /** Trimming takes whitespace off the ends and nothing else. */
  lemma {:induction false} TrimCuts(s: string) returns (before: string, after: string)
    ensures s == before + Trim(s) + after && Blank(before) && Blank(after)
  {
    before, after := [], [];
    if s == [] {
    } else if IsWhitespace(s[0]) {
      var head, rest := s[..1], s[1..];
      var b, a := TrimCuts(rest);
      before, after := head + b, a;
      BlankJoin(head, b);
      assert s == head + rest;
      Regrouped(head, b, Trim(rest), a);
    } else if IsWhitespace(s[|s| - 1]) {
      var rest, tail := s[..|s| - 1], s[|s| - 1..];
      var b, a := TrimCuts(rest);
      before, after := b, a + tail;
      BlankJoin(a, tail);
      assert s == rest + tail;
      RegroupedEnd(b, Trim(rest), a, tail);
    } else {
      assert s == [] + s + [];
    }
  }

  lemma Regrouped(head: string, b: string, core: string, a: string)
    ensures head + (b + core + a) == (head + b) + core + a
  {
  }

  lemma RegroupedEnd(b: string, core: string, a: string, tail: string)
    ensures (b + core + a) + tail == b + core + (a + tail)
  {
  }
}
