/**
 A loop that takes elements out of a list from the far end inwards. What one taking
 does to a state is carried over the whole loop, whatever the state is.
 */
module Descents {

  /** Take the indices `hi - 1` down to `lo`. */
  function Descend<S>(take: (S, nat) -> S, s: S, lo: nat, hi: nat): S
    requires lo <= hi
    decreases hi
  {
    if lo == hi then s else Descend(take, take(s, hi - 1), lo, hi - 1)
  }

  function Drop<A>(list: seq<A>, index: nat): seq<A>
    requires index < |list|
  {
    list[..index] + list[index + 1..]
  }

  /** The taking can be done: an element stays. */
  predicate Takes<A>(list: seq<A>, index: nat) {
    index < |list| && |list| > 1
  }

  /** `take` removes the element from the list the state holds. */
  ghost predicate Removes<S(!new), A>(take: (S, nat) -> S, list: S -> seq<A>) {
    forall s: S, index: nat {:trigger take(s, index)} :: Takes(list(s), index) ==>
      list(take(s, index)) == Drop(list(s), index)
  }

  /** What holds after every taking. */
  ghost predicate Leaves<S(!new), A>(take: (S, nat) -> S, list: S -> seq<A>, after: S -> bool) {
    forall s: S, index: nat {:trigger take(s, index)} :: Takes(list(s), index) ==> after(take(s, index))
  }

  /** What no taking changes. */
  ghost predicate Keeps<S(!new), A, B(!new)>(take: (S, nat) -> S, list: S -> seq<A>, part: S -> B) {
    forall s: S, index: nat {:trigger take(s, index)} :: Takes(list(s), index) ==> part(take(s, index)) == part(s)
  }

  /** What holds through any taking at all. */
  ghost predicate Preserves<S(!new)>(take: (S, nat) -> S, inv: S -> bool) {
    forall s: S, index: nat {:trigger take(s, index)} :: inv(s) ==> inv(take(s, index))
  }

  /** A taking loses the holdings of its element. */
  ghost predicate Loses<S(!new), A, H>(take: (S, nat) -> S, list: S -> seq<A>, held: S -> H, of: A -> set<nat>,
                                       without: (H, set<nat>) -> H)
  {
    forall s: S, index: nat {:trigger take(s, index)} :: Takes(list(s), index) ==>
      held(take(s, index)) == without(held(s), of(list(s)[index]))
  }

  /** Losing one set after another is losing both. */
  ghost predicate Adds<H(!new)>(without: (H, set<nat>) -> H) {
    && (forall h: H {:trigger without(h, {})} :: without(h, {}) == h)
    && (forall h: H, a: set<nat>, b: set<nat> {:trigger without(without(h, a), b)} :: without(without(h, a), b) == without(h, b + a))
  }

  function Union<A>(of: A -> set<nat>, list: seq<A>): set<nat> {
    if list == [] then {} else Union(of, list[..|list| - 1]) + of(list[|list| - 1])
  }

  lemma DropFromStretch<A>(list: seq<A>, lo: nat, hi: nat)
    requires lo < hi <= |list|
    ensures Drop(list, hi - 1)[..lo] + Drop(list, hi - 1)[hi - 1..] == list[..lo] + list[hi..]
    ensures list[lo..hi][..hi - lo - 1] == Drop(list, hi - 1)[lo..hi - 1]
  {
  }

  lemma {:induction false} DescendRemoves<S(!new), A>(take: (S, nat) -> S, list: S -> seq<A>, s: S, lo: nat, hi: nat)
    requires Removes(take, list) && lo <= hi <= |list(s)| && (lo > 0 || hi < |list(s)|)
    ensures list(Descend(take, s, lo, hi)) == list(s)[..lo] + list(s)[hi..]
    decreases hi
  {
    if lo == hi {
      assert list(s)[..lo] + list(s)[hi..] == list(s);
    } else {
      DropFromStretch(list(s), lo, hi);
      DescendRemoves(take, list, take(s, hi - 1), lo, hi - 1);
    }
  }

  lemma {:induction false} DescendLeaves<S(!new), A>(take: (S, nat) -> S, list: S -> seq<A>, after: S -> bool,
                                                     s: S, lo: nat, hi: nat)
    requires Removes(take, list) && Leaves(take, list, after)
    requires lo < hi <= |list(s)| && (lo > 0 || hi < |list(s)|)
    ensures after(Descend(take, s, lo, hi))
    decreases hi
  {
    if lo < hi - 1 {
      DescendLeaves(take, list, after, take(s, hi - 1), lo, hi - 1);
    }
  }

  lemma {:induction false} DescendKeeps<S(!new), A, B(!new)>(take: (S, nat) -> S, list: S -> seq<A>, part: S -> B,
                                                             s: S, lo: nat, hi: nat)
    requires Removes(take, list) && Keeps(take, list, part)
    requires lo <= hi <= |list(s)| && (lo > 0 || hi < |list(s)|)
    ensures part(Descend(take, s, lo, hi)) == part(s)
    decreases hi
  {
    if lo < hi {
      DescendKeeps(take, list, part, take(s, hi - 1), lo, hi - 1);
    }
  }

  lemma {:induction false} DescendPreserves<S(!new)>(take: (S, nat) -> S, inv: S -> bool, s: S, lo: nat, hi: nat)
    requires Preserves(take, inv) && inv(s) && lo <= hi
    ensures inv(Descend(take, s, lo, hi))
    decreases hi
  {
    if lo < hi {
      DescendPreserves(take, inv, take(s, hi - 1), lo, hi - 1);
    }
  }

  lemma {:induction false} DescendLoses<S(!new), A, H(!new)>(take: (S, nat) -> S, list: S -> seq<A>, held: S -> H,
                                                             of: A -> set<nat>, without: (H, set<nat>) -> H,
                                                             s: S, lo: nat, hi: nat)
    requires Removes(take, list) && Loses(take, list, held, of, without) && Adds(without)
    requires lo <= hi <= |list(s)| && (lo > 0 || hi < |list(s)|)
    ensures held(Descend(take, s, lo, hi)) == without(held(s), Union(of, list(s)[lo..hi]))
    decreases hi
  {
    if lo == hi {
      assert list(s)[lo..hi] == [];
    } else {
      DescendLoses(take, list, held, of, without, take(s, hi - 1), lo, hi - 1);
      LoseOneMore(of, without, list(s), held(s), lo, hi);
    }
  }

  lemma LoseOneMore<A, H(!new)>(of: A -> set<nat>, without: (H, set<nat>) -> H, list: seq<A>, h: H, lo: nat, hi: nat)
    requires Adds(without) && lo < hi <= |list|
    ensures without(without(h, of(list[hi - 1])), Union(of, Drop(list, hi - 1)[lo..hi - 1])) == without(h, Union(of, list[lo..hi]))
  {
    DropFromStretch(list, lo, hi);
  }

  // ---- Both sides of one element ----

  /** Take everything but the element at `index`. */
  function Others<S, A>(take: (S, nat) -> S, list: S -> seq<A>, s: S, index: nat): S
    requires index < |list(s)|
  {
    Descend(take, Descend(take, s, index + 1, |list(s)|), 0, index)
  }

  lemma RightTaken<S(!new), A>(take: (S, nat) -> S, list: S -> seq<A>, s: S, index: nat)
    requires Removes(take, list) && index < |list(s)|
    ensures list(Descend(take, s, index + 1, |list(s)|)) == list(s)[..index + 1]
  {
    DescendRemoves(take, list, s, index + 1, |list(s)|);
    assert list(s)[..index + 1] + list(s)[|list(s)|..] == list(s)[..index + 1];
  }

  lemma OthersRemoved<S(!new), A>(take: (S, nat) -> S, list: S -> seq<A>, s: S, index: nat)
    requires Removes(take, list) && index < |list(s)|
    ensures list(Others(take, list, s, index)) == [list(s)[index]]
  {
    var mid := Descend(take, s, index + 1, |list(s)|);
    RightTaken(take, list, s, index);
    DescendRemoves(take, list, mid, 0, index);
    assert list(mid)[..0] + list(mid)[index..] == [list(s)[index]];
  }

  lemma OthersKept<S(!new), A, B(!new)>(take: (S, nat) -> S, list: S -> seq<A>, part: S -> B, s: S, index: nat)
    requires Removes(take, list) && Keeps(take, list, part) && index < |list(s)|
    ensures part(Others(take, list, s, index)) == part(s)
  {
    RightTaken(take, list, s, index);
    DescendKeeps(take, list, part, s, index + 1, |list(s)|);
    DescendKeeps(take, list, part, Descend(take, s, index + 1, |list(s)|), 0, index);
  }

  /** After the last taking, if there was one; else nothing happened. */
  lemma OthersLeave<S(!new), A>(take: (S, nat) -> S, list: S -> seq<A>, after: S -> bool, s: S, index: nat)
    requires Removes(take, list) && Leaves(take, list, after) && index < |list(s)|
    ensures if |list(s)| > 1 then after(Others(take, list, s, index)) else Others(take, list, s, index) == s
  {
    RightTaken(take, list, s, index);
    if index > 0 {
      DescendLeaves(take, list, after, Descend(take, s, index + 1, |list(s)|), 0, index);
    } else if |list(s)| > 1 {
      DescendLeaves(take, list, after, s, 1, |list(s)|);
    }
  }

  lemma OthersPreserved<S(!new), A>(take: (S, nat) -> S, list: S -> seq<A>, inv: S -> bool, s: S, index: nat)
    requires Preserves(take, inv) && inv(s) && index < |list(s)|
    ensures inv(Others(take, list, s, index))
  {
    DescendPreserves(take, inv, s, index + 1, |list(s)|);
    DescendPreserves(take, inv, Descend(take, s, index + 1, |list(s)|), 0, index);
  }

  lemma OthersLost<S(!new), A, H(!new)>(take: (S, nat) -> S, list: S -> seq<A>, held: S -> H,
                                        of: A -> set<nat>, without: (H, set<nat>) -> H, s: S, index: nat)
    requires Removes(take, list) && Loses(take, list, held, of, without) && Adds(without) && index < |list(s)|
    ensures held(Others(take, list, s, index))
         == without(held(s), Union(of, list(s)[..index]) + Union(of, list(s)[index + 1..]))
  {
    var mid := Descend(take, s, index + 1, |list(s)|);
    RightTaken(take, list, s, index);
    DescendLoses(take, list, held, of, without, s, index + 1, |list(s)|);
    DescendLoses(take, list, held, of, without, mid, 0, index);
    assert list(mid)[0..index] == list(s)[..index];
    assert list(s)[index + 1..|list(s)|] == list(s)[index + 1..];
  }
}
