/**
 Names for environments the user adds: an id made from a label, and a distinct one
 when it is taken.
 */
module MediumNames {
  import opened Base

  // ---- An id from a label ----

  /** Rust's `char::is_alphanumeric`; `other` answers for what is not ASCII. */
  predicate Alphanumeric(c: char, other: char -> bool) {
    if c < '\U{0080}' then '0' <= c <= '9' || 'a' <= c <= 'z' || 'A' <= c <= 'Z' else other(c)
  }

  function Lower(c: char): char {
    if 'A' <= c <= 'Z' then (c as int + 32) as char else c
  }

  /** The maximal runs of alphanumeric characters, in lower case. */
  function Words(text: string, other: char -> bool): (words: seq<string>)
    ensures text != [] && Alphanumeric(text[|text| - 1], other) ==> words != []
  {
    if text == [] then []
    else
      var front, c := text[..|text| - 1], text[|text| - 1];
      var words := Words(front, other);
      if !Alphanumeric(c, other) then words
      else if front != [] && Alphanumeric(front[|front| - 1], other)
      then words[..|words| - 1] + [words[|words| - 1] + [Lower(c)]]
      else words + [[Lower(c)]]
  }

  function Join(words: seq<string>): string {
    if words == [] then ""
    else if |words| == 1 then words[0]
    else Join(words[..|words| - 1]) + "-" + words[|words| - 1]
  }

  /** The id a label is meant to give: its words with dashes between them. */
  function MediumId(text: string, other: char -> bool): string {
    if Words(text, other) == [] then "medium" else Join(Words(text, other))
  }

  function TrimDashes(s: string): string {
    if s == [] then ""
    else if s[0] == '-' then TrimDashes(s[1..])
    else if s[|s| - 1] == '-' then TrimDashes(s[..|s| - 1])
    else s
  }

  predicate EndsApart(text: string, other: char -> bool) {
    text != [] && !Alphanumeric(text[|text| - 1], other)
  }

  /** The dash before the first word, if any. */
  function Lead(text: string, other: char -> bool): string {
    if text != [] && !Alphanumeric(text[0], other) then "-" else ""
  }

  /** What the loop has built: dashes may stand at both ends. */
  function Raw(text: string, other: char -> bool): string {
    var words := Words(text, other);
    Lead(text, other) + Join(words)
    + (if words != [] && EndsApart(text, other) then "-" else "")
  }

  lemma WordsSnoc(text: string, c: char, other: char -> bool)
    ensures Words(text + [c], other)
         == var words := Words(text, other);
            if !Alphanumeric(c, other) then words
            else if text != [] && Alphanumeric(text[|text| - 1], other)
            then words[..|words| - 1] + [words[|words| - 1] + [Lower(c)]]
            else words + [[Lower(c)]]
  {
    assert (text + [c])[..|text + [c]| - 1] == text;
  }

  lemma JoinLast(words: seq<string>, last: string)
    ensures Join(words + [last]) == if words == [] then last else Join(words) + "-" + last
  {
    assert (words + [last])[..|words + [last]| - 1] == words;
  }

  lemma JoinGrows(front: seq<string>, last: string, c: char)
    ensures Join(front + [last + [c]]) == Join(front + [last]) + [c]
  {
    JoinLast(front, last + [c]);
    JoinLast(front, last);
    if front != [] {
      DashBetween(Join(front), last, c);
    }
  }

  lemma DashBetween(head: string, last: string, c: char)
    ensures head + "-" + (last + [c]) == (head + "-" + last) + [c]
  {
  }

  lemma {:induction false} NoWords(text: string, other: char -> bool)
    ensures Words(text, other) == [] <==> forall i :: 0 <= i < |text| ==> !Alphanumeric(text[i], other)
  {
    if text != [] {
      NoWords(text[..|text| - 1], other);
    }
  }

  /** One turn of the loop. */
  lemma RawSnoc(text: string, c: char, other: char -> bool)
    ensures Raw(text + [c], other)
         == if Alphanumeric(c, other) then Raw(text, other) + [Lower(c)]
            else if EndsApart(text, other) then Raw(text, other) else Raw(text, other) + "-"
  {
    if Alphanumeric(c, other) {
      RawKeeps(text, c, other);
    } else {
      RawParts(text, c, other);
    }
  }

  lemma RawIs(text: string, other: char -> bool)
    ensures Raw(text, other) == Lead(text, other) + Join(Words(text, other))
                                + (if Words(text, other) != [] && EndsApart(text, other) then "-" else "")
  {
  }

  lemma LeadStays(text: string, c: char, other: char -> bool)
    requires text != [] || Alphanumeric(c, other)
    ensures Lead(text + [c], other) == Lead(text, other)
  {
    assert text != [] ==> (text + [c])[0] == text[0];
  }

  lemma RawKeeps(text: string, c: char, other: char -> bool)
    requires Alphanumeric(c, other)
    ensures Raw(text + [c], other) == Raw(text, other) + [Lower(c)]
  {
    RawIs(text, other);
    RawIs(text + [c], other);
    LeadStays(text, c, other);
    assert !EndsApart(text + [c], other);
    if EndsApart(text, other) {
      RawBegins(text, c, other);
    } else {
      RawGrows(text, c, other);
    }
  }

  /** A word goes on, or is the text's first. */
  lemma RawGrows(text: string, c: char, other: char -> bool)
    requires Alphanumeric(c, other) && !EndsApart(text, other)
    ensures Join(Words(text + [c], other)) == Join(Words(text, other)) + [Lower(c)]
  {
    WordsSnoc(text, c, other);
    if text != [] {
      var words := Words(text, other);
      var front, last := words[..|words| - 1], words[|words| - 1];
      assert words == front + [last];
      JoinGrows(front, last, Lower(c));
    }
  }

  /** A word begins behind a dash, the leading one when it is the first. */
  lemma RawBegins(text: string, c: char, other: char -> bool)
    requires Alphanumeric(c, other) && EndsApart(text, other)
    ensures Join(Words(text + [c], other))
         == Join(Words(text, other)) + (if Words(text, other) != [] then "-" else "") + [Lower(c)]
  {
    WordsSnoc(text, c, other);
    JoinLast(Words(text, other), [Lower(c)]);
  }

  lemma RawParts(text: string, c: char, other: char -> bool)
    requires !Alphanumeric(c, other)
    ensures Raw(text + [c], other) == if EndsApart(text, other) then Raw(text, other) else Raw(text, other) + "-"
  {
    WordsSnoc(text, c, other);
    NoWords(text, other);
    if text == [] {
      assert text + [c] == [c];
    }
  }

  /** The letters, capital and small, one for one; nothing else is changed. */
  lemma LowerIs(k: nat, c: char)
    requires k < 26
    ensures Lower("ABCDEFGHIJKLMNOPQRSTUVWXYZ"[k]) == "abcdefghijklmnopqrstuvwxyz"[k]
    ensures c !in "ABCDEFGHIJKLMNOPQRSTUVWXYZ" ==> Lower(c) == c
  {
    if 'A' <= c <= 'Z' {
      assert "ABCDEFGHIJKLMNOPQRSTUVWXYZ"[c as int - 'A' as int] == c;
    }
  }

  /** A word of an id: nothing in it would be changed again. */
  predicate Clean(word: string, other: char -> bool) {
    word != [] && forall i :: 0 <= i < |word| ==> Alphanumeric(word[i], other) && Lower(word[i]) == word[i]
  }

  lemma {:induction false} WordsAreClean(text: string, other: char -> bool)
    ensures forall w :: w in Words(text, other) ==> Clean(w, other)
  {
    if text != [] {
      var front, c := text[..|text| - 1], text[|text| - 1];
      var words := Words(front, other);
      WordsAreClean(front, other);
      if Alphanumeric(c, other) && front != [] && Alphanumeric(front[|front| - 1], other) {
        assert Clean(words[|words| - 1], other);
        assert Clean(words[|words| - 1] + [Lower(c)], other);
      } else if Alphanumeric(c, other) {
        assert Clean([Lower(c)], other);
      }
    }
  }

  /** A dash stands between two characters that are none. */
  predicate DashNormal(s: string) {
    forall i :: 0 <= i < |s| && s[i] == '-' ==> 0 < i < |s| - 1 && s[i + 1] != '-'
  }

  predicate IdChars(s: string, other: char -> bool) {
    forall i :: 0 <= i < |s| ==> s[i] == '-' || (Alphanumeric(s[i], other) && Lower(s[i]) == s[i])
  }

  lemma {:induction false} JoinIsNormal(words: seq<string>, other: char -> bool)
    requires words != [] && forall w :: w in words ==> Clean(w, other)
    ensures Join(words) != [] && DashNormal(Join(words)) && IdChars(Join(words), other)
  {
    var front, last := words[..|words| - 1], words[|words| - 1];
    assert Clean(last, other);
    if front != [] {
      JoinIsNormal(front, other);
      var head := Join(front);
      assert head[|head| - 1] != '-';
      assert Join(words) == head + "-" + last;
    }
  }

  lemma TrimRaw(core: string, before: bool, after: bool)
    requires core != [] && core[0] != '-' && core[|core| - 1] != '-'
    ensures TrimDashes((if before then "-" else "") + core + (if after then "-" else "")) == core
  {
    var tail := core + if after then "-" else "";
    assert TrimDashes(tail) == core by {
      if after {
        assert tail[..|tail| - 1] == core;
      } else {
        assert tail == core;
      }
    }
    if before {
      assert ("-" + tail)[1..] == tail;
      assert "-" + core + (if after then "-" else "") == "-" + tail;
    } else {
      assert "" + core + (if after then "-" else "") == tail;
    }
  }

  lemma RawTrims(text: string, other: char -> bool)
    ensures TrimDashes(Raw(text, other)) == Join(Words(text, other))
  {
    var words := Words(text, other);
    if words == [] {
      assert TrimDashes("-") == "";
    } else {
      WordsAreClean(text, other);
      JoinIsNormal(words, other);
      TrimRaw(Join(words), text != [] && !Alphanumeric(text[0], other), EndsApart(text, other));
    }
  }

  method MediumIdFromLabel(text: string, other: char -> bool) returns (id: string)
    ensures id == MediumId(text, other)
  {
    var out := "";
    var lastDash := false;
    for i := 0 to |text|
      invariant out == Raw(text[..i], other) && lastDash == EndsApart(text[..i], other)
    {
      var c := text[i];
      RawSnoc(text[..i], c, other);
      assert text[..i + 1] == text[..i] + [c];
      if Alphanumeric(c, other) {
        out := out + [Lower(c)];
        lastDash := false;
      } else if !lastDash {
        out := out + "-";
        lastDash := true;
      }
    }
    assert text[..|text|] == text;
    RawTrims(text, other);
    WordsAreClean(text, other);
    id := TrimDashes(out);
    if Words(text, other) != [] {
      JoinIsNormal(Words(text, other), other);
    }
    if id == [] {
      id := "medium";
    }
  }

  /** Every id is non-empty and dash-normalized, and holds nothing but dashes and
      lower-case alphanumerics: no colon, then. */
  lemma MediumIdIsNormal(text: string, other: char -> bool)
    ensures var id := MediumId(text, other);
            id != [] && DashNormal(id) && IdChars(id, other) && ':' !in id
  {
    if Words(text, other) != [] {
      WordsAreClean(text, other);
      JoinIsNormal(Words(text, other), other);
    }
  }

  lemma WordsGrow(s: string, front: string, c: char, words: seq<string>, other: char -> bool)
    requires front != [] && Alphanumeric(front[|front| - 1], other) && Alphanumeric(c, other) && Lower(c) == c
    requires Words(s + front, other) == words + [front]
    ensures Words(s + (front + [c]), other) == words + [front + [c]]
  {
    assert s + (front + [c]) == (s + front) + [c];
    WordsSnoc(s + front, c, other);
    assert (s + front)[|s + front| - 1] == front[|front| - 1];
  }

  lemma {:induction false} WordsAppend(s: string, word: string, other: char -> bool)
    requires (s == [] || EndsApart(s, other)) && Clean(word, other)
    ensures Words(s + word, other) == Words(s, other) + [word]
  {
    var front, c := word[..|word| - 1], word[|word| - 1];
    assert word == front + [c];
    if front == [] {
      WordsSnoc(s, c, other);
      assert s + word == s + [c];
    } else {
      WordsAppend(s, front, other);
      WordsGrow(s, front, c, Words(s, other), other);
    }
  }

  lemma {:induction false} WordsOfJoin(words: seq<string>, other: char -> bool)
    requires words != [] && forall w :: w in words ==> Clean(w, other)
    ensures Words(Join(words), other) == words
  {
    var front, last := words[..|words| - 1], words[|words| - 1];
    assert words == front + [last];
    if front == [] {
      WordsAppend([], last, other);
      assert [] + last == last;
    } else {
      WordsOfJoin(front, other);
      WordsSnoc(Join(front), '-', other);
      WordsAppend(Join(front) + "-", last, other);
    }
  }

  /** An id is its own id. */
  lemma MediumIdIdempotent(text: string, other: char -> bool)
    ensures MediumId(MediumId(text, other), other) == MediumId(text, other)
  {
    var words := Words(text, other);
    if words == [] {
      WordsAppend([], "medium", other);
      assert [] + "medium" == "medium";
      JoinLast([], "medium");
    } else {
      WordsAreClean(text, other);
      WordsOfJoin(words, other);
    }
  }

  // ---- A distinct id ----

  function Digit(d: nat): char
    requires d < 10
  {
    ('0' as int + d) as char
  }

  function Decimal(n: nat): string {
    if n < 10 then [Digit(n)] else Decimal(n / 10) + [Digit(n % 10)]
  }

  function Parse(s: string): int {
    if s == [] then 0 else Parse(s[..|s| - 1]) * 10 + (s[|s| - 1] as int - '0' as int)
  }

  lemma {:induction false} DecimalRoundTrip(n: nat)
    ensures Parse(Decimal(n)) == n
  {
    if n >= 10 {
      DecimalRoundTrip(n / 10);
      assert Decimal(n)[..|Decimal(n)| - 1] == Decimal(n / 10);
    } else {
      assert Decimal(n)[..0] == [];
    }
  }

  /** The names tried, in order: the base, then the base numbered from two on. */
  function Candidate(base: string, k: nat): string {
    if k == 0 then base else base + "-" + Decimal(k + 1)
  }

  lemma CandidatesDiffer(base: string, i: nat, j: nat)
    requires i != j
    ensures Candidate(base, i) != Candidate(base, j)
  {
    if i == 0 || j == 0 {
      assert |Candidate(base, i)| != |Candidate(base, j)|;
    } else {
      assert Candidate(base, i)[|base| + 1..] == Decimal(i + 1);
      assert Candidate(base, j)[|base| + 1..] == Decimal(j + 1);
      DecimalRoundTrip(i + 1);
      DecimalRoundTrip(j + 1);
    }
  }

  /** More distinct names than ids cannot all be ids. */
  lemma {:induction false} Pigeonhole(names: seq<string>, ids: seq<string>)
    requires Distinct(names) && forall i :: 0 <= i < |names| ==> names[i] in ids
    ensures |names| <= |ids|
  {
    if names != [] {
      var last := names[|names| - 1];
      var at :| 0 <= at < |ids| && ids[at] == last;
      Pigeonhole(names[..|names| - 1], ids[..at] + ids[at + 1..]);
    }
  }

  function Tried(base: string, k: nat): seq<string> {
    seq(k, i requires 0 <= i < k => Candidate(base, i))
  }

  lemma TriesAreBounded(base: string, k: nat, ids: seq<string>)
    requires forall i :: 0 <= i < k ==> Candidate(base, i) in ids
    ensures k <= |ids|
  {
    forall i, j | 0 <= i < j < k ensures Tried(base, k)[i] != Tried(base, k)[j] {
      CandidatesDiffer(base, i, j);
    }
    Pigeonhole(Tried(base, k), ids);
  }

  /** The first name that is free, from the k-th on. */
  function FirstFree(base: string, ids: seq<string>, k: nat): (id: string)
    requires forall i :: 0 <= i < k ==> Candidate(base, i) in ids
    ensures id !in ids
    decreases |ids| - k
  {
    if Candidate(base, k) !in ids then Candidate(base, k)
    else
      TriesAreBounded(base, k + 1, ids);
      FirstFree(base, ids, k + 1)
  }

  /** The search ends for every list, after at most one try more than it has
      entries, on the first name that is free. */
  method FreshId(base: string, ids: seq<string>) returns (id: string, ghost tries: nat)
    ensures tries <= |ids| && id == Candidate(base, tries) && id !in ids
    ensures forall i :: 0 <= i < tries ==> Candidate(base, i) in ids
    ensures id == FirstFree(base, ids, 0)
  {
    id := base;
    var suffix := 2;
    tries := 0;
    while id in ids
      invariant id == Candidate(base, tries) && suffix == tries + 2
      invariant forall i :: 0 <= i < tries ==> Candidate(base, i) in ids
      invariant tries <= |ids| && FirstFree(base, ids, tries) == FirstFree(base, ids, 0)
      decreases |ids| - tries
    {
      TriesAreBounded(base, tries + 1, ids);
      id := base + "-" + Decimal(suffix);
      suffix := suffix + 1;
      tries := tries + 1;
    }
  }
}
