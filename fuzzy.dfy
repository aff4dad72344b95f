/** The fuzzy entity-name matcher of the intent helper (`_fuzzymatch`).

    The source builds the pattern `".*?".join(name)`, compiles it with
    `re.IGNORECASE` and runs `re.search` on each candidate's key. For a name
    made of characters with no regex meaning, that search finds the leftmost
    position where `name[0]` occurs and the rest of the name still follows as
    a subsequence, taking every later character at its earliest possible
    position (the gaps are lazy). A `.` does not match a newline, so no gap
    may cross one. This module states the regex meaning as a relation
    (`Spans`), computes the search greedily (`Search`) and proves the two
    agree; then ranks the matches by `(length, start, index)`. */
module Fuzzy {
  import opened Wrappers

  /** Case folding of `re.IGNORECASE`, restricted to ASCII letters. */
  function Fold(c: char): char {
    if 'A' <= c <= 'Z' then (c as int + 32) as char else c
  }

  predicate SameFolded(a: char, b: char) {
    Fold(a) == Fold(b)
  }

  /** Characters that carry a meaning in a Python regular expression. */
  const REGEX_SPECIAL: set<char> :=
    {'.', '^', '$', '*', '+', '?', '{', '}', '[', ']', '\\', '|', '(', ')'}

  /** A name the unescaped pattern reads literally, one character per
      position, with no newline. */
  predicate PlainName(name: string) {
    forall i :: 0 <= i < |name| ==> name[i] !in REGEX_SPECIAL && name[i] != '\n'
  }

  /** `key[p..e]` is matched exactly by `.*?n[0].*?n[1]...` (each character
      of `n` preceded by a lazy gap of non-newline characters). This is the
      meaning of the regex, with every way of placing the gaps allowed. */
  ghost predicate FitsFrom(n: string, key: string, p: nat, e: nat)
    requires p <= |key|
    decreases |key| - p
  {
    if n == [] then e == p
    else
      p < |key| &&
      ((SameFolded(key[p], n[0]) && FitsFrom(n[1..], key, p + 1, e)) ||
       (key[p] != '\n' && FitsFrom(n, key, p + 1, e)))
  }

  /** The whole pattern for `name` matches `key[s..e]`: `name[0]` sits at
      `s` and the rest fits from `s + 1`. The empty pattern matches the
      empty string at every position. */
  ghost predicate Spans(name: string, key: string, s: nat, e: nat) {
    if name == [] then s == e && s <= |key|
    else s < |key| && SameFolded(key[s], name[0]) && FitsFrom(name[1..], key, s + 1, e)
  }

  /** The match found by `regex.search`: `match.start()` and
      `len(match.group())`. */
  datatype Span = Span(start: nat, length: nat)

  /** Lazy matching of `.*?n[0].*?n[1]...` from position `p`: each
      character is taken at its earliest position; the end of the match. */
  function Greedy(n: string, key: string, p: nat): (r: Option<nat>)
    requires p <= |key|
    ensures r.Some? ==> p + |n| <= r.value <= |key|
    decreases |key| - p
  {
    if n == [] then Some(p)
    else if p == |key| then None
    else if SameFolded(key[p], n[0]) then Greedy(n[1..], key, p + 1)
    else if key[p] == '\n' then None
    else Greedy(n, key, p + 1)
  }

  /** `regex.search(key)` for the pattern built from `name`. */
  function Search(name: string, key: string): (r: Option<Span>)
    ensures r.Some? ==> r.value.start + r.value.length <= |key|
  {
    if name == [] then Some(Span(0, 0)) else SearchFrom(name, key, 0)
  }

  /** Try each start position from `s` on, leftmost first. */
  function SearchFrom(name: string, key: string, s: nat): (r: Option<Span>)
    requires name != [] && s <= |key|
    ensures r.Some? ==> s <= r.value.start && r.value.start + r.value.length <= |key|
    decreases |key| - s
  {
    if s == |key| then None
    else if SameFolded(key[s], name[0]) && Greedy(name[1..], key, s + 1).Some? then
      Some(Span(s, Greedy(name[1..], key, s + 1).value - s))
    else SearchFrom(name, key, s + 1)
  }

  // ---------------------------------------------------------------------
  // The greedy search computes the regex meaning.

  /** What the lazy matcher finds is a match. */
  lemma {:induction false} GreedySound(n: string, key: string, p: nat)
    requires p <= |key| && Greedy(n, key, p).Some?
    ensures FitsFrom(n, key, p, Greedy(n, key, p).value)
    decreases |key| - p
  {
    if n != [] {
      if SameFolded(key[p], n[0]) {
        GreedySound(n[1..], key, p + 1);
      } else {
        GreedySound(n, key, p + 1);
      }
    }
  }

  /** Every match of a non-empty pattern covers at least one character per
      pattern character. */
  lemma {:induction false} FitsBound(n: string, key: string, p: nat, e: nat)
    requires p <= |key| && FitsFrom(n, key, p, e)
    ensures p + |n| <= e <= |key|
    decreases |key| - p
  {
    if n != [] {
      if SameFolded(key[p], n[0]) && FitsFrom(n[1..], key, p + 1, e) {
        FitsBound(n[1..], key, p + 1, e);
      } else {
        FitsBound(n, key, p + 1, e);
      }
    }
  }

  lemma PlainTail(n: string)
    requires n != [] && PlainName(n)
    ensures PlainName(n[1..]) && n[0] != '\n'
  {
    forall i | 0 <= i < |n[1..]|
      ensures n[1..][i] !in REGEX_SPECIAL && n[1..][i] != '\n'
    {
      assert n[1..][i] == n[i + 1];
    }
  }

  /** A character that folds like a non-newline pattern character is not a
      newline itself. */
  lemma FoldKeepsNewline(c: char, d: char)
    requires SameFolded(c, d) && d != '\n'
    ensures c != '\n'
  {
  }

  /** Where `n` (at least two characters) fits, its tail fits too, over the
      same span: the position taken by `n[0]` becomes part of a gap. */
  lemma {:induction false} FitsDropHead(n: string, key: string, q: nat, e: nat)
    requires |n| >= 2 && PlainName(n) && q <= |key| && FitsFrom(n, key, q, e)
    ensures FitsFrom(n[1..], key, q, e)
    decreases |key| - q
  {
    PlainTail(n);
    if SameFolded(key[q], n[0]) && FitsFrom(n[1..], key, q + 1, e) {
      FoldKeepsNewline(key[q], n[0]);
    } else {
      FitsDropHead(n, key, q + 1, e);
    }
  }

  /** The lazy matcher finds a match whenever one exists, and ends no later
      than any match from the same position. */
  lemma {:induction false} GreedyMinimal(n: string, key: string, p: nat, e: nat)
    requires PlainName(n) && p <= |key| && FitsFrom(n, key, p, e)
    ensures Greedy(n, key, p).Some? && Greedy(n, key, p).value <= e
    decreases |key| - p
  {
    if n != [] {
      PlainTail(n);
      if SameFolded(key[p], n[0]) {
        if FitsFrom(n[1..], key, p + 1, e) {
          GreedyMinimal(n[1..], key, p + 1, e);
        } else if |n| == 1 {
          FitsBound(n, key, p + 1, e);
        } else {
          FitsDropHead(n, key, p + 1, e);
          assert false;
        }
      } else {
        GreedyMinimal(n, key, p + 1, e);
      }
    }
  }

  lemma {:induction false} SearchFromSound(name: string, key: string, s: nat)
    requires name != [] && s <= |key| && SearchFrom(name, key, s).Some?
    ensures Spans(name, key, SearchFrom(name, key, s).value.start,
                  SearchFrom(name, key, s).value.start + SearchFrom(name, key, s).value.length)
    decreases |key| - s
  {
    if SameFolded(key[s], name[0]) && Greedy(name[1..], key, s + 1).Some? {
      GreedySound(name[1..], key, s + 1);
    } else {
      SearchFromSound(name, key, s + 1);
    }
  }

  lemma {:induction false} SearchFromLeftmost(name: string, key: string, t: nat, s: nat, e: nat)
    requires name != [] && PlainName(name) && t <= s && Spans(name, key, s, e)
    ensures SearchFrom(name, key, t).Some?
    ensures var sp := SearchFrom(name, key, t).value;
      sp.start < s || (sp.start == s && sp.start + sp.length <= e)
    decreases |key| - t
  {
    PlainTail(name);
    if SameFolded(key[t], name[0]) && Greedy(name[1..], key, t + 1).Some? {
      if t == s {
        GreedyMinimal(name[1..], key, s + 1, e);
      }
    } else {
      if t == s {
        GreedyMinimal(name[1..], key, s + 1, e);
        assert false;
      }
      SearchFromLeftmost(name, key, t + 1, s, e);
    }
  }

  /** `Search` is `re.search` for this pattern: it succeeds exactly when the
      pattern matches somewhere, and then returns the leftmost match and,
      among the matches starting there, the shortest. */
  lemma SearchIsLeftmostShortest(name: string, key: string)
    requires PlainName(name)
    ensures Search(name, key).Some? <==> exists s: nat, e: nat :: Spans(name, key, s, e)
    ensures Search(name, key).Some? ==>
      var sp := Search(name, key).value;
      && Spans(name, key, sp.start, sp.start + sp.length)
      && forall s: nat, e: nat :: Spans(name, key, s, e) ==>
           sp.start < s || (sp.start == s && sp.length <= e - s)
  {
    if name == [] {
      assert Spans(name, key, 0, 0);
    } else {
      if Search(name, key).Some? {
        SearchFromSound(name, key, 0);
      }
      forall s: nat, e: nat | Spans(name, key, s, e)
        ensures Search(name, key).Some?
        ensures var sp := Search(name, key).value;
          sp.start < s || (sp.start == s && sp.length <= e - s)
      {
        SearchFromLeftmost(name, key, 0, s, e);
      }
    }
  }

  /** Searching a key for its own text finds it at once, at full length. */
  lemma {:induction false} GreedySelf(k: string, i: nat)
    requires i <= |k|
    ensures Greedy(k[i..], k, i) == Some(|k|)
    decreases |k| - i
  {
    if i < |k| {
      assert k[i..][0] == k[i];
      assert k[i..][1..] == k[i + 1..];
      GreedySelf(k, i + 1);
    }
  }

  lemma SearchSelf(k: string)
    ensures Search(k, k) == Some(Span(0, |k|))
  {
    if k != [] {
      GreedySelf(k, 1);
      assert k[1..] == k[1..][..];
    }
  }

  /** The match is lazy but not globally shortest: `"ab"` in `"a_xab"` is
      matched from the first `a`, over the whole key. */
  lemma LazyNotShortest()
    ensures Search("ab", "a_xab") == Some(Span(0, 5))
  {
    assert Greedy("b", "a_xab", 4) == Some(5);
    assert Greedy("b", "a_xab", 1) == Some(5);
  }

  // ---------------------------------------------------------------------
  // Ranking the candidates.

  /** The tuple `(len(match.group()), match.start(), idx)` the source sorts. */
  datatype Rank = Rank(length: nat, start: nat, index: nat)

  /** Python's lexicographic tuple comparison `a <= b`. */
  predicate RankLe(a: Rank, b: Rank) {
    a.length < b.length ||
    (a.length == b.length && (a.start < b.start ||
                              (a.start == b.start && a.index <= b.index)))
  }

  predicate Matches<T>(name: string, items: seq<T>, key: T -> string, i: int) {
    0 <= i < |items| && Search(name, key(items[i])).Some?
  }

  function RankAt<T>(name: string, items: seq<T>, key: T -> string, i: int): Rank
    requires Matches(name, items, key, i)
  {
    var sp := Search(name, key(items[i])).value;
    Rank(sp.length, sp.start, i)
  }

  /** Item `i` matches and no matching item has a smaller rank. */
  ghost predicate IsBest<T>(name: string, items: seq<T>, key: T -> string, i: int) {
    && Matches(name, items, key, i)
    && forall j :: Matches(name, items, key, j) ==>
         RankLe(RankAt(name, items, key, i), RankAt(name, items, key, j))
  }

  /** There is at most one best item: the index breaks every tie. */
  lemma BestUnique<T>(name: string, items: seq<T>, key: T -> string, i: int, j: int)
    requires IsBest(name, items, key, i) && IsBest(name, items, key, j)
    ensures i == j
  {
  }

  /** The least-ranked matching item among the first `n`, if any: the
      index `sorted(matches)[0]` picks once all items are ranked. */
  function BestUpTo<T>(name: string, items: seq<T>, key: T -> string, n: nat): (r: Option<int>)
    requires n <= |items|
    ensures r.None? <==> forall j :: 0 <= j < n ==> !Matches(name, items, key, j)
    ensures r.Some? ==> 0 <= r.value < n && Matches(name, items, key, r.value)
    ensures r.Some? ==> forall j :: 0 <= j < n && Matches(name, items, key, j) ==>
      RankLe(RankAt(name, items, key, r.value), RankAt(name, items, key, j))
  {
    if n == 0 then None
    else
      var prev := BestUpTo(name, items, key, n - 1);
      if !Matches(name, items, key, n - 1) then prev
      else if prev.None? then Some(n - 1)
      else if RankLe(RankAt(name, items, key, prev.value), RankAt(name, items, key, n - 1)) then prev
      else Some(n - 1)
  }

  /** The index of the item `_fuzzymatch` returns. */
  function BestIndex<T>(name: string, items: seq<T>, key: T -> string): (r: Option<int>)
    ensures r.Some? <==> exists j :: Matches(name, items, key, j)
    ensures r.Some? ==> IsBest(name, items, key, r.value)
  {
    BestUpTo(name, items, key, |items|)
  }

  /** `_fuzzymatch(name, items, key)`: collect the rank of every matching
      item in a list, then return the item of the least rank. */
  method FuzzyMatch<T>(name: string, items: seq<T>, key: T -> string) returns (r: Option<T>)
    ensures r.None? <==> forall i :: 0 <= i < |items| ==> Search(name, key(items[i])).None?
    ensures r.Some? ==> exists i :: IsBest(name, items, key, i) && r.value == items[i]
    ensures r == if BestIndex(name, items, key).None? then None
                 else Some(items[BestIndex(name, items, key).value])
  {
    var matches: seq<Rank> := [];
    var idx := 0;
    while idx < |items|
      invariant idx <= |items|
      invariant forall k :: 0 <= k < |matches| ==>
        Matches(name, items, key, matches[k].index) && matches[k].index < idx &&
        matches[k] == RankAt(name, items, key, matches[k].index)
      invariant forall j :: 0 <= j < idx && Matches(name, items, key, j) ==>
        RankAt(name, items, key, j) in matches
    {
      var m := Search(name, key(items[idx]));
      if m.Some? {
        matches := matches + [Rank(m.value.length, m.value.start, idx)];
      }
      idx := idx + 1;
    }
    if matches == [] {
      forall i | 0 <= i < |items|
        ensures Search(name, key(items[i])).None?
      {
        assert !Matches(name, items, key, i);
      }
      return None;
    }
    var best := matches[0];
    var k := 1;
    while k < |matches|
      invariant 1 <= k <= |matches|
      invariant exists b :: 0 <= b < k && best == matches[b]
      invariant forall b :: 0 <= b < k ==> RankLe(best, matches[b])
    {
      if !RankLe(best, matches[k]) {
        best := matches[k];
      }
      k := k + 1;
    }
    forall j | Matches(name, items, key, j)
      ensures RankLe(RankAt(name, items, key, best.index), RankAt(name, items, key, j))
    {
      var b :| 0 <= b < |matches| && matches[b] == RankAt(name, items, key, j);
      assert RankLe(best, matches[b]);
    }
    assert IsBest(name, items, key, best.index);
    BestUnique(name, items, key, best.index, BestIndex(name, items, key).value);
    r := Some(items[best.index]);
  }

  /** An empty name matches every key with length 0 at start 0, so the
      first item wins whenever there is one. */
  lemma EmptyNameFirst<T>(items: seq<T>, key: T -> string)
    requires |items| > 0
    ensures BestIndex("", items, key) == Some(0)
  {
    assert Matches("", items, key, 0);
    assert IsBest("", items, key, 0);
    BestUnique("", items, key, 0, BestIndex("", items, key).value);
  }

  /** A name equal to some item's key always finds a match, as short as the
      name and starting at 0, at that item or an earlier one. */
  lemma VerbatimWins<T>(name: string, items: seq<T>, key: T -> string, i: nat)
    requires i < |items| && key(items[i]) == name
    ensures BestIndex(name, items, key).Some?
    ensures var b := BestIndex(name, items, key).value;
      b <= i && RankAt(name, items, key, b) == Rank(|name|, 0, b)
  {
    SearchSelf(name);
    assert Matches(name, items, key, i);
    var b := BestIndex(name, items, key).value;
    assert RankLe(RankAt(name, items, key, b), Rank(|name|, 0, i));
    var sp := Search(name, key(items[b])).value;
    if name != [] {
      SearchFromSound(name, key(items[b]), 0);
      FitsBound(name[1..], key(items[b]), sp.start + 1, sp.start + sp.length);
    }
  }
}
