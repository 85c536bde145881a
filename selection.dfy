/** The word predicates every list filter of the engine keeps, and `Select`, the
    order-preserving filter they all specify. */
module Selection {
  import opened Words

  /** What a filter asks of a word. */
  datatype Criterion =
    | CountIs(c: char, n: int)                    // repetition_filter, exact
    | CountAtLeast(c: char, n: int)               // repetition_filter, not exact
    | Placed(c: char, pos: nat, reps: Option<int>) // filter with a position
    | HoldsTimes(c: char, n: int)                 // filter with repetitions only
    | Holds(c: char)                              // filter with neither
    | Lacks(c: char)                              // inverseFilter
    | Misplaced(c: char, pos: nat)                // wrongPositionFilter
      // filter_words: a guess, its colours and the derived count tables
    | Fits(guess: string, colors: string, minCounts: map<char, int>, exactCounts: map<char, int>)
      // word_state_repetition_filter: one count condition per letter of `letters`
    | EachCount(letters: set<char>, marked: map<char, int>, exact: map<char, bool>)

  /** The per-position test of filter_words (main.py:94-116). */
  predicate PositionFits(w: string, g: string, colors: string, mins: map<char, int>, i: nat) {
    && i < |w| && i < |g| && i < |colors|
    && (colors[i] == 'G' ==> w[i] == g[i])
    && (colors[i] == 'Y' ==> w[i] != g[i] && g[i] in w)
    && (colors[i] == 'B' ==> g[i] in mins || g[i] !in w)
  }

  /** The count test of filter_words for one letter (main.py:122-129). */
  predicate CountFits(w: string, mins: map<char, int>, exacts: map<char, int>, c: char)
    requires c in mins
  {
    if c in exacts then Count(w, c) == exacts[c] else Count(w, c) >= mins[c]
  }

  predicate RepeatFits(w: string, reps: map<char, int>, exact: map<char, bool>, c: char) {
    c in reps && c in exact &&
    if exact[c] then Count(w, c) == reps[c] else Count(w, c) >= reps[c]
  }

  predicate Satisfies(w: string, k: Criterion) {
    match k
    case CountIs(c, n) => Count(w, c) == n
    case CountAtLeast(c, n) => Count(w, c) >= n
    case Placed(c, p, reps) => p < |w| && w[p] == c && (reps.None? || Count(w, c) == reps.value)
    case HoldsTimes(c, n) => c in w && Count(w, c) == n
    case Holds(c) => c in w
    case Lacks(c) => c !in w
    case Misplaced(c, p) => p < |w| && w[p] != c
    case Fits(g, colors, mins, exacts) =>
      (forall i :: 0 <= i < 5 ==> PositionFits(w, g, colors, mins, i)) &&
      (forall c :: c in mins ==> CountFits(w, mins, exacts, c))
    case EachCount(letters, reps, exact) =>
      forall c :: c in letters ==> RepeatFits(w, reps, exact, c)
  }

  /** The words of `s` that satisfy `k`, in the order of `s`. */
  function Select(s: seq<string>, k: Criterion): seq<string> {
    if s == [] then []
    else Select(s[..|s| - 1], k) + (if Satisfies(s[|s| - 1], k) then [s[|s| - 1]] else [])
  }

  /** Select keeps exactly the members that satisfy the criterion. */
  lemma {:induction false} SelectMembers(s: seq<string>, k: Criterion)
    ensures forall w :: w in Select(s, k) <==> w in s && Satisfies(w, k)
  {
    if s != [] {
      SelectMembers(s[..|s| - 1], k);
      assert s == s[..|s| - 1] + [s[|s| - 1]];
    }
  }

  lemma SelectSnoc(s: seq<string>, x: string, k: Criterion)
    ensures Select(s + [x], k) == Select(s, k) + (if Satisfies(x, k) then [x] else [])
  {
    assert (s + [x])[..|s + [x]| - 1] == s;
  }

  /** Select deletes elements and keeps the order of the rest. */
  lemma {:induction false} SelectSublist(s: seq<string>, k: Criterion)
    ensures Sublist(Select(s, k), s)
  {
    if s != [] {
      var s' := s[..|s| - 1];
      SelectSublist(s', k);
      var r := Select(s, k);
      if Satisfies(s[|s| - 1], k) {
        assert r == Select(s', k) + [s[|s| - 1]];
        assert r[..|r| - 1] == Select(s', k);
        assert r != [] && r[|r| - 1] == s[|s| - 1];
      } else {
        assert r == Select(s', k);
      }
    }
  }

  /** Selecting twice with the same criterion changes nothing. */
  lemma SelectIdempotent(s: seq<string>, k: Criterion)
    ensures Select(Select(s, k), k) == Select(s, k)
  {
    SelectMembers(s, k);
    SelectAll(Select(s, k), k);
  }

  /** Every word of the list satisfies the criterion. */
  ghost predicate AllSatisfy(s: seq<string>, k: Criterion) {
    forall i :: 0 <= i < |s| ==> Satisfies(s[i], k)
  }

  lemma {:induction false} SelectAllSatisfy(s: seq<string>, k: Criterion)
    requires AllSatisfy(s, k)
    ensures Select(s, k) == s
  {
    if s != [] {
      var s' := s[..|s| - 1];
      assert forall i :: 0 <= i < |s'| ==> s'[i] == s[i];
      SelectAllSatisfy(s', k);
      assert s == s' + [s[|s| - 1]];
    }
  }

  /** A list whose every word satisfies the criterion is kept whole. */
  lemma SelectAll(s: seq<string>, k: Criterion)
    requires forall w :: w in s ==> Satisfies(w, k)
    ensures Select(s, k) == s
  {
    assert forall i :: 0 <= i < |s| ==> s[i] in s;
    SelectAllSatisfy(s, k);
  }

  /** Two selections in a row are one selection by the conjunction. */
  lemma {:induction false} SelectTwice(s: seq<string>, a: Criterion, b: Criterion, both: Criterion)
    requires forall w :: Satisfies(w, both) <==> Satisfies(w, a) && Satisfies(w, b)
    ensures Select(Select(s, a), b) == Select(s, both)
  {
    if s != [] {
      var s' := s[..|s| - 1];
      var x := s[|s| - 1];
      SelectTwice(s', a, b, both);
      assert Satisfies(x, both) <==> Satisfies(x, a) && Satisfies(x, b);
      assert Select(s, both) == Select(s', both) + (if Satisfies(x, both) then [x] else []);
      if Satisfies(x, a) {
        assert Select(s, a) == Select(s', a) + [x];
        SelectSnoc(Select(s', a), x, b);
        assert Select(Select(s, a), b) == Select(Select(s', a), b) + (if Satisfies(x, b) then [x] else []);
      } else {
        assert Select(s, a) == Select(s', a);
      }
    }
  }

  lemma SelectLength(s: seq<string>, k: Criterion)
    ensures |Select(s, k)| <= |s|
  {
    SelectSublist(s, k);
    SublistMembers(Select(s, k), s);
  }

  lemma SelectWords(s: seq<string>, k: Criterion)
    requires AllWords(s)
    ensures AllWords(Select(s, k))
  {
    SelectMembers(s, k);
  }
}
