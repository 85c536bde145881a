/** The minimax tie-breaker (main.py blimpSearch): simulate every candidate guess
    against every possible answer and keep the guess whose worst outcome is
    smallest, then whose outcomes add up to least, then one that could itself be
    the answer. */
module Minimax {
  import opened Words
  import opened Candidates

  // ---------------------------------------------------------------------------
  // Outcomes of one candidate

  /** The size of the list filter_words leaves when g is guessed and a is the answer. */
  function Outcome(list: seq<string>, g: string, a: string): nat
    requires IsWord(g)
  {
    |Survivors(list, g, a)|
  }

  /** possible_outcome_sizes of a full simulation of g: one size per answer, in
      list order. */
  function Sizes(list: seq<string>, g: string): (r: seq<int>)
    requires IsWord(g)
    ensures |r| == |list|
  {
    seq(|list|, j requires 0 <= j < |list| => Outcome(list, g, list[j]))
  }

  /** The running maximum of a sequence of sizes, starting from 0. */
  function MaxOf(s: seq<int>): int {
    if s == [] then 0
    else
      var m := MaxOf(s[..|s| - 1]);
      if s[|s| - 1] > m then s[|s| - 1] else m
  }

  function SumOf(s: seq<int>): int {
    if s == [] then 0 else SumOf(s[..|s| - 1]) + s[|s| - 1]
  }

  /** max_remaining_size after the first k answers. */
  function WorstUpTo(list: seq<string>, g: string, k: nat): int
    requires IsWord(g) && k <= |list|
  {
    MaxOf(Sizes(list, g)[..k])
  }

  /** The worst case of guessing g. */
  function Worst(list: seq<string>, g: string): int
    requires IsWord(g)
  {
    MaxOf(Sizes(list, g))
  }

  /** The sum of all outcome sizes of guessing g: |list| times the source's average. */
  function Total(list: seq<string>, g: string): int
    requires IsWord(g)
  {
    SumOf(Sizes(list, g))
  }

  /** Every outcome size lies in 1..|list|: the answer always survives its own
      feedback, and the survivors are drawn from the list. */
  lemma OutcomeBounds(list: seq<string>, g: string, a: string)
    requires IsWord(g) && IsWord(a) && a in list
    ensures 1 <= Outcome(list, g, a) <= |list|
  {
    SurvivorsSound(list, g, a);
    SurvivorsSublist(list, g, a);
  }

  /** The running maximum bounds every element and, for a non-empty sequence, is
      one of them. */
  lemma {:induction false} MaxOfMeaning(s: seq<int>)
    requires forall j :: 0 <= j < |s| ==> s[j] >= 0
    ensures forall j :: 0 <= j < |s| ==> s[j] <= MaxOf(s)
    ensures |s| > 0 ==> exists j :: 0 <= j < |s| && s[j] == MaxOf(s)
  {
    if s != [] {
      var init := s[..|s| - 1];
      MaxOfMeaning(init);
      assert forall j :: 0 <= j < |init| ==> s[j] == init[j];
      if |init| > 0 && s[|s| - 1] <= MaxOf(init) {
        var j :| 0 <= j < |init| && init[j] == MaxOf(init);
        assert s[j] == MaxOf(s);
      } else {
        assert init == [] ==> MaxOf(init) == 0;
        assert s[|s| - 1] == MaxOf(s);
      }
    }
  }

  /** The running maximum of a prefix never exceeds that of the whole. */
  lemma {:induction false} MaxOfPrefix(s: seq<int>, k: nat)
    requires k <= |s|
    ensures MaxOf(s[..k]) <= MaxOf(s)
    decreases |s| - k
  {
    if k < |s| {
      var init := s[..|s| - 1];
      assert init[..k] == s[..k];
      MaxOfPrefix(init, k);
    } else {
      assert s[..k] == s;
    }
  }

  /** The running maximum is the largest of the sizes seen, and lies in 1..|list|. */
  lemma WorstUpToMeaning(list: seq<string>, g: string, k: nat)
    requires AllWords(list) && IsWord(g) && 0 < k <= |list|
    ensures forall j :: 0 <= j < k ==> Outcome(list, g, list[j]) <= WorstUpTo(list, g, k)
    ensures exists j :: 0 <= j < k && Outcome(list, g, list[j]) == WorstUpTo(list, g, k)
    ensures 1 <= WorstUpTo(list, g, k) <= |list|
  {
    var s := Sizes(list, g)[..k];
    MaxOfMeaning(s);
    assert forall j :: 0 <= j < k ==> s[j] == Outcome(list, g, list[j]);
    var j :| 0 <= j < k && s[j] == MaxOf(s);
    assert list[j] in list;
    OutcomeBounds(list, g, list[j]);
  }

  /** The worst case is the largest outcome size, and lies in 1..|list|. */
  lemma WorstMeaning(list: seq<string>, g: string)
    requires |list| > 0 && AllWords(list) && IsWord(g)
    ensures forall a :: a in list ==> Outcome(list, g, a) <= Worst(list, g)
    ensures exists a :: a in list && Outcome(list, g, a) == Worst(list, g)
    ensures 1 <= Worst(list, g) <= |list|
  {
    WorstUpToMeaning(list, g, |list|);
    assert Sizes(list, g)[..|list|] == Sizes(list, g);
    forall a | a in list ensures Outcome(list, g, a) <= Worst(list, g) {
      var j :| 0 <= j < |list| && list[j] == a;
    }
    var j :| 0 <= j < |list| && Outcome(list, g, list[j]) == Worst(list, g);
    assert list[j] in list;
  }

  /** Looking at more answers never lowers the running maximum. */
  lemma WorstUpToMonotone(list: seq<string>, g: string, k: nat, m: nat)
    requires IsWord(g) && k <= m <= |list|
    ensures WorstUpTo(list, g, k) <= WorstUpTo(list, g, m)
  {
    var s := Sizes(list, g);
    assert s[..m][..k] == s[..k];
    MaxOfPrefix(s[..m], k);
  }

  /** Pruning is safe: a candidate abandoned because its running maximum already
      exceeds the bound has a worst case above the bound, so it could not have
      been chosen. */
  lemma PruneSafe(list: seq<string>, g: string, k: nat, bound: int)
    requires IsWord(g) && k <= |list|
    requires WorstUpTo(list, g, k) > bound
    ensures Worst(list, g) > bound
  {
    WorstUpToMonotone(list, g, k, |list|);
    assert Sizes(list, g)[..|list|] == Sizes(list, g);
  }

  // ---------------------------------------------------------------------------
  // The search over candidates

  /** best_guess, min_max_remaining_size and avg_for_best (kept as a sum). */
  datatype Search = Search(best: string, bound: int, bestTotal: int)

  /** The state before any candidate: no guess, a bound above every outcome size,
      and an average of |list| + 1. */
  function Init(list: seq<string>): Search {
    Search("", |list| + 1, |list| * (|list| + 1))
  }

  /** The scoring of one candidate g whose worst case and sum of outcomes are
      `worst` and `total`. */
  function Consider(list: seq<string>, s: Search, g: string, worst: int, total: int): Search {
    if worst > s.bound then s
    else if worst < s.bound then Search(g, worst, total)
    else if total < s.bestTotal then Search(g, s.bound, total)
    else if total == s.bestTotal && s.best !in list && g in list then Search(g, s.bound, s.bestTotal)
    else s
  }

  /** The state after the first k candidates of the iteration order, each scored by
      the given worst-case and sum functions. */
  function ScanWith(list: seq<string>, order: seq<string>, worst: string -> int, total: string -> int, k: nat): Search
    requires k <= |order|
  {
    if k == 0 then Init(list)
    else
      var g := order[k - 1];
      Consider(list, ScanWith(list, order, worst, total, k - 1), g, worst(g), total(g))
  }

  /** What the search state means after the first k candidates: for k > 0 it holds
      one of them with its own worst case and sum; no candidate seen has a smaller
      worst case, none with the same worst case has a smaller sum, and if one with
      the same worst case and sum is a possible answer, so is the chosen one. */
  ghost predicate Optimal(list: seq<string>, order: seq<string>, worst: string -> int, total: string -> int,
                          k: nat, s: Search)
    requires k <= |order|
  {
    && (k == 0 ==> s == Init(list))
    && (k > 0 ==> s.best in order[..k] && s.bound == worst(s.best) && s.bestTotal == total(s.best))
    && (forall j :: 0 <= j < k ==> s.bound <= worst(order[j]))
    && (forall j :: 0 <= j < k && worst(order[j]) == s.bound ==> s.bestTotal <= total(order[j]))
    && (forall j :: (0 <= j < k && worst(order[j]) == s.bound &&
                     total(order[j]) == s.bestTotal && order[j] in list) ==> s.best in list)
  }

  /** Scoring one more candidate keeps the state's meaning, provided no worst case
      reaches the initial bound. */
  lemma ConsiderPreserves(list: seq<string>, order: seq<string>, worst: string -> int, total: string -> int,
                          k: nat, s: Search)
    requires 0 < k <= |order| && worst(order[k - 1]) <= |list|
    requires Optimal(list, order, worst, total, k - 1, s)
    ensures Optimal(list, order, worst, total, k, Consider(list, s, order[k - 1], worst(order[k - 1]), total(order[k - 1])))
  {
    var g := order[k - 1];
    assert order[..k - 1] + [g] == order[..k];
    var s' := Consider(list, s, g, worst(g), total(g));
    if k == 1 {
      assert s' == Search(g, worst(g), total(g));
    } else if s' != s {
      assert s' == Search(g, worst(g), total(g));
    }
  }

  lemma {:induction false} ScanOptimal(list: seq<string>, order: seq<string>, worst: string -> int,
                                       total: string -> int, k: nat)
    requires k <= |order|
    requires forall j :: 0 <= j < |order| ==> worst(order[j]) <= |list|
    ensures Optimal(list, order, worst, total, k, ScanWith(list, order, worst, total, k))
  {
    if k > 0 {
      ScanOptimal(list, order, worst, total, k - 1);
      ConsiderPreserves(list, order, worst, total, k, ScanWith(list, order, worst, total, k - 1));
    }
  }

  /** Worst and Total as total functions on strings (never applied to a non-word). */
  function WorstFn(list: seq<string>): string -> int {
    (g: string) => if IsWord(g) then Worst(list, g) else 0
  }

  function TotalFn(list: seq<string>): string -> int {
    (g: string) => if IsWord(g) then Total(list, g) else 0
  }

  /** blimpSearch's candidate loop after the first k candidates. */
  function Scan(list: seq<string>, order: seq<string>, k: nat): Search
    requires k <= |order|
  {
    ScanWith(list, order, WorstFn(list), TotalFn(list), k)
  }

  /** One candidate more: it is scored by its own worst case and sum. */
  lemma ScanStep(list: seq<string>, order: seq<string>, k: nat)
    requires AllWords(order) && k < |order|
    ensures Scan(list, order, k + 1) ==
      Consider(list, Scan(list, order, k), order[k], Worst(list, order[k]), Total(list, order[k]))
  {
    assert IsWord(order[k]);
    assert WorstFn(list)(order[k]) == Worst(list, order[k]);
    assert TotalFn(list)(order[k]) == Total(list, order[k]);
  }

  /** The guess blimpSearch returns. */
  function BlimpChoice(list: seq<string>, order: seq<string>): string {
    Scan(list, order, |order|).best
  }

  /** The search's result over positions of the iteration order. */
  lemma ChoiceOptimal(list: seq<string>, order: seq<string>)
    requires |list| > 0 && AllWords(list) && AllWords(order) && |order| > 0
    ensures BlimpChoice(list, order) in order && IsWord(BlimpChoice(list, order))
    ensures forall j :: 0 <= j < |order| ==> Worst(list, BlimpChoice(list, order)) <= Worst(list, order[j])
    ensures forall j :: (0 <= j < |order| && Worst(list, order[j]) == Worst(list, BlimpChoice(list, order))) ==>
      Total(list, BlimpChoice(list, order)) <= Total(list, order[j])
    ensures forall j :: (0 <= j < |order| && order[j] in list &&
      Worst(list, order[j]) == Worst(list, BlimpChoice(list, order)) &&
      Total(list, order[j]) == Total(list, BlimpChoice(list, order))) ==>
      BlimpChoice(list, order) in list
  {
    var worst, total := WorstFn(list), TotalFn(list);
    forall j | 0 <= j < |order| ensures worst(order[j]) <= |list| {
      WorstMeaning(list, order[j]);
    }
    ScanOptimal(list, order, worst, total, |order|);
    assert order[..|order|] == order;
    var r := BlimpChoice(list, order);
    var i :| 0 <= i < |order| && order[i] == r;
    assert IsWord(order[i]);
    assert forall j :: 0 <= j < |order| ==> worst(order[j]) == Worst(list, order[j]) && total(order[j]) == Total(list, order[j]);
  }

  /** blimpSearch's answer is a candidate with the least worst case; among those,
      one with the least sum of outcomes (equivalently, average); and when some
      candidate fully tied with it is a possible answer, so is it. */
  lemma BlimpChoiceOptimal(list: seq<string>, wordsAllowed: seq<string>, order: seq<string>)
    requires |list| > 0 && AllWords(list) && AllWords(wordsAllowed)
    requires forall w :: w in order <==> w in wordsAllowed || w in list
    ensures AllWords(order)
    ensures BlimpChoice(list, order) in wordsAllowed || BlimpChoice(list, order) in list
    ensures IsWord(BlimpChoice(list, order))
    ensures forall c :: c in wordsAllowed || c in list ==>
      Worst(list, BlimpChoice(list, order)) <= Worst(list, c)
    ensures forall c :: ((c in wordsAllowed || c in list) &&
      Worst(list, c) == Worst(list, BlimpChoice(list, order))) ==>
      Total(list, BlimpChoice(list, order)) <= Total(list, c)
    ensures forall c :: (c in list &&
      Worst(list, c) == Worst(list, BlimpChoice(list, order)) &&
      Total(list, c) == Total(list, BlimpChoice(list, order))) ==>
      BlimpChoice(list, order) in list
  {
    CandidatesAreWords(list, wordsAllowed, order);
    assert list[0] in order;
    ChoiceOptimal(list, order);
    var r := BlimpChoice(list, order);
    forall c | c in wordsAllowed || c in list
      ensures Worst(list, r) <= Worst(list, c)
      ensures Worst(list, c) == Worst(list, r) ==> Total(list, r) <= Total(list, c)
      ensures c in list && Worst(list, c) == Worst(list, r) && Total(list, c) == Total(list, r) ==> r in list
    {
      var j :| 0 <= j < |order| && order[j] == c;
    }
  }

  /** The final fallback to getMaxValue1 never fires: the first candidate always
      beats the initial bound, so a guess is always chosen. */
  lemma FallbackUnreachable(list: seq<string>, order: seq<string>)
    requires |list| > 0 && AllWords(list) && AllWords(order) && |order| > 0
    ensures BlimpChoice(list, order) != ""
  {
    ChoiceOptimal(list, order);
  }

  lemma CandidatesAreWords(list: seq<string>, wordsAllowed: seq<string>, order: seq<string>)
    requires AllWords(list) && AllWords(wordsAllowed)
    requires forall w :: w in order <==> w in wordsAllowed || w in list
    ensures AllWords(order)
  {
    forall i | 0 <= i < |order| ensures IsWord(order[i]) {
      assert order[i] in order;
      if order[i] in list {
        var j :| 0 <= j < |list| && list[j] == order[i];
      } else {
        var j :| 0 <= j < |wordsAllowed| && wordsAllowed[j] == order[i];
      }
    }
  }

  // ---------------------------------------------------------------------------
  // blimpSearch

  /** The simulation of one candidate: the outcome sizes and their running maximum,
      stopping early once the maximum exceeds the bound. `scanned` is how many
      answers were simulated. */
  method SimulateCandidate(wordList: seq<string>, candidate: string, minMaxRemainingSize: int)
    returns (maxRemainingSize: int, possibleOutcomeSizes: seq<int>, ghost scanned: nat)
    requires AllWords(wordList) && IsWord(candidate) && minMaxRemainingSize >= 0
    ensures scanned <= |wordList|
    ensures maxRemainingSize == WorstUpTo(wordList, candidate, scanned)
    ensures maxRemainingSize <= minMaxRemainingSize ==>
      scanned == |wordList| && possibleOutcomeSizes == Sizes(wordList, candidate)
  {
    maxRemainingSize := 0;
    possibleOutcomeSizes := [];
    scanned := 0;
    for a := 0 to |wordList|
      invariant scanned == a
      invariant possibleOutcomeSizes == Sizes(wordList, candidate)[..a]
      invariant maxRemainingSize == WorstUpTo(wordList, candidate, a)
      invariant maxRemainingSize <= minMaxRemainingSize
    {
      var simulatedRemainingList := FilterWords(wordList, candidate, wordList[a]);
      var outcomeSize := |simulatedRemainingList|;
      ghost var sizes := Sizes(wordList, candidate);
      assert sizes[..a + 1] == sizes[..a] + [outcomeSize];
      assert sizes[..a + 1][..a] == sizes[..a];
      possibleOutcomeSizes := possibleOutcomeSizes + [outcomeSize];
      if outcomeSize > maxRemainingSize {
        maxRemainingSize := outcomeSize;
      }
      scanned := a + 1;
      if maxRemainingSize > minMaxRemainingSize {
        break;
      }
    }
    assert Sizes(wordList, candidate)[..|wordList|] == Sizes(wordList, candidate);
  }

  /** One iteration of blimpSearch's candidate loop: simulate the candidate and
      update the best guess, its worst case and its sum of outcomes. */
  method ScoreCandidate(wordList: seq<string>, candidate: string,
                        bestGuess: string, minMaxRemainingSize: int, totalForBest: int)
    returns (bestGuess': string, minMaxRemainingSize': int, totalForBest': int)
    requires AllWords(wordList) && IsWord(candidate) && minMaxRemainingSize >= 0
    ensures Search(bestGuess', minMaxRemainingSize', totalForBest') ==
      Consider(wordList, Search(bestGuess, minMaxRemainingSize, totalForBest), candidate,
               Worst(wordList, candidate), Total(wordList, candidate))
    ensures minMaxRemainingSize' >= 0
  {
    bestGuess', minMaxRemainingSize', totalForBest' := bestGuess, minMaxRemainingSize, totalForBest;
    var maxRemainingSize, possibleOutcomeSizes, scanned := SimulateCandidate(wordList, candidate, minMaxRemainingSize);
    if maxRemainingSize > minMaxRemainingSize {
      PruneSafe(wordList, candidate, scanned, minMaxRemainingSize);
      return;
    }
    assert Sizes(wordList, candidate)[..|wordList|] == Sizes(wordList, candidate);
    var currentTotal := SumOf(possibleOutcomeSizes);
    if maxRemainingSize < minMaxRemainingSize {
      minMaxRemainingSize' := maxRemainingSize;
      totalForBest' := currentTotal;
      bestGuess' := candidate;
    } else if maxRemainingSize == minMaxRemainingSize {
      if currentTotal < totalForBest {
        totalForBest' := currentTotal;
        bestGuess' := candidate;
      } else if currentTotal == totalForBest {
        if bestGuess !in wordList && candidate in wordList {
          bestGuess' := candidate;
        }
      }
    }
  }

  method BlimpSearch(wordList: seq<string>, wordsAllowed: seq<string>, candidateGuesses: seq<string>)
    returns (r: string)
    requires |wordList| > 0 && AllWords(wordList) && AllWords(wordsAllowed) && AllWords(candidateGuesses)
    requires forall w :: w in candidateGuesses <==> w in wordsAllowed || w in wordList
    requires forall i, j :: 0 <= i < j < |candidateGuesses| ==> candidateGuesses[i] != candidateGuesses[j]
    ensures r == BlimpChoice(wordList, candidateGuesses)
  {
    var n := |wordList|;
    var bestGuess := "";
    var minMaxRemainingSize := n + 1;
    var totalForBest := n * (n + 1);
    CandidatesAreWords(wordList, wordsAllowed, candidateGuesses);
    assert wordList[0] in candidateGuesses;
    if |candidateGuesses| == 0 {
      assert false;
    }
    for c := 0 to |candidateGuesses|
      invariant Search(bestGuess, minMaxRemainingSize, totalForBest) == Scan(wordList, candidateGuesses, c)
      invariant minMaxRemainingSize >= 0
    {
      ScanStep(wordList, candidateGuesses, c);
      bestGuess, minMaxRemainingSize, totalForBest :=
        ScoreCandidate(wordList, candidateGuesses[c], bestGuess, minMaxRemainingSize, totalForBest);
    }
    FallbackUnreachable(wordList, candidateGuesses);
    if bestGuess == "" {
      assert false;
    }
    r := bestGuess;
  }
}
