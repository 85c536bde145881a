/** The deep-search scorer (main.py get_word_value2 and get_list_matches) and the
    list chunking that feeds it (main.py chunks): a guess is scored by running
    all 3^5 synthetic colour states through the primitive filters and weighting
    each reduction by the number of answers that really produce that list. */
module DeepSearch {
  import opened Words
  import opened Selection
  import opened Primitives
  import opened Candidates
  import opened GameState
  import opened Minimax

  // ---------------------------------------------------------------------------
  // get_list_matches

  /** The number of true entries. */
  function CountTrue(bs: seq<bool>): nat {
    if bs == [] then 0 else CountTrue(bs[..|bs| - 1]) + (if bs[|bs| - 1] then 1 else 0)
  }

  /** At most one per entry, and some exactly when some entry is true. */
  lemma {:induction false} CountTrueMeaning(bs: seq<bool>)
    ensures CountTrue(bs) <= |bs|
    ensures CountTrue(bs) > 0 <==> exists i :: 0 <= i < |bs| && bs[i]
  {
    if bs != [] {
      var init := bs[..|bs| - 1];
      CountTrueMeaning(init);
      assert forall i :: 0 <= i < |init| ==> init[i] == bs[i];
    }
  }

  lemma CountTrueSnoc(bs: seq<bool>, k: nat)
    requires k < |bs|
    ensures CountTrue(bs[..k + 1]) == CountTrue(bs[..k]) + (if bs[k] then 1 else 0)
  {
    assert bs[..k + 1][..k] == bs[..k];
  }

  /** For each answer of mainList, whether its filter_words list is `focused`. */
  function Hits(g: string, focused: seq<string>, mainList: seq<string>): (r: seq<bool>)
    requires IsWord(g)
    ensures |r| == |mainList|
  {
    seq(|mainList|, i requires 0 <= i < |mainList| => Survivors(mainList, g, mainList[i]) == focused)
  }

  function ListMatches(g: string, focused: seq<string>, mainList: seq<string>): nat
    requires IsWord(g)
  {
    CountTrue(Hits(g, focused, mainList))
  }

  /** get_list_matches counts between 0 and |mainList| answers, and at least one
      exactly when `focused` is the list some answer of mainList really leaves. */
  lemma ListMatchesBounds(g: string, focused: seq<string>, mainList: seq<string>)
    requires IsWord(g)
    ensures ListMatches(g, focused, mainList) <= |mainList|
    ensures ListMatches(g, focused, mainList) > 0 <==>
      exists a :: a in mainList && Survivors(mainList, g, a) == focused
  {
    var hits := Hits(g, focused, mainList);
    CountTrueMeaning(hits);
    if exists a :: a in mainList && Survivors(mainList, g, a) == focused {
      var a :| a in mainList && Survivors(mainList, g, a) == focused;
      var i :| 0 <= i < |mainList| && mainList[i] == a;
      assert hits[i];
    }
  }

  method GetListMatches(inputWord: string, focusedList: seq<string>, mainList: seq<string>)
    returns (matches: nat)
    requires IsWord(inputWord) && AllWords(mainList)
    ensures matches == ListMatches(inputWord, focusedList, mainList)
  {
    ghost var hits := Hits(inputWord, focusedList, mainList);
    matches := 0;
    for k := 0 to |mainList|
      invariant matches == CountTrue(hits[..k])
    {
      CountTrueSnoc(hits, k);
      var filtered := FilterWords(mainList, inputWord, mainList[k]);
      assert hits[k] <==> filtered == focusedList;
      if filtered == focusedList {
        matches := matches + 1;
      }
    }
    assert hits[..|mainList|] == hits;
  }

  // ---------------------------------------------------------------------------
  // The synthetic states

  /** The place value of each letter's digit in the enumeration order: the first
      letter's loop is the outermost. */
  const Place: seq<nat> := [81, 27, 9, 3, 1]

  /** The digits of state number s, first letter first. */
  function Digits(s: nat): (r: seq<nat>)
    ensures |r| == 5 && forall k :: 0 <= k < 5 ==> r[k] < 3
  {
    [s / 81 % 3, s / 27 % 3, s / 9 % 3, s / 3 % 3, s % 3]
  }

  /** The five nested loops visit the states in the order of their numbers. */
  lemma DigitsOf(a: nat, b: nat, c: nat, d: nat, e: nat)
    requires a < 3 && b < 3 && c < 3 && d < 3 && e < 3
    ensures Digits(81 * a + 27 * b + 9 * c + 3 * d + e) == [a, b, c, d, e]
  {
    var s := 81 * a + 27 * b + 9 * c + 3 * d + e;
    assert s / 3 == 27 * a + 9 * b + 3 * c + d;
    assert s / 9 == 9 * a + 3 * b + c;
    assert s / 27 == 3 * a + b;
    assert s / 81 == a;
  }

  /** `str(first_letter) + ... + str(fifth_letter)` */
  function StateString(digits: seq<nat>): (r: string)
    requires |digits| == 5 && forall k :: 0 <= k < 5 ==> digits[k] < 3
    ensures ValidState(r)
  {
    seq(5, k requires 0 <= k < 5 => ('0' as int + digits[k]) as char)
  }

  /** A digit of the state string is 1 or 2 exactly when the loop digit is not 0. */
  lemma StateStringKnown(digits: seq<nat>)
    requires |digits| == 5 && forall k :: 0 <= k < 5 ==> digits[k] < 3
    ensures forall k :: 0 <= k < 5 ==> (Known(StateString(digits)[k]) <==> digits[k] != 0)
  {
  }

  /** The current list and lettersInWord. */
  datatype Progress = Progress(list: seq<string>, letters: seq<char>)

  /** The position the yellow step for letter k checks: its own, except that the
      fifth letter's yellow step checks the fourth position with the fourth letter. */
  function YellowPosition(k: nat): nat { if k == 4 then 3 else k }

  /** The step of get_word_value2 for letter k with digit d. A gray letter is
      excluded unless already in lettersInWord, except that the first letter is
      always excluded; a yellow letter is required and its position checked; a
      green letter is fixed; yellow and green letters join lettersInWord. */
  function LetterStep(word: string, k: nat, d: nat, p: Progress): Progress
    requires IsWord(word) && k < 5 && d < 3
  {
    if d == 0 then
      if k == 0 || word[k] !in p.letters then Progress(Select(p.list, Lacks(word[k])), p.letters) else p
    else if d == 1 then
      var q := YellowPosition(k);
      Progress(Select(Select(p.list, Holds(word[k])), Misplaced(word[q], q)), p.letters + [word[k]])
    else Progress(Select(p.list, Placed(word[k], k, None)), p.letters + [word[k]])
  }

  /** What the step asks of a word. */
  predicate LetterStepHolds(word: string, k: nat, d: nat, letters: seq<char>, w: string)
    requires IsWord(word) && k < 5 && d < 3
  {
    if d == 0 then (k == 0 || word[k] !in letters) ==> word[k] !in w
    else if d == 1 then word[k] in w && |w| > YellowPosition(k) && w[YellowPosition(k)] != word[YellowPosition(k)]
    else |w| > k && w[k] == word[k]
  }

  /** The step keeps exactly the words of the list passing it, in order, and extends
      lettersInWord by the letter when its digit is 1 or 2. */
  lemma LetterStepMeaning(word: string, k: nat, d: nat, p: Progress)
    requires IsWord(word) && k < 5 && d < 3
    ensures forall w :: w in LetterStep(word, k, d, p).list <==> w in p.list && LetterStepHolds(word, k, d, p.letters, w)
    ensures Sublist(LetterStep(word, k, d, p).list, p.list)
    ensures LetterStep(word, k, d, p).letters == p.letters + (if d == 0 then [] else [word[k]])
  {
    if d == 0 {
      SelectMembers(p.list, Lacks(word[k]));
      SelectSublist(p.list, Lacks(word[k]));
      SublistReflexive(p.list);
    } else if d == 1 {
      var q := YellowPosition(k);
      var held := Select(p.list, Holds(word[k]));
      SelectMembers(p.list, Holds(word[k]));
      SelectMembers(held, Misplaced(word[q], q));
      SelectSublist(p.list, Holds(word[k]));
      SelectSublist(held, Misplaced(word[q], q));
      SublistTransitive(Select(held, Misplaced(word[q], q)), held, p.list);
    } else {
      SelectMembers(p.list, Placed(word[k], k, None));
      SelectSublist(p.list, Placed(word[k], k, None));
    }
  }

  /** The progress after the steps for the first n letters of a state. */
  function StepsUpTo(word: string, digits: seq<nat>, p: Progress, n: nat): Progress
    requires IsWord(word) && |digits| == 5 && forall k :: 0 <= k < 5 ==> digits[k] < 3
    requires n <= 5
  {
    if n == 0 then p else LetterStep(word, n - 1, digits[n - 1], StepsUpTo(word, digits, p, n - 1))
  }

  /** The list one state leaves and the lettersInWord after it: the five steps,
      then, for a guess with a repeated letter, word_state_repetition_filter. */
  function StateOutcome(word: string, digits: seq<nat>, resetList: seq<string>, letters: seq<char>): Progress
    requires IsWord(word) && |digits| == 5 && forall k :: 0 <= k < 5 ==> digits[k] < 3
  {
    var p := StepsUpTo(word, digits, Progress(resetList, letters), 5);
    if HasRepeatedLetter(word) then Progress(Select(p.list, RepeatCriterion(word, StateString(digits))), p.letters)
    else p
  }

  /** The steps only delete words, and only append to lettersInWord. */
  lemma {:induction false} StepsUpToShrinks(word: string, digits: seq<nat>, p: Progress, n: nat)
    requires IsWord(word) && |digits| == 5 && forall k :: 0 <= k < 5 ==> digits[k] < 3
    requires n <= 5
    ensures Sublist(StepsUpTo(word, digits, p, n).list, p.list)
    ensures StepsUpTo(word, digits, p, n).letters == p.letters + LettersUpTo(word, StateString(digits), n)
  {
    if n == 0 {
      SublistReflexive(p.list);
    } else {
      var prev := StepsUpTo(word, digits, p, n - 1);
      StepsUpToShrinks(word, digits, p, n - 1);
      LetterStepMeaning(word, n - 1, digits[n - 1], prev);
      SublistTransitive(StepsUpTo(word, digits, p, n).list, prev.list, p.list);
      StateStringKnown(digits);
      var before := LettersUpTo(word, StateString(digits), n - 1);
      var extra := if digits[n - 1] == 0 then [] else [word[n - 1]];
      assert p.letters + (before + extra) == (p.letters + before) + extra;
    }
  }

  /** A state leaves a sublist of the full list, and appends to lettersInWord, in
      position order, the letters whose digit is 1 or 2. */
  lemma StateOutcomeShrinks(word: string, digits: seq<nat>, resetList: seq<string>, letters: seq<char>)
    requires IsWord(word) && |digits| == 5 && forall k :: 0 <= k < 5 ==> digits[k] < 3
    ensures Sublist(StateOutcome(word, digits, resetList, letters).list, resetList)
    ensures |StateOutcome(word, digits, resetList, letters).list| <= |resetList|
    ensures StateOutcome(word, digits, resetList, letters).letters == letters + LettersInWord(word, StateString(digits))
  {
    var p := StepsUpTo(word, digits, Progress(resetList, letters), 5);
    StepsUpToShrinks(word, digits, Progress(resetList, letters), 5);
    if HasRepeatedLetter(word) {
      SelectSublist(p.list, RepeatCriterion(word, StateString(digits)));
      SublistTransitive(StateOutcome(word, digits, resetList, letters).list, p.list, resetList);
    }
    SublistMembers(StateOutcome(word, digits, resetList, letters).list, resetList);
  }

  // ---------------------------------------------------------------------------
  // get_word_value2

  /** lettersInWord and resulting_words_list_lengths. */
  datatype Run = Run(letters: seq<char>, terms: seq<int>)

  /** The weighted reduction of one reachable list: minus the number of words it
      removes times the number of answers producing it. */
  function Term(word: string, resetList: seq<string>, reached: seq<string>): int
    requires IsWord(word)
  {
    0 - (|resetList| - |reached|) * ListMatches(word, reached, resetList)
  }

  /** The run over the first n states of a state loop with the given per-state
      step and term; lettersInWord carries over from state to state. */
  function RunWith(step: (nat, seq<char>) -> Progress, term: seq<string> -> int, n: nat): Run {
    if n == 0 then Run([], [])
    else
      var prev := RunWith(step, term, n - 1);
      var o := step(n - 1, prev.letters);
      Run(o.letters, prev.terms + (if |o.list| > 0 then [term(o.list)] else []))
  }

  /** The list state m of the run leaves. */
  function ReachedWith(step: (nat, seq<char>) -> Progress, term: seq<string> -> int, m: nat): seq<string> {
    step(m, RunWith(step, term, m).letters).list
  }

  /** A run whose step for state m appends f(m) to lettersInWord. */
  lemma RunWithAppends(step: (nat, seq<char>) -> Progress, term: seq<string> -> int, f: nat -> seq<char>, n: nat)
    requires n > 0
    requires forall m, l :: step(m, l).letters == l + f(m)
    ensures RunWith(step, term, n).letters == RunWith(step, term, n - 1).letters + f(n - 1)
  {
  }

  /** A run whose steps never drop a letter keeps every earlier lettersInWord as
      a prefix. */
  lemma {:induction false} RunWithLetters(step: (nat, seq<char>) -> Progress, term: seq<string> -> int, s: nat, t: nat)
    requires forall n, l :: |l| <= |step(n, l).letters| && step(n, l).letters[..|l|] == l
    requires s <= t
    ensures |RunWith(step, term, s).letters| <= |RunWith(step, term, t).letters|
    ensures RunWith(step, term, t).letters[..|RunWith(step, term, s).letters|] == RunWith(step, term, s).letters
    decreases t - s
  {
    if s < t {
      RunWithLetters(step, term, s, t - 1);
      var a := RunWith(step, term, s).letters;
      var b := RunWith(step, term, t - 1).letters;
      var c := RunWith(step, term, t).letters;
      assert c[..|b|] == b;
      assert c[..|a|] == c[..|b|][..|a|];
    }
  }

  /** A run whose lists never exceed `bound` words and whose terms are non-positive
      on such lists has only non-positive terms, and has none exactly when every
      state leaves an empty list. */
  lemma {:induction false} RunWithTerms(step: (nat, seq<char>) -> Progress, term: seq<string> -> int, n: nat, bound: nat)
    requires forall m, l :: |step(m, l).list| <= bound
    requires forall r: seq<string> :: |r| <= bound ==> term(r) <= 0
    ensures forall i :: 0 <= i < |RunWith(step, term, n).terms| ==> RunWith(step, term, n).terms[i] <= 0
    ensures |RunWith(step, term, n).terms| == 0 <==>
      forall m :: 0 <= m < n ==> ReachedWith(step, term, m) == []
  {
    if n > 0 {
      RunWithTerms(step, term, n - 1, bound);
      assert ReachedWith(step, term, n - 1) == step(n - 1, RunWith(step, term, n - 1).letters).list;
    }
  }

  /** The state loop of get_word_value2 over resetList. */
  function StateFn(word: string, resetList: seq<string>): (nat, seq<char>) -> Progress
    requires IsWord(word)
  {
    (s: nat, letters: seq<char>) => StateOutcome(word, Digits(s), resetList, letters)
  }

  function TermFn(word: string, resetList: seq<string>): seq<string> -> int
    requires IsWord(word)
  {
    (reached: seq<string>) => Term(word, resetList, reached)
  }

  function RunUpTo(word: string, resetList: seq<string>, n: nat): Run
    requires IsWord(word)
  {
    RunWith(StateFn(word, resetList), TermFn(word, resetList), n)
  }

  /** lettersInWord at the start of state s. */
  function LettersBefore(word: string, resetList: seq<string>, s: nat): seq<char>
    requires IsWord(word)
  {
    RunUpTo(word, resetList, s).letters
  }

  /** The list state s leaves. */
  function Reached(word: string, resetList: seq<string>, s: nat): seq<string>
    requires IsWord(word)
  {
    ReachedWith(StateFn(word, resetList), TermFn(word, resetList), s)
  }

  /** The result of get_word_value2: 1 when no state leaves a word, otherwise the
      numerator of the weighted average, which the source divides by |resetList|. */
  datatype DeepScore = Unreachable | Weighted(numerator: int)

  function WordValue2(word: string, resetList: seq<string>): DeepScore
    requires IsWord(word)
  {
    var r := RunUpTo(word, resetList, 243);
    if |r.terms| > 0 then Weighted(SumOf(r.terms)) else Unreachable
  }

  lemma TermNonPositive(word: string, resetList: seq<string>, reached: seq<string>)
    requires IsWord(word) && |reached| <= |resetList|
    ensures Term(word, resetList, reached) <= 0
  {
    var m := ListMatches(word, reached, resetList);
    var removed := |resetList| - |reached|;
    assert removed >= 0 && m >= 0;
    assert removed * m >= 0;
  }

  /** Every term is zero or negative, and there are none exactly when no state
      leaves a word. */
  lemma RunUpToTerms(word: string, resetList: seq<string>, n: nat)
    requires IsWord(word)
    ensures forall i :: 0 <= i < |RunUpTo(word, resetList, n).terms| ==> RunUpTo(word, resetList, n).terms[i] <= 0
    ensures |RunUpTo(word, resetList, n).terms| == 0 <==> forall s :: 0 <= s < n ==> Reached(word, resetList, s) == []
  {
    var step, term := StateFn(word, resetList), TermFn(word, resetList);
    forall m, l ensures |step(m, l).list| <= |resetList| {
      StateOutcomeShrinks(word, Digits(m), resetList, l);
    }
    forall r: seq<string> | |r| <= |resetList| ensures term(r) <= 0 {
      TermNonPositive(word, resetList, r);
    }
    RunWithTerms(step, term, n, |resetList|);
    assert RunUpTo(word, resetList, n) == RunWith(step, term, n);
    assert forall s :: Reached(word, resetList, s) == ReachedWith(step, term, s);
  }

  lemma {:induction false} SumOfNonPositive(s: seq<int>)
    requires forall i :: 0 <= i < |s| ==> s[i] <= 0
    ensures SumOf(s) <= 0
  {
    if s != [] {
      SumOfNonPositive(s[..|s| - 1]);
    }
  }

  /** The score is 1 exactly when every one of the 243 states filters the list down
      to nothing; otherwise its numerator is never positive (lower is better). */
  lemma WordValue2Meaning(word: string, resetList: seq<string>)
    requires IsWord(word)
    ensures WordValue2(word, resetList).Unreachable? <==> forall s :: 0 <= s < 243 ==> Reached(word, resetList, s) == []
    ensures WordValue2(word, resetList).Weighted? ==> WordValue2(word, resetList).numerator <= 0
  {
    RunUpToTerms(word, resetList, 243);
    SumOfNonPositive(RunUpTo(word, resetList, 243).terms);
  }

  /** The letters state m appends to lettersInWord. */
  function AddedFn(word: string): nat -> seq<char>
    requires IsWord(word)
  {
    (m: nat) => LettersInWord(word, StateString(Digits(m)))
  }

  lemma LettersAppend(word: string, resetList: seq<string>, s: nat)
    requires IsWord(word)
    ensures LettersBefore(word, resetList, s + 1) == LettersBefore(word, resetList, s) + AddedFn(word)(s)
  {
    var step := StateFn(word, resetList);
    var added := AddedFn(word);
    forall m, l ensures step(m, l).letters == l + added(m) {
      StateOutcomeShrinks(word, Digits(m), resetList, l);
    }
    var term := TermFn(word, resetList);
    RunWithAppends(step, term, added, s + 1);
    assert LettersBefore(word, resetList, s + 1) == RunWith(step, term, s + 1).letters;
    assert LettersBefore(word, resetList, s) == RunWith(step, term, s).letters;
  }

  /** State s only appends to lettersInWord, and appends every letter whose digit
      is 1 or 2. */
  lemma LettersStep(word: string, resetList: seq<string>, s: nat)
    requires IsWord(word)
    ensures LettersBefore(word, resetList, s + 1) ==
      LettersBefore(word, resetList, s) + LettersInWord(word, StateString(Digits(s)))
    ensures forall k :: 0 <= k < 5 && Digits(s)[k] != 0 ==> word[k] in LettersBefore(word, resetList, s + 1)
  {
    LettersAppend(word, resetList, s);
    var state := StateString(Digits(s));
    assert AddedFn(word)(s) == LettersInWord(word, state);
    LettersUpToMembers(word, state, 5);
    StateStringKnown(Digits(s));
  }

  /** lettersInWord is never reset: what it held before a state it still holds,
      as a prefix, before every later state. */
  lemma LettersGrow(word: string, resetList: seq<string>, s: nat, t: nat)
    requires IsWord(word) && s <= t
    ensures |LettersBefore(word, resetList, s)| <= |LettersBefore(word, resetList, t)|
    ensures LettersBefore(word, resetList, t)[..|LettersBefore(word, resetList, s)|] == LettersBefore(word, resetList, s)
  {
    var step := StateFn(word, resetList);
    forall m, l ensures |l| <= |step(m, l).letters| && step(m, l).letters[..|l|] == l {
      StateOutcomeShrinks(word, Digits(m), resetList, l);
      var extra := LettersInWord(word, StateString(Digits(m)));
      assert (l + extra)[..|l|] == l;
    }
    RunWithLetters(step, TermFn(word, resetList), s, t);
  }

  /** Because lettersInWord carries over, from state 28 on every letter but the
      first is in it: a gray digit there excludes nothing except for the first
      letter. */
  lemma LettersCarryOver(word: string, resetList: seq<string>, s: nat, k: nat)
    requires IsWord(word) && 1 <= k < 5 && Place[k] < s
    ensures word[k] in LettersBefore(word, resetList, s)
    ensures forall p :: LetterStep(word, k, 0, Progress(p, LettersBefore(word, resetList, s))).list == p
  {
    var t := Place[k];
    PlaceDigit(k);
    LettersStep(word, resetList, t);
    LettersGrow(word, resetList, t + 1, s);
    PrefixMember(LettersBefore(word, resetList, t + 1), LettersBefore(word, resetList, s), word[k]);
    GrayKeeps(word, k, LettersBefore(word, resetList, s));
  }

  /** A gray digit on a letter other than the first, once lettersInWord holds it,
      keeps the whole list. */
  lemma GrayKeeps(word: string, k: nat, letters: seq<char>)
    requires IsWord(word) && 1 <= k < 5 && word[k] in letters
    ensures forall p :: LetterStep(word, k, 0, Progress(p, letters)).list == p
  {
  }

  /** State number Place[k] is the first whose digit k is 1. */
  lemma PlaceDigit(k: nat)
    requires k < 5
    ensures Digits(Place[k])[k] == 1
  {
    if k == 0 {
      assert Digits(81) == [1, 0, 0, 0, 0];
    } else if k == 1 {
      assert Digits(27) == [0, 1, 0, 0, 0];
    } else if k == 2 {
      assert Digits(9) == [0, 0, 1, 0, 0];
    } else if k == 3 {
      assert Digits(3) == [0, 0, 0, 1, 0];
    } else {
      assert Digits(1) == [0, 0, 0, 0, 1];
    }
  }

  lemma PrefixMember<T>(a: seq<T>, b: seq<T>, x: T)
    requires |a| <= |b| && b[..|a|] == a && x in a
    ensures x in b
  {
    var i :| 0 <= i < |a| && a[i] == x;
    assert b[i] == b[..|a|][i];
  }

  /** One letter's `if` block of get_word_value2. */
  method ApplyLetter(word: string, k: nat, d: nat, wordList: seq<string>, lettersInWord: seq<char>)
    returns (wordList': seq<string>, lettersInWord': seq<char>)
    requires IsWord(word) && k < 5 && d < 3 && AllWords(wordList)
    ensures Progress(wordList', lettersInWord') == LetterStep(word, k, d, Progress(wordList, lettersInWord))
    ensures AllWords(wordList')
  {
    wordList', lettersInWord' := wordList, lettersInWord;
    if d == 0 {
      if k == 0 || word[k] !in lettersInWord {
        wordList' := InverseFilter(word[k], wordList);
      }
    } else if d == 1 {
      var present := Filter(word[k], None, None, wordList);
      AllWordsFrom(present.words, wordList);
      var q := YellowPosition(k);
      wordList' := WrongPositionFilter(word[q], q, present.words);
      lettersInWord' := lettersInWord + [word[k]];
    } else {
      var placed := Filter(word[k], Some(k), None, wordList);
      wordList' := placed.words;
      lettersInWord' := lettersInWord + [word[k]];
    }
    LetterStepMeaning(word, k, d, Progress(wordList, lettersInWord));
    AllWordsFrom(wordList', wordList);
  }

  /** The body of the innermost loop for one state, up to the list it leaves. */
  /** The five letters' `if` blocks of one state, in order. */
  method ApplySteps(word: string, digits: seq<nat>, resetList: seq<string>, lettersInWord: seq<char>)
    returns (wordList: seq<string>, lettersInWord': seq<char>)
    requires IsWord(word) && AllWords(resetList)
    requires |digits| == 5 && forall k :: 0 <= k < 5 ==> digits[k] < 3
    ensures Progress(wordList, lettersInWord') == StepsUpTo(word, digits, Progress(resetList, lettersInWord), 5)
    ensures AllWords(wordList)
  {
    ghost var start := Progress(resetList, lettersInWord);
    wordList, lettersInWord' := resetList, lettersInWord;
    for k := 0 to 5
      invariant AllWords(wordList)
      invariant Progress(wordList, lettersInWord') == StepsUpTo(word, digits, start, k)
    {
      assert StepsUpTo(word, digits, start, k + 1) ==
        LetterStep(word, k, digits[k], Progress(wordList, lettersInWord'));
      wordList, lettersInWord' := ApplyLetter(word, k, digits[k], wordList, lettersInWord');
    }
  }

  /** One state of get_word_value2: the five letter steps, then the repetition
      filter for a guess with a repeated letter. */
  method ApplyState(word: string, digits: seq<nat>, resetList: seq<string>, lettersInWord: seq<char>)
    returns (wordList: seq<string>, lettersInWord': seq<char>)
    requires IsWord(word) && AllWords(resetList)
    requires |digits| == 5 && forall k :: 0 <= k < 5 ==> digits[k] < 3
    ensures Progress(wordList, lettersInWord') == StateOutcome(word, digits, resetList, lettersInWord)
  {
    wordList, lettersInWord' := ApplySteps(word, digits, resetList, lettersInWord);
    var wordState := StateString(digits);
    if |set c | c in word| != |word| {
      wordList := WordStateRepetitionFilter(word, wordState, wordList);
    }
  }

  /** The innermost loop body: run one state from the full list, then record its
      term if it leaves a word. */
  method RecordState(word: string, resetList: seq<string>, digits: seq<nat>,
                     lettersInWord: seq<char>, resultingLengths: seq<int>)
    returns (lettersInWord': seq<char>, resultingLengths': seq<int>)
    requires IsWord(word) && AllWords(resetList)
    requires |digits| == 5 && forall k :: 0 <= k < 5 ==> digits[k] < 3
    ensures var o := StateOutcome(word, digits, resetList, lettersInWord);
      lettersInWord' == o.letters &&
      resultingLengths' == resultingLengths + (if |o.list| > 0 then [Term(word, resetList, o.list)] else [])
  {
    var wordList;
    wordList, lettersInWord' := ApplyState(word, digits, resetList, lettersInWord);
    resultingLengths' := resultingLengths;
    if |wordList| > 0 {
      var matches := GetListMatches(word, wordList, resetList);
      resultingLengths' := resultingLengths + [0 - (|resetList| - |wordList|) * matches];
    }
  }

  method GetWordValue2(word: string, resetList: seq<string>) returns (r: DeepScore)
    requires IsWord(word) && AllWords(resetList)
    ensures r == WordValue2(word, resetList)
  {
    var resultingLengths: seq<int> := [];
    var lettersInWord: seq<char> := [];
    for s := 0 to 243
      invariant Run(lettersInWord, resultingLengths) == RunUpTo(word, resetList, s)
    {
      var digits := [s / 81 % 3, s / 27 % 3, s / 9 % 3, s / 3 % 3, s % 3];
      assert digits == Digits(s);
      lettersInWord, resultingLengths := RecordState(word, resetList, digits, lettersInWord, resultingLengths);
    }
    if |resultingLengths| > 0 {
      r := Weighted(SumOf(resultingLengths));
    } else {
      r := Unreachable;
    }
  }

  // ---------------------------------------------------------------------------
  // chunks

  /** Successive n-sized slices of s, the last one possibly shorter. */
  function ChunksOf<T>(s: seq<T>, n: nat): seq<seq<T>>
    requires n > 0
    decreases |s|
  {
    if |s| == 0 then []
    else if |s| <= n then [s]
    else [s[..n]] + ChunksOf(s[n..], n)
  }

  /** chunks: `range(0, len, n)` raises for n == 0 (None) and is empty for n < 0. */
  function Chunks<T>(s: seq<T>, n: int): (r: Option<seq<seq<T>>>)
    ensures r.None? <==> n == 0
    ensures n < 0 ==> r == Some([])
    ensures n > 0 ==> r.Some? && Flatten(r.value) == s && |r.value| == (|s| + n - 1) / n
    ensures n > 0 ==> r.Some? && forall i :: 0 <= i < |r.value| ==> 1 <= |r.value[i]| <= n
  {
    if n == 0 then None
    else if n < 0 then Some([])
    else
      ChunksOfFlatten(s, n);
      ChunksOfSizes(s, n);
      ChunksOfCount(s, n);
      Some(ChunksOf(s, n))
  }

  function Flatten<T>(ss: seq<seq<T>>): seq<T> {
    if ss == [] then [] else ss[0] + Flatten(ss[1..])
  }

  /** The chunks put back together give the list. */
  lemma {:induction false} ChunksOfFlatten<T>(s: seq<T>, n: nat)
    requires n > 0
    ensures Flatten(ChunksOf(s, n)) == s
    decreases |s|
  {
    if 0 < |s| <= n {
      assert Flatten([s]) == s + Flatten([s][1..]);
    } else if |s| > n {
      ChunksOfFlatten(s[n..], n);
      assert [s[..n]] + ChunksOf(s[n..], n) == ChunksOf(s, n);
      assert (ChunksOf(s, n))[1..] == ChunksOf(s[n..], n);
      assert s == s[..n] + s[n..];
    }
  }

  /** Each chunk holds 1..n elements, all but the last exactly n. */
  lemma {:induction false} ChunksOfSizes<T>(s: seq<T>, n: nat)
    requires n > 0
    ensures forall i :: 0 <= i < |ChunksOf(s, n)| ==> 1 <= |ChunksOf(s, n)[i]| <= n
    ensures forall i :: 0 <= i < |ChunksOf(s, n)| - 1 ==> |ChunksOf(s, n)[i]| == n
    decreases |s|
  {
    if |s| > n {
      var rest := ChunksOf(s[n..], n);
      ChunksOfSizes(s[n..], n);
      var r := ChunksOf(s, n);
      assert r == [s[..n]] + rest;
      assert forall i :: 1 <= i < |r| ==> r[i] == rest[i - 1];
    }
  }

  /** There are ceil(|s| / n) chunks. */
  lemma {:induction false} ChunksOfCount<T>(s: seq<T>, n: nat)
    requires n > 0
    ensures |ChunksOf(s, n)| == (|s| + n - 1) / n
    decreases |s|
  {
    if 0 < |s| <= n {
      DivUnique(|s| + n - 1, n, 1, |s| - 1);
    } else if |s| > n {
      ChunksOfCount(s[n..], n);
      assert |ChunksOf(s, n)| == 1 + |ChunksOf(s[n..], n)|;
      DivStep(|s| - n + n - 1, n);
    } else {
      DivUnique(n - 1, n, 0, n - 1);
    }
  }

  lemma DivStep(x: int, n: nat)
    requires n > 0 && x >= 0
    ensures (x + n) / n == x / n + 1
  {
    var q, r := x / n, x % n;
    assert x == q * n + r && 0 <= r < n;
    assert x + n == (q + 1) * n + r;
    DivUnique(x + n, n, q + 1, r);
  }

  lemma DivUnique(y: int, n: nat, q: int, r: int)
    requires n > 0 && y == q * n + r && 0 <= r < n
    ensures y / n == q
  {
    var q', r' := y / n, y % n;
    assert y == q' * n + r' && 0 <= r' < n;
    assert (q - q') * n == r' - r;
    if q > q' {
      MulAtLeast(q - q', n);
    } else if q < q' {
      MulAtLeast(q' - q, n);
    }
  }

  lemma MulAtLeast(a: int, n: nat)
    requires a >= 1
    ensures a * n >= n
  {
    assert a * n == (a - 1) * n + n;
    assert (a - 1) * n >= 0;
  }
}
