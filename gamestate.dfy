/** The game-state path of the engine (main.py validState, gameFilter and
    word_state_repetition_filter): a guess and the five digits the game
    reported for it ('0' gray, '1' yellow, '2' green) narrow a word list by
    successive primitive filters. */
module GameState {
  import opened Words
  import opened Selection
  import opened Primitives
  import opened Coloring

  predicate IsDigit(c: char) { '0' <= c <= '9' }

  /** `int(c)` for an ASCII digit. */
  function DigitValue(c: char): int
    requires IsDigit(c)
  {
    c as int - '0' as int
  }

  /** What gameFilter needs to read its state: five characters `int` accepts. */
  predicate IsDigitState(s: string) {
    |s| >= 5 && forall i :: 0 <= i < 5 ==> IsDigit(s[i])
  }

  /** validState: five characters, each an integer between 0 and 2 (a character
      `int` rejects makes the state invalid). */
  predicate ValidState(wordState: string)
    ensures ValidState(wordState) ==> IsDigitState(wordState) && |wordState| == 5
  {
    |wordState| == 5 &&
    forall i :: 0 <= i < 5 ==> IsDigit(wordState[i]) && 0 <= DigitValue(wordState[i]) <= 2
  }

  /** The valid states are exactly the five-character strings over 0, 1, 2, and
      gameFilter can read every one of them. */
  lemma ValidStateDigits(s: string)
    ensures ValidState(s) <==> |s| == 5 && forall i :: 0 <= i < 5 ==> s[i] in "012"
    ensures ValidState(s) ==> IsDigitState(s)
  {
  }

  /** A valid state is the digit form of a colour string, and every colour string
      of a real guess is a valid state. */
  lemma ValidStateColors(s: string)
    requires ValidState(s)
    ensures forall i :: 0 <= i < 5 ==> IsMark(DigitsToColors(s)[i])
    ensures ColorsToDigits(DigitsToColors(s)) == s
  {
    var c := DigitsToColors(s);
    var r := ColorsToDigits(c);
    forall i | 0 <= i < 5 ensures r[i] == s[i] {
      assert c[i] == MarkOfDigit(s[i]);
    }
  }

  lemma FeedbackStateValid(g: string, t: string)
    requires IsWord(g) && IsWord(t)
    ensures ValidState(ColorsToDigits(Feedback(g, t)))
  {
    FeedbackShape(g, t);
    DigitsRoundTrip(Feedback(g, t));
  }

  // ---------------------------------------------------------------------------
  // The five positional steps

  predicate Known(s: char) { s == '1' || s == '2' }

  /** lettersInWord: the guess letters whose state is 1 or 2, in position order. */
  function LettersUpTo(word: string, state: string, n: nat): seq<char>
    requires n <= |word| && n <= |state|
  {
    if n == 0 then []
    else LettersUpTo(word, state, n - 1) + (if Known(state[n - 1]) then [word[n - 1]] else [])
  }

  function LettersInWord(word: string, state: string): seq<char>
    requires IsWord(word) && |state| >= 5
  {
    LettersUpTo(word, state, 5)
  }

  lemma {:induction false} LettersUpToMembers(word: string, state: string, n: nat)
    requires n <= |word| && n <= |state|
    ensures forall c :: c in LettersUpTo(word, state, n) <==>
      exists i :: 0 <= i < n && word[i] == c && Known(state[i])
  {
    if n > 0 {
      LettersUpToMembers(word, state, n - 1);
    }
  }

  /** What the step for position k asks of a word. */
  predicate StepHolds(word: string, state: string, letters: seq<char>, k: nat, w: string)
    requires IsWord(word) && IsDigitState(state) && k < 5
  {
    var d := DigitValue(state[k]);
    if d == 0 then word[k] in letters || Satisfies(w, Lacks(word[k]))
    else if d == 1 then Satisfies(w, Holds(word[k])) && Satisfies(w, Misplaced(word[k], k))
    else if d == 2 then Satisfies(w, Placed(word[k], k, None))
    else true
  }

  /** The list after the step for position k: a gray letter not otherwise known is
      excluded, a yellow letter is required away from k, a green letter is fixed at
      k, and any other digit leaves the list alone. */
  function PositionStep(word: string, state: string, letters: seq<char>, k: nat, list: seq<string>)
    : seq<string>
    requires IsWord(word) && IsDigitState(state) && k < 5
  {
    var d := DigitValue(state[k]);
    if d == 0 then (if word[k] !in letters then Select(list, Lacks(word[k])) else list)
    else if d == 1 then Select(Select(list, Holds(word[k])), Misplaced(word[k], k))
    else if d == 2 then Select(list, Placed(word[k], k, None))
    else list
  }

  function PositionsUpTo(word: string, state: string, list: seq<string>, n: nat): seq<string>
    requires IsWord(word) && IsDigitState(state) && n <= 5
  {
    if n == 0 then list
    else PositionStep(word, state, LettersInWord(word, state), n - 1, PositionsUpTo(word, state, list, n - 1))
  }

  lemma PositionStepMembers(word: string, state: string, letters: seq<char>, k: nat, list: seq<string>)
    requires IsWord(word) && IsDigitState(state) && k < 5
    ensures forall w :: w in PositionStep(word, state, letters, k, list) <==>
      w in list && StepHolds(word, state, letters, k, w)
    ensures Sublist(PositionStep(word, state, letters, k, list), list)
  {
    var d := DigitValue(state[k]);
    if d == 0 {
      SelectMembers(list, Lacks(word[k]));
      SelectSublist(list, Lacks(word[k]));
      SublistReflexive(list);
    } else if d == 1 {
      var held := Select(list, Holds(word[k]));
      SelectMembers(list, Holds(word[k]));
      SelectMembers(held, Misplaced(word[k], k));
      SelectSublist(list, Holds(word[k]));
      SelectSublist(held, Misplaced(word[k], k));
      SublistTransitive(Select(held, Misplaced(word[k], k)), held, list);
    } else if d == 2 {
      SelectMembers(list, Placed(word[k], k, None));
      SelectSublist(list, Placed(word[k], k, None));
    } else {
      SublistReflexive(list);
    }
  }

  /** After the first n steps, exactly the words passing each of those steps remain,
      in their original order. */
  lemma {:induction false} PositionsUpToMembers(word: string, state: string, list: seq<string>, n: nat)
    requires IsWord(word) && IsDigitState(state) && n <= 5
    ensures forall w :: w in PositionsUpTo(word, state, list, n) <==>
      w in list && forall k :: 0 <= k < n ==> StepHolds(word, state, LettersInWord(word, state), k, w)
    ensures Sublist(PositionsUpTo(word, state, list, n), list)
  {
    if n == 0 {
      SublistReflexive(list);
    } else {
      var prev := PositionsUpTo(word, state, list, n - 1);
      PositionsUpToMembers(word, state, list, n - 1);
      PositionStepMembers(word, state, LettersInWord(word, state), n - 1, prev);
      SublistTransitive(PositionsUpTo(word, state, list, n), prev, list);
    }
  }

  /** One of gameFilter's five `if` blocks. */
  method ApplyPosition(word: string, wordState: string, lettersInWord: seq<char>, k: nat, wordList: seq<string>)
    returns (r: seq<string>)
    requires IsWord(word) && IsDigitState(wordState) && k < 5 && AllWords(wordList)
    ensures r == PositionStep(word, wordState, lettersInWord, k, wordList)
    ensures AllWords(r)
  {
    var digit := DigitValue(wordState[k]);
    r := wordList;
    if digit == 0 {
      if word[k] !in lettersInWord {
        r := InverseFilter(word[k], r);
      }
    } else if digit == 1 {
      var present := Filter(word[k], None, None, r);
      AllWordsFrom(present.words, r);
      r := WrongPositionFilter(word[k], k, present.words);
    } else if digit == 2 {
      var placed := Filter(word[k], Some(k), None, r);
      r := placed.words;
    }
    PositionStepMembers(word, wordState, lettersInWord, k, wordList);
    AllWordsFrom(r, wordList);
  }

  // ---------------------------------------------------------------------------
  // The repetition step

  /** The number of positions i < n holding c whose state is not '0'. */
  function NonGrayAt(word: string, state: string, c: char, n: nat): nat
    requires n <= |word| && n <= |state|
  {
    if n == 0 then 0
    else NonGrayAt(word, state, c, n - 1) + (if word[n - 1] == c && state[n - 1] != '0' then 1 else 0)
  }

  /** The letters the guess repeats (the keys of repeatedChars). */
  function RepeatedLetters(word: string): set<char> {
    set c | c in word && Count(word, c) > 1
  }

  /** word_state_repetition_filter's conditions: each repeated letter occurs once per
      non-gray position holding it, exactly so when one of its positions is gray,
      at least so otherwise. */
  function RepeatCriterion(word: string, state: string): Criterion
    requires IsWord(word) && |state| >= 5
  {
    var letters := RepeatedLetters(word);
    EachCount(letters,
              map c | c in letters :: NonGrayAt(word, state, c, 5),
              map c | c in letters :: Count(word, c) - NonGrayAt(word, state, c, 5) != 0)
  }

  /** The scan of the five positions for one repeated letter: each non-gray
      position holding it moves one unit from `remaining` to `seen`. */
  method TallyLetter(word: string, wordState: string, ch: char, remaining: int, seen: int)
    returns (remaining': int, seen': int)
    requires |word| >= 5 && |wordState| >= 5
    ensures seen' == seen + NonGrayAt(word, wordState, ch, 5)
    ensures remaining' == remaining - NonGrayAt(word, wordState, ch, 5)
  {
    remaining', seen' := remaining, seen;
    for i := 0 to 5
      invariant seen' == seen + NonGrayAt(word, wordState, ch, i)
      invariant remaining' == remaining - NonGrayAt(word, wordState, ch, i)
    {
      if word[i] == ch && wordState[i] != '0' {
        remaining' := remaining' - 1;
        seen' := seen' + 1;
      }
    }
  }

  /** Step 1 of word_state_repetition_filter: for each repeated letter, the number
      of its non-gray positions (charRepetitions) and of its gray ones
      (repeatedChars, counted down from the letter's count). */
  method TallyRepetitions(word: string, wordState: string)
    returns (repeatedChars: map<char, int>, charRepetitions: map<char, int>)
    requires IsWord(word) && |wordState| >= 5
    ensures forall c :: ((c in repeatedChars <==> c in RepeatedLetters(word)) &&
                         (c in charRepetitions <==> c in RepeatedLetters(word)))
    ensures forall c :: c in RepeatedLetters(word) ==>
      charRepetitions[c] == NonGrayAt(word, wordState, c, 5) &&
      repeatedChars[c] == Count(word, c) - NonGrayAt(word, wordState, c, 5)
  {
    repeatedChars := map c | c in word && Count(word, c) > 1 :: Count(word, c);
    charRepetitions := map c | c in repeatedChars :: 0;
    ghost var letters := repeatedChars.Keys;
    assert letters == RepeatedLetters(word);
    var pending := repeatedChars.Keys;
    while pending != {}
      invariant pending <= letters
      invariant forall c :: (c in repeatedChars <==> c in letters) && (c in charRepetitions <==> c in letters)
      invariant forall c :: c in letters ==>
        if c in pending then charRepetitions[c] == 0 && repeatedChars[c] == Count(word, c)
        else charRepetitions[c] == NonGrayAt(word, wordState, c, 5) &&
             repeatedChars[c] == Count(word, c) - NonGrayAt(word, wordState, c, 5)
      decreases |pending|
    {
      var ch :| ch in pending;
      // the two entries for ch, counted down and up across the five positions
      var remaining, seen := TallyLetter(word, wordState, ch, repeatedChars[ch], charRepetitions[ch]);
      repeatedChars := repeatedChars[ch := remaining];
      charRepetitions := charRepetitions[ch := seen];
      pending := pending - {ch};
    }
  }

  method WordStateRepetitionFilter(word: string, wordState: string, wordList: seq<string>)
    returns (r: seq<string>)
    requires IsWord(word) && |wordState| >= 5
    ensures r == Select(wordList, RepeatCriterion(word, wordState))
  {
    var repeatedChars, charRepetitions := TallyRepetitions(word, wordState);
    ghost var letters := repeatedChars.Keys;
    ghost var crit := RepeatCriterion(word, wordState);
    assert crit.letters == letters;
    assert forall c :: c in letters ==>
      crit.marked[c] == charRepetitions[c] && crit.exact[c] == (repeatedChars[c] != 0);
    r := wordList;
    SelectAll(wordList, EachCount({}, crit.marked, crit.exact));
    var todo := repeatedChars.Keys;
    assert letters - todo == {};
    while todo != {}
      invariant todo <= letters
      invariant r == Select(wordList, EachCount(letters - todo, crit.marked, crit.exact))
      decreases |todo|
    {
      var ch :| ch in todo;
      ghost var done := letters - todo;
      ghost var one := if crit.exact[ch] then CountIs(ch, crit.marked[ch]) else CountAtLeast(ch, crit.marked[ch]);
      assert crit.marked[ch] == charRepetitions[ch] && crit.exact[ch] == (repeatedChars[ch] != 0);
      ghost var prev := r;
      r := RepetitionFilter(ch, charRepetitions[ch], r, repeatedChars[ch] != 0);
      assert r == Select(prev, one);
      RemoveOne(letters, todo, ch);
      todo := todo - {ch};
      EachCountAdd(done, ch, crit.marked, crit.exact, one);
      SelectTwice(wordList, EachCount(done, crit.marked, crit.exact), one,
                  EachCount(done + {ch}, crit.marked, crit.exact));
    }
    assert letters - todo == crit.letters;
  }

  lemma RemoveOne(all: set<char>, todo: set<char>, c: char)
    requires todo <= all && c in todo
    ensures all - (todo - {c}) == (all - todo) + {c}
  {
  }

  /** One more letter in an EachCount criterion is one more repetition_filter. */
  lemma EachCountAdd(done: set<char>, c: char, reps: map<char, int>, exact: map<char, bool>, one: Criterion)
    requires c in reps && c in exact
    requires one == if exact[c] then CountIs(c, reps[c]) else CountAtLeast(c, reps[c])
    ensures forall w :: Satisfies(w, EachCount(done + {c}, reps, exact)) <==>
      Satisfies(w, EachCount(done, reps, exact)) && Satisfies(w, one)
  {
  }

  // ---------------------------------------------------------------------------
  // gameFilter

  /** `len(set(list(word))) != len(word)` */
  predicate HasRepeatedLetter(word: string) {
    |set c | c in word| != |word|
  }

  /** The list gameFilter returns. */
  function GameFiltered(word: string, state: string, list: seq<string>): seq<string>
    requires IsWord(word) && IsDigitState(state)
  {
    var positioned := PositionsUpTo(word, state, list, 5);
    if HasRepeatedLetter(word) then Select(positioned, RepeatCriterion(word, state)) else positioned
  }

  /** gameFilter. Reading the five digits comes first: a state shorter than five
      characters (IndexError) or with a character `int` rejects (ValueError)
      raises before any filtering, modelled as None. */
  method GameFilter(word: string, wordState: string, wordList: seq<string>) returns (r: Option<seq<string>>)
    requires IsWord(word) && AllWords(wordList)
    ensures r.None? <==> !IsDigitState(wordState)
    ensures r.Some? ==> r.value == GameFiltered(word, wordState, wordList)
  {
    if |wordState| < 5 {
      return None;
    }
    for k := 0 to 5
      invariant forall i :: 0 <= i < k ==> IsDigit(wordState[i])
    {
      if !IsDigit(wordState[k]) {
        return None;
      }
    }
    var lettersInWord := LettersInWord(word, wordState);
    var list := ApplyPosition(word, wordState, lettersInWord, 0, wordList);
    assert list == PositionsUpTo(word, wordState, wordList, 1);
    list := ApplyPosition(word, wordState, lettersInWord, 1, list);
    assert list == PositionsUpTo(word, wordState, wordList, 2);
    list := ApplyPosition(word, wordState, lettersInWord, 2, list);
    assert list == PositionsUpTo(word, wordState, wordList, 3);
    list := ApplyPosition(word, wordState, lettersInWord, 3, list);
    assert list == PositionsUpTo(word, wordState, wordList, 4);
    list := ApplyPosition(word, wordState, lettersInWord, 4, list);
    assert list == PositionsUpTo(word, wordState, wordList, 5);
    if HasRepeatedLetter(word) {
      list := WordStateRepetitionFilter(word, wordState, list);
    }
    return Some(list);
  }

  // ---------------------------------------------------------------------------
  // Properties of gameFilter

  /** The words gameFilter keeps are exactly those of the input passing all five
      positional steps and, for a guess with a repeated letter, the count checks. */
  lemma GameFilteredMembers(word: string, state: string, list: seq<string>)
    requires IsWord(word) && IsDigitState(state)
    ensures forall w :: w in GameFiltered(word, state, list) <==>
      && w in list
      && (forall k :: 0 <= k < 5 ==> StepHolds(word, state, LettersInWord(word, state), k, w))
      && (HasRepeatedLetter(word) ==> Satisfies(w, RepeatCriterion(word, state)))
    ensures Sublist(GameFiltered(word, state, list), list)
  {
    var positioned := PositionsUpTo(word, state, list, 5);
    PositionsUpToMembers(word, state, list, 5);
    if HasRepeatedLetter(word) {
      SelectMembers(positioned, RepeatCriterion(word, state));
      SelectSublist(positioned, RepeatCriterion(word, state));
      SublistTransitive(GameFiltered(word, state, list), positioned, list);
    }
  }

  /** The state only ever shrinks the list. */
  lemma GameFilterShrinks(word: string, state: string, list: seq<string>)
    requires IsWord(word) && IsDigitState(state)
    ensures Sublist(GameFiltered(word, state, list), list)
    ensures |GameFiltered(word, state, list)| <= |list|
  {
    GameFilteredMembers(word, state, list);
    SublistMembers(GameFiltered(word, state, list), list);
  }

  /** A '2' at position i fixes the letter there; a '1' requires the letter elsewhere;
      a '0' on a letter no 1 or 2 vouches for excludes it. */
  lemma GameFilterPositions(word: string, state: string, list: seq<string>, w: string, i: nat)
    requires IsWord(word) && IsDigitState(state) && IsWord(w) && i < 5
    requires w in GameFiltered(word, state, list)
    ensures state[i] == '2' ==> w[i] == word[i]
    ensures state[i] == '1' ==> w[i] != word[i] && word[i] in w
    ensures state[i] == '0' && (forall j :: 0 <= j < 5 && Known(state[j]) ==> word[j] != word[i]) ==>
      word[i] !in w
  {
    GameFilteredMembers(word, state, list);
    assert StepHolds(word, state, LettersInWord(word, state), i, w);
    LettersUpToMembers(word, state, 5);
  }

  /** With state digits that are the colours of a real guess (state[i] != '0' exactly
      where it is marked G or Y), the non-gray tally is the feedback's G/Y tally. */
  lemma {:induction false} NonGrayIsCounted(g: string, colors: string, c: char, n: nat)
    requires |g| == 5 && |colors| == 5 && n <= 5
    requires forall i :: 0 <= i < 5 ==> IsMark(colors[i])
    ensures NonGrayAt(g, ColorsToDigits(colors), c, n) == CountedAt(g, colors, c, n)
  {
    if n > 0 {
      NonGrayIsCounted(g, colors, c, n - 1);
      assert ColorsToDigits(colors)[n - 1] == DigitOfMark(colors[n - 1]);
    }
  }

  /** The digit form of the true answer's feedback passes every positional step. */
  lemma FeedbackPassesSteps(guess: string, answer: string)
    requires IsWord(guess) && IsWord(answer)
    ensures IsDigitState(ColorsToDigits(Feedback(guess, answer)))
    ensures forall k :: 0 <= k < 5 ==> StepHolds(guess, ColorsToDigits(Feedback(guess, answer)),
      LettersInWord(guess, ColorsToDigits(Feedback(guess, answer))), k, answer)
  {
    var colors := Feedback(guess, answer);
    var state := ColorsToDigits(colors);
    FeedbackStateValid(guess, answer);
    FeedbackShape(guess, answer);
    assert forall i :: 0 <= i < 5 ==> state[i] == DigitOfMark(colors[i]);
    var letters := LettersInWord(guess, state);
    LettersUpToMembers(guess, state, 5);
    forall k | 0 <= k < 5
      ensures StepHolds(guess, state, letters, k, answer)
    {
      if colors[k] == 'Y' {
        FeedbackPresent(guess, answer, k);
      } else if colors[k] == 'B' {
        if guess[k] !in letters {
          FeedbackMiss(guess, answer, k);
          if MarkedCount(guess, colors, guess[k]) > 0 {
            MarkedSomewhere(guess, colors, guess[k]);
          }
        }
      }
    }
  }

  /** ... and, for a guess with a repeated letter, every count check. */
  lemma FeedbackPassesRepeats(guess: string, answer: string)
    requires IsWord(guess) && IsWord(answer)
    ensures IsDigitState(ColorsToDigits(Feedback(guess, answer)))
    ensures HasRepeatedLetter(guess) ==>
      Satisfies(answer, RepeatCriterion(guess, ColorsToDigits(Feedback(guess, answer))))
  {
    var colors := Feedback(guess, answer);
    var state := ColorsToDigits(colors);
    FeedbackStateValid(guess, answer);
    FeedbackShape(guess, answer);
    if HasRepeatedLetter(guess) {
      var crit := RepeatCriterion(guess, state);
      forall c | c in RepeatedLetters(guess)
        ensures RepeatFits(answer, crit.marked, crit.exact, c)
      {
        NonGrayIsCounted(guess, colors, c, 5);
        FeedbackMarkedCount(guess, answer, c);
        if crit.exact[c] {
          assert guess[..5] == guess;
          if forall j :: 0 <= j < 5 && guess[j] == c ==> Counted(colors[j]) {
            CountedAtAll(guess, colors, c, 5);
          }
          var j :| 0 <= j < 5 && guess[j] == c && !Counted(colors[j]);
          FeedbackMiss(guess, answer, j);
        }
      }
    }
  }

  /** Soundness: feeding gameFilter the digit form of the true answer's feedback
      never removes the answer. */
  lemma GameFilterSound(guess: string, answer: string, list: seq<string>)
    requires IsWord(guess) && IsWord(answer) && answer in list
    ensures ValidState(ColorsToDigits(Feedback(guess, answer)))
    ensures answer in GameFiltered(guess, ColorsToDigits(Feedback(guess, answer)), list)
  {
    FeedbackStateValid(guess, answer);
    FeedbackPassesSteps(guess, answer);
    FeedbackPassesRepeats(guess, answer);
    GameFilteredMembers(guess, ColorsToDigits(Feedback(guess, answer)), list);
  }
}
