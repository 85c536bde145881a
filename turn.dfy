/** The guess rule of a game (main.py test_highestFrequency): "salet" first; then
    the only candidate left, the minimax guess for a blimp, or the best
    letter-frequency word. */
module Turn {
  import opened Words
  import opened Coloring
  import opened Candidates
  import opened Frequency
  import opened Blimp
  import opened Minimax

  /** What a turn does: guess a word, stop because no candidate is left, or raise
      (getMaxValue1's KeyError on a candidate with a character outside a-z). */
  datatype Decision = Guess(word: string) | NoCandidates | Raises

  /** The decision of turn `turn` (1 to 6) over the remaining candidates `pool`;
      `order` is the iteration order of blimpSearch's candidate set. */
  function NextGuess(turn: nat, pool: seq<string>, order: seq<string>): Decision
    requires 1 <= turn <= 6 && AllWords(pool) && AllWords(order)
  {
    if turn == 1 then Guess(Opening)
    else if |pool| == 0 then NoCandidates
    else if |pool| == 1 then Guess(pool[0])
    else if Blimp.Blimp(pool) then Guess(BlimpChoice(pool, order))
    else match MaxValue1(pool)
      case None => Raises
      case Some(w) => Guess(w)
  }

  /** A turn stops only when, after the first, no candidate is left, and raises only
      outside the blimp case when some candidate has a character outside a-z.
      Otherwise it guesses a five-letter word: the opening, a candidate, or (for a
      blimp) an allowed word; and outside the blimp case always a candidate. */
  lemma NextGuessShape(turn: nat, pool: seq<string>, allowed: seq<string>, order: seq<string>)
    requires 1 <= turn <= 6 && AllWords(pool) && AllWords(allowed) && AllWords(order)
    requires forall w :: w in order <==> w in allowed || w in pool
    ensures NextGuess(turn, pool, order).NoCandidates? <==> turn > 1 && |pool| == 0
    ensures NextGuess(turn, pool, order).Raises? <==>
      turn > 1 && |pool| > 1 && !Blimp.Blimp(pool) && exists w :: w in pool && !InAlphabet(w)
    ensures NextGuess(turn, pool, order).Guess? ==> IsWord(NextGuess(turn, pool, order).word)
    ensures turn == 1 ==> NextGuess(turn, pool, order) == Guess(Opening)
    ensures (turn > 1 && NextGuess(turn, pool, order).Guess?) ==>
      NextGuess(turn, pool, order).word in pool || NextGuess(turn, pool, order).word in allowed
    ensures (turn > 1 && |pool| > 0 && !Blimp.Blimp(pool) && NextGuess(turn, pool, order).Guess?) ==>
      NextGuess(turn, pool, order).word in pool
  {
    if turn > 1 && |pool| > 1 {
      if Blimp.Blimp(pool) {
        BlimpChoiceOptimal(pool, allowed, order);
      } else if MaxValue1(pool).Some? {
        var r := MaxValue1(pool).value;
        assert r in pool;
        assert exists i :: 0 <= i < |pool| && pool[i] == r;
      }
    }
  }

  /** Lower-case candidates never make a turn raise. */
  lemma LowerCaseNeverRaises(turn: nat, pool: seq<string>, order: seq<string>)
    requires 1 <= turn <= 6 && AllLowerWords(pool) && AllWords(order)
    ensures AllWords(pool)
    ensures !NextGuess(turn, pool, order).Raises?
  {
    assert forall i :: 0 <= i < |pool| ==> pool[i] in pool;
  }

  /** With one candidate left (the answer), the next guess solves the game. */
  lemma LastCandidateSolves(turn: nat, answer: string, order: seq<string>)
    requires 1 < turn <= 6 && IsWord(answer) && AllWords(order)
    ensures NextGuess(turn, [answer], order) == Guess(answer)
    ensures Feedback(answer, answer) == "GGGGG"
  {
    FeedbackSolved(answer, answer);
  }

  /** When the answer is among the candidates and the guess is a candidate too,
      either the guess is the answer (all green) or filtering by its feedback keeps
      the answer and leaves strictly fewer candidates. */
  lemma GuessProgress(turn: nat, pool: seq<string>, order: seq<string>, answer: string)
    requires 1 < turn <= 6 && AllWords(pool) && AllWords(order)
    requires answer in pool
    requires NextGuess(turn, pool, order).Guess? && NextGuess(turn, pool, order).word in pool
    ensures var g := NextGuess(turn, pool, order).word;
      if g == answer then Feedback(g, answer) == "GGGGG"
      else answer in Survivors(pool, g, answer) && |Survivors(pool, g, answer)| < |pool|
  {
    var g := NextGuess(turn, pool, order).word;
    assert IsWord(g) && IsWord(answer) by {
      assert exists i :: 0 <= i < |pool| && pool[i] == g;
      assert exists i :: 0 <= i < |pool| && pool[i] == answer;
    }
    if g == answer {
      FeedbackSolved(g, answer);
    } else {
      SurvivorsProgress(pool, g, answer);
    }
  }

  /** The turn, computed with the engine's methods. */
  method TakeTurn(turn: nat, currentAvailableWords: seq<string>, wordsAllowed: seq<string>,
                  candidateGuesses: seq<string>)
    returns (d: Decision)
    requires 1 <= turn <= 6 && AllWords(currentAvailableWords) && AllWords(wordsAllowed)
    requires AllWords(candidateGuesses)
    requires forall w :: w in candidateGuesses <==> w in wordsAllowed || w in currentAvailableWords
    requires forall i, j :: 0 <= i < j < |candidateGuesses| ==> candidateGuesses[i] != candidateGuesses[j]
    ensures d == NextGuess(turn, currentAvailableWords, candidateGuesses)
  {
    if turn == 1 {
      return Guess(Opening);
    }
    if |currentAvailableWords| == 0 {
      return NoCandidates;
    }
    if |currentAvailableWords| == 1 {
      return Guess(currentAvailableWords[0]);
    }
    var blimp := IsBlimp(currentAvailableWords);
    if blimp {
      var guessWord := BlimpSearch(currentAvailableWords, wordsAllowed, candidateGuesses);
      return Guess(guessWord);
    }
    var best := GetMaxValue1(currentAvailableWords);
    match best {
      case None => return Raises;
      case Some(w) => return Guess(w);
    }
  }
}
