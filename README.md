# Wordle guess engine: a Dafny model

This project models the guess-selection engine of a Wordle solver (`main.py`).
Given a hidden five-letter answer, the engine does the following:

- it colours each guess the way Wordle does (`get_guess_colors`, G/Y/B with
  duplicate letters handled), and renders the colours as emoji;
- it narrows the list of possible answers from a guess and its colours
  (`filter_words`), or from a guess and a digit "word state" typed by the
  player (`gameFilter`, built from `filter`, `inverseFilter`,
  `wrongPositionFilter`, `repetition_filter` and
  `word_state_repetition_filter`);
- it picks the next guess. The first guess is always "salet". After that it
  takes the only candidate left. When the candidates form a "blimp"
  (`isBlimp`: a small list of near-identical words) it runs a minimax search
  over all allowed words (`blimpSearch`). Otherwise it takes the word with the
  highest letter-frequency value (`getMaxValue1`, `get_word_value`,
  `get_letter_dictionary`). `getBlimpMax` is the frequency variant that skips
  a given set of letters;
- a deeper scorer exists too. It enumerates all 243 colourings of a word
  (`get_word_value2`) and counts which answers share a filtered list
  (`get_list_matches`). `chunks` splits a list for worker threads.

Modules, in dependency order:

- `Words` (words.dfy): five-letter words, letter counts, and `Sublist` (an
  order-preserving sub-sequence).
- `Coloring` (feedback.dfy): the two-pass colouring, its properties, and the
  emoji rendering.
- `Selection` (selection.dfy): one `Criterion` datatype for every filter's
  keep-condition, and `Select`, the order-preserving filter over it.
- `Primitives` (primitives.dfy): `filter`, `inverseFilter`,
  `wrongPositionFilter` and `repetition_filter`, as methods proved equal to
  `Select` with their criterion.
- `Candidates` (candidates.dfy): `filter_words`. `Survivors` is its
  specification.
- `GameState` (gamestate.dfy): `validState`, `word_state_repetition_filter`
  and `gameFilter`.
- `Frequency` (frequency.dfy): the letter dictionary, word values,
  `getMaxValue1` and `getBlimpMax`.
- `Blimp` (blimp.dfy): `isBlimp`.
- `Minimax` (minimax.dfy): `blimpSearch`.
- `DeepSearch` (deepsearch.dfy): `get_list_matches`, `get_word_value2` and
  `chunks`.
- `Turn` (turn.dfy): the rule that picks each turn's guess.

Python's loops are methods with loop invariants. Each method is proved equal to
a recursive specification function, and the properties are lemmas about those
functions.

Global state and file input become parameters:

- the allowed-word list `wordsAllowed`;
- the iteration order of `list(set(wordsAllowed + wordList))`, which Python
  does not fix. It is an argument that must list each candidate exactly once,
  so results about the minimax search hold for every order.

Three quirks of `get_word_value2` are modelled as written:

- a fifth letter in state 1 applies the wrong-position filter to the fourth
  letter at index 3 (main.py:395);
- `lettersInWord` is never reset between the 243 states (main.py:345);
- a first letter in state 0 is always inverse-filtered (main.py:351-352).

## Model

| member | source | states |
|---|---|---|
| Coloring.GetGuessColors | main.py:782-811 | The two-pass colouring: "Error" unless both words have five letters. Otherwise greens first, then yellows that take the first unused matching target letter, and B for the rest. |
| Coloring.FeedbackShape | main.py:789-811 | The result is "Error" exactly for malformed inputs. Otherwise it has five marks over G/Y/B, and G appears exactly where guess and target agree. |
| Coloring.FeedbackSolved | main.py:796-800 | The feedback is all green if and only if the guess is the target. |
| Coloring.FeedbackPresent | main.py:802-807 | A yellow letter is in the target but not at that position. |
| Coloring.FeedbackMarkedCount | main.py:795-809 | For each letter, the number of G/Y marks equals the smaller of its count in the guess and its count in the target. |
| Coloring.FeedbackMiss | main.py:808-809 | A black letter means every occurrence of that letter in the target is already matched by a G/Y mark. |
| Coloring.FormatColorsToEmoji | main.py:813-817 | Keeps the length. B, G and Y become the gray, green and yellow squares, and every other character is kept unchanged (the `.get(char, char)` default). |
| Coloring.EmojiRoundTrip | main.py:813-817 | The emoji rendering keeps the length and can be inverted on colour strings that contain no square characters. |
| Selection.SelectMembers | main.py:45-182 | A filter keeps exactly the words of the list that meet its condition. |
| Selection.SelectSublist | main.py:45-182 | A filter keeps the words in their original order. |
| Selection.SelectIdempotent | main.py:45-182 | Filtering twice by the same condition changes nothing more. |
| Primitives.RepetitionFilter | main.py:45-55 | Keeps, in order, exactly the words whose count of the letter equals n (exact) or is at least n. |
| Primitives.Filter | main.py:137-158 | An integer position outside 0..4 gives the error. Otherwise it keeps, in order, the words with the letter at that position (and the given count, if any), or containing it with that count, or containing it. |
| Primitives.InverseFilter | main.py:160-170 | Keeps, in order, exactly the words without the letter. |
| Primitives.WrongPositionFilter | main.py:172-182 | Keeps, in order, exactly the words whose letter at the index differs from the given one. |
| Candidates.BuildTables | main.py:68-86 | Builds the min-count and exact-count tables as the loop over the guess's positions does. |
| Candidates.TablesMeaning | main.py:68-86 | A letter has a minimum if and only if it has a G/Y mark, and the minimum is its number of G/Y marks. It has an exact count if and only if it is also marked B at some position. |
| Candidates.PositionsFit | main.py:92-117 | The word passes the per-position checks for G, Y and unknown-letter B if and only if every position fits. |
| Candidates.CountsFit | main.py:122-130 | The word passes the count checks if and only if every letter's count matches its exact count, or reaches its minimum where no exact count is known. |
| Candidates.FilterWords | main.py:57-134 | filter_words returns `Survivors`: the list's words, in order, that are consistent with the guess's feedback against the answer. |
| Candidates.SurvivorsSublist | main.py:57-134 | The survivors are an order-preserving sub-list of the input and no longer than it. |
| Candidates.SurvivorsIdempotent | main.py:57-134 | Filtering the survivors again by the same guess and answer changes nothing. |
| Candidates.AnswerFits | main.py:57-134 | The answer is always consistent with the feedback of any guess against it. |
| Candidates.SurvivorsSound | main.py:57-134 | If the answer is in the list, it survives. |
| Candidates.SurvivorsOfMalformedAnswer | main.py:789-790 | An answer that is not five letters long yields "Error", which filters nothing. |
| Candidates.GuessEliminated | main.py:57-134 | A guess other than the answer is inconsistent with its own feedback. |
| Candidates.SurvivorsProgress | main.py:57-134 | A wrong guess from the list is removed while the answer stays, so the list strictly shrinks. |
| GameState.ValidState | main.py:629-639 | validState. A valid state has exactly five characters, each of which gameFilter can read as a digit. |
| GameState.ValidStateDigits | main.py:629-639 | A state is valid if and only if it has five characters, each of them 0, 1 or 2. |
| GameState.FeedbackStateValid | main.py:629-639 | The digit form of any guess's colouring is a valid state. |
| GameState.ApplyPosition | main.py:506-543 | One position's step of gameFilter: inverse, wrong-position plus presence, or exact-position filtering, chosen by its digit. |
| GameState.TallyLetter | main.py:188-192 | One repeated letter's pass over the five positions: it counts the letter's occurrences whose state character is not "0", subtracting them from the remaining count and adding them to the seen count. |
| GameState.TallyRepetitions | main.py:186-192 | The repeated letters are exactly the letters occurring more than once. For each, it gives the number of its occurrences whose state character is not "0", and the number of its other occurrences. |
| GameState.WordStateRepetitionFilter | main.py:184-195 | Keeps the words whose count of each repeated letter equals its number of non-"0" occurrences when some occurrence's state character is "0", and is at least that number otherwise. |
| GameState.GameFilter | main.py:500-549 | None (the IndexError or ValueError of `int(wordState[k])`) if and only if the state is shorter than five characters or one of its first five is not a digit. Otherwise it returns `GameFiltered`: the five position steps, then the repetition filter for words with a repeated letter. |
| GameState.GameFilteredMembers | main.py:500-549 | A word survives if and only if it is in the list and passes every position step and, for repeated letters, the repetition criterion. It stays in order. |
| GameState.GameFilterShrinks | main.py:500-549 | The result is an order-preserving sub-list, no longer than the input. |
| GameState.GameFilterPositions | main.py:512-543 | A kept word has the letter at a 2 position, and has the letter elsewhere than at a 1 position. It lacks a 0 letter that is not known elsewhere in the guess. |
| GameState.GameFilterSound | main.py:500-549 | With the state read off the real colouring, the answer always survives gameFilter. |
| Frequency.CountLetters | main.py:27-32 | One word's letters counted into the dictionary: the same keys, each value increased by the letter's count in the word, and characters without a key skipped. |
| Frequency.GetLetterDictionary | main.py:22-33 | Keys are exactly the 26 lower-case letters, with each value the letter's total count over the list. Other characters are ignored. |
| Frequency.FrequenciesUnique | main.py:22-33 | Any dictionary with those keys and values is the letter dictionary. |
| Frequency.GetWordValue | main.py:197-204 | None (KeyError) if and only if some letter is neither counted nor a dictionary key. Otherwise it equals `WordValue`: the sum of the dictionary values of the word's distinct letters that are not among the counted letters. |
| Frequency.WordValueRepeat | main.py:197-204 | Appending letters already seen or already counted leaves the value unchanged. |
| Frequency.WordValues | main.py:461 | The dictionary comprehension: None (KeyError) if and only if some word has no value, otherwise every word's value in list order. |
| Frequency.MaxIndex | main.py:465 | `max(..., key=...)`: the index of the first greatest value. |
| Frequency.MaxValue1 | main.py:458-465 | An empty list gives "salet". If some word has a character outside a-z the result is None (KeyError). Otherwise it is a word of the list with the greatest frequency value, and the first such word. |
| Frequency.GetMaxValue1 | main.py:458-465 | getMaxValue1 computes `MaxValue1`. |
| Frequency.BlimpMax | main.py:263-266 | None (the call raises) if and only if there are no candidate words (ValueError of `max`), or some candidate has a letter that is neither common nor a key (KeyError). Otherwise it is the first word with the greatest value, with the common letters excluded. |
| Frequency.GetBlimpMax | main.py:263-266 | getBlimpMax computes `BlimpMax`. |
| Blimp.FixedUpToMeaning | main.py:219-232 | The fixed-position count reaches one or two if and only if that many positions hold the same letter in every word. |
| Blimp.IsBlimp | main.py:207-260 | isBlimp computes `Blimp`: the size gate, then two fixed positions, the two-word cut-off, and the shared-letter tally with threshold floor(n/2). |
| Blimp.BlimpSizeGate | main.py:214-215 | Lists of fewer than 2 or more than 15 words are never blimps. |
| Blimp.BlimpFixed | main.py:219-235 | Two positions fixed across a list of 2 to 15 words make it a blimp. |
| Blimp.BlimpPair | main.py:233-239 | A two-word list is a blimp if and only if the words agree at two positions. |
| Blimp.BlimpWitness | main.py:207-260 | A blimp has two fixed positions, or two different words sharing at least three letters. |
| Blimp.BlimpSimilarPair | main.py:240-258 | For three to five words (threshold at most two), two different words sharing at least three letters make a blimp. The pair is met in both orders, so the key stored as 1 on the first meeting reaches the threshold on the second. |
| Blimp.RotationIsBlimp | main.py:240-258 | "abcde, cdeab, xyzwv" has no fixed position but is a blimp through its one similar pair. |
| Blimp.MammyIsBlimp | main.py:217-235 | The "mammy, mangy, manly, mardy" list is a blimp. |
| Minimax.OutcomeBounds | main.py:297-299 | Each simulated outcome size lies between 1 and the list's length. |
| Minimax.WorstMeaning | main.py:296-303 | A candidate's worst case is the largest outcome size over the possible answers, and some answer attains it. |
| Minimax.PruneSafe | main.py:305-312 | Once a prefix's maximum exceeds the bound, the full worst case does too, so stopping early loses no better candidate. |
| Minimax.SimulateCandidate | main.py:291-308 | The inner loop returns the maximum over the answers it scanned. When that maximum does not exceed the bound, it scanned them all and returns the true worst case with all outcome sizes. |
| Minimax.ScoreCandidate | main.py:291-333 | One candidate's scoring updates the search state exactly as `Consider` does with its worst case and outcome sum. |
| Minimax.BlimpSearch | main.py:269-340 | blimpSearch computes `BlimpChoice` for the given candidate order. |
| Minimax.BlimpChoiceOptimal | main.py:269-340 | The choice is an allowed word or a candidate with the least worst case. Among those it has the least sum (that is, average) of outcomes, and it is a possible answer whenever a fully tied candidate is one. |
| Minimax.FallbackUnreachable | main.py:335-338 | For a non-empty list, a guess is always chosen, so the fallback never fires. |
| DeepSearch.ListMatchesBounds | main.py:415-425 | The match count is at most the list's length, and positive if and only if some answer reproduces the focused list. |
| DeepSearch.GetListMatches | main.py:415-425 | get_list_matches counts the answers of the main list whose filter_words result equals the focused list. |
| DeepSearch.DigitsOf | main.py:346-350 | State number 81a+27b+9c+3d+e stands for the nested-loop digits (a, b, c, d, e), in loop order. |
| DeepSearch.StateStringKnown | main.py:397 | The state string is valid, and a position is 1 or 2 exactly where its digit is nonzero. |
| DeepSearch.LetterStepMeaning | main.py:351-395 | One letter's step keeps exactly the words passing its filter (including both quirks) and appends the letter when its digit is nonzero. |
| DeepSearch.ApplyLetter | main.py:351-395 | One letter's step, computed as `LetterStep`. |
| DeepSearch.ApplySteps | main.py:351-395 | The five letter steps of one state, in order. |
| DeepSearch.ApplyState | main.py:351-400 | The full filtering of one state, including the repetition filter for words with repeated letters. |
| DeepSearch.StateOutcomeShrinks | main.py:351-400 | A state's filtering keeps an order-preserving sub-list and adds that state's known letters to `lettersInWord`. |
| DeepSearch.LettersCarryOver | main.py:345-359 | Because `lettersInWord` is never reset, once an earlier state marked letter k, state 0 of letter k skips its inverse filter. |
| DeepSearch.RecordState | main.py:397-405 | One state's filtering, then an appended term for the resulting lengths exactly when the filtered list is non-empty, with `lettersInWord` carried on. |
| DeepSearch.GetWordValue2 | main.py:342-413 | get_word_value2 computes `WordValue2` (its numerator) over the 243 states in loop order. |
| DeepSearch.WordValue2Meaning | main.py:342-413 | The result is "unreachable" (Python's 1) if and only if every state filters to nothing. Otherwise the numerator is at most 0. |
| DeepSearch.Chunks | main.py:441-444 | None for n == 0 (`range` raises ValueError), no chunks for n < 0, and otherwise ceiling(len / n) chunks of 1 to n elements that join back into the list. |
| DeepSearch.ChunksOfFlatten | main.py:441-444 | Joining the chunks gives the list back. |
| DeepSearch.ChunksOfSizes | main.py:441-444 | Every chunk has 1 to n elements, and all but the last have exactly n. |
| DeepSearch.ChunksOfCount | main.py:441-444 | There are ceiling(len / n) chunks. |
| Turn.TakeTurn | main.py:677-710 | A turn's decision, computed with isBlimp, blimpSearch and getMaxValue1, equals `NextGuess`. |
| Turn.NextGuessShape | main.py:677-710 | The game stops only when no candidate is left after turn 1. It raises (getMaxValue1's KeyError) exactly outside the blimp case, with two or more candidates, one of them holding a character outside a-z. Every guess is a five-letter word: "salet", a candidate, or an allowed word from blimpSearch. Outside the blimp case it is a candidate. |
| Turn.LowerCaseNeverRaises | main.py:702-710 | With lower-case candidates, a turn never raises. |
| Turn.LastCandidateSolves | main.py:702-703 | With only the answer left, the guess is the answer and its feedback is all green. |
| Turn.GuessProgress | main.py:702-716 | A candidate guess either is the answer (all green) or keeps the answer and strictly shrinks the candidate list. |

## Left out

- File input (words.txt, wordsAllowed.txt), printing, the random choice of
  the answer, `gameSim`, `test_highestFrequency`'s bookkeeping,
  `test_MultiThreadedHRBFR2`, `game_data_avg` and the GUI are not modelled:
  they are I/O, timing or tallies, not guess selection.
- The threaded deep search is not modelled: `Thread`,
  `get_best_next_multithread`, `runMultithreadedHRBFR2` and
  `getMaxDeepSearch` are concurrency. The slicing bug at main.py:478 is
  therefore not modelled either; only `chunks` itself is.
- Floating point is not modelled. blimpSearch compares sums of outcome sizes
  instead of averages. Every non-pruned candidate's average has the same
  denominator, so the order is the same.
- DeepSearch.WordValue2 returns the integer numerator, not the float division
  by `len(reset_list)`.
- Minimax.BlimpSearch requires a non-empty word list, because Python divides
  by zero there: the average at main.py:315 is `sum / len` over an empty list.
- The `"none"` default of `wordList` (falling back to the global answer list)
  is not modelled: every caller in the engine passes a list explicitly.
- Python's `int()` accepts non-ASCII decimal digits. The model reads only the
  ASCII digits `0`-`9`: validState calls such a character invalid, and
  gameFilter returns None for it.
- Negative indices and non-word inputs are excluded by preconditions: the
  source promises nothing for words that are not five characters long.
- Frequency.WordValue and Frequency.Score are defined only where
  get_word_value returns a value. The KeyError is modelled by GetWordValue,
  WordValues, MaxValue1, BlimpMax and Turn.NextGuess, which return None or
  `Raises`.
- GameState.GameFiltered, GameState.PositionStep, GameState.PositionsUpTo,
  GameState.ApplyPosition and the lemmas about them require a digit state.
  Only GameState.GameFilter models the ValueError of `int(wordState[k])`. The
  engine's own callers pass digits: get_word_value2 builds its states from
  `range(3)`, and the game loop checks validState first.
- The sorted-letter string key of isBlimp's dictionary is modelled as the set
  of shared letters, which it determines one-to-one.
- Dictionary order in getMaxValue1 and getBlimpMax is modelled as first
  occurrence in the list, which is the insertion order Python keeps. A repeated
  word therefore keeps its first position.
- The five nested `range(3)` loops of get_word_value2 are one loop over the
  state numbers 0 to 242, in the same order (DeepSearch.DigitsOf).
- Some loop bodies are separate methods (TallyLetter, CountLetters,
  ApplyLetter, RecordState, PositionsFit, CountsFit, BuildTables,
  ScoreCandidate) that mirror them
  statement for statement.
