/** The candidate filter (main.py filter_words): recompute the colours of a
    guess against an answer, derive the per-letter minimum and exact counts,
    and keep the words consistent with all of it. */
module Candidates {
  import opened Words
  import opened Coloring
  import opened Selection

  /** min_counts and exact_counts. */
  datatype Tables = Tables(minCounts: map<char, int>, exactCounts: map<char, int>)

  function Max(a: int, b: int): int { if a >= b then a else b }

  /** `m.get(c, d)` */
  function GetOr(m: map<char, int>, c: char, d: int): int { if c in m then m[c] else d }

  /** The tables after the first k iterations of the table loop (main.py:72-86). */
  function TablesUpTo(g: string, colors: string, k: nat): Tables
    requires |g| == 5 && |colors| == 5 && k <= 5
  {
    if k == 0 then Tables(map[], map[])
    else
      var t := TablesUpTo(g, colors, k - 1);
      var c := g[k - 1];
      var gy := MarkedCount(g, colors, c);
      var mins := if gy > 0 then t.minCounts[c := Max(GetOr(t.minCounts, c, 0), gy)] else t.minCounts;
      var exacts := if colors[k - 1] == 'B' && c in mins then t.exactCounts[c := mins[c]] else t.exactCounts;
      Tables(mins, exacts)
  }

  /** A letter has a minimum count iff some guess position holding it is marked G
      or Y, and that minimum is its number of G/Y marks. */
  lemma {:induction false} TablesMinMeaning(g: string, colors: string, k: nat)
    requires |g| == 5 && |colors| == 5 && k <= 5
    ensures forall c :: c in TablesUpTo(g, colors, k).minCounts <==> c in g[..k] && MarkedCount(g, colors, c) > 0
    ensures forall c :: c in TablesUpTo(g, colors, k).minCounts ==>
      TablesUpTo(g, colors, k).minCounts[c] == MarkedCount(g, colors, c)
  {
    if k > 0 {
      TablesMinMeaning(g, colors, k - 1);
      assert g[..k] == g[..k - 1] + [g[k - 1]];
    }
  }

  /** The tables say what TablesMinMeaning states and, besides, a letter has an
      exact count iff it has a minimum and some position holding it is marked B;
      the exact count is then its number of G/Y marks. */
  lemma TablesMeaning(g: string, colors: string, k: nat)
    requires |g| == 5 && |colors| == 5 && k <= 5
    ensures forall c :: c in TablesUpTo(g, colors, k).minCounts <==> c in g[..k] && MarkedCount(g, colors, c) > 0
    ensures forall c :: c in TablesUpTo(g, colors, k).minCounts ==>
      TablesUpTo(g, colors, k).minCounts[c] == MarkedCount(g, colors, c)
    ensures forall c :: c in TablesUpTo(g, colors, k).exactCounts <==>
      (exists j :: 0 <= j < k && g[j] == c && colors[j] == 'B') && MarkedCount(g, colors, c) > 0
    ensures forall c :: c in TablesUpTo(g, colors, k).exactCounts ==>
      TablesUpTo(g, colors, k).exactCounts[c] == MarkedCount(g, colors, c)
  {
    TablesMinMeaning(g, colors, k);
    forall c
      ensures c in TablesUpTo(g, colors, k).exactCounts <==>
        (exists j :: 0 <= j < k && g[j] == c && colors[j] == 'B') && MarkedCount(g, colors, c) > 0
      ensures c in TablesUpTo(g, colors, k).exactCounts ==>
        TablesUpTo(g, colors, k).exactCounts[c] == MarkedCount(g, colors, c)
    {
      TablesExactAt(g, colors, k, c);
    }
  }

  /** The exact-count half of TablesMeaning, one letter at a time. */
  lemma {:induction false} TablesExactAt(g: string, colors: string, k: nat, c: char)
    requires |g| == 5 && |colors| == 5 && k <= 5
    ensures c in TablesUpTo(g, colors, k).exactCounts <==>
      (exists j :: 0 <= j < k && g[j] == c && colors[j] == 'B') && MarkedCount(g, colors, c) > 0
    ensures c in TablesUpTo(g, colors, k).exactCounts ==>
      TablesUpTo(g, colors, k).exactCounts[c] == MarkedCount(g, colors, c)
  {
    if k > 0 {
      TablesExactAt(g, colors, k - 1, c);
      TablesMinMeaning(g, colors, k);
      if g[k - 1] == c && colors[k - 1] == 'B' && MarkedCount(g, colors, c) > 0 {
        assert c in g[..k] by { assert g[..k][k - 1] == c; }
      }
    }
  }

  /** The criterion filter_words applies for a guess and an answer. */
  function FeedbackCriterion(g: string, answer: string): Criterion
    requires IsWord(g)
  {
    var colors := Feedback(g, answer);
    var t := TablesUpTo(g, colors, 5);
    Fits(g, colors, t.minCounts, t.exactCounts)
  }

  /** The list filter_words returns. */
  function Survivors(list: seq<string>, g: string, answer: string): seq<string>
    requires IsWord(g)
  {
    Select(list, FeedbackCriterion(g, answer))
  }

  /** The table loop of filter_words (main.py:72-86). */
  method BuildTables(guess: string, colors: string) returns (minCounts: map<char, int>, exactCounts: map<char, int>)
    requires |guess| == 5 && |colors| == 5
    ensures Tables(minCounts, exactCounts) == TablesUpTo(guess, colors, 5)
  {
    exactCounts, minCounts := map[], map[];
    for i := 0 to 5
      invariant Tables(minCounts, exactCounts) == TablesUpTo(guess, colors, i)
    {
      var c := guess[i];
      var gyCount := 0;
      for j := 0 to 5
        invariant gyCount == CountedAt(guess, colors, c, j)
      {
        if guess[j] == c && (colors[j] == 'G' || colors[j] == 'Y') {
          gyCount := gyCount + 1;
        }
      }
      if gyCount > 0 {
        minCounts := minCounts[c := Max(GetOr(minCounts, c, 0), gyCount)];
      }
      if colors[i] == 'B' && c in minCounts {
        exactCounts := exactCounts[c := minCounts[c]];
      }
    }
  }

  /** The positional checks of one word (main.py:94-119). */
  method PositionsFit(word: string, guess: string, colors: string, minCounts: map<char, int>)
    returns (valid: bool)
    requires IsWord(word) && |guess| == 5 && |colors| == 5
    ensures valid <==> forall p :: 0 <= p < 5 ==> PositionFits(word, guess, colors, minCounts, p)
  {
    valid := true;
    ghost var bad := 0;
    for i := 0 to 5
      invariant valid
      invariant forall p :: 0 <= p < i ==> PositionFits(word, guess, colors, minCounts, p)
    {
      var ch := guess[i];
      var color := colors[i];
      if color == 'G' {
        if word[i] != ch {
          valid, bad := false, i;
          break;
        }
      } else if color == 'Y' {
        if word[i] == ch || ch !in word {
          valid, bad := false, i;
          break;
        }
      } else if color == 'B' {
        if ch !in minCounts && ch in word {
          valid, bad := false, i;
          break;
        }
      }
    }
    assert !valid ==> 0 <= bad < 5 && !PositionFits(word, guess, colors, minCounts, bad);
  }

  /** The count checks of one word (main.py:122-129). */
  method CountsFit(word: string, minCounts: map<char, int>, exactCounts: map<char, int>)
    returns (valid: bool)
    ensures valid <==> forall ch :: ch in minCounts ==> CountFits(word, minCounts, exactCounts, ch)
  {
    valid := true;
    ghost var badLetter: char := 'a';
    var pending := minCounts.Keys;
    while pending != {}
      invariant pending <= minCounts.Keys
      invariant valid
      invariant forall ch :: ch in minCounts.Keys - pending ==> CountFits(word, minCounts, exactCounts, ch)
      decreases |pending|
    {
      var ch :| ch in pending;
      if ch in exactCounts {
        if Count(word, ch) != exactCounts[ch] {
          valid, badLetter := false, ch;
          break;
        }
      } else if Count(word, ch) < minCounts[ch] {
        valid, badLetter := false, ch;
        break;
      }
      pending := pending - {ch};
    }
    assert !valid ==> badLetter in minCounts && !CountFits(word, minCounts, exactCounts, badLetter);
  }

  method FilterWords(returnList: seq<string>, guess: string, answer: string) returns (r: seq<string>)
    requires IsWord(guess) && AllWords(returnList)
    ensures r == Survivors(returnList, guess, answer)
  {
    var currentList := returnList;
    var colors := GetGuessColors(guess, answer);
    var minCounts, exactCounts := BuildTables(guess, colors);
    ghost var k := Fits(guess, colors, minCounts, exactCounts);
    var tempList := [];
    for n := 0 to |currentList|
      invariant tempList == Select(currentList[..n], k)
    {
      assert currentList[..n + 1][..n] == currentList[..n];
      var word := currentList[n];
      assert word in returnList;
      var valid := PositionsFit(word, guess, colors, minCounts);
      if valid {
        valid := CountsFit(word, minCounts, exactCounts);
      }
      assert valid <==> Satisfies(word, k);
      if valid {
        tempList := tempList + [word];
      }
    }
    assert currentList[..|currentList|] == currentList;
    r := tempList;
  }

  // ---------------------------------------------------------------------------
  // Properties of the filter

  /** An order-preserving sublist of its input. */
  lemma SurvivorsSublist(list: seq<string>, g: string, answer: string)
    requires IsWord(g)
    ensures Sublist(Survivors(list, g, answer), list)
    ensures |Survivors(list, g, answer)| <= |list|
    ensures forall w :: w in Survivors(list, g, answer) ==> w in list
  {
    SelectSublist(list, FeedbackCriterion(g, answer));
    SublistMembers(Survivors(list, g, answer), list);
  }

  /** Filtering the result again with the same guess and answer changes nothing. */
  lemma SurvivorsIdempotent(list: seq<string>, g: string, answer: string)
    requires IsWord(g)
    ensures Survivors(Survivors(list, g, answer), g, answer) == Survivors(list, g, answer)
  {
    SelectIdempotent(list, FeedbackCriterion(g, answer));
  }

  /** The answer satisfies every condition derived from its own feedback. */
  lemma AnswerFits(g: string, answer: string)
    requires IsWord(g) && IsWord(answer)
    ensures Satisfies(answer, FeedbackCriterion(g, answer))
  {
    var colors := Feedback(g, answer);
    var t := TablesUpTo(g, colors, 5);
    FeedbackShape(g, answer);
    TablesMeaning(g, colors, 5);
    assert g[..5] == g;
    forall i | 0 <= i < 5
      ensures PositionFits(answer, g, colors, t.minCounts, i)
    {
      if colors[i] == 'Y' {
        FeedbackPresent(g, answer, i);
      } else if colors[i] == 'B' {
        FeedbackMiss(g, answer, i);
      }
    }
    forall c | c in t.minCounts
      ensures CountFits(answer, t.minCounts, t.exactCounts, c)
    {
      FeedbackMarkedCount(g, answer, c);
      if c in t.exactCounts {
        var j :| 0 <= j < 5 && g[j] == c && colors[j] == 'B';
        FeedbackMiss(g, answer, j);
      }
    }
  }

  /** Soundness: the true answer is never filtered out by its own feedback. */
  lemma SurvivorsSound(list: seq<string>, g: string, answer: string)
    requires IsWord(g) && IsWord(answer) && answer in list
    ensures answer in Survivors(list, g, answer)
  {
    AnswerFits(g, answer);
    SelectMembers(list, FeedbackCriterion(g, answer));
  }

  /** An answer that is not five letters long colours as "Error", which marks no
      position, so nothing is filtered out. */
  lemma SurvivorsOfMalformedAnswer(list: seq<string>, g: string, answer: string)
    requires IsWord(g) && AllWords(list) && |answer| != 5
    ensures Survivors(list, g, answer) == list
  {
    var colors := Feedback(g, answer);
    assert colors == "Error";
    TablesMeaning(g, colors, 5);
    assert forall c :: MarkedCount(g, colors, c) == 0 by {
      forall c ensures MarkedCount(g, colors, c) == 0 {
        if MarkedCount(g, colors, c) > 0 {
          MarkedSomewhere(g, colors, c);
        }
      }
    }
    SelectAll(list, FeedbackCriterion(g, answer));
  }

  /** A guess that is not the answer fails the conditions its own feedback sets:
      at a position where it differs from the answer the mark is Y, which forbids
      the letter there, or B, which either forbids the letter or fixes its count
      below the guess's own. */
  lemma GuessEliminated(g: string, answer: string)
    requires IsWord(g) && IsWord(answer) && g != answer
    ensures !Satisfies(g, FeedbackCriterion(g, answer))
  {
    var colors := Feedback(g, answer);
    var t := TablesUpTo(g, colors, 5);
    FeedbackShape(g, answer);
    var i :| 0 <= i < 5 && g[i] != answer[i];
    if colors[i] == 'B' && g[i] in t.minCounts {
      TablesMeaning(g, colors, 5);
      assert g[i] in t.exactCounts;
      CountedAtBelow(g, colors, g[i], 5, i);
      assert g[..5] == g;
      assert !CountFits(g, t.minCounts, t.exactCounts, g[i]);
    } else {
      assert !PositionFits(g, g, colors, t.minCounts, i);
    }
  }

  /** Guessing a candidate that is not the answer keeps the answer, drops the
      guess, and so strictly shrinks the list. */
  lemma SurvivorsProgress(list: seq<string>, g: string, answer: string)
    requires IsWord(g) && IsWord(answer) && answer in list && g in list && g != answer
    ensures answer in Survivors(list, g, answer)
    ensures g !in Survivors(list, g, answer)
    ensures |Survivors(list, g, answer)| < |list|
  {
    SurvivorsSound(list, g, answer);
    GuessEliminated(g, answer);
    SelectMembers(list, FeedbackCriterion(g, answer));
    SelectSublist(list, FeedbackCriterion(g, answer));
    SublistShorter(Survivors(list, g, answer), list, g);
  }
}
