/** The primitive list filters of main.py (repetition_filter, filter,
    inverseFilter, wrongPositionFilter): append loops that keep, in input
    order, exactly the words satisfying one criterion. */
module Primitives {
  import opened Words
  import opened Selection

  /** repetition_filter: words holding c exactly n times, or at least n times. */
  method RepetitionFilter(c: char, numRepetitions: int, wordList: seq<string>, exact: bool)
    returns (r: seq<string>)
    ensures r == Select(wordList, if exact then CountIs(c, numRepetitions) else CountAtLeast(c, numRepetitions))
    ensures forall w :: w in r <==>
      w in wordList && (if exact then Count(w, c) == numRepetitions else Count(w, c) >= numRepetitions)
    ensures Sublist(r, wordList)
  {
    ghost var k := if exact then CountIs(c, numRepetitions) else CountAtLeast(c, numRepetitions);
    r := [];
    if exact {
      for i := 0 to |wordList|
        invariant r == Select(wordList[..i], k)
      {
        assert wordList[..i + 1][..i] == wordList[..i];
        if Count(wordList[i], c) == numRepetitions {
          r := r + [wordList[i]];
        }
      }
    } else {
      for i := 0 to |wordList|
        invariant r == Select(wordList[..i], k)
      {
        assert wordList[..i + 1][..i] == wordList[..i];
        if Count(wordList[i], c) >= numRepetitions {
          r := r + [wordList[i]];
        }
      }
    }
    assert wordList[..|wordList|] == wordList;
    SelectMembers(wordList, k);
    SelectSublist(wordList, k);
  }

  /** The outcome of filter: the kept words, or the error raised for a bad position. */
  datatype FilterResult = Kept(words: seq<string>) | InvalidCharacterPosition

  /** What filter keeps for a position (or "any") and a repetition count (or "any"). */
  function FilterCriterion(c: char, position: Option<int>, repetitions: Option<int>): Criterion
    requires position.Some? ==> 0 <= position.value <= 4
  {
    match position
    case Some(p) => Placed(c, p, repetitions)
    case None =>
      match repetitions
      case Some(n) => HoldsTimes(c, n)
      case None => Holds(c)
  }

  /** filter: raises on an integer position outside 0..4; otherwise keeps the words
      with c at the position (and, if given, exactly that many c's), or the words
      holding c (exactly that many times, if given). */
  method Filter(filterChar: char, position: Option<int>, repetitions: Option<int>, wordList: seq<string>)
    returns (r: FilterResult)
    requires position.Some? ==> AllWords(wordList)
    ensures r.InvalidCharacterPosition? <==> position.Some? && !(0 <= position.value <= 4)
    ensures r.Kept? ==> r.words == Select(wordList, FilterCriterion(filterChar, position, repetitions))
    ensures r.Kept? ==> Sublist(r.words, wordList)
    ensures r.Kept? ==> forall w :: w in r.words <==>
      w in wordList && Satisfies(w, FilterCriterion(filterChar, position, repetitions))
  {
    if position.Some? && (position.value < 0 || position.value > 4) {
      return InvalidCharacterPosition;
    }
    ghost var k := FilterCriterion(filterChar, position, repetitions);
    var returnList := [];
    for i := 0 to |wordList|
      invariant returnList == Select(wordList[..i], k)
    {
      assert wordList[..i + 1][..i] == wordList[..i];
      var word := wordList[i];
      if position.Some? {
        assert word in wordList;
        if word[position.value] == filterChar {
          if repetitions.None? || Count(word, filterChar) == repetitions.value {
            returnList := returnList + [word];
          }
        }
      } else if repetitions.Some? {
        if filterChar in word && Count(word, filterChar) == repetitions.value {
          returnList := returnList + [word];
        }
      } else {
        if filterChar in word {
          returnList := returnList + [word];
        }
      }
    }
    assert wordList[..|wordList|] == wordList;
    SelectMembers(wordList, k);
    SelectSublist(wordList, k);
    r := Kept(returnList);
  }

  /** inverseFilter: the words that do not contain the character. */
  method InverseFilter(filterChar: char, wordList: seq<string>) returns (r: seq<string>)
    ensures r == Select(wordList, Lacks(filterChar))
    ensures forall w :: w in r <==> w in wordList && filterChar !in w
    ensures Sublist(r, wordList)
  {
    r := [];
    for i := 0 to |wordList|
      invariant r == Select(wordList[..i], Lacks(filterChar))
    {
      assert wordList[..i + 1][..i] == wordList[..i];
      if filterChar !in wordList[i] {
        r := r + [wordList[i]];
      }
    }
    assert wordList[..|wordList|] == wordList;
    SelectMembers(wordList, Lacks(filterChar));
    SelectSublist(wordList, Lacks(filterChar));
  }

  /** wrongPositionFilter: the words that do not hold the character at the index. */
  method WrongPositionFilter(filterChar: char, index: nat, wordList: seq<string>) returns (r: seq<string>)
    requires index < 5 && AllWords(wordList)
    ensures r == Select(wordList, Misplaced(filterChar, index))
    ensures forall w :: w in r <==> w in wordList && w[index] != filterChar
    ensures Sublist(r, wordList)
  {
    r := [];
    for i := 0 to |wordList|
      invariant r == Select(wordList[..i], Misplaced(filterChar, index))
    {
      assert wordList[..i + 1][..i] == wordList[..i];
      assert wordList[i] in wordList;
      if filterChar != wordList[i][index] {
        r := r + [wordList[i]];
      }
    }
    assert wordList[..|wordList|] == wordList;
    SelectMembers(wordList, Misplaced(filterChar, index));
    SelectSublist(wordList, Misplaced(filterChar, index));
  }
}
