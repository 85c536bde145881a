/** The letter-frequency scorer (main.py get_letter_dictionary, get_word_value,
    getMaxValue1 and getBlimpMax): a word is worth the summed list-wide
    frequencies of its distinct letters, and the best word is the first one of
    highest worth. */
module Frequency {
  import opened Words

  // ---------------------------------------------------------------------------
  // get_letter_dictionary

  /** The number of occurrences of c over all words of the list. */
  function TotalCount(list: seq<string>, c: char): nat {
    if list == [] then 0 else TotalCount(list[..|list| - 1], c) + Count(list[|list| - 1], c)
  }

  /** The letter dictionary of a list: the 26 lower-case letters, each with its
      number of occurrences in the list; other characters have no entry. */
  function Frequencies(list: seq<string>): map<char, int> {
    map c | c in Alphabet :: TotalCount(list, c)
  }

  /** The dictionary of two lists put together is the sum of their dictionaries. */
  lemma {:induction false} TotalCountAppend(a: seq<string>, b: seq<string>, c: char)
    ensures TotalCount(a + b, c) == TotalCount(a, c) + TotalCount(b, c)
  {
    if b != [] {
      var b' := b[..|b| - 1];
      assert (a + b)[..|a + b| - 1] == a + b';
      assert (a + b)[|a + b| - 1] == b[|b| - 1];
      TotalCountAppend(a, b', c);
    } else {
      assert a + b == a;
    }
  }

  /** The inner loop of get_letter_dictionary: one word's letters counted into the
      dictionary, each occurrence once; characters without an entry are skipped. */
  method CountLetters(d: map<char, int>, word: string) returns (d': map<char, int>)
    ensures forall c :: c in d' <==> c in d
    ensures forall c :: c in d ==> d'[c] == d[c] + Count(word, c)
  {
    d' := d;
    for j := 0 to |word|
      invariant forall c :: c in d' <==> c in d
      invariant forall c :: c in d ==> d'[c] == d[c] + Count(word[..j], c)
    {
      assert word[..j + 1] == word[..j] + [word[j]];
      var letter := word[j];
      if letter in d' {
        d' := d'[letter := d'[letter] + 1];
      }
    }
    assert word[..|word|] == word;
  }

  method GetLetterDictionary(wordList: seq<string>) returns (d: map<char, int>)
    ensures forall c :: c in d <==> c in Alphabet
    ensures forall c :: c in d ==> d[c] == TotalCount(wordList, c)
  {
    d := map[];
    for k := 0 to |Alphabet|
      invariant forall c :: c in d <==> c in Alphabet[..k]
      invariant forall c :: c in d ==> d[c] == 0
    {
      d := d[Alphabet[k] := 0];
    }
    assert Alphabet[..|Alphabet|] == Alphabet;
    for i := 0 to |wordList|
      invariant forall c :: c in d <==> c in Alphabet
      invariant forall c :: c in d ==> d[c] == TotalCount(wordList[..i], c)
    {
      assert wordList[..i + 1][..i] == wordList[..i];
      d := CountLetters(d, wordList[i]);
    }
    assert wordList[..|wordList|] == wordList;
  }

  /** A dictionary with the letter keys and the list's counts is the list's. */
  lemma FrequenciesUnique(d: map<char, int>, list: seq<string>)
    requires forall c :: c in d <==> c in Alphabet
    requires forall c :: c in d ==> d[c] == TotalCount(list, c)
    ensures d == Frequencies(list)
  {
  }

  // ---------------------------------------------------------------------------
  // get_word_value

  /** Every letter of the word that is not already counted has a dictionary entry
      (get_word_value looks up exactly those). */
  predicate Priced(word: string, d: map<char, int>, counted: string) {
    forall i :: 0 <= i < |word| ==> word[i] in d || word[i] in counted
  }

  /** The value of a word: the dictionary entries of its letters, each distinct
      letter once, skipping the letters of `counted`. */
  function WordValue(word: string, d: map<char, int>, counted: string): int
    requires Priced(word, d, counted)
  {
    if word == [] then 0
    else if word[0] in counted then WordValue(word[1..], d, counted)
    else d[word[0]] + WordValue(word[1..], d, counted + [word[0]])
  }

  /** Appending a letter adds its dictionary entry if it is new to the word and not
      excluded, and nothing otherwise. */
  lemma {:induction false} WordValueSnoc(word: string, c: char, d: map<char, int>, counted: string)
    requires Priced(word, d, counted) && (c in d || c in counted)
    ensures Priced(word + [c], d, counted)
    ensures WordValue(word + [c], d, counted) ==
      WordValue(word, d, counted) + (if c in word || c in counted then 0 else d[c])
    decreases |word|
  {
    var w := word + [c];
    if word == [] {
      assert w[1..] == [];
    } else {
      assert w[0] == word[0] && w[1..] == word[1..] + [c];
      if word[0] in counted {
        WordValueSnoc(word[1..], c, d, counted);
      } else {
        WordValueSnoc(word[1..], c, d, counted + [word[0]]);
        assert c in word <==> c == word[0] || c in word[1..];
      }
    }
  }

  /** Letters the word (or the exclusion list) already has add nothing: a word's
      value counts each distinct letter once. */
  lemma {:induction false} WordValueRepeat(word: string, extra: string, d: map<char, int>, counted: string)
    requires Priced(word, d, counted)
    requires forall i :: 0 <= i < |extra| ==> extra[i] in word || extra[i] in counted
    ensures Priced(word + extra, d, counted)
    ensures WordValue(word + extra, d, counted) == WordValue(word, d, counted)
    decreases |extra|
  {
    if extra == [] {
      assert word + extra == word;
    } else {
      var e' := extra[..|extra| - 1];
      var c := extra[|extra| - 1];
      WordValueRepeat(word, e', d, counted);
      assert word + extra == (word + e') + [c];
      assert forall i :: 0 <= i < |word + extra| ==> (word + extra)[i] in word + e' || (word + extra)[i] == c;
      WordValueSnoc(word + e', c, d, counted);
    }
  }

  /** get_word_value. A letter that is neither already counted nor a key of the
      dictionary makes the lookup raise KeyError, modelled as None. */
  method GetWordValue(word: string, letterDictionary: map<char, int>, countedWord: string)
    returns (value: Option<int>)
    ensures value.None? <==> !Priced(word, letterDictionary, countedWord)
    ensures value.Some? ==> value.value == WordValue(word, letterDictionary, countedWord)
  {
    var total := 0;
    var countedLetters := countedWord;
    for i := 0 to |word|
      invariant forall c :: c in countedWord ==> c in countedLetters
      invariant forall c :: c in countedLetters ==> c in countedWord || c in letterDictionary
      invariant forall k :: 0 <= k < i ==> word[k] in letterDictionary || word[k] in countedWord
      invariant Priced(word, letterDictionary, countedWord) ==>
        Priced(word[i..], letterDictionary, countedLetters) &&
        total + WordValue(word[i..], letterDictionary, countedLetters) ==
          WordValue(word, letterDictionary, countedWord)
    {
      var letter := word[i];
      assert word[i..][1..] == word[i + 1..];
      if letter !in countedLetters {
        if letter !in letterDictionary {
          return None;
        }
        total := total + letterDictionary[letter];
        countedLetters := countedLetters + [letter];
      }
    }
    return Some(total);
  }

  // ---------------------------------------------------------------------------
  // The first maximum

  /** The index `max(..., key=...)` picks: a maximum, and the first one. */
  function ArgMax(s: seq<int>): (k: nat)
    requires |s| > 0
    ensures k < |s|
    ensures forall j :: 0 <= j < |s| ==> s[j] <= s[k]
    ensures forall j :: 0 <= j < k ==> s[j] < s[k]
  {
    if |s| == 1 then 0
    else
      var k := ArgMax(s[..|s| - 1]);
      if s[|s| - 1] > s[k] then |s| - 1 else k
  }

  /** One element more: the first maximum moves to it only if it is strictly larger. */
  lemma ArgMaxSnoc(s: seq<int>, i: nat)
    requires 0 < i < |s|
    ensures ArgMax(s[..i + 1]) == if s[i] > s[ArgMax(s[..i])] then i else ArgMax(s[..i])
  {
    assert s[..i + 1][..i] == s[..i];
  }

  function Scores(words: seq<string>, d: map<char, int>, counted: string): (r: seq<int>)
    requires forall w :: w in words ==> Priced(w, d, counted)
    ensures |r| == |words|
  {
    seq(|words|, i requires 0 <= i < |words| => WordValue(words[i], d, counted))
  }

  /** Over a list's dictionary, with nothing counted yet, exactly the lower-case
      words have a price. */
  lemma FrequenciesPriced(list: seq<string>)
    ensures forall w :: Priced(w, Frequencies(list), "") <==> InAlphabet(w)
  {
    forall w ensures Priced(w, Frequencies(list), "") <==> InAlphabet(w) {
      assert forall i :: 0 <= i < |w| ==> w[i] !in "";
    }
  }

  // ---------------------------------------------------------------------------
  // getMaxValue1

  /** The frequency score getMaxValue1 gives a word of the list. */
  function Score(list: seq<string>, w: string): int
    requires InAlphabet(w)
  {
    WordValue(w, Frequencies(list), "")
  }

  /** getMaxValue1: "salet" for an empty list; None (the KeyError of
      get_word_value) when some word has a character outside a-z; otherwise the
      first list member of highest score. */
  function MaxValue1(list: seq<string>): (r: Option<string>)
    ensures r.None? <==> exists w :: w in list && !InAlphabet(w)
    ensures |list| == 0 ==> r == Some(Opening)
    ensures r.Some? && |list| > 0 ==> r.value in list && InAlphabet(r.value)
    ensures r.Some? && |list| > 0 ==> forall w :: w in list ==> Score(list, w) <= Score(list, r.value)
    ensures r.Some? && |list| > 0 ==> exists k :: (0 <= k < |list| && list[k] == r.value &&
      forall j :: 0 <= j < k ==> Score(list, list[j]) < Score(list, r.value))
  {
    if |list| == 0 then Some(Opening)
    else if exists w :: w in list && !InAlphabet(w) then None
    else
      FrequenciesPriced(list);
      var s := Scores(list, Frequencies(list), "");
      var k := ArgMax(s);
      assert forall j :: 0 <= j < |list| ==> s[j] == Score(list, list[j]);
      Some(list[k])
  }

  /** The dictionary comprehension of getMaxValue1 and getBlimpMax: every word's
      value, or None when some word's value raises KeyError. */
  method WordValues(words: seq<string>, d: map<char, int>, counted: string) returns (r: Option<seq<int>>)
    ensures r.None? <==> exists w :: w in words && !Priced(w, d, counted)
    ensures r.Some? ==> r.value == Scores(words, d, counted)
  {
    var values: seq<int> := [];
    for i := 0 to |words|
      invariant |values| == i
      invariant forall k :: 0 <= k < i ==> Priced(words[k], d, counted)
      invariant forall k :: 0 <= k < i ==> values[k] == WordValue(words[k], d, counted)
    {
      var value := GetWordValue(words[i], d, counted);
      if value.None? {
        assert words[i] in words;
        return None;
      }
      values := values + [value.value];
    }
    r := Some(values);
  }

  /** `max(..., key=...)` over the values: the index of the first maximum. */
  method MaxIndex(values: seq<int>) returns (index: nat)
    requires |values| > 0
    ensures index == ArgMax(values)
  {
    index := 0;
    assert values[..1] == [values[0]];
    for i := 1 to |values|
      invariant index == ArgMax(values[..i])
    {
      ArgMaxSnoc(values, i);
      if values[i] > values[index] {
        index := i;
      }
    }
    assert values[..|values|] == values;
  }

  method GetMaxValue1(wordList: seq<string>) returns (r: Option<string>)
    ensures r == MaxValue1(wordList)
  {
    if |wordList| == 0 {
      return Some(Opening);
    }
    var letterDictionary := GetLetterDictionary(wordList);
    FrequenciesUnique(letterDictionary, wordList);
    FrequenciesPriced(wordList);
    var values := WordValues(wordList, letterDictionary, "");
    if values.None? {
      return None;
    }
    var best := MaxIndex(values.value);
    r := Some(wordList[best]);
  }

  // ---------------------------------------------------------------------------
  // getBlimpMax

  /** getBlimpMax: the first word of totalWords with the highest value over the
      dictionary of wordList, not counting the letters of commonLetters. None
      stands for the call raising: ValueError from `max` of an empty dictionary,
      or KeyError from a word with a letter that has no dictionary entry. */
  function BlimpMax(wordList: seq<string>, commonLetters: string, totalWords: seq<string>): (r: Option<string>)
    ensures r.None? <==> (|totalWords| == 0 ||
      exists w :: w in totalWords && !Priced(w, Frequencies(wordList), commonLetters))
    ensures r.Some? ==> r.value in totalWords
    ensures r.Some? ==> forall w :: w in totalWords ==>
      WordValue(w, Frequencies(wordList), commonLetters) <= WordValue(r.value, Frequencies(wordList), commonLetters)
    ensures r.Some? ==> exists k :: (0 <= k < |totalWords| && totalWords[k] == r.value &&
      forall j :: 0 <= j < k ==>
        WordValue(totalWords[j], Frequencies(wordList), commonLetters) <
        WordValue(r.value, Frequencies(wordList), commonLetters))
  {
    if |totalWords| == 0 then None
    else if exists w :: w in totalWords && !Priced(w, Frequencies(wordList), commonLetters) then None
    else
      var s := Scores(totalWords, Frequencies(wordList), commonLetters);
      var k := ArgMax(s);
      assert forall j :: 0 <= j < |totalWords| ==>
        s[j] == WordValue(totalWords[j], Frequencies(wordList), commonLetters);
      Some(totalWords[k])
  }

  method GetBlimpMax(wordList: seq<string>, commonLetters: string, totalWords: seq<string>)
    returns (r: Option<string>)
    ensures r == BlimpMax(wordList, commonLetters, totalWords)
  {
    var letterDictionary := GetLetterDictionary(wordList);
    FrequenciesUnique(letterDictionary, wordList);
    if |totalWords| == 0 {
      return None;
    }
    var values := WordValues(totalWords, letterDictionary, commonLetters);
    if values.None? {
      return None;
    }
    var best := MaxIndex(values.value);
    r := Some(totalWords[best]);
  }
}
