/** The "blimp" detector (main.py isBlimp): does a small candidate list consist
    of words too alike to split by letter frequency? */
module Blimp {
  import opened Words

  // ---------------------------------------------------------------------------
  // Check 1: fixed positions

  /** Every word of the list holds the first word's letter at position i. */
  predicate IsFixed(list: seq<string>, i: nat)
    requires |list| > 0 && AllWords(list) && i < 5
  {
    forall m :: 1 <= m < |list| ==> list[m][i] == list[0][i]
  }

  /** fixed_positions after the first n positions. */
  function FixedUpTo(list: seq<string>, n: nat): nat
    requires |list| > 0 && AllWords(list) && n <= 5
  {
    if n == 0 then 0 else FixedUpTo(list, n - 1) + (if IsFixed(list, n - 1) then 1 else 0)
  }

  function FixedCount(list: seq<string>): nat
    requires |list| > 0 && AllWords(list)
  {
    FixedUpTo(list, 5)
  }

  /** The count reaches one exactly when some position is fixed, and two exactly
      when two different positions are. */
  lemma {:induction false} FixedUpToMeaning(list: seq<string>, n: nat)
    requires |list| > 0 && AllWords(list) && n <= 5
    ensures FixedUpTo(list, n) >= 1 <==> exists i :: 0 <= i < n && IsFixed(list, i)
    ensures FixedUpTo(list, n) >= 2 <==>
      exists i1, i2 :: 0 <= i1 < i2 < n && IsFixed(list, i1) && IsFixed(list, i2)
  {
    if n > 0 {
      FixedUpToMeaning(list, n - 1);
      if IsFixed(list, n - 1) && FixedUpTo(list, n - 1) >= 1 {
        var i :| 0 <= i < n - 1 && IsFixed(list, i);
        assert 0 <= i < n - 1 < n && IsFixed(list, i) && IsFixed(list, n - 1);
      }
      if exists i1, i2 :: 0 <= i1 < i2 < n && IsFixed(list, i1) && IsFixed(list, i2) {
        var i1, i2 :| 0 <= i1 < i2 < n && IsFixed(list, i1) && IsFixed(list, i2);
        if i2 < n - 1 {
          assert exists i1, i2 :: 0 <= i1 < i2 < n - 1 && IsFixed(list, i1) && IsFixed(list, i2);
        } else {
          assert 0 <= i1 < n - 1 && IsFixed(list, i1);
        }
      }
    }
  }

  // ---------------------------------------------------------------------------
  // Check 2: shared letters

  /** `set(word1) & set(word2)`; it stands for the sorted-letter key of
      commonLettersDict, which determines it and is determined by it. */
  function SharedLetters(w1: string, w2: string): set<char> {
    (set c | c in w1) * (set c | c in w2)
  }

  /** The scan either has answered true or carries the tally of keys. */
  datatype Scan = Hit | Tally(counts: map<set<char>, int>)

  /** One (word1, word2) pair of the scan: equal words are skipped, a key seen for
      the first time is stored as 1 without a threshold test, a key seen again is
      incremented and answers true once it reaches the threshold. */
  function PairStep(w1: string, w2: string, threshold: int, counts: map<set<char>, int>): Scan {
    if w2 == w1 then Tally(counts)
    else
      var shared := SharedLetters(w1, w2);
      if |shared| < 3 then Tally(counts)
      else if shared in counts then
        if counts[shared] + 1 >= threshold then Hit else Tally(counts[shared := counts[shared] + 1])
      else Tally(counts[shared := 1])
  }

  /** The scan over the pairs (i, j), (i, j + 1), ..., in row-major order. */
  function ScanFrom(list: seq<string>, threshold: int, i: nat, j: nat, counts: map<set<char>, int>): bool
    requires i <= |list| && j <= |list|
    decreases |list| - i, |list| - j
  {
    if i == |list| then false
    else if j == |list| then ScanFrom(list, threshold, i + 1, 0, counts)
    else match PairStep(list[i], list[j], threshold, counts)
      case Hit => true
      case Tally(next) => ScanFrom(list, threshold, i, j + 1, next)
  }

  /** A scan answers true only after meeting two different words with at least three
      letters in common. */
  lemma {:induction false} ScanWitness(list: seq<string>, threshold: int, i: nat, j: nat, counts: map<set<char>, int>)
    requires i <= |list| && j <= |list|
    requires ScanFrom(list, threshold, i, j, counts)
    ensures exists a, b :: (0 <= a < |list| && 0 <= b < |list| && list[a] != list[b] &&
      |SharedLetters(list[a], list[b])| >= 3)
    decreases |list| - i, |list| - j
  {
    if j == |list| {
      ScanWitness(list, threshold, i + 1, 0, counts);
    } else {
      match PairStep(list[i], list[j], threshold, counts)
      case Hit =>
        assert list[j] != list[i] && |SharedLetters(list[i], list[j])| >= 3;
      case Tally(next) =>
        ScanWitness(list, threshold, i, j + 1, next);
    }
  }

  /** A pair that does not answer keeps every stored key, never lowers a count,
      and stores only counts of at least one. */
  lemma PairStepTally(w1: string, w2: string, threshold: int, counts: map<set<char>, int>, next: map<set<char>, int>)
    requires PairStep(w1, w2, threshold, counts) == Tally(next)
    ensures forall k :: k in counts ==> k in next && next[k] >= counts[k]
    ensures (forall k :: k in counts ==> counts[k] >= 1) ==> forall k :: k in next ==> next[k] >= 1
  {
  }

  lemma SharedSymmetric(w1: string, w2: string)
    ensures SharedLetters(w1, w2) == SharedLetters(w2, w1)
  {
  }

  /** Once the key of the pair (q, p) is stored with a count one short of the
      threshold, the scan answers true by the time it reaches that pair. */
  lemma {:induction false} ScanReachesPair(list: seq<string>, threshold: int, i: nat, j: nat,
                                           counts: map<set<char>, int>, q: nat, p: nat)
    requires i <= |list| && j <= |list| && q < |list| && p < |list| && list[q] != list[p]
    requires |SharedLetters(list[q], list[p])| >= 3
    requires SharedLetters(list[q], list[p]) in counts
    requires counts[SharedLetters(list[q], list[p])] + 1 >= threshold
    requires i < q || (i == q && j <= p)
    ensures ScanFrom(list, threshold, i, j, counts)
    decreases |list| - i, |list| - j
  {
    if j == |list| {
      ScanReachesPair(list, threshold, i + 1, 0, counts, q, p);
    } else if i == q && j == p {
      assert PairStep(list[i], list[j], threshold, counts) == Hit;
    } else {
      match PairStep(list[i], list[j], threshold, counts)
      case Hit =>
      case Tally(next) =>
        PairStepTally(list[i], list[j], threshold, counts, next);
        ScanReachesPair(list, threshold, i, j + 1, next, q, p);
    }
  }

  /** With a threshold of at most two, the scan answers true by the time it has met
      a pair of different words with three shared letters in both orders: the
      first meeting stores the key as 1, the second reaches the threshold. */
  lemma {:induction false} ScanFindsPair(list: seq<string>, threshold: int, i: nat, j: nat,
                                         counts: map<set<char>, int>, a: nat, b: nat)
    requires threshold <= 2
    requires forall k :: k in counts ==> counts[k] >= 1
    requires i <= |list| && j <= |list| && a < b < |list| && list[a] != list[b]
    requires |SharedLetters(list[a], list[b])| >= 3
    requires i < a || (i == a && j <= b)
    ensures ScanFrom(list, threshold, i, j, counts)
    decreases |list| - i, |list| - j
  {
    var shared := SharedLetters(list[a], list[b]);
    if j == |list| {
      ScanFindsPair(list, threshold, i + 1, 0, counts, a, b);
    } else if i == a && j == b {
      if shared !in counts {
        var next := counts[shared := 1];
        assert PairStep(list[i], list[j], threshold, counts) == Tally(next);
        SharedSymmetric(list[a], list[b]);
        ScanReachesPair(list, threshold, i, j + 1, next, b, a);
      }
    } else {
      match PairStep(list[i], list[j], threshold, counts)
      case Hit =>
      case Tally(next) =>
        PairStepTally(list[i], list[j], threshold, counts, next);
        ScanFindsPair(list, threshold, i, j + 1, next, a, b);
    }
  }

  // ---------------------------------------------------------------------------
  // isBlimp

  /** isBlimp: false outside 2..15 words; true with two fixed positions; false for
      two words; otherwise the shared-letter scan with threshold floor(n/2). */
  function Blimp(list: seq<string>): bool
    requires AllWords(list)
  {
    var n := |list|;
    if n < 2 || n > 15 then false
    else if FixedCount(list) >= 2 then true
    else if n < 3 then false
    else ScanFrom(list, n / 2, 0, 0, map[])
  }

  method IsBlimp(wordList: seq<string>) returns (b: bool)
    requires AllWords(wordList)
    ensures b == Blimp(wordList)
  {
    var listLen := |wordList|;
    if listLen < 2 || listLen > 15 {
      return false;
    }
    var fixedPositions := 0;
    var firstWord := wordList[0];
    for i := 0 to 5
      invariant fixedPositions == FixedUpTo(wordList, i)
    {
      var letter := firstWord[i];
      var isFixed := true;
      for k := 1 to |wordList|
        invariant isFixed
        invariant forall m :: 1 <= m < k ==> wordList[m][i] == letter
      {
        assert wordList[k] in wordList;
        if wordList[k][i] != letter {
          isFixed := false;
          break;
        }
      }
      assert isFixed <==> IsFixed(wordList, i);
      if isFixed {
        fixedPositions := fixedPositions + 1;
      }
    }
    if fixedPositions >= 2 {
      return true;
    }
    if listLen < 3 {
      return false;
    }
    var threshold := listLen / 2;
    var commonLettersDict: map<set<char>, int> := map[];
    for i := 0 to |wordList|
      invariant ScanFrom(wordList, threshold, i, 0, commonLettersDict) == ScanFrom(wordList, threshold, 0, 0, map[])
    {
      var word1 := wordList[i];
      for j := 0 to |wordList|
        invariant ScanFrom(wordList, threshold, i, j, commonLettersDict) == ScanFrom(wordList, threshold, 0, 0, map[])
      {
        var word2 := wordList[j];
        if word2 == word1 {
          continue;
        }
        var sharedLetters := (set c | c in word1) * (set c | c in word2);
        if |sharedLetters| >= 3 {
          if sharedLetters in commonLettersDict {
            commonLettersDict := commonLettersDict[sharedLetters := commonLettersDict[sharedLetters] + 1];
            if commonLettersDict[sharedLetters] >= threshold {
              return true;
            }
          } else {
            commonLettersDict := commonLettersDict[sharedLetters := 1];
          }
        }
      }
    }
    return false;
  }

  // ---------------------------------------------------------------------------
  // Properties of isBlimp

  /** Lists of fewer than 2 or more than 15 words are never blimps. */
  lemma BlimpSizeGate(list: seq<string>)
    requires AllWords(list) && (|list| < 2 || |list| > 15)
    ensures !Blimp(list)
  {
  }

  /** Two positions holding the same letter in every word make a 2..15-word list a
      blimp. */
  lemma BlimpFixed(list: seq<string>, i1: nat, i2: nat)
    requires AllWords(list) && 2 <= |list| <= 15
    requires i1 < i2 < 5
    requires forall w :: w in list ==> w[i1] == list[0][i1] && w[i2] == list[0][i2]
    ensures Blimp(list)
  {
    assert IsFixed(list, i1) && IsFixed(list, i2) by {
      assert forall m :: 1 <= m < |list| ==> list[m] in list;
    }
    FixedUpToMeaning(list, 5);
  }

  /** A two-word list is a blimp exactly when the words agree at two positions. */
  lemma BlimpPair(list: seq<string>)
    requires AllWords(list) && |list| == 2
    ensures Blimp(list) <==>
      exists i1, i2 :: 0 <= i1 < i2 < 5 && list[0][i1] == list[1][i1] && list[0][i2] == list[1][i2]
  {
    FixedUpToMeaning(list, 5);
    assert forall i :: 0 <= i < 5 ==> (IsFixed(list, i) <==> list[0][i] == list[1][i]);
  }

  /** A blimp either has two fixed positions or two different words sharing at
      least three letters. */
  lemma BlimpWitness(list: seq<string>)
    requires AllWords(list) && Blimp(list)
    ensures 2 <= |list| <= 15
    ensures FixedCount(list) >= 2 ||
      exists a, b :: 0 <= a < |list| && 0 <= b < |list| && list[a] != list[b] &&
        |SharedLetters(list[a], list[b])| >= 3
  {
    if FixedCount(list) < 2 {
      ScanWitness(list, |list| / 2, 0, 0, map[]);
    }
  }

  /** Conversely, in a list of three to five words (threshold floor(n/2) at most
      two), any two different words sharing at least three letters make a blimp. */
  lemma BlimpSimilarPair(list: seq<string>, a: nat, b: nat)
    requires AllWords(list) && 3 <= |list| <= 5 && a < |list| && b < |list|
    requires list[a] != list[b] && |SharedLetters(list[a], list[b])| >= 3
    ensures Blimp(list)
  {
    if FixedCount(list) < 2 {
      if a < b {
        ScanFindsPair(list, |list| / 2, 0, 0, map[], a, b);
      } else {
        SharedSymmetric(list[a], list[b]);
        ScanFindsPair(list, |list| / 2, 0, 0, map[], b, a);
      }
    }
  }

  /** Three words with no fixed position form a blimp through one similar pair. */
  lemma RotationIsBlimp()
    ensures Blimp(["abcde", "cdeab", "xyzwv"])
  {
    var list := ["abcde", "cdeab", "xyzwv"];
    assert (set c | c in list[0]) == {'a', 'b', 'c', 'd', 'e'};
    assert (set c | c in list[1]) == {'a', 'b', 'c', 'd', 'e'};
    assert SharedLetters(list[0], list[1]) == {'a', 'b', 'c', 'd', 'e'};
    BlimpSimilarPair(list, 0, 1);
  }

  /** The "mammy" trap: positions 0 and 1 are fixed. */
  lemma MammyIsBlimp()
    ensures Blimp(["mammy", "mangy", "manly", "mardy"])
  {
    BlimpFixed(["mammy", "mangy", "manly", "mardy"], 0, 1);
  }
}
