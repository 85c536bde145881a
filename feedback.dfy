/** The feedback oracle (main.py get_guess_colors, format_colors_to_emoji):
    the two-pass Wordle colouring of a guess against a target, with its
    duplicate-letter guarantees, and the display encodings of a colour string. */
module Coloring {
  import opened Words

  /** The placeholder of a position not coloured yet (the source's ''). */
  const Blank: char := '.'

  /** An entry of the mutable copy of the target: consumed, or still free to match. */
  datatype Slot = Used | Free(letter: char)

  /** The two working lists of the algorithm: the colours and the target copy. */
  datatype Marking = Marking(colors: string, pool: seq<Slot>)

  predicate IsMark(c: char) { c == 'G' || c == 'Y' || c == 'B' }

  /** Marks that account for one occurrence of the guessed letter in the target. */
  predicate Counted(c: char) { c == 'G' || c == 'Y' }

  /** After the first pass: greens where the letters agree, those target letters consumed. */
  function FirstPass(g: string, t: string): Marking
    requires |g| == 5 && |t| == 5
  {
    Marking(seq(5, i requires 0 <= i < 5 => if g[i] == t[i] then 'G' else Blank),
            seq(5, i requires 0 <= i < 5 => if g[i] == t[i] then Used else Free(t[i])))
  }

  /** `target_list.index(c)`: the first free occurrence of `c`. */
  function FirstFree(pool: seq<Slot>, c: char): (k: nat)
    requires Free(c) in pool
    ensures k < |pool| && pool[k] == Free(c)
    ensures forall j :: 0 <= j < k ==> pool[j] != Free(c)
  {
    if pool[0] == Free(c) then 0 else 1 + FirstFree(pool[1..], c)
  }

  /** One step of the second pass, at position i. */
  function YellowStep(g: string, m: Marking, i: nat): (m': Marking)
    requires i < |g| && i < |m.colors|
    ensures |m'.colors| == |m.colors| && |m'.pool| == |m.pool|
  {
    if m.colors[i] != Blank then m
    else if Free(g[i]) in m.pool then
      Marking(m.colors[i := 'Y'], m.pool[FirstFree(m.pool, g[i]) := Used])
    else
      Marking(m.colors[i := 'B'], m.pool)
  }

  /** The second pass over positions 0 .. k-1. */
  function YellowPass(g: string, m: Marking, k: nat): (m': Marking)
    requires k <= |g| && k <= |m.colors|
    ensures |m'.colors| == |m.colors| && |m'.pool| == |m.pool|
  {
    if k == 0 then m else YellowStep(g, YellowPass(g, m, k - 1), k - 1)
  }

  /** The colour string get_guess_colors returns. */
  function Feedback(g: string, t: string): (r: string)
    ensures |r| == 5
  {
    if |g| != 5 || |t| != 5 then "Error"
    else YellowPass(g, FirstPass(g, t), 5).colors
  }

  /** The imperative two-pass algorithm over a colour array and a mutable target copy. */
  method GetGuessColors(guess: string, target: string) returns (r: string)
    ensures r == Feedback(guess, target)
  {
    if |guess| != 5 || |target| != 5 {
      return "Error";
    }
    var colors := new char[5](_ => Blank);
    var targetList := new Slot[5](i requires 0 <= i < 5 => Free(target[i]));
    for i := 0 to 5
      invariant forall j :: 0 <= j < i ==>
        colors[j] == (if guess[j] == target[j] then 'G' else Blank) &&
        targetList[j] == (if guess[j] == target[j] then Used else Free(target[j]))
      invariant forall j :: i <= j < 5 ==> colors[j] == Blank && targetList[j] == Free(target[j])
    {
      if targetList[i] == Free(guess[i]) {
        colors[i] := 'G';
        targetList[i] := Used;
      }
    }
    assert Marking(colors[..], targetList[..]) == FirstPass(guess, target);
    for i := 0 to 5
      invariant Marking(colors[..], targetList[..]) == YellowPass(guess, FirstPass(guess, target), i)
    {
      ghost var before := Marking(colors[..], targetList[..]);
      if colors[i] == Blank {
        if Free(guess[i]) in targetList[..] {
          var k := FirstFree(targetList[..], guess[i]);
          colors[i] := 'Y';
          targetList[k] := Used;
          assert colors[..] == before.colors[i := 'Y'];
          assert targetList[..] == before.pool[k := Used];
        } else {
          colors[i] := 'B';
          assert colors[..] == before.colors[i := 'B'];
        }
      }
    }
    r := colors[..];
  }

  // ---------------------------------------------------------------------------
  // Counting G/Y marks per letter

  /** The number of positions j < n holding letter c and marked G or Y. */
  function CountedAt(g: string, colors: string, c: char, n: nat): nat
    requires n <= |g| && n <= |colors|
  {
    if n == 0 then 0
    else CountedAt(g, colors, c, n - 1) + (if g[n - 1] == c && Counted(colors[n - 1]) then 1 else 0)
  }

  /** The number of guess positions holding c that are marked G or Y (gy_count). */
  function MarkedCount(g: string, colors: string, c: char): nat
    requires |g| == 5 && |colors| == 5
  {
    CountedAt(g, colors, c, 5)
  }

  lemma {:induction false} CountedAtUpdate(g: string, colors: string, c: char, n: nat, i: nat, x: char)
    requires n <= |g| && n <= |colors| && i < |colors|
    requires !Counted(colors[i])
    ensures CountedAt(g, colors[i := x], c, n) ==
            CountedAt(g, colors, c, n) + (if i < n && g[i] == c && Counted(x) then 1 else 0)
  {
    if n > 0 {
      CountedAtUpdate(g, colors, c, n - 1, i, x);
    }
  }

  lemma {:induction false} CountedAtMost(g: string, colors: string, c: char, n: nat)
    requires n <= |g| && n <= |colors|
    ensures CountedAt(g, colors, c, n) <= Count(g[..n], c)
  {
    if n > 0 {
      CountedAtMost(g, colors, c, n - 1);
      assert g[..n] == g[..n - 1] + [g[n - 1]];
    }
  }

  lemma {:induction false} CountedAtAll(g: string, colors: string, c: char, n: nat)
    requires n <= |g| && n <= |colors|
    requires forall j :: 0 <= j < n && g[j] == c ==> Counted(colors[j])
    ensures CountedAt(g, colors, c, n) == Count(g[..n], c)
  {
    if n > 0 {
      CountedAtAll(g, colors, c, n - 1);
      assert g[..n] == g[..n - 1] + [g[n - 1]];
    }
  }

  /** A position holding c that is not marked G or Y leaves the tally below the
      letter's count. */
  lemma {:induction false} CountedAtBelow(g: string, colors: string, c: char, n: nat, j: nat)
    requires n <= |g| && n <= |colors| && j < n && g[j] == c && !Counted(colors[j])
    ensures CountedAt(g, colors, c, n) < Count(g[..n], c)
  {
    assert g[..n] == g[..n - 1] + [g[n - 1]];
    if j < n - 1 {
      CountedAtBelow(g, colors, c, n - 1, j);
    } else {
      CountedAtMost(g, colors, c, n - 1);
    }
  }

  lemma {:induction false} CountedAtPositive(g: string, colors: string, c: char, n: nat)
    requires n <= |g| && n <= |colors|
    requires CountedAt(g, colors, c, n) > 0
    ensures exists j :: 0 <= j < n && g[j] == c && Counted(colors[j])
  {
    if !(g[n - 1] == c && Counted(colors[n - 1])) {
      CountedAtPositive(g, colors, c, n - 1);
    }
  }

  /** First pass: each target letter is either matched green or left free. */
  lemma {:induction false} FirstPassBalance(g: string, t: string, c: char, n: nat)
    requires |g| == 5 && |t| == 5 && n <= 5
    ensures CountedAt(g, FirstPass(g, t).colors, c, n) + multiset(FirstPass(g, t).pool[..n])[Free(c)]
            == multiset(t[..n])[c]
  {
    if n > 0 {
      FirstPassBalance(g, t, c, n - 1);
      var m := FirstPass(g, t);
      assert m.pool[..n] == m.pool[..n - 1] + [m.pool[n - 1]];
      assert t[..n] == t[..n - 1] + [t[n - 1]];
    }
  }

  // ---------------------------------------------------------------------------
  // The invariant of the second pass

  ghost predicate MarkInv(g: string, t: string, m: Marking, k: nat) {
    && |g| == 5 && |t| == 5 && |m.colors| == 5 && |m.pool| == 5 && k <= 5
    && (forall j :: 0 <= j < 5 ==> (m.colors[j] == 'G' <==> g[j] == t[j]))
    && (forall j :: 0 <= j < 5 ==> m.pool[j] == Used || m.pool[j] == Free(t[j]))
    && (forall j :: 0 <= j < 5 && g[j] == t[j] ==> m.pool[j] == Used)
    && (forall j :: k <= j < 5 && g[j] != t[j] ==> m.colors[j] == Blank)
    && (forall j :: 0 <= j < k && g[j] != t[j] ==> m.colors[j] == 'Y' || m.colors[j] == 'B')
    && (forall j :: 0 <= j < k && m.colors[j] == 'B' ==> Free(g[j]) !in m.pool)
    && (forall j :: 0 <= j < k && m.colors[j] == 'Y' ==> g[j] in t)
    && (forall c :: CountedAt(g, m.colors, c, 5) + multiset(m.pool)[Free(c)] == Count(t, c))
  }

  lemma MarkInvInit(g: string, t: string)
    requires |g| == 5 && |t| == 5
    ensures MarkInv(g, t, FirstPass(g, t), 0)
  {
    var m := FirstPass(g, t);
    forall c
      ensures CountedAt(g, m.colors, c, 5) + multiset(m.pool)[Free(c)] == Count(t, c)
    {
      FirstPassBalance(g, t, c, 5);
      assert m.pool[..5] == m.pool;
      assert t[..5] == t;
    }
  }

  lemma UsedShrinks(pool: seq<Slot>, k: nat, x: Slot)
    requires k < |pool| && x != Used
    requires x in pool[k := Used]
    ensures x in pool
  {
    var y :| 0 <= y < |pool| && pool[k := Used][y] == x;
    assert pool[y] == x;
  }

  /** Turning position k yellow and consuming the slot idx keeps every letter's
      balance of counted marks and free slots. */
  lemma YellowBalance(g: string, t: string, m: Marking, k: nat, idx: nat)
    requires MarkInv(g, t, m, k) && k < 5 && idx < 5
    requires m.colors[k] == Blank && m.pool[idx] == Free(g[k])
    ensures forall c :: CountedAt(g, m.colors[k := 'Y'], c, 5) + multiset(m.pool[idx := Used])[Free(c)] == Count(t, c)
  {
    forall c
      ensures CountedAt(g, m.colors[k := 'Y'], c, 5) + multiset(m.pool[idx := Used])[Free(c)] == Count(t, c)
    {
      CountedAtUpdate(g, m.colors, c, 5, k, 'Y');
    }
  }

  /** Consuming a slot frees nothing: black marks stay unmatched. */
  lemma YellowKeepsBlack(g: string, t: string, m: Marking, k: nat, idx: nat)
    requires MarkInv(g, t, m, k) && k < 5 && idx < 5
    requires m.colors[k] == Blank && m.pool[idx] == Free(g[k])
    ensures forall j :: 0 <= j < k + 1 && m.colors[k := 'Y'][j] == 'B' ==> Free(g[j]) !in m.pool[idx := Used]
  {
    forall j | 0 <= j < k + 1 && m.colors[k := 'Y'][j] == 'B'
      ensures Free(g[j]) !in m.pool[idx := Used]
    {
      if Free(g[j]) in m.pool[idx := Used] {
        UsedShrinks(m.pool, idx, Free(g[j]));
      }
    }
  }

  /** A blank position whose letter is still free turns yellow and consumes it. */
  lemma MarkInvYellow(g: string, t: string, m: Marking, k: nat)
    requires MarkInv(g, t, m, k) && k < 5
    requires m.colors[k] == Blank && Free(g[k]) in m.pool
    ensures MarkInv(g, t, YellowStep(g, m, k), k + 1)
  {
    var idx := FirstFree(m.pool, g[k]);
    assert YellowStep(g, m, k) == Marking(m.colors[k := 'Y'], m.pool[idx := Used]);
    assert m.pool[idx] == Free(t[idx]);
    YellowBalance(g, t, m, k, idx);
    YellowKeepsBlack(g, t, m, k, idx);
  }

  /** A blank position whose letter is not free turns black. */
  lemma MarkInvBlack(g: string, t: string, m: Marking, k: nat)
    requires MarkInv(g, t, m, k) && k < 5
    requires m.colors[k] == Blank && Free(g[k]) !in m.pool
    ensures MarkInv(g, t, YellowStep(g, m, k), k + 1)
  {
    var m' := YellowStep(g, m, k);
    assert m' == Marking(m.colors[k := 'B'], m.pool);
    forall c
      ensures CountedAt(g, m'.colors, c, 5) + multiset(m'.pool)[Free(c)] == Count(t, c)
    {
      CountedAtUpdate(g, m.colors, c, 5, k, 'B');
    }
  }

  lemma MarkInvStep(g: string, t: string, m: Marking, k: nat)
    requires MarkInv(g, t, m, k) && k < 5
    ensures MarkInv(g, t, YellowStep(g, m, k), k + 1)
  {
    if m.colors[k] != Blank {
      assert g[k] == t[k];
    } else if Free(g[k]) in m.pool {
      MarkInvYellow(g, t, m, k);
    } else {
      MarkInvBlack(g, t, m, k);
    }
  }

  lemma {:induction false} MarkInvPass(g: string, t: string, k: nat)
    requires |g| == 5 && |t| == 5 && k <= 5
    ensures MarkInv(g, t, YellowPass(g, FirstPass(g, t), k), k)
  {
    if k == 0 {
      MarkInvInit(g, t);
    } else {
      MarkInvPass(g, t, k - 1);
      MarkInvStep(g, t, YellowPass(g, FirstPass(g, t), k - 1), k - 1);
    }
  }

  // ---------------------------------------------------------------------------
  // What the oracle guarantees

  /** "Error" unless both words have five characters; otherwise five marks over
      G/Y/B with G exactly where guess and target agree. */
  lemma FeedbackShape(g: string, t: string)
    ensures |g| != 5 || |t| != 5 ==> Feedback(g, t) == "Error"
    ensures |g| == 5 && |t| == 5 ==>
      forall i :: 0 <= i < 5 ==> IsMark(Feedback(g, t)[i]) && (Feedback(g, t)[i] == 'G' <==> g[i] == t[i])
  {
    if |g| == 5 && |t| == 5 {
      MarkInvPass(g, t, 5);
    }
  }

  /** All five marks are green exactly when the guess is the target. */
  lemma FeedbackSolved(g: string, t: string)
    requires IsWord(g) && IsWord(t)
    ensures Feedback(g, t) == "GGGGG" <==> g == t
  {
    FeedbackShape(g, t);
    var r := Feedback(g, t);
    if r == "GGGGG" {
      assert forall i :: 0 <= i < 5 ==> g[i] == t[i] by {
        forall i | 0 <= i < 5 ensures g[i] == t[i] { assert r[i] == 'G'; }
      }
    }
    if g == t {
      assert forall i :: 0 <= i < 5 ==> r[i] == "GGGGG"[i];
    }
  }

  /** A yellow position: the target holds that letter, but not at that position. */
  lemma FeedbackPresent(g: string, t: string, i: nat)
    requires IsWord(g) && IsWord(t) && i < 5
    requires Feedback(g, t)[i] == 'Y'
    ensures g[i] != t[i] && g[i] in t
  {
    MarkInvPass(g, t, 5);
  }

  /** Duplicate letters: for every letter, the G and Y marks on positions holding it
      number min(occurrences in guess, occurrences in target); in particular never
      more than the target holds. */
  lemma FeedbackMarkedCount(g: string, t: string, c: char)
    requires IsWord(g) && IsWord(t)
    ensures MarkedCount(g, Feedback(g, t), c) == if Count(g, c) <= Count(t, c) then Count(g, c) else Count(t, c)
    ensures MarkedCount(g, Feedback(g, t), c) <= Count(t, c)
  {
    var m := YellowPass(g, FirstPass(g, t), 5);
    MarkInvPass(g, t, 5);
    assert g[..5] == g;
    CountedAtMost(g, m.colors, c, 5);
    if exists j :: 0 <= j < 5 && g[j] == c && m.colors[j] == 'B' {
      assert Free(c) !in m.pool;
    } else {
      CountedAtAll(g, m.colors, c, 5);
    }
  }

  /** A black position: every occurrence of that letter in the target is already
      accounted for by G/Y marks. */
  lemma FeedbackMiss(g: string, t: string, i: nat)
    requires IsWord(g) && IsWord(t) && i < 5
    requires Feedback(g, t)[i] == 'B'
    ensures MarkedCount(g, Feedback(g, t), g[i]) == Count(t, g[i])
  {
    var m := YellowPass(g, FirstPass(g, t), 5);
    MarkInvPass(g, t, 5);
    assert Free(g[i]) !in m.pool;
  }

  /** If a letter got a G or Y mark somewhere, some guess position holding it did. */
  lemma MarkedSomewhere(g: string, colors: string, c: char)
    requires |g| == 5 && |colors| == 5
    requires MarkedCount(g, colors, c) > 0
    ensures exists j :: 0 <= j < 5 && g[j] == c && Counted(colors[j])
  {
    CountedAtPositive(g, colors, c, 5);
  }

  // ---------------------------------------------------------------------------
  // Display and numeric encodings

  const Gray: char := '\U{2B1B}'
  const Yellow: char := '\U{1F7E8}'
  const Green: char := '\U{1F7E9}'

  function EmojiOf(c: char): char {
    if c == 'B' then Gray else if c == 'G' then Green else if c == 'Y' then Yellow else c
  }

  /** format_colors_to_emoji: each mark becomes its square, anything else is kept. */
  function FormatColorsToEmoji(colors: string): (r: string)
    ensures |r| == |colors|
    ensures forall i :: 0 <= i < |colors| ==>
      (colors[i] == 'B' ==> r[i] == Gray) && (colors[i] == 'G' ==> r[i] == Green) &&
      (colors[i] == 'Y' ==> r[i] == Yellow) && (!IsMark(colors[i]) ==> r[i] == colors[i])
  {
    seq(|colors|, i requires 0 <= i < |colors| => EmojiOf(colors[i]))
  }

  function MarkOfEmoji(c: char): char {
    if c == Gray then 'B' else if c == Green then 'G' else if c == Yellow then 'Y' else c
  }

  function EmojiToColors(s: string): string {
    seq(|s|, i requires 0 <= i < |s| => MarkOfEmoji(s[i]))
  }

  predicate NoSquares(s: string) {
    forall i :: 0 <= i < |s| ==> s[i] != Gray && s[i] != Green && s[i] != Yellow
  }

  /** The display form loses nothing: a colour string (indeed any string holding
      none of the three squares) is recovered from its squares, and every
      character becomes exactly one character. */
  lemma EmojiRoundTrip(colors: string)
    requires NoSquares(colors)
    ensures |FormatColorsToEmoji(colors)| == |colors|
    ensures EmojiToColors(FormatColorsToEmoji(colors)) == colors
  {
    var e := FormatColorsToEmoji(colors);
    var r := EmojiToColors(e);
    forall i | 0 <= i < |colors| ensures r[i] == colors[i] {
      assert e[i] == EmojiOf(colors[i]);
      assert colors[i] != Gray && colors[i] != Green && colors[i] != Yellow;
    }
  }

  /** The numeric code of a mark (gui.py: B -> 0, Y -> 1, G -> 2). */
  function DigitOfMark(c: char): char {
    if c == 'B' then '0' else if c == 'Y' then '1' else if c == 'G' then '2' else c
  }

  function MarkOfDigit(c: char): char {
    if c == '0' then 'B' else if c == '1' then 'Y' else if c == '2' then 'G' else c
  }

  /** gui.py's translation of a colour string into the digit state gameFilter reads. */
  function ColorsToDigits(colors: string): string {
    seq(|colors|, i requires 0 <= i < |colors| => DigitOfMark(colors[i]))
  }

  function DigitsToColors(s: string): string {
    seq(|s|, i requires 0 <= i < |s| => MarkOfDigit(s[i]))
  }

  /** The letter code and the digit code of a feedback string round-trip. */
  lemma DigitsRoundTrip(colors: string)
    requires forall i :: 0 <= i < |colors| ==> IsMark(colors[i])
    ensures DigitsToColors(ColorsToDigits(colors)) == colors
    ensures forall i :: 0 <= i < |colors| ==> ColorsToDigits(colors)[i] in "012"
  {
    var r := DigitsToColors(ColorsToDigits(colors));
    forall i | 0 <= i < |colors| ensures r[i] == colors[i] {
      assert ColorsToDigits(colors)[i] == DigitOfMark(colors[i]);
    }
  }
}
