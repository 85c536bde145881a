/** Five-letter words, letter counts and the "ordered sublist" relation shared by
    every component of the guess engine. */
module Words {

  datatype Option<T> = None | Some(value: T)

  /** The 26 keys of the letter-frequency table, in the order the source lists them. */
  const Alphabet: string := "abcdefghijklmnopqrstuvwxyz"

  /** The opening guess and the frequency scorer's answer for an empty list. */
  const Opening: string := "salet"

  predicate IsWord(w: string) { |w| == 5 }

  /** Every character is a key of the letter-frequency table. */
  predicate InAlphabet(w: string) {
    forall i :: 0 <= i < |w| ==> w[i] in Alphabet
  }

  predicate IsLowerWord(w: string) {
    |w| == 5 && InAlphabet(w)
  }

  predicate AllWords(ws: seq<string>) { forall i :: 0 <= i < |ws| ==> IsWord(ws[i]) }

  /** A list drawn from a list of words is a list of words. */
  lemma AllWordsFrom(r: seq<string>, s: seq<string>)
    requires AllWords(s) && forall w :: w in r ==> w in s
    ensures AllWords(r)
  {
    forall i | 0 <= i < |r| ensures IsWord(r[i]) {
      assert r[i] in r;
    }
  }

  predicate AllLowerWords(ws: seq<string>) { forall w :: w in ws ==> IsLowerWord(w) }

  /** `w.count(c)` for a single character. */
  function Count(w: string, c: char): nat { multiset(w)[c] }

  /** `r` is `s` with some elements deleted: same elements, same relative order. */
  predicate Sublist<T(==)>(r: seq<T>, s: seq<T>)
    decreases |s|
  {
    if s == [] then r == []
    else
      Sublist(r, s[..|s| - 1]) ||
      (r != [] && r[|r| - 1] == s[|s| - 1] && Sublist(r[..|r| - 1], s[..|s| - 1]))
  }

  lemma {:induction false} SublistReflexive<T>(s: seq<T>)
    ensures Sublist(s, s)
    decreases |s|
  {
    if s != [] {
      SublistReflexive(s[..|s| - 1]);
    }
  }

  lemma {:induction false} SublistMembers<T>(r: seq<T>, s: seq<T>)
    requires Sublist(r, s)
    ensures |r| <= |s|
    ensures forall x :: x in r ==> x in s
    decreases |s|
  {
    if s != [] {
      var s' := s[..|s| - 1];
      if Sublist(r, s') {
        SublistMembers(r, s');
      } else {
        var r' := r[..|r| - 1];
        SublistMembers(r', s');
        assert r == r' + [r[|r| - 1]];
        assert s == s' + [s[|s| - 1]];
      }
    }
  }

  lemma {:induction false} SublistTransitive<T>(a: seq<T>, b: seq<T>, c: seq<T>)
    requires Sublist(a, b) && Sublist(b, c)
    ensures Sublist(a, c)
    decreases |c|
  {
    if c == [] {
    } else {
      var c' := c[..|c| - 1];
      if Sublist(b, c') {
        SublistTransitive(a, b, c');
      } else {
        var b' := b[..|b| - 1];
        assert b != [] && b[|b| - 1] == c[|c| - 1] && Sublist(b', c');
        if Sublist(a, b') {
          SublistTransitive(a, b', c');
        } else {
          var a' := a[..|a| - 1];
          SublistTransitive(a', b', c');
        }
      }
    }
  }

  /** A sublist that misses an element of the list is strictly shorter. */
  lemma {:induction false} SublistShorter<T>(r: seq<T>, s: seq<T>, x: T)
    requires Sublist(r, s) && x in s && x !in r
    ensures |r| < |s|
    decreases |s|
  {
    var s' := s[..|s| - 1];
    if Sublist(r, s') {
      SublistMembers(r, s');
    } else {
      var r' := r[..|r| - 1];
      assert r[|r| - 1] in r;
      assert s == s' + [s[|s| - 1]];
      assert x in s';
      SublistShorter(r', s', x);
    }
  }
}
