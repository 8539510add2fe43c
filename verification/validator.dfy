/**
 * The three answer checks of the game: a candidate must be spellable from the
 * puzzle word's letters, must not have been used yet, and must be a real word.
 */
module Validator {
  import opened Wrappers
  import opened Seqs
  import opened Text

  /**
   * The letter loop of `isPossible`: take each letter of `word` in turn and
   * delete its first occurrence from `pool`, failing when a letter is missing.
   */
  function Consume(word: string, pool: string): (ok: bool)
    ensures |word| == 0 ==> ok
    ensures |word| > 0 && word[0] !in pool ==> !ok
    decreases |word|
  {
    if |word| == 0 then true
    else match FirstIndex(pool, word[0])
      case None => false
      case Some(i) => Consume(word[1..], RemoveAt(pool, i))
  }

  /** The deletion loop succeeds exactly when `word`'s letters form a sub-multiset of `pool`'s. */
  lemma {:induction false} ConsumeIsSubMultiset(word: string, pool: string)
    ensures Consume(word, pool) <==> multiset(word) <= multiset(pool)
    decreases |word|
  {
    if |word| > 0 {
      var c := word[0];
      var tail := word[1..];
      assert word == [c] + tail;
      assert multiset(word) == multiset(tail) + multiset{c};
      match FirstIndex(pool, c)
      case None =>
        assert !Consume(word, pool);
        assert multiset(pool)[c] == 0 < multiset(word)[c];
      case Some(i) =>
        var rest := RemoveAt(pool, i);
        assert Consume(word, pool) == Consume(tail, rest);
        ConsumeIsSubMultiset(tail, rest);
        AddSameKeepsSubMultiset(multiset(tail), multiset(rest), c);
    }
  }

  /** Multiset inclusion cancels one common element added to both sides, in both directions. */
  lemma AddSameKeepsSubMultiset<T>(a: multiset<T>, b: multiset<T>, x: T)
    ensures a + multiset{x} <= b + multiset{x} <==> a <= b
  {
    if a + multiset{x} <= b + multiset{x} {
      forall y ensures a[y] <= b[y] {
        assert (a + multiset{x})[y] <= (b + multiset{x})[y];
      }
    }
  }

  /**
   * `isPossible`: without a title nothing is possible; otherwise the candidate
   * must be spellable from the lower-cased title, each letter used at most as
   * often as it occurs there.
   */
  function IsPossible(title: Option<string>, word: string): (ok: bool)
    ensures ok <==> title.Some? && multiset(word) <= multiset(Lower(title.value))
  {
    match title
    case None => false
    case Some(t) =>
      ConsumeIsSubMultiset(word, Lower(t));
      Consume(word, Lower(t))
  }

  /** The same check as `IsPossible`, written as the source's loop over a mutable copy of the title. */
  method CheckPossible(title: Option<string>, word: string) returns (ok: bool)
    ensures ok <==> title.Some? && multiset(word) <= multiset(Lower(title.value))
  {
    if title.None? {
      return false;
    }
    var temp := Lower(title.value);
    ghost var pool := temp;
    var k := 0;
    while k < |word|
      invariant 0 <= k <= |word|
      invariant multiset(temp) + multiset(word[..k]) == multiset(pool)
    {
      var position := FindFirst(temp, word[k]);
      assert word[..k + 1] == word[..k] + [word[k]];
      if position.None? {
        assert word == word[..k + 1] + word[k + 1..];
        assert multiset(word[..k + 1])[word[k]] > multiset(pool)[word[k]];
        return false;
      }
      temp := RemoveAt(temp, position.value);
      k := k + 1;
    }
    assert word[..k] == word;
    return true;
  }

  /** A candidate with more letters than the title can never be spelt from it. */
  lemma LongerNeverPossible(title: string, word: string)
    requires |word| > |title|
    ensures !IsPossible(Some(title), word)
  {
    if multiset(word) <= multiset(Lower(title)) {
      SubMultisetSize(multiset(word), multiset(Lower(title)));
    }
  }

  /** A sub-multiset is no larger than the multiset that contains it. */
  lemma SubMultisetSize<T>(a: multiset<T>, b: multiset<T>)
    requires a <= b
    ensures |a| <= |b|
  {
    assert b == a + (b - a);
  }

  /** `isOriginal`: the candidate is original exactly when no used word equals it. */
  function IsOriginal(usedWords: seq<string>, word: string): (ok: bool)
    ensures ok <==> forall i :: 0 <= i < |usedWords| ==> usedWords[i] != word
  {
    word !in usedWords
  }

  /**
   * `isReal`: fewer than three UTF-16 units or equality with the (not lower-cased)
   * title rejects the candidate whatever the dictionary says; otherwise the
   * dictionary `known` decides.
   */
  function IsReal(title: Option<string>, word: string, known: string -> bool): (ok: bool)
    ensures Utf16Length(word) < 3 ==> !ok
    ensures title == Some(word) ==> !ok
    ensures Utf16Length(word) >= 3 && title != Some(word) ==> (ok <==> known(word))
  {
    if Utf16Length(word) < 3 then false
    else if title == Some(word) then false
    else known(word)
  }

  /** A candidate of at most one character is never real, and neither is a two-letter plain one. */
  lemma ShortWordNeverReal(title: Option<string>, word: string, known: string -> bool)
    requires |word| < 2 || (|word| == 2 && word[0] as int < 0x1_0000 && word[1] as int < 0x1_0000)
    ensures !IsReal(title, word, known)
  {
    if |word| == 2 {
      Utf16LengthOfBmp(word);
    }
  }

  /** "act" can be spelt from "cat"; "cats" cannot, having one letter too many. */
  lemma PossibleExamples()
    ensures IsPossible(Some("cat"), "act")
    ensures !IsPossible(Some("cat"), "cats")
  {
    assert IsLower("cat");
    assert multiset("act") == multiset("cat") by {
      assert "act" == ['a'] + ['c'] + ['t'];
      assert "cat" == ['c'] + ['a'] + ['t'];
    }
    LongerNeverPossible("cat", "cats");
  }
}
