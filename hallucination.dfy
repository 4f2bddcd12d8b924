/** The repetition detector of the live transcriber
    (`WhisperSession._is_hallucinated`): a chunk's text is rejected when some
    phrase of 3 to 6 words repeats back to back more than `maxRepeats` times. */
module Hallucination {
  import opened TextUtil

  /** Texts shorter than this many characters are never rejected. */
  const MinChars := 30
  /** Texts with fewer words than this are never rejected. */
  const MinWords := 6
  const MinGram := 3
  const MaxGram := 6

  /** How many times `gram` occurs back to back in `words` from position `i`. */
  function Repeats(words: seq<string>, gram: seq<string>, i: nat): nat
    requires gram != []
    decreases |words| - i
  {
    if i + |gram| <= |words| && words[i..i + |gram|] == gram
    then 1 + Repeats(words, gram, i + |gram|)
    else 0
  }

  /** The n-gram of size `n` starting at word `s` repeats back to back more
      than `maxRepeats` times from `s` on. */
  predicate RepeatsTooOften(words: seq<string>, n: nat, s: nat, maxRepeats: int)
    requires 0 < n && s + n <= |words|
  {
    Repeats(words, words[s..s + n], s) > maxRepeats
  }

  /** `_is_hallucinated(text, max_repeats)` as a search: false for texts under
      30 characters or under 6 words, otherwise some n-gram size from 3 on
      has a repeating start. `HallucinatedIff` restates it as an existence
      claim over sizes and starts. */
  predicate Hallucinated(text: string, maxRepeats: int) {
    |text| >= MinChars &&
    var words := Split(text);
    |words| >= MinWords && SomeGramRepeats(words, MinGram, maxRepeats)
  }

  /** Some n-gram size from `n` up to the smaller of 6 and half the word
      count has a start whose n-gram repeats too often. */
  predicate SomeGramRepeats(words: seq<string>, n: nat, maxRepeats: int)
    requires n > 0
    decreases MaxGram + 1 - n
  {
    if n > MaxGram || n > |words| / 2 then false
    else SomeStartRepeatsFrom(words, n, 0, maxRepeats) || SomeGramRepeats(words, n + 1, maxRepeats)
  }

  /** Some start from `s` on whose n-gram of size `n` repeats too often. */
  predicate SomeStartRepeatsFrom(words: seq<string>, n: nat, s: nat, maxRepeats: int)
    requires n > 0
    decreases |words| - s
  {
    if s + n > |words| then false
    else RepeatsTooOften(words, n, s, maxRepeats) || SomeStartRepeatsFrom(words, n, s + 1, maxRepeats)
  }

  lemma {:induction false} SomeStartRepeatsFromIff(words: seq<string>, n: nat, s: nat, maxRepeats: int)
    requires n > 0
    ensures SomeStartRepeatsFrom(words, n, s, maxRepeats)
            <==> exists s' :: s <= s' && s' + n <= |words| && RepeatsTooOften(words, n, s', maxRepeats)
    decreases |words| - s
  {
    if s + n <= |words| {
      SomeStartRepeatsFromIff(words, n, s + 1, maxRepeats);
      if exists s' :: s <= s' && s' + n <= |words| && RepeatsTooOften(words, n, s', maxRepeats) {
        var s' :| s <= s' && s' + n <= |words| && RepeatsTooOften(words, n, s', maxRepeats);
        assert s' == s || (s + 1 <= s' && s' + n <= |words| && RepeatsTooOften(words, n, s', maxRepeats));
      }
    }
  }

  lemma {:induction false} SomeGramRepeatsIff(words: seq<string>, n: nat, maxRepeats: int)
    requires n > 0
    ensures SomeGramRepeats(words, n, maxRepeats)
            <==> exists n', s :: n <= n' <= MaxGram && n' <= |words| / 2 && 0 <= s && s + n' <= |words|
                                 && RepeatsTooOften(words, n', s, maxRepeats)
    decreases MaxGram + 1 - n
  {
    if n <= MaxGram && n <= |words| / 2 {
      SomeStartRepeatsFromIff(words, n, 0, maxRepeats);
      SomeGramRepeatsIff(words, n + 1, maxRepeats);
      if exists n', s :: n <= n' <= MaxGram && n' <= |words| / 2 && 0 <= s && s + n' <= |words|
                         && RepeatsTooOften(words, n', s, maxRepeats) {
        var n', s :| n <= n' <= MaxGram && n' <= |words| / 2 && 0 <= s && s + n' <= |words|
                     && RepeatsTooOften(words, n', s, maxRepeats);
        if n' == n {
          assert SomeStartRepeatsFrom(words, n, 0, maxRepeats);
        } else {
          assert SomeGramRepeats(words, n + 1, maxRepeats);
        }
      }
    }
  }

  /** The detector's promise: false for texts under 30 characters or under 6
      words; otherwise true exactly when some n-gram whose size lies between 3
      and the smaller of 6 and half the word count, from some start, repeats
      back to back more than `maxRepeats` times. */
  lemma HallucinatedIff(text: string, maxRepeats: int)
    ensures Hallucinated(text, maxRepeats)
            <==> |text| >= MinChars && |Split(text)| >= MinWords &&
                 exists n, s :: MinGram <= n <= MaxGram && n <= |Split(text)| / 2 && 0 <= s && s + n <= |Split(text)|
                                && RepeatsTooOften(Split(text), n, s, maxRepeats)
  {
    SomeGramRepeatsIff(Split(text), MinGram, maxRepeats);
  }

  /** `_is_hallucinated(text, max_repeats)`. Its three nested loops are the
      methods `IsHallucinated` (over the n-gram sizes), `SomeStartRepeats` (over
      the start positions) and `CountRepeats` (the innermost `while` counting
      back-to-back copies). */
  method IsHallucinated(text: string, maxRepeats: int) returns (b: bool)
    ensures b == Hallucinated(text, maxRepeats)
  {
    if |text| < MinChars {
      return false;
    }
    var words := Split(text);
    if |words| < MinWords {
      return false;
    }
    SplitValid(text);
    b := SomeGram(words, maxRepeats);
  }

  /** The loop over n-gram sizes, from 3 up to the smaller of 6 and half the
      word count. */
  method SomeGram(words: seq<string>, maxRepeats: int) returns (b: bool)
    requires ValidWords(words)
    ensures b == SomeGramRepeats(words, MinGram, maxRepeats)
  {
    var upper := if 7 < |words| / 2 + 1 then 7 else |words| / 2 + 1;
    var n := MinGram;
    while n < upper
      invariant MinGram <= n
      invariant n <= upper || n == MinGram
      invariant SomeGramRepeats(words, MinGram, maxRepeats) == SomeGramRepeats(words, n, maxRepeats)
    {
      var found := SomeStartRepeats(words, n, maxRepeats);
      if found {
        return true;
      }
      n := n + 1;
    }
    return false;
  }

  /** The loop over start positions for one n-gram size: true as soon as the
      n-gram at some start repeats back to back more than `maxRepeats` times. */
  method SomeStartRepeats(words: seq<string>, n: nat, maxRepeats: int) returns (found: bool)
    requires ValidWords(words) && 0 < n <= |words|
    ensures found == SomeStartRepeatsFrom(words, n, 0, maxRepeats)
  {
    var start := 0;
    while start < |words| - n + 1
      invariant 0 <= start <= |words| - n + 1
      invariant SomeStartRepeatsFrom(words, n, 0, maxRepeats) == SomeStartRepeatsFrom(words, n, start, maxRepeats)
    {
      var count := CountRepeats(words, start, n);
      if count > maxRepeats {
        return true;
      }
      start := start + 1;
    }
    return false;
  }

  /** The innermost loop: count back-to-back copies of the n-gram at `start`,
      comparing space-joined strings as the source does. */
  method CountRepeats(words: seq<string>, start: nat, n: nat) returns (count: nat)
    requires ValidWords(words) && 0 < n && start + n <= |words|
    ensures count == Repeats(words, words[start..start + n], start)
  {
    var gram := words[start..start + n];
    var ngram := JoinSpace(gram);
    count := 0;
    var i := start;
    while i + n <= |words|
      invariant start <= i
      invariant count + Repeats(words, gram, i) == Repeats(words, gram, start)
      decreases |words| - i
    {
      var candidate := JoinSpace(words[i..i + n]);
      JoinSpaceInjective(words[i..i + n], gram);
      if candidate == ngram {
        count := count + 1;
        i := i + n;
      } else {
        break;
      }
    }
  }

  /** `k` back-to-back copies of `gram`. */
  function Repeated(gram: seq<string>, k: nat): (r: seq<string>)
    ensures |r| == k * |gram|
  {
    if k == 0 then [] else gram + Repeated(gram, k - 1)
  }

  lemma {:induction false} RepeatsOfRepeated(gram: seq<string>, k: nat, tail: seq<string>)
    requires gram != []
    ensures Repeats(Repeated(gram, k) + tail, gram, 0) >= k
    decreases k
  {
    if k > 0 {
      var w := Repeated(gram, k) + tail;
      assert w == gram + (Repeated(gram, k - 1) + tail);
      assert w[..|gram|] == gram;
      RepeatsOfRepeated(gram, k - 1, tail);
      RepeatsShift(gram, Repeated(gram, k - 1) + tail, gram, 0);
    }
  }

  /** Prepending a prefix shifts every position by its length. */
  lemma {:induction false} RepeatsShift(prefix: seq<string>, words: seq<string>, gram: seq<string>, i: nat)
    requires gram != []
    ensures Repeats(prefix + words, gram, |prefix| + i) == Repeats(words, gram, i)
    decreases |words| - i
  {
    var w := prefix + words;
    if i + |gram| <= |words| {
      assert w[|prefix| + i..|prefix| + i + |gram|] == words[i..i + |gram|];
      if words[i..i + |gram|] == gram {
        RepeatsShift(prefix, words, gram, i + |gram|);
      }
    }
  }

  /** A phrase of 3 to 6 words repeated back to back more than `maxRepeats`
      times (and at least twice) is always rejected once the text has 30
      characters. */
  lemma RepeatedPhraseIsHallucinated(gram: seq<string>, k: nat, maxRepeats: int)
    requires ValidWords(gram) && MinGram <= |gram| <= MaxGram
    requires k >= 2 && k > maxRepeats
    requires |JoinSpace(Repeated(gram, k))| >= MinChars
    ensures Hallucinated(JoinSpace(Repeated(gram, k)), maxRepeats)
  {
    var words := Repeated(gram, k);
    ValidRepeated(gram, k);
    SplitJoinSpace(words);
    assert words == words + [];
    RepeatsOfRepeated(gram, k, []);
    assert words[0..|gram|] == gram by {
      assert words == gram + Repeated(gram, k - 1);
    }
    assert RepeatsTooOften(words, |gram|, 0, maxRepeats);
    HallucinatedIff(JoinSpace(words), maxRepeats);
  }

  lemma {:induction false} ValidRepeated(gram: seq<string>, k: nat)
    requires ValidWords(gram)
    ensures ValidWords(Repeated(gram, k))
    decreases k
  {
    if k > 0 {
      ValidRepeated(gram, k - 1);
      var r := Repeated(gram, k);
      assert r == gram + Repeated(gram, k - 1);
      forall i | 0 <= i < |r| ensures r[i] != [] && NoSpace(r[i]) {
        if i >= |gram| {
          assert r[i] == Repeated(gram, k - 1)[i - |gram|];
        }
      }
    }
  }

  predicate Distinct(words: seq<string>) {
    forall i, j :: 0 <= i < j < |words| ==> words[i] != words[j]
  }

  /** With `maxRepeats >= 1`, a rejection needs two adjacent equal n-grams, so a
      text whose words are pairwise distinct is never rejected. */
  lemma DistinctWordsNotHallucinated(text: string, maxRepeats: int)
    requires maxRepeats >= 1 && Distinct(Split(text))
    ensures !Hallucinated(text, maxRepeats)
  {
    DistinctNoGramRepeats(Split(text), maxRepeats);
  }

  lemma DistinctNoGramRepeats(words: seq<string>, maxRepeats: int)
    requires maxRepeats >= 1 && Distinct(words)
    ensures !SomeGramRepeats(words, MinGram, maxRepeats)
  {
    forall n, s | MinGram <= n <= MaxGram && 0 <= s && s + n <= |words|
      ensures !RepeatsTooOften(words, n, s, maxRepeats)
    {
      TwoRepeatsRepeatFirstWord(words, words[s..s + n], s);
    }
    SomeGramRepeatsIff(words, MinGram, maxRepeats);
  }

  /** Two back-to-back copies put the n-gram's first word at `i` and at `i + n`. */
  lemma TwoRepeatsRepeatFirstWord(words: seq<string>, gram: seq<string>, i: nat)
    requires gram != []
    ensures Repeats(words, gram, i) >= 2
            ==> i + 2 * |gram| <= |words| && words[i] == words[i + |gram|]
  {
    if Repeats(words, gram, i) >= 2 {
      var n := |gram|;
      assert words[i..i + n] == gram;
      assert Repeats(words, gram, i + n) >= 1;
      assert words[i + n..i + 2 * n] == gram;
      assert words[i] == gram[0];
      assert words[i + n] == gram[0];
    }
  }
}
