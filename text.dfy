/** Python string primitives used by the backend: `str.isspace`, `str.strip()`,
    `str.split()` with no argument, `" ".join`, `str.startswith`, substring
    containment and the slice `s[-n:]`. Strings are sequences of Unicode scalar
    values, as Python's `str` is a sequence of code points. */
module TextUtil {

  /** Python's `str.isspace` for one code point (the characters whose Unicode
      bidirectional class is WS, B or S, or whose category is Zs). */
  predicate IsSpace(c: char) {
    c == ' ' || ('\t' <= c <= '\r') || ('\U{1C}' <= c <= '\U{1F}')
    || c == '\U{85}' || c == '\U{A0}' || c == '\U{1680}'
    || ('\U{2000}' <= c <= '\U{200A}') || c == '\U{2028}' || c == '\U{2029}'
    || c == '\U{202F}' || c == '\U{205F}' || c == '\U{3000}'
  }

  predicate NoSpace(s: string) {
    forall i :: 0 <= i < |s| ==> !IsSpace(s[i])
  }

  predicate AllSpace(s: string) {
    forall i :: 0 <= i < |s| ==> IsSpace(s[i])
  }

  /** `s.lstrip()` */
  function TrimLeft(s: string): (r: string)
    ensures |r| <= |s| && r == s[|s| - |r|..]
    ensures r == [] || !IsSpace(r[0])
  {
    if s != [] && IsSpace(s[0]) then TrimLeft(s[1..]) else s
  }

  /** What `lstrip()` drops is whitespace. */
  lemma {:induction false} TrimLeftDropsSpace(s: string)
    ensures AllSpace(s[..|s| - |TrimLeft(s)|])
    decreases |s|
  {
    if s != [] && IsSpace(s[0]) {
      TrimLeftDropsSpace(s[1..]);
      var k := |s| - |TrimLeft(s)|;
      forall i | 0 <= i < k ensures IsSpace(s[..k][i]) {
        if i > 0 {
          assert s[..k][i] == s[1..][..k - 1][i - 1];
        }
      }
    }
  }

  /** `s.rstrip()` */
  function TrimRight(s: string): (r: string)
    ensures |r| <= |s| && r == s[..|r|]
    ensures r == [] || !IsSpace(r[|r| - 1])
  {
    if s != [] && IsSpace(s[|s| - 1]) then TrimRight(s[..|s| - 1]) else s
  }

  /** What `rstrip()` drops is whitespace. */
  lemma {:induction false} TrimRightDropsSpace(s: string)
    ensures AllSpace(s[|TrimRight(s)|..])
    decreases |s|
  {
    if s != [] && IsSpace(s[|s| - 1]) {
      var p := s[..|s| - 1];
      TrimRightDropsSpace(p);
      var k := |TrimRight(s)|;
      forall i | 0 <= i < |s| - k ensures IsSpace(s[k..][i]) {
        if k + i < |s| - 1 {
          assert s[k..][i] == p[k..][i];
        }
      }
    }
  }

  /** `s.strip()` */
  function Strip(s: string): string {
    TrimRight(TrimLeft(s))
  }

  /** What `strip()` keeps is a contiguous piece of the input that neither
      begins nor ends with whitespace, and everything it drops is whitespace. */
  lemma StripIsTrimmedInfix(s: string)
    ensures exists lo, hi :: 0 <= lo <= hi <= |s| && Strip(s) == s[lo..hi]
                              && AllSpace(s[..lo]) && AllSpace(s[hi..])
  {
    var t := TrimLeft(s);
    var lo := |s| - |t|;
    var r := TrimRight(t);
    TrimLeftDropsSpace(s);
    TrimRightDropsSpace(t);
    assert r == s[lo..lo + |r|];
    assert s[lo + |r|..] == t[|r|..];
  }

  /** What `strip()` keeps neither begins nor ends with whitespace. */
  lemma StripEnds(s: string)
    ensures Strip(s) == [] || (!IsSpace(Strip(s)[0]) && !IsSpace(Strip(s)[|Strip(s)| - 1]))
  {
    var t := TrimLeft(s);
    var r := TrimRight(t);
    if r != [] {
      assert r[0] == t[0];
    }
  }

  /** "The stripped text is empty" means "the text is all whitespace". */
  lemma StripEmptyIffAllSpace(s: string)
    ensures Strip(s) == [] <==> AllSpace(s)
  {
    var t := TrimLeft(s);
    assert s == s[..|s| - |t|] + t;
    TrimLeftDropsSpace(s);
    if AllSpace(s) {
      AllSpaceTrimLeft(s);
    }
    if Strip(s) == [] {
      TrimRightDropsSpace(t);
      assert t[0..] == t;
      assert |t| == 0;
      assert s[..|s| - |t|] == s;
    }
  }

  lemma AllSpaceTrimLeft(s: string)
    requires AllSpace(s)
    ensures TrimLeft(s) == []
  {
    if s != [] {
      AllSpaceTrimLeft(s[1..]);
    }
  }

  /** The longest whitespace-free prefix of `s`. */
  function Word(s: string): (w: string)
    ensures |w| <= |s| && w == s[..|w|]
    ensures |w| == |s| || IsSpace(s[|w|])
    ensures s != [] && !IsSpace(s[0]) ==> w != []
  {
    if s == [] || IsSpace(s[0]) then [] else [s[0]] + Word(s[1..])
  }

  lemma {:induction false} WordNoSpace(s: string)
    ensures NoSpace(Word(s))
    decreases |s|
  {
    if s != [] && !IsSpace(s[0]) {
      WordNoSpace(s[1..]);
      var w := Word(s);
      assert w == [s[0]] + Word(s[1..]);
      forall i | 0 <= i < |w| ensures !IsSpace(w[i]) {
        if i > 0 {
          assert w[i] == Word(s[1..])[i - 1];
        }
      }
    }
  }

  /** `s.split()`: the maximal runs of non-whitespace characters, in order. */
  function Split(s: string): seq<string>
    decreases |s|
  {
    var t := TrimLeft(s);
    if t == [] then [] else
      var w := Word(t);
      [w] + Split(t[|w|..])
  }

  /** Every word `split()` yields is non-empty and free of whitespace. */
  lemma {:induction false} SplitValid(s: string)
    ensures ValidWords(Split(s))
    decreases |s|
  {
    var t := TrimLeft(s);
    if t != [] {
      var w := Word(t);
      WordNoSpace(t);
      SplitValid(t[|w|..]);
      ValidCons(w, Split(t[|w|..]));
    }
  }

  lemma ValidCons(w: string, rest: seq<string>)
    requires w != [] && NoSpace(w) && ValidWords(rest)
    ensures ValidWords([w] + rest)
  {
    forall i | 0 <= i < 1 + |rest| ensures ([w] + rest)[i] != [] && NoSpace(([w] + rest)[i]) {
      if i > 0 {
        assert ([w] + rest)[i] == rest[i - 1];
      }
    }
  }

  /** `" ".join(words)` */
  function JoinSpace(words: seq<string>): string {
    if |words| == 0 then ""
    else if |words| == 1 then words[0]
    else words[0] + " " + JoinSpace(words[1..])
  }

  predicate ValidWords(words: seq<string>) {
    forall i :: 0 <= i < |words| ==> words[i] != [] && NoSpace(words[i])
  }

  lemma WordOfJoined(w: string, rest: string)
    requires NoSpace(w)
    ensures Word(w + " " + rest) == w
  {
    if w != [] {
      assert (w + " " + rest)[1..] == w[1..] + " " + rest;
      WordOfJoined(w[1..], rest);
    }
  }

  /** Splitting a space-joined list of words gives the words back. */
  lemma {:induction false} SplitJoinSpace(words: seq<string>)
    requires ValidWords(words)
    ensures Split(JoinSpace(words)) == words
    decreases |words|
  {
    if |words| == 1 {
      SplitSingle(words[0]);
    } else if |words| > 1 {
      SplitJoinSpace(words[1..]);
      SplitCons(words[0], JoinSpace(words[1..]));
      assert words == [words[0]] + words[1..];
    }
  }

  /** One word splits to itself. */
  lemma SplitSingle(w: string)
    requires w != [] && NoSpace(w)
    ensures Split(w) == [w]
  {
    assert TrimLeft(w) == w;
    WordPrefixOfNoSpace(w);
    assert w[|w|..] == [];
  }

  /** A word, a space and anything: the word comes first. */
  lemma SplitCons(w: string, rest: string)
    requires w != [] && NoSpace(w)
    ensures Split(w + " " + rest) == [w] + Split(rest)
  {
    var j := w + " " + rest;
    assert j[0] == w[0];
    assert TrimLeft(j) == j;
    WordOfJoined(w, rest);
    assert j[|w|..] == " " + rest;
    SplitLeadingSpace(rest);
  }

  lemma SplitLeadingSpace(rest: string)
    ensures Split(" " + rest) == Split(rest)
  {
    assert (" " + rest)[1..] == rest;
    assert TrimLeft(" " + rest) == TrimLeft(rest);
  }

  lemma {:induction false} WordPrefixOfNoSpace(w: string)
    requires NoSpace(w)
    ensures Word(w) == w
    decreases |w|
  {
    if w != [] {
      WordPrefixOfNoSpace(w[1..]);
      assert w == [w[0]] + w[1..];
    }
  }

  /** `" ".join` is injective on lists of whitespace-free, non-empty words. */
  lemma JoinSpaceInjective(a: seq<string>, b: seq<string>)
    requires ValidWords(a) && ValidWords(b)
    ensures JoinSpace(a) == JoinSpace(b) <==> a == b
  {
    if JoinSpace(a) == JoinSpace(b) {
      SplitJoinSpace(a);
      SplitJoinSpace(b);
    }
  }

  /** `s.startswith(p)` */
  predicate StartsWith(s: string, p: string) {
    |p| <= |s| && s[..|p|] == p
  }

  /** Python's `w in doc` for strings: `w` occurs as a contiguous substring. */
  predicate Contains(doc: string, w: string) {
    exists i :: 0 <= i <= |doc| - |w| && OccursAt(doc, w, i)
  }

  predicate OccursAt(doc: string, w: string, i: int) {
    0 <= i <= |doc| - |w| && doc[i..i + |w|] == w
  }

  /** `s[-n:]` for `n > 0`: the last `n` characters (all of `s` if it is shorter). */
  function LastN(s: string, n: nat): (r: string)
    ensures |r| == if |s| < n then |s| else n
    ensures r == s[|s| - |r|..]
  {
    if |s| <= n then s else s[|s| - n..]
  }

  /** A lower-casing that maps ASCII `A`..`Z` to `a`..`z` and keeps every other
      character; Python's full Unicode `str.lower` is not modelled. */
  function AsciiLower(s: string): (r: string)
    ensures |r| == |s|
    ensures forall i :: 0 <= i < |s| ==> r[i] == LowerChar(s[i])
  {
    if s == [] then [] else [LowerChar(s[0])] + AsciiLower(s[1..])
  }

  function LowerChar(c: char): char {
    if 'A' <= c <= 'Z' then (c as int + 32) as char else c
  }

  /** `str(n)` for a natural number: its decimal digits. */
  function Decimal(n: nat): (r: string)
    ensures |r| > 0
    decreases n
  {
    if n < 10 then [DigitChar(n)] else Decimal(n / 10) + [DigitChar(n % 10)]
  }

  function DigitChar(d: nat): char
    requires d < 10
  {
    ('0' as int + d) as char
  }

  /** `sep.join(items)`. */
  function Join(sep: string, items: seq<string>): string {
    if items == [] then ""
    else if |items| == 1 then items[0]
    else items[0] + sep + Join(sep, items[1..])
  }

  /** `"".join(parts)`: the parts one after the other. */
  function Concat(parts: seq<string>): string {
    if parts == [] then "" else parts[0] + Concat(parts[1..])
  }

  lemma {:induction false} ConcatAppend(a: seq<string>, b: seq<string>)
    ensures Concat(a + b) == Concat(a) + Concat(b)
    decreases |a|
  {
    if a == [] {
      assert a + b == b;
    } else {
      assert (a + b)[1..] == a[1..] + b;
      ConcatAppend(a[1..], b);
    }
  }
}
