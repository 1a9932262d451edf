/**
 * Character classes and string helpers shared by the pattern matcher and
 * the classifier.  Case folding is ASCII-only: the catalogue's patterns and
 * keywords are ASCII apart from the rupee sign, which has no case.
 */
module Text {

  /** ASCII lower-casing of one character; every other character is kept. */
  function LowerChar(c: char): char
  {
    if 'A' <= c <= 'Z' then (c as int - 'A' as int + 'a' as int) as char else c
  }

  /** The lower-cased copy of a message that the keyword counts work on. */
  function Lower(s: string): string
  {
    seq(|s|, i requires 0 <= i < |s| => LowerChar(s[i]))
  }

  /** `\d` of a JavaScript regular expression without the `u` flag. */
  predicate IsDigit(c: char)
  {
    '0' <= c <= '9'
  }

  /** `\w`, the characters that `\b` separates from the rest. */
  predicate IsWordChar(c: char)
  {
    'a' <= c <= 'z' || 'A' <= c <= 'Z' || IsDigit(c) || c == '_'
  }

  /** The characters that `.` does not match in a JavaScript regular expression. */
  predicate IsLineTerminator(c: char)
  {
    c == '\n' || c == '\r' || c == '\U{2028}' || c == '\U{2029}'
  }

  /** `word` occurs in `text` as a contiguous substring. */
  predicate Contains(text: string, word: string)
  {
    exists i | 0 <= i <= |text| - |word| :: OccursAt(text, word, i)
  }

  predicate OccursAt(text: string, word: string, i: int)
  {
    0 <= i && i + |word| <= |text| && text[i..i + |word|] == word
  }

  /** Lower-casing keeps every character class used by the matcher. */
  lemma LowerCharKeepsClasses(c: char)
    ensures LowerChar(LowerChar(c)) == LowerChar(c)
    ensures IsDigit(LowerChar(c)) == IsDigit(c)
    ensures IsWordChar(LowerChar(c)) == IsWordChar(c)
    ensures IsLineTerminator(LowerChar(c)) == IsLineTerminator(c)
  {
  }

  lemma LowerIdempotent(s: string)
    ensures Lower(Lower(s)) == Lower(s)
  {
    forall i | 0 <= i < |s|
      ensures Lower(Lower(s))[i] == Lower(s)[i]
    {
      LowerCharKeepsClasses(s[i]);
    }
  }

  /**
   * `xs` is `ys` with some elements left out, the rest in their order.
   * Stated from the back, the way the classifier's lists grow.
   */
  predicate IsSubsequence<T(==)>(xs: seq<T>, ys: seq<T>)
    decreases |ys|
  {
    if xs == [] then true
    else if ys == [] then false
    else (xs[|xs| - 1] == ys[|ys| - 1] && IsSubsequence(xs[..|xs| - 1], ys[..|ys| - 1]))
         || IsSubsequence(xs, ys[..|ys| - 1])
  }

  lemma {:induction false} SubsequenceBounds<T>(xs: seq<T>, ys: seq<T>)
    requires IsSubsequence(xs, ys)
    ensures |xs| <= |ys|
    ensures forall x :: x in xs ==> x in ys
    decreases |ys|
  {
    if xs != [] {
      assert ys != [];
      var xs', ys' := xs[..|xs| - 1], ys[..|ys| - 1];
      if xs[|xs| - 1] == ys[|ys| - 1] && IsSubsequence(xs', ys') {
        SubsequenceBounds(xs', ys');
        assert xs == xs' + [ys[|ys| - 1]];
        assert ys == ys' + [ys[|ys| - 1]];
      } else {
        SubsequenceBounds(xs, ys');
        assert ys == ys' + [ys[|ys| - 1]];
      }
    }
  }

  lemma {:induction false} SubsequenceOfLonger<T>(xs: seq<T>, ys: seq<T>, zs: seq<T>)
    requires IsSubsequence(xs, ys)
    ensures IsSubsequence(xs, ys + zs)
    decreases |zs|
  {
    if zs != [] {
      SubsequenceOfLonger(xs, ys, zs[..|zs| - 1]);
      assert (ys + zs)[..|ys + zs| - 1] == ys + zs[..|zs| - 1];
      if xs != [] {
        assert IsSubsequence(xs, (ys + zs)[..|ys + zs| - 1]);
      }
    } else {
      assert ys + zs == ys;
    }
  }

  lemma {:induction false} SubsequenceAppend<T>(a: seq<T>, b: seq<T>, c: seq<T>, d: seq<T>)
    requires IsSubsequence(a, b) && IsSubsequence(c, d)
    ensures IsSubsequence(a + c, b + d)
    decreases |d|
  {
    if c == [] {
      assert a + c == a;
      SubsequenceOfLonger(a, b, d);
    } else {
      assert d != [];
      var c', d' := c[..|c| - 1], d[..|d| - 1];
      assert (a + c)[..|a + c| - 1] == a + c';
      assert (b + d)[..|b + d| - 1] == b + d';
      if c[|c| - 1] == d[|d| - 1] && IsSubsequence(c', d') {
        SubsequenceAppend(a, b, c', d');
      } else {
        SubsequenceAppend(a, b, c, d');
      }
    }
  }
}
