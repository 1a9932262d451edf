/**
 * The fragment of JavaScript regular expressions that the scam catalogue
 * uses.  Every catalogue pattern has the shape `s1.*s2.*...*sn` with the `i`
 * flag, where each `sk` is a run of literal characters and `\d`.  `.` does
 * not match a line terminator, so the gaps between the runs stay on one line.
 * `\d+` is written as one `\d`: in the catalogue it is always followed by
 * `.*` or by the end of the pattern, which absorb any further digits.
 * `test` on a non-global expression searches anywhere in the message.
 */
module Regex {
  import opened Text

  /** One position of a run: a literal compared case-insensitively, or `\d`. */
  datatype Atom = Ch(c: char) | Digit

  type Segment = seq<Atom>

  /** The runs `s1`, ..., `sn` of `s1.*s2.*...*sn`. */
  type Pattern = seq<Segment>

  /** A run made of literal characters only. */
  function Lit(s: string): Segment
  {
    seq(|s|, i requires 0 <= i < |s| => Ch(s[i]))
  }

  predicate AtomMatches(a: Atom, x: char)
  {
    match a
    case Ch(c) => LowerChar(x) == LowerChar(c)
    case Digit => IsDigit(x)
  }

  /** The run `seg` occurs in `msg` starting at position `j`. */
  predicate SegmentAt(seg: Segment, msg: string, j: int)
  {
    0 <= j && j + |seg| <= |msg| &&
    forall k :: 0 <= k < |seg| ==> AtomMatches(seg[k], msg[j + k])
  }

  /** `msg[i..j]` can be consumed by `.*`. */
  predicate LineFree(msg: string, i: int, j: int)
    requires 0 <= i <= j <= |msg|
  {
    forall k :: i <= k < j ==> !IsLineTerminator(msg[k])
  }

  /** The runs of `p` occur in order from position `from` on, each after a gap `.*` can consume. */
  predicate MatchAfter(p: Pattern, msg: string, from: int)
    requires 0 <= from <= |msg|
    decreases |p|
  {
    p == [] ||
    exists j | from <= j <= |msg| - |p[0]| ::
      LineFree(msg, from, j) && SegmentAt(p[0], msg, j) && MatchAfter(p[1..], msg, j + |p[0]|)
  }

  /** The pattern matches somewhere in `msg`: the first run occurs anywhere and the others follow it. */
  predicate Test(p: Pattern, msg: string)
  {
    p == [] ||
    exists j | 0 <= j <= |msg| - |p[0]| :: SegmentAt(p[0], msg, j) && MatchAfter(p[1..], msg, j + |p[0]|)
  }

  lemma SegmentAtIgnoresCase(seg: Segment, msg: string, j: int)
    ensures SegmentAt(seg, Lower(msg), j) == SegmentAt(seg, msg, j)
  {
    if 0 <= j && j + |seg| <= |msg| {
      forall k | 0 <= k < |seg|
        ensures AtomMatches(seg[k], Lower(msg)[j + k]) == AtomMatches(seg[k], msg[j + k])
      {
        LowerCharKeepsClasses(msg[j + k]);
      }
    }
  }

  lemma LineFreeIgnoresCase(msg: string, i: int, j: int)
    requires 0 <= i <= j <= |msg|
    ensures LineFree(Lower(msg), i, j) == LineFree(msg, i, j)
  {
    forall k | i <= k < j
      ensures IsLineTerminator(Lower(msg)[k]) == IsLineTerminator(msg[k])
    {
      LowerCharKeepsClasses(msg[k]);
    }
  }

  lemma {:induction false} MatchAfterIgnoresCase(p: Pattern, msg: string, from: int)
    requires 0 <= from <= |msg|
    ensures MatchAfter(p, Lower(msg), from) == MatchAfter(p, msg, from)
    decreases |p|
  {
    if p != [] {
      var low := Lower(msg);
      if MatchAfter(p, msg, from) {
        var j :| from <= j <= |msg| - |p[0]| &&
          LineFree(msg, from, j) && SegmentAt(p[0], msg, j) && MatchAfter(p[1..], msg, j + |p[0]|);
        LineFreeIgnoresCase(msg, from, j);
        SegmentAtIgnoresCase(p[0], msg, j);
        MatchAfterIgnoresCase(p[1..], msg, j + |p[0]|);
        assert LineFree(low, from, j) && SegmentAt(p[0], low, j) && MatchAfter(p[1..], low, j + |p[0]|);
      }
      if MatchAfter(p, low, from) {
        var j :| from <= j <= |low| - |p[0]| &&
          LineFree(low, from, j) && SegmentAt(p[0], low, j) && MatchAfter(p[1..], low, j + |p[0]|);
        LineFreeIgnoresCase(msg, from, j);
        SegmentAtIgnoresCase(p[0], msg, j);
        MatchAfterIgnoresCase(p[1..], msg, j + |p[0]|);
        assert LineFree(msg, from, j) && SegmentAt(p[0], msg, j) && MatchAfter(p[1..], msg, j + |p[0]|);
      }
    }
  }

  /** The `i` flag: a pattern gives the same answer on a message and on its lower-cased copy. */
  lemma TestIgnoresCase(p: Pattern, msg: string)
    ensures Test(p, Lower(msg)) == Test(p, msg)
  {
    if p != [] {
      var low := Lower(msg);
      if Test(p, msg) {
        var j :| 0 <= j <= |msg| - |p[0]| && SegmentAt(p[0], msg, j) && MatchAfter(p[1..], msg, j + |p[0]|);
        SegmentAtIgnoresCase(p[0], msg, j);
        MatchAfterIgnoresCase(p[1..], msg, j + |p[0]|);
        assert SegmentAt(p[0], low, j) && MatchAfter(p[1..], low, j + |p[0]|);
      }
      if Test(p, low) {
        var j :| 0 <= j <= |low| - |p[0]| && SegmentAt(p[0], low, j) && MatchAfter(p[1..], low, j + |p[0]|);
        SegmentAtIgnoresCase(p[0], msg, j);
        MatchAfterIgnoresCase(p[1..], msg, j + |p[0]|);
        assert SegmentAt(p[0], msg, j) && MatchAfter(p[1..], msg, j + |p[0]|);
      }
    }
  }
}
