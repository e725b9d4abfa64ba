/**
 * The timestamp clean-up in `ConfluencePage.__init__`: Confluence reports the
 * last change as `2016-09-30T15:06:29.902+02:00`, and the script deletes the
 * colon of the UTC offset so that `strptime`'s `%z` accepts it.
 */
module ConfluencePage {

  /**
   * `if s[-3] == ":": s = s[0:-3] + s[-2:]`. Python's `s[-3]` raises on a
   * string shorter than three characters, hence the precondition.
   */
  function NormaliseOffset(s: string): (r: string)
    requires |s| >= 3
    ensures r == s <==> s[|s| - 3] != ':'
    ensures r != s ==> |r| == |s| - 1
  {
    if s[|s| - 3] == ':' then s[..|s| - 3] + s[|s| - 2..] else s
  }

  /** The inverse rewrite: put a colon before the last two characters. */
  function InsertOffsetColon(t: string): (s: string)
    requires |t| >= 2
    ensures |s| == |t| + 1 && s[|s| - 3] == ':'
  {
    t[..|t| - 2] + ":" + t[|t| - 2..]
  }

  /**
   * A colon in third-from-last position is the only character removed: the
   * part before it and the last two characters stay as they were.
   */
  lemma RemovesOffsetColon(s: string)
    requires |s| >= 3 && s[|s| - 3] == ':'
    ensures |NormaliseOffset(s)| == |s| - 1
    ensures NormaliseOffset(s)[..|s| - 3] == s[..|s| - 3]
    ensures NormaliseOffset(s)[|s| - 3..] == s[|s| - 2..]
    ensures forall i :: 0 <= i < |s| - 1 ==> NormaliseOffset(s)[i] == if i < |s| - 3 then s[i] else s[i + 1]
    ensures multiset(NormaliseOffset(s)) + multiset{':'} == multiset(s)
  {
    var r := NormaliseOffset(s);
    assert s == s[..|s| - 3] + [s[|s| - 3]] + s[|s| - 2..];
    assert r == s[..|s| - 3] + s[|s| - 2..];
  }

  /**
   * The rewrite is idempotent unless it removes a colon that has another colon
   * just before it: a string without a colon third from last is left alone, and
   * one with it is idempotent when the character before that colon is not a colon.
   */
  lemma NormaliseIdempotent(s: string)
    requires |s| >= 3 && (s[|s| - 3] != ':' || (|s| >= 4 && s[|s| - 4] != ':'))
    ensures |NormaliseOffset(s)| >= 3
    ensures NormaliseOffset(NormaliseOffset(s)) == NormaliseOffset(s)
  {
  }

  /** Normalising undoes inserting the colon. */
  lemma NormaliseInsertOffsetColon(t: string)
    requires |t| >= 2
    ensures NormaliseOffset(InsertOffsetColon(t)) == t
  {
  }

  /** Inserting the colon undoes normalising an offset that had one. */
  lemma InsertOffsetColonNormalise(s: string)
    requires |s| >= 3 && s[|s| - 3] == ':'
    ensures InsertOffsetColon(NormaliseOffset(s)) == s
  {
  }

  /**
   * On a timestamp ending in an offset `±HH:MM`, the result ends in `±HHMM`
   * and everything before the offset is kept.
   */
  lemma NormalisesOffset(stamp: string, sign: char, h1: char, h2: char, m1: char, m2: char)
    requires sign == '+' || sign == '-'
    ensures NormaliseOffset(stamp + [sign, h1, h2, ':', m1, m2]) == stamp + [sign, h1, h2, m1, m2]
  {
  }

  /** The example from the source's comment. */
  lemma ConfluenceDateExample()
    ensures NormaliseOffset("2016-09-30T15:06:29.902+02:00") == "2016-09-30T15:06:29.902+0200"
  {
  }
}
