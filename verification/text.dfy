/** Strings as the handler uses them: Python's `str.lower()` (restricted to
    ASCII letters) and Python's substring test `pat in s`. */
module Text {

  /** Lower-case one character: ASCII `A`..`Z` map to `a`..`z`, every other
      character (accented letters included) is left as it is. */
  function LowerChar(c: char): char {
    if 'A' <= c <= 'Z' then (c as int - 'A' as int + 'a' as int) as char else c
  }

  /** `s.lower()`, character by character. */
  function Lower(s: string): string {
    seq(|s|, i requires 0 <= i < |s| => LowerChar(s[i]))
  }

  /** `pat` occurs in `s` starting at index `i`. */
  ghost predicate OccursAt(pat: string, s: string, i: int) {
    0 <= i && i + |pat| <= |s| && s[i..i + |pat|] == pat
  }

  /** Reference meaning of Python's `pat in s` for strings. */
  ghost predicate IsSubstring(pat: string, s: string) {
    exists i :: OccursAt(pat, s, i)
  }

  /** Python's `pat in s`: scan the start positions left to right. */
  function Contains(s: string, pat: string): (b: bool)
    ensures b <==> IsSubstring(pat, s)
    decreases |s|
  {
    if |pat| > |s| then
      assert forall i :: !OccursAt(pat, s, i);
      false
    else if s[..|pat|] == pat then
      assert OccursAt(pat, s, 0);
      true
    else
      var rest := Contains(s[1..], pat);
      ShiftOccurrence(pat, s);
      rest
  }

  /** Dropping the first character of `s` keeps every occurrence except one
      at index 0, shifted one place to the left. */
  lemma ShiftOccurrence(pat: string, s: string)
    requires 0 < |s|
    requires !OccursAt(pat, s, 0)
    ensures IsSubstring(pat, s) <==> IsSubstring(pat, s[1..])
  {
    if IsSubstring(pat, s) {
      var i :| OccursAt(pat, s, i);
      assert i > 0;
      assert s[1..][i - 1..i - 1 + |pat|] == s[i..i + |pat|];
      assert OccursAt(pat, s[1..], i - 1);
    }
    if IsSubstring(pat, s[1..]) {
      var i :| OccursAt(pat, s[1..], i);
      assert s[i + 1..i + 1 + |pat|] == s[1..][i..i + |pat|];
      assert OccursAt(pat, s, i + 1);
    }
  }

  /** Lower-casing is idempotent. */
  lemma LowerIdempotent(s: string)
    ensures Lower(Lower(s)) == Lower(s)
  {
  }

  /** A pattern with no upper-case ASCII letter that occurs in `s` still occurs,
      at the same place, once `s` is lower-cased. */
  lemma LowerKeepsOccurrence(pat: string, s: string, i: int)
    requires Lower(pat) == pat
    requires OccursAt(pat, s, i)
    ensures OccursAt(pat, Lower(s), i)
  {
  }

  /** `breaks` is an increasing list of positions, the first after `prev` and
      each at most `width` past the one before, the last no earlier than
      `n - width`: every run of `width` consecutive positions of a string of
      length `n` after `prev` holds one of them. */
  ghost predicate BreakChain(prev: int, breaks: seq<int>, width: int, n: int)
    decreases |breaks|
  {
    if |breaks| == 0 then prev >= n - width
    else prev < breaks[0] <= prev + width && BreakChain(breaks[0], breaks[1..], width, n)
  }

  /** Every position listed in `breaks` holds a character of `s` that does
      not appear in `pat`. */
  ghost predicate ForeignAt(pat: string, s: string, breaks: seq<int>)
    decreases |breaks|
  {
    |breaks| == 0 || (0 <= breaks[0] < |s| && s[breaks[0]] !in pat && ForeignAt(pat, s, breaks[1..]))
  }

  /** A window `[i, i + width)` after `prev` holds one of the chained breaks. */
  lemma {:induction false} WindowHoldsBreak(prev: int, breaks: seq<int>, width: int, n: int, i: int)
    requires BreakChain(prev, breaks, width, n)
    requires prev < i <= n - width
    ensures exists j :: 0 <= j < |breaks| && i <= breaks[j] < i + width
    decreases |breaks|
  {
    if breaks[0] < i {
      WindowHoldsBreak(breaks[0], breaks[1..], width, n, i);
      var j :| 0 <= j < |breaks| - 1 && i <= breaks[1..][j] < i + width;
      assert breaks[j + 1] == breaks[1..][j];
    } else {
      assert i <= breaks[0] < i + width;
    }
  }

  /** The listed breaks hold characters foreign to `pat`. */
  lemma {:induction false} ForeignAtEach(pat: string, s: string, breaks: seq<int>, j: int)
    requires ForeignAt(pat, s, breaks)
    requires 0 <= j < |breaks|
    ensures 0 <= breaks[j] < |s| && s[breaks[j]] !in pat
    decreases |breaks|
  {
    if j > 0 {
      ForeignAtEach(pat, s, breaks[1..], j - 1);
    }
  }

  /** If every window of `|pat|` characters of `s` holds a character that does
      not appear in `pat`, then `pat` does not occur in `s`. */
  lemma NoOccurrenceAcrossBreaks(pat: string, s: string, breaks: seq<int>)
    requires |pat| > 0
    requires ForeignAt(pat, s, breaks)
    requires BreakChain(-1, breaks, |pat|, |s|)
    ensures !IsSubstring(pat, s)
  {
    forall i | 0 <= i <= |s| - |pat|
      ensures !OccursAt(pat, s, i)
    {
      WindowHoldsBreak(-1, breaks, |pat|, |s|, i);
      var j :| 0 <= j < |breaks| && i <= breaks[j] < i + |pat|;
      ForeignAtEach(pat, s, breaks, j);
      assert s[i..i + |pat|][breaks[j] - i] == s[breaks[j]] != pat[breaks[j] - i];
    }
  }
}
