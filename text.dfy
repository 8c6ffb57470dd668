/** The string operations the Python code relies on: `str.strip()`, `str.lower()` and `in`. */
module Text {

  /** Python's `str.isspace()` for a single character: the characters `str.strip()` removes. */
  predicate IsSpace(c: char) {
    c == ' ' || c == '\t' || c == '\n' || c == '\r' || c == '\U{000B}' || c == '\U{000C}'
    || ('\U{001C}' <= c <= '\U{001F}') || c == '\U{0085}' || c == '\U{00A0}' || c == '\U{1680}'
    || ('\U{2000}' <= c <= '\U{200A}') || c == '\U{2028}' || c == '\U{2029}' || c == '\U{202F}'
    || c == '\U{205F}' || c == '\U{3000}'
  }

  /** `s` without its leading whitespace. */
  function TrimStart(s: string): (r: string)
    ensures |r| <= |s| && r == s[|s| - |r|..]
    ensures forall k :: 0 <= k < |s| - |r| ==> IsSpace(s[k])
    ensures r != [] ==> !IsSpace(r[0])
  {
    if s != [] && IsSpace(s[0]) then
      var r := TrimStart(s[1..]);
      assert s[1..][|s| - 1 - |r|..] == s[|s| - |r|..];
      forall k | 0 < k < |s| - |r| ensures IsSpace(s[k]) {
        assert s[k] == s[1..][k - 1];
      }
      r
    else s
  }

  /** `s` without its trailing whitespace. */
  function TrimEnd(s: string): (r: string)
    ensures |r| <= |s| && r == s[..|r|]
    ensures forall k :: |r| <= k < |s| ==> IsSpace(s[k])
    ensures r != [] ==> !IsSpace(r[|r| - 1])
  {
    if s != [] && IsSpace(s[|s| - 1]) then TrimEnd(s[..|s| - 1]) else s
  }

  /** `needle` occurs in `hay` starting at offset `i`. */
  predicate OccursAt(hay: string, needle: string, i: int) {
    0 <= i <= |hay| - |needle| && hay[i..i + |needle|] == needle
  }

  /** Every character of `s` is whitespace. */
  predicate AllSpace(s: string) {
    forall k :: 0 <= k < |s| ==> IsSpace(s[k])
  }

  /**
   * `r` is `s` with its leading and trailing whitespace removed: `r` occurs in `s` at
   * offset `i`, only whitespace lies before and after it, and `r` neither starts nor
   * ends with whitespace.
   */
  predicate StrippedAt(s: string, r: string, i: int) {
    && OccursAt(s, r, i) && AllSpace(s[..i]) && AllSpace(s[i + |r|..])
    && (r != [] ==> !IsSpace(r[0]) && !IsSpace(r[|r| - 1]))
  }

  /**
   * Python's `s.strip()`: the slice of `s` between its leading and trailing whitespace,
   * which starts after the characters `TrimStart` removes.
   */
  function Strip(s: string): (r: string)
    ensures exists i :: OccursAt(s, r, i)
    ensures StrippedAt(s, r, |s| - |TrimStart(s)|)
    ensures r != [] ==> !IsSpace(r[0]) && !IsSpace(r[|r| - 1])
  {
    var t := TrimStart(s);
    var r := TrimEnd(t);
    StripFacts(s, t, r);
    r
  }

  /** Trimming the start and then the end of `s` strips it. */
  lemma StripFacts(s: string, t: string, r: string)
    requires t == TrimStart(s) && r == TrimEnd(t)
    ensures StrippedAt(s, r, |s| - |t|)
  {
    SpaceAround(s, |s| - |t|, t, r);
  }

  /**
   * A prefix `r` of the rest `t` of `s` after offset `i`, with whitespace before `t`
   * and after `r` in `t`, and no whitespace at either end of `r`, is `s` stripped.
   */
  lemma SpaceAround(s: string, i: nat, t: string, r: string)
    requires i <= |s| && t == s[i..] && |r| <= |t| && r == t[..|r|]
    requires forall k :: 0 <= k < i ==> IsSpace(s[k])
    requires forall k :: |r| <= k < |t| ==> IsSpace(t[k])
    requires r != [] ==> !IsSpace(r[0]) && !IsSpace(r[|r| - 1])
    ensures StrippedAt(s, r, i)
  {
    assert r == s[i..i + |r|];
    forall k | 0 <= k < i ensures IsSpace(s[..i][k]) {
      assert s[..i][k] == s[k];
    }
    var after := s[i + |r|..];
    forall k | 0 <= k < |after| ensures IsSpace(after[k]) {
      assert after[k] == t[|r| + k];
    }
  }

  /** Stripping a stripped string changes nothing. */
  lemma StripIdempotent(s: string)
    ensures Strip(Strip(s)) == Strip(s)
  {
  }

  /** Python's `c.lower()` restricted to ASCII letters. */
  function LowerChar(c: char): (r: char)
    ensures 'A' <= c <= 'Z' ==> r as int == c as int + 32
    ensures !('A' <= c <= 'Z') ==> r == c
  {
    if 'A' <= c <= 'Z' then (c as int + 32) as char else c
  }

  /** Python's `s.lower()` restricted to ASCII letters: every character lowered in place. */
  function Lower(s: string): (r: string)
    ensures |r| == |s|
    ensures forall i :: 0 <= i < |s| ==> r[i] == LowerChar(s[i])
  {
    seq(|s|, i requires 0 <= i < |s| => LowerChar(s[i]))
  }

  /** Lowering is idempotent, so comparing lowered strings is an equivalence. */
  lemma LowerIdempotent(s: string)
    ensures Lower(Lower(s)) == Lower(s)
  {
  }

  /** Python's `needle in hay` on strings: `needle` occurs in `hay` at some offset. */
  predicate Contains(hay: string, needle: string)
    decreases |hay|
  {
    needle <= hay || (hay != [] && Contains(hay[1..], needle))
  }

  /** `Contains` holds exactly when the needle is some slice of the haystack. */
  lemma {:induction false} ContainsIffSlice(hay: string, needle: string)
    ensures Contains(hay, needle) <==> exists i :: OccursAt(hay, needle, i)
    decreases |hay|
  {
    if needle <= hay {
      assert hay[0..|needle|] == needle;
      assert OccursAt(hay, needle, 0);
    } else if hay != [] {
      ContainsIffSlice(hay[1..], needle);
      if Contains(hay[1..], needle) {
        var i :| OccursAt(hay[1..], needle, i);
        assert hay[i + 1..i + 1 + |needle|] == hay[1..][i..i + |needle|];
        assert OccursAt(hay, needle, i + 1);
      } else {
        forall i | 0 < i
          ensures OccursAt(hay, needle, i) ==> OccursAt(hay[1..], needle, i - 1)
        {
          OccursInTail(hay, needle, i);
        }
      }
    }
  }

  /** An occurrence past the first character is an occurrence in the tail. */
  lemma OccursInTail(hay: string, needle: string, i: int)
    requires 0 < i
    ensures OccursAt(hay, needle, i) ==> OccursAt(hay[1..], needle, i - 1)
  {
    if OccursAt(hay, needle, i) {
      var tail := hay[1..];
      forall k | 0 <= k < |needle|
        ensures tail[i - 1 + k] == needle[k]
      {
        assert hay[i..i + |needle|][k] == hay[i + k] == tail[i - 1 + k];
      }
      assert tail[i - 1..i - 1 + |needle|] == needle;
    }
  }

  /** A string that contains a non-empty needle is non-empty (so it is truthy in Python). */
  lemma {:induction false} ContainsNonEmpty(hay: string, needle: string)
    requires Contains(hay, needle) && needle != []
    ensures |hay| >= |needle|
    decreases |hay|
  {
    if !(needle <= hay) {
      ContainsNonEmpty(hay[1..], needle);
    }
  }
}
