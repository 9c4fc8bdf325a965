/** The parts of .NET string handling that the sale-entry workflow relies on:
    `char.IsWhiteSpace`, `String.Trim()` and `string.IsNullOrWhiteSpace`. */
module Text {
  import opened Wrappers

  /** `char.IsWhiteSpace`: the Unicode space separators (category Zs), the
      line and paragraph separators, the controls U+0009 to U+000D, and
      U+0085. */
  predicate IsWhiteSpace(c: char)
  {
    || c == ' '
    || '\t' <= c <= '\r'
    || c == '\U{0085}' || c == '\U{00A0}' || c == '\U{1680}'
    || '\U{2000}' <= c <= '\U{200A}'
    || c == '\U{2028}' || c == '\U{2029}' || c == '\U{202F}' || c == '\U{205F}' || c == '\U{3000}'
  }

  /** Every character is white space (the empty string included). */
  predicate IsBlank(s: string)
  {
    forall i :: 0 <= i < |s| ==> IsWhiteSpace(s[i])
  }

  /** `string.IsNullOrWhiteSpace`, with `None` for a null reference. */
  predicate IsNullOrWhiteSpace(s: Option<string>)
  {
    s.None? || IsBlank(s.value)
  }

  /** The index of the first character at or after `i` that is not white
      space (or `|s|`): everything skipped is white space. */
  function SkipStart(s: string, i: nat): (k: nat)
    requires i <= |s|
    ensures i <= k <= |s|
    ensures forall j :: i <= j < k ==> IsWhiteSpace(s[j])
    ensures k < |s| ==> !IsWhiteSpace(s[k])
    decreases |s| - i
  {
    if i < |s| && IsWhiteSpace(s[i]) then SkipStart(s, i + 1) else i
  }

  /** The index just past the last character of `s[lo..hi]` that is not
      white space (or `lo`): everything skipped is white space. */
  function SkipEnd(s: string, lo: nat, hi: nat): (k: nat)
    requires lo <= hi <= |s|
    ensures lo <= k <= hi
    ensures forall j :: k <= j < hi ==> IsWhiteSpace(s[j])
    ensures lo < k ==> !IsWhiteSpace(s[k - 1])
    decreases hi - lo
  {
    if lo < hi && IsWhiteSpace(s[hi - 1]) then SkipEnd(s, lo, hi - 1) else hi
  }

  /** `String.Trim()`: leading, then trailing white space removed. */
  function Trim(s: string): string
  {
    var i := SkipStart(s, 0);
    s[i..SkipEnd(s, i, |s|)]
  }

  /** Trim removes only outer white space: the result is a slice `s[i..j]`
      with blank margins on both sides, and it neither starts nor ends with
      white space. */
  lemma TrimIsInnerSlice(s: string)
    ensures exists i, j :: 0 <= i <= j <= |s| && Trim(s) == s[i..j] && IsBlank(s[..i]) && IsBlank(s[j..])
    ensures Trim(s) != [] ==> !IsWhiteSpace(Trim(s)[0]) && !IsWhiteSpace(Trim(s)[|Trim(s)| - 1])
  {
    var i := SkipStart(s, 0);
    var j := SkipEnd(s, i, |s|);
    assert IsBlank(s[..i]) by {
      forall k | 0 <= k < i ensures IsWhiteSpace(s[..i][k]) {
        assert s[..i][k] == s[k];
      }
    }
    assert IsBlank(s[j..]) by {
      forall k | 0 <= k < |s| - j ensures IsWhiteSpace(s[j..][k]) {
        assert s[j..][k] == s[j + k];
      }
    }
  }

  /** Trimming leaves nothing exactly when the text is blank, which is how
      `string.IsNullOrEmpty(text.Trim())` reads. */
  lemma TrimEmptyIffBlank(s: string)
    ensures Trim(s) == "" <==> IsBlank(s)
  {
    var i := SkipStart(s, 0);
    var j := SkipEnd(s, i, |s|);
    if Trim(s) == "" {
      assert j == i;
      assert i == |s|;
    }
  }

  /** Trimming twice is trimming once. */
  lemma TrimIdempotent(s: string)
    ensures Trim(Trim(s)) == Trim(s)
  {
    var r := Trim(s);
    TrimIsInnerSlice(s);
    assert SkipStart(r, 0) == 0 by {
      if r != [] { assert !IsWhiteSpace(r[0]); }
    }
    assert SkipEnd(r, 0, |r|) == |r| by {
      if r != [] { assert !IsWhiteSpace(r[|r| - 1]); }
    }
    assert r[0..|r|] == r;
  }

  /** The trimmed text is blank exactly when the text is, so
      `string.IsNullOrWhiteSpace(text.Trim())` is a test on the raw text. */
  lemma TrimmedBlankIffBlank(s: string)
    ensures IsBlank(Trim(s)) <==> IsBlank(s)
  {
    TrimEmptyIffBlank(s);
    TrimEmptyIffBlank(Trim(s));
    TrimIdempotent(s);
  }
}
