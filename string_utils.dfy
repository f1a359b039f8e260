/**
 * The two string helpers of Apache commons-lang that the validator relies on:
 * `StringUtils.isBlank` and `StringUtils.trimToEmpty`. A Java `String` that may
 * be null is an `Option<string>`.
 */
module StringUtils {
  import opened Wrappers

  /** `Character.isWhitespace`: the Unicode space, line and paragraph separators
      except the three no-break spaces, plus the ASCII controls 9-13 and 28-31. */
  predicate IsWhitespace(c: char)
  {
    var n := c as int;
    || 0x09 <= n <= 0x0D
    || 0x1C <= n <= 0x20
    || n == 0x1680
    || 0x2000 <= n <= 0x2006
    || 0x2008 <= n <= 0x200A
    || n == 0x2028 || n == 0x2029
    || n == 0x205F || n == 0x3000
  }

  /** `isBlank`: null, empty, or whitespace only. */
  predicate IsBlank(s: Option<string>)
  {
    s.None? || forall i :: 0 <= i < |s.value| ==> IsWhitespace(s.value[i])
  }

  /** `String.trim` removes every character up to U+0020 from both ends. */
  predicate Trimmable(c: char)
  {
    c <= ' '
  }

  function TrimStart(s: string): (r: string)
    ensures |r| <= |s| && r == s[|s| - |r|..]
    ensures forall k :: 0 <= k < |s| - |r| ==> Trimmable(s[k])
    ensures r != [] ==> !Trimmable(r[0])
  {
    if s != [] && Trimmable(s[0]) then TrimStart(s[1..]) else s
  }

  function TrimEnd(s: string): (r: string)
    ensures |r| <= |s| && r == s[..|r|]
    ensures forall k :: |r| <= k < |s| ==> Trimmable(s[k])
    ensures r != [] ==> !Trimmable(r[|r| - 1])
  {
    if s != [] && Trimmable(s[|s| - 1]) then TrimEnd(s[..|s| - 1]) else s
  }

  /** `r` occurs in `s` at offset `i`, with nothing but trimmable characters around it. */
  predicate TrimmedAt(s: string, r: string, i: int)
  {
    && 0 <= i <= |s| - |r|
    && r == s[i..i + |r|]
    && (forall k :: 0 <= k < i ==> Trimmable(s[k]))
    && (forall k :: i + |r| <= k < |s| ==> Trimmable(s[k]))
  }

  /** `trimToEmpty`: null becomes the empty string, otherwise `String.trim`. */
  function TrimToEmpty(s: Option<string>): (r: string)
    ensures s.None? ==> r == []
    ensures s.Some? ==> exists i :: TrimmedAt(s.value, r, i)
    ensures r != [] ==> !Trimmable(r[0]) && !Trimmable(r[|r| - 1])
  {
    if s.None? then []
    else
      var t := TrimStart(s.value);
      var r := TrimEnd(t);
      assert TrimmedAt(s.value, r, |s.value| - |t|);
      r
  }

  /** Trimming what is already trimmed changes nothing, so a registry key that
      carries no surrounding blanks is found however many times it is trimmed. */
  lemma TrimToEmptyIdempotent(s: Option<string>)
    ensures TrimToEmpty(Some(TrimToEmpty(s))) == TrimToEmpty(s)
  {
    var t := TrimToEmpty(s);
    assert TrimStart(t) == t;
    assert TrimEnd(t) == t;
  }
}
