/**
 * The two pieces of JavaScript string behaviour the forms rely on:
 * `String.prototype.trim` and the `a || fallback` idiom on an optional message.
 */
module JsText {
  import opened Wrappers

  /** The characters `trim` removes: ECMAScript WhiteSpace and LineTerminator. */
  predicate IsWhiteSpace(c: char)
  {
    || c == ' ' || c == '\t' || c == '\n' || c == '\r'
    || c == '\U{000B}' || c == '\U{000C}' || c == '\U{00A0}' || c == '\U{FEFF}'
    || c == '\U{1680}' || ('\U{2000}' <= c <= '\U{200A}')
    || c == '\U{2028}' || c == '\U{2029}' || c == '\U{202F}' || c == '\U{205F}'
    || c == '\U{3000}'
  }

  /** A string made of white space only (the empty string included). */
  predicate IsBlank(s: string)
  {
    forall i :: 0 <= i < |s| ==> IsWhiteSpace(s[i])
  }

  /** Removes leading white space: the result is the longest suffix that does not start with white space. */
  function TrimStart(s: string): (r: string)
    ensures |r| <= |s| && r == s[|s| - |r|..]
    ensures IsBlank(s[..|s| - |r|])
    ensures r == [] || !IsWhiteSpace(r[0])
  {
    if |s| > 0 && IsWhiteSpace(s[0]) then
      var r := TrimStart(s[1..]);
      assert s[..|s| - |r|] == [s[0]] + s[1..][..|s[1..]| - |r|];
      r
    else s
  }

  /** Removes trailing white space: the result is the longest prefix that does not end in white space. */
  function TrimEnd(s: string): (r: string)
    ensures |r| <= |s| && r == s[..|r|]
    ensures IsBlank(s[|r|..])
    ensures r == [] || !IsWhiteSpace(r[|r| - 1])
  {
    if |s| > 0 && IsWhiteSpace(s[|s| - 1]) then
      var r := TrimEnd(s[..|s| - 1]);
      assert s[|r|..] == s[..|s| - 1][|r|..] + [s[|s| - 1]];
      r
    else s
  }

  /**
   * `r` is the part of `s` that starts at `p`, with only white space before
   * and after it.
   */
  predicate IsMiddle(s: string, p: nat, r: string)
  {
    p + |r| <= |s| && r == s[p..p + |r|] && IsBlank(s[..p]) && IsBlank(s[p + |r|..])
  }

  /**
   * `s.trim()`: the middle of `s` left once the white space on both sides is
   * cut (it begins where `TrimStart` begins); it neither starts nor ends with
   * white space.
   */
  function Trim(s: string): (r: string)
    ensures IsMiddle(s, |s| - |TrimStart(s)|, r)
    ensures r == [] || (!IsWhiteSpace(r[0]) && !IsWhiteSpace(r[|r| - 1]))
  {
    var t := TrimStart(s);
    var r := TrimEnd(t);
    TrimBoth(s, t, r);
    Middle(s, t, r);
    r
  }

  /** What the contracts of `TrimStart` (giving `t`) and `TrimEnd` (giving `r`) say of where `r` lies in `s`. */
  lemma Middle(s: string, t: string, r: string)
    requires |t| <= |s| && t == s[|s| - |t|..] && IsBlank(s[..|s| - |t|])
    requires |r| <= |t| && r == t[..|r|] && IsBlank(t[|r|..])
    ensures IsMiddle(s, |s| - |t|, r)
  {
    assert t[|r|..] == s[|s| - |t| + |r|..];
  }

  /**
   * What the contracts of `TrimStart` (giving `t`) and `TrimEnd` (giving `r`)
   * imply about the two trims together.
   */
  lemma TrimBoth(s: string, t: string, r: string)
    requires |t| <= |s| && t == s[|s| - |t|..] && IsBlank(s[..|s| - |t|]) && (t == [] || !IsWhiteSpace(t[0]))
    requires |r| <= |t| && r == t[..|r|] && IsBlank(t[|r|..]) && (r == [] || !IsWhiteSpace(r[|r| - 1]))
    ensures r == [] <==> IsBlank(s)
    ensures r != [] ==> !IsWhiteSpace(r[0]) && !IsWhiteSpace(r[|r| - 1])
  {
    var p := |s| - |t|;
    if r == [] {
      // `t` is blank, and a non-empty `t` starts with a non-blank character
      assert t[|r|..] == t;
      assert t == [];
      assert s[..p] == s;
    } else {
      // the first character kept is the one `TrimStart` stopped at
      assert !IsWhiteSpace(s[p]);
    }
  }

  /** Trimming leaves nothing exactly when the string is blank; otherwise it starts and ends with a non-blank character. */
  lemma TrimEmptyIffBlank(s: string)
    ensures Trim(s) == [] <==> IsBlank(s)
    ensures Trim(s) != [] ==> !IsWhiteSpace(Trim(s)[0]) && !IsWhiteSpace(Trim(s)[|Trim(s)| - 1])
  {
    TrimBoth(s, TrimStart(s), TrimEnd(TrimStart(s)));
  }

  /** JavaScript `message || fallback`: an absent or empty message gives way to the fallback. */
  function OrElse(message: Option<string>, fallback: string): (r: string)
    ensures r == fallback || (message == Some(r) && r != "")
    ensures message.Some? && message.value != "" ==> r == message.value
  {
    if message.Some? && message.value != "" then message.value else fallback
  }
}
