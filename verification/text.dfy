/** Python's `str.strip()` with no argument: removes leading and trailing
    whitespace, where whitespace is what `str.isspace` accepts. */
module Text {

  /** The characters Python's `str.isspace` accepts. */
  predicate IsWhitespace(c: char) {
    || c == ' ' || c == '\t' || c == '\n' || c == '\r'
    || c == '\U{0B}' || c == '\U{0C}'
    || ('\U{1C}' <= c <= '\U{1F}')
    || c == '\U{85}' || c == '\U{A0}' || c == '\U{1680}'
    || ('\U{2000}' <= c <= '\U{200A}')
    || c == '\U{2028}' || c == '\U{2029}' || c == '\U{202F}'
    || c == '\U{205F}' || c == '\U{3000}'
  }

  predicate AllWhitespace(s: string) {
    forall k :: 0 <= k < |s| ==> IsWhitespace(s[k])
  }

  /** `str.lstrip()`: the longest suffix of `s` that does not start with whitespace. */
  function TrimStart(s: string): (r: string)
    ensures |r| <= |s|
    ensures r == [] || !IsWhitespace(r[0])
    ensures r == [] <==> AllWhitespace(s)
  {
    if s == [] || !IsWhitespace(s[0]) then s
    else
      var r := TrimStart(s[1..]);
      assert AllWhitespace(s[1..]) ==> AllWhitespace(s) by {
        if AllWhitespace(s[1..]) {
          forall k | 0 < k < |s| ensures IsWhitespace(s[k]) { assert s[1..][k - 1] == s[k]; }
        }
      }
      r
  }

  /** `str.rstrip()`: the longest prefix of `s` that does not end with whitespace. */
  function TrimEnd(s: string): (r: string)
    ensures |r| <= |s|
    ensures r != [] ==> r[0] == s[0]
    ensures r == [] || !IsWhitespace(r[|r| - 1])
    ensures r == [] <==> AllWhitespace(s)
  {
    if s == [] || !IsWhitespace(s[|s| - 1]) then s
    else
      var r := TrimEnd(s[..|s| - 1]);
      assert AllWhitespace(s[..|s| - 1]) ==> AllWhitespace(s) by {
        if AllWhitespace(s[..|s| - 1]) {
          forall k | 0 <= k < |s| - 1 ensures IsWhitespace(s[k]) { assert s[..|s| - 1][k] == s[k]; }
        }
      }
      r
  }

  /** `str.strip()`: neither starts nor ends with whitespace, and is blank
      exactly when `s` was all whitespace (`StripCutsOnlyWhitespace` shows
      it is the slice of `s` left after cutting whitespace from both ends). */
  function Strip(s: string): (r: string)
    ensures |r| <= |s|
    ensures r == [] || (!IsWhitespace(r[0]) && !IsWhitespace(r[|r| - 1]))
    ensures r == [] <==> AllWhitespace(s)
  {
    var t := TrimStart(s);
    var r := TrimEnd(t);
    assert r != [] ==> r[0] == t[0];
    r
  }

  /** `TrimStart` cuts a whitespace prefix and keeps the rest. */
  lemma {:induction false} TrimStartCutsPrefix(s: string)
    ensures var r := TrimStart(s);
            r == s[|s| - |r|..] && AllWhitespace(s[..|s| - |r|])
  {
    if s != [] && IsWhitespace(s[0]) {
      TrimStartCutsPrefix(s[1..]);
      var r := TrimStart(s[1..]);
      assert s[1..][|s[1..]| - |r|..] == s[|s| - |r|..];
      var cut := s[..|s| - |r|];
      forall k | 0 <= k < |cut| ensures IsWhitespace(cut[k]) {
        if k > 0 { assert s[1..][..|s[1..]| - |r|][k - 1] == s[k]; }
      }
    }
  }

  /** `TrimEnd` cuts a whitespace suffix and keeps the rest. */
  lemma {:induction false} TrimEndCutsSuffix(s: string)
    ensures var r := TrimEnd(s);
            r == s[..|r|] && AllWhitespace(s[|r|..])
  {
    if s != [] && IsWhitespace(s[|s| - 1]) {
      var init := s[..|s| - 1];
      TrimEndCutsSuffix(init);
      var r := TrimEnd(init);
      assert init[..|r|] == s[..|r|];
      var cut := s[|r|..];
      forall k | 0 <= k < |cut| ensures IsWhitespace(cut[k]) {
        if k < |init| - |r| { assert init[|r|..][k] == s[|r| + k]; }
      }
    }
  }

  /** What `Strip` keeps is a contiguous slice of `s`, with only
      whitespace cut away on either side. */
  lemma StripCutsOnlyWhitespace(s: string)
    ensures exists i :: 0 <= i <= |s| - |Strip(s)| && Strip(s) == s[i..i + |Strip(s)|]
                        && AllWhitespace(s[..i]) && AllWhitespace(s[i + |Strip(s)|..])
  {
    var t := TrimStart(s);
    var r := TrimEnd(t);
    TrimStartCutsPrefix(s);
    TrimEndCutsSuffix(t);
    var i := |s| - |t|;
    assert r == s[i..i + |r|];
    assert s[i + |r|..] == t[|r|..];
  }

  /** Stripping twice is the same as stripping once. */
  lemma StripIdempotent(s: string)
    ensures Strip(Strip(s)) == Strip(s)
  {
    var r := Strip(s);
    if r != [] {
      assert TrimStart(r) == r;
      assert TrimEnd(r) == r;
    }
  }
}
