/**
 * The string methods the encoders call: str.upper, str.lower and str.strip,
 * restricted to ASCII (every other character is left as it is and is not
 * whitespace).
 */
module Text {

  /** Python's str.isspace on the ASCII range: space, \t \n \v \f \r and the
      four separators \x1c-\x1f. */
  predicate IsSpace(c: char) {
    c == ' ' || c == '\t' || c == '\n' || c == '\r'
    || c == '\U{000B}' || c == '\U{000C}'
    || c == '\U{001C}' || c == '\U{001D}' || c == '\U{001E}' || c == '\U{001F}'
  }

  predicate IsLowerLetter(c: char) { 'a' <= c <= 'z' }

  predicate IsUpperLetter(c: char) { 'A' <= c <= 'Z' }

  function UpperChar(c: char): (r: char)
    ensures !IsLowerLetter(r)
    ensures IsSpace(r) == IsSpace(c)
    ensures IsLowerLetter(c) ==> r as int == c as int - 32
    ensures !IsLowerLetter(c) ==> r == c
  {
    if IsLowerLetter(c) then (c as int - 32) as char else c
  }

  function LowerChar(c: char): (r: char)
    ensures !IsUpperLetter(r)
    ensures IsUpperLetter(c) ==> r as int == c as int + 32
    ensures !IsUpperLetter(c) ==> r == c
  {
    if IsUpperLetter(c) then (c as int + 32) as char else c
  }

  /** str.upper() */
  function Upper(s: string): (r: string)
    ensures |r| == |s|
    ensures forall i :: 0 <= i < |s| ==> r[i] == UpperChar(s[i])
  {
    seq(|s|, i requires 0 <= i < |s| => UpperChar(s[i]))
  }

  /** str.lower() */
  function Lower(s: string): (r: string)
    ensures |r| == |s|
    ensures forall i :: 0 <= i < |s| ==> r[i] == LowerChar(s[i])
  {
    seq(|s|, i requires 0 <= i < |s| => LowerChar(s[i]))
  }

  /** Two strings that differ only in the case of ASCII letters. */
  predicate SameIgnoringCase(s: string, t: string) {
    |s| == |t| && forall i :: 0 <= i < |s| ==> UpperChar(s[i]) == UpperChar(t[i])
  }

  /** Removes leading whitespace: what str.strip() does on the left. */
  function StripLeft(s: string): (r: string)
    ensures |r| <= |s| && r == s[|s| - |r|..]
    ensures forall k :: 0 <= k < |s| - |r| ==> IsSpace(s[k])
    ensures r != [] ==> !IsSpace(r[0])
  {
    if |s| > 0 && IsSpace(s[0]) then StripLeft(s[1..]) else s
  }

  /** Removes trailing whitespace: what str.strip() does on the right. */
  function StripRight(s: string): (r: string)
    ensures |r| <= |s| && r == s[..|r|]
    ensures forall k :: |r| <= k < |s| ==> IsSpace(s[k])
    ensures r != [] ==> !IsSpace(r[|r| - 1])
  {
    if |s| > 0 && IsSpace(s[|s| - 1]) then StripRight(s[..|s| - 1]) else s
  }

  /** str.strip() with no argument. */
  function Strip(s: string): string {
    StripRight(StripLeft(s))
  }

  /** strip() returns the part of s between a whitespace prefix and a whitespace
      suffix, and that part neither starts nor ends with whitespace. */
  lemma StripIsTrimmedSlice(s: string)
    ensures exists i, j ::
              && 0 <= i <= j <= |s| && Strip(s) == s[i..j]
              && (forall k :: 0 <= k < i ==> IsSpace(s[k]))
              && (forall k :: j <= k < |s| ==> IsSpace(s[k]))
    ensures Strip(s) != [] ==> !IsSpace(Strip(s)[0]) && !IsSpace(Strip(s)[|Strip(s)| - 1])
  {
    var l := StripLeft(s);
    var r := StripRight(l);
    var i := |s| - |l|;
    var j := i + |r|;
    assert l == s[i..];
    assert r == l[..|r|];
    assert Strip(s) == s[i..j] by {
      assert s[i..][..|r|] == s[i..j];
    }
    assert forall k :: 0 <= k < i ==> IsSpace(s[k]);
    forall k | j <= k < |s| ensures IsSpace(s[k]) {
      assert s[k] == l[k - i];
    }
  }

  /** A string with no whitespace at either end is its own strip(). */
  lemma StripOfTrimmed(s: string)
    requires s != [] ==> !IsSpace(s[0]) && !IsSpace(s[|s| - 1])
    ensures Strip(s) == s
  {
  }

  /** Whitespace around a trimmed string is exactly what strip() removes. */
  lemma {:induction false} StripPadding(pre: string, core: string, post: string)
    requires forall k :: 0 <= k < |pre| ==> IsSpace(pre[k])
    requires forall k :: 0 <= k < |post| ==> IsSpace(post[k])
    requires core != [] && !IsSpace(core[0]) && !IsSpace(core[|core| - 1])
    ensures Strip(pre + core + post) == core
  {
    StripLeftPadding(pre, core + post);
    assert pre + core + post == pre + (core + post);
    StripRightPadding(core, post);
  }

  lemma {:induction false} StripLeftPadding(pre: string, rest: string)
    requires forall k :: 0 <= k < |pre| ==> IsSpace(pre[k])
    requires rest != [] && !IsSpace(rest[0])
    ensures StripLeft(pre + rest) == rest
    decreases |pre|
  {
    if pre != [] {
      assert (pre + rest)[1..] == pre[1..] + rest;
      StripLeftPadding(pre[1..], rest);
    } else {
      assert pre + rest == rest;
    }
  }

  lemma {:induction false} StripRightPadding(rest: string, post: string)
    requires forall k :: 0 <= k < |post| ==> IsSpace(post[k])
    requires rest != [] && !IsSpace(rest[|rest| - 1])
    ensures StripRight(rest + post) == rest
    decreases |post|
  {
    if post != [] {
      assert (rest + post)[..|rest + post| - 1] == rest + post[..|post| - 1];
      StripRightPadding(rest, post[..|post| - 1]);
    } else {
      assert rest + post == rest;
    }
  }

  lemma StripIdempotent(s: string)
    ensures Strip(Strip(s)) == Strip(s)
  {
    StripIsTrimmedSlice(s);
    StripOfTrimmed(Strip(s));
  }

  lemma {:induction false} StripLeftOfUpper(s: string)
    ensures StripLeft(Upper(s)) == Upper(StripLeft(s))
    decreases |s|
  {
    if |s| > 0 && IsSpace(s[0]) {
      assert Upper(s)[1..] == Upper(s[1..]);
      StripLeftOfUpper(s[1..]);
    }
  }

  lemma {:induction false} StripRightOfUpper(s: string)
    ensures StripRight(Upper(s)) == Upper(StripRight(s))
    decreases |s|
  {
    if |s| > 0 && IsSpace(s[|s| - 1]) {
      assert Upper(s)[..|s| - 1] == Upper(s[..|s| - 1]);
      StripRightOfUpper(s[..|s| - 1]);
    }
  }

  /** Upper-casing never creates or removes whitespace, so strip and upper commute. */
  lemma StripUpperCommute(s: string)
    ensures Strip(Upper(s)) == Upper(Strip(s))
  {
    StripLeftOfUpper(s);
    StripRightOfUpper(StripLeft(s));
  }

  lemma UpperIdempotent(s: string)
    ensures Upper(Upper(s)) == Upper(s)
  {
  }

  /** Text with no lower-case letter is its own upper case. */
  lemma UpperOfUppercase(s: string)
    requires forall i :: 0 <= i < |s| ==> !IsLowerLetter(s[i])
    ensures Upper(s) == s
  {
  }

  /** upper() and lower() see through each other: only the letters' case is lost. */
  lemma CaseFoldsAgree(s: string)
    ensures Upper(Lower(s)) == Upper(s)
    ensures Lower(Upper(s)) == Lower(s)
  {
  }

  /** Two strings have the same upper() exactly when they differ only in case;
      the same holds for lower(). */
  lemma CaseFoldCharacterises(s: string, t: string)
    ensures Upper(s) == Upper(t) <==> SameIgnoringCase(s, t)
    ensures Lower(s) == Lower(t) <==> SameIgnoringCase(s, t)
  {
    if SameIgnoringCase(s, t) {
      assert Upper(s) == Upper(t);
      forall i | 0 <= i < |s| ensures Lower(s)[i] == Lower(t)[i] {
        assert UpperChar(s[i]) == UpperChar(t[i]);
      }
    }
    if Upper(s) == Upper(t) {
      assert forall i :: 0 <= i < |s| ==> Upper(s)[i] == Upper(t)[i];
    }
    if Lower(s) == Lower(t) {
      forall i | 0 <= i < |s| ensures UpperChar(s[i]) == UpperChar(t[i]) {
        assert Lower(s)[i] == Lower(t)[i];
      }
    }
  }
}
