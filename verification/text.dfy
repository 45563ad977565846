/**
 * The three string operations from Go's `strings` package that the client uses:
 * `TrimSpace`, `ToUpper` and `ReplaceAll(s, " ", "")`.
 *
 * Strings are sequences of characters and are assumed to be ASCII, so that a
 * character is one Go byte: whitespace is the six ASCII white-space characters
 * and upper-casing maps exactly the letters 'a'..'z'.
 */
module Text {

  /** The ASCII white space `strings.TrimSpace` removes: tab, LF, VT, FF, CR and space. */
  predicate IsSpace(c: char) {
    c == ' ' || c == '\t' || c == '\n' || c == '\U{000B}' || c == '\U{000C}' || c == '\r'
  }

  predicate AllSpace(s: string) {
    forall i :: 0 <= i < |s| ==> IsSpace(s[i])
  }

  /** Neither the first nor the last character is white space. */
  predicate Trimmed(s: string) {
    |s| == 0 || (!IsSpace(s[0]) && !IsSpace(s[|s| - 1]))
  }

  /** Drops the leading white space. */
  function TrimLeft(s: string): (r: string)
    ensures |r| <= |s|
  {
    if |s| > 0 && IsSpace(s[0]) then TrimLeft(s[1..]) else s
  }

  /** Drops the trailing white space. */
  function TrimRight(s: string): (r: string)
    ensures |r| <= |s|
  {
    if |s| > 0 && IsSpace(s[|s| - 1]) then TrimRight(s[..|s| - 1]) else s
  }

  /** `TrimLeft` keeps a suffix that starts with a non-space character and drops only white space. */
  lemma {:induction false} TrimLeftSuffix(s: string)
    ensures TrimLeft(s) == s[|s| - |TrimLeft(s)|..]
    ensures forall i :: 0 <= i < |s| - |TrimLeft(s)| ==> IsSpace(s[i])
    ensures |TrimLeft(s)| == 0 || !IsSpace(TrimLeft(s)[0])
    decreases |s|
  {
    if |s| > 0 && IsSpace(s[0]) {
      TrimLeftSuffix(s[1..]);
    }
  }

  /** `TrimRight` keeps a prefix that ends with a non-space character and drops only white space. */
  lemma {:induction false} TrimRightPrefix(s: string)
    ensures TrimRight(s) == s[..|TrimRight(s)|]
    ensures forall i :: |TrimRight(s)| <= i < |s| ==> IsSpace(s[i])
    ensures |TrimRight(s)| == 0 || !IsSpace(TrimRight(s)[|TrimRight(s)| - 1])
    decreases |s|
  {
    if |s| > 0 && IsSpace(s[|s| - 1]) {
      TrimRightPrefix(s[..|s| - 1]);
    }
  }

  /** `strings.TrimSpace`: the longest slice of `s` that starts and ends with a non-space character. */
  function TrimSpace(s: string): (r: string)
    ensures |r| <= |s|
    ensures Trimmed(r)
  {
    var l := TrimLeft(s);
    TrimLeftSuffix(s);
    TrimRightPrefix(l);
    var r := TrimRight(l);
    assert |r| > 0 ==> r[0] == l[0];
    r
  }

  lemma {:induction false} TrimLeftPadding(w: string, s: string)
    requires AllSpace(w)
    ensures TrimLeft(w + s) == TrimLeft(s)
    decreases |w|
  {
    if |w| > 0 {
      assert (w + s)[1..] == w[1..] + s;
      TrimLeftPadding(w[1..], s);
    } else {
      assert w + s == s;
    }
  }

  lemma {:induction false} TrimRightPadding(s: string, w: string)
    requires AllSpace(w)
    ensures TrimRight(s + w) == TrimRight(s)
    decreases |w|
  {
    if |w| > 0 {
      assert (s + w)[..|s + w| - 1] == s + w[..|w| - 1];
      TrimRightPadding(s, w[..|w| - 1]);
    } else {
      assert s + w == s;
    }
  }

  /** A string without white space at either end is left as it is. */
  lemma TrimSpaceFixpoint(s: string)
    requires Trimmed(s)
    ensures TrimSpace(s) == s
  {
  }

  /** Trailing white space does not change where the leading white space ends. */
  lemma {:induction false} TrimLeftKeepsTail(s: string, w: string)
    requires AllSpace(w)
    ensures TrimLeft(s) != [] ==> TrimLeft(s + w) == TrimLeft(s) + w
    ensures TrimLeft(s) == [] ==> TrimLeft(s + w) == []
    decreases |s|
  {
    if |s| == 0 {
      assert s + w == w + [];
      TrimLeftPadding(w, []);
    } else if IsSpace(s[0]) {
      assert (s + w)[1..] == s[1..] + w;
      TrimLeftKeepsTail(s[1..], w);
    } else {
      assert (s + w)[0] == s[0];
    }
  }

  /** Padding on both sides: the leading side vanishes, the trailing side stays behind the core. */
  lemma TrimLeftOfPadded(w1: string, s: string, w2: string)
    requires AllSpace(w1) && AllSpace(w2)
    ensures TrimLeft(s) != [] ==> TrimLeft(w1 + s + w2) == TrimLeft(s) + w2
    ensures TrimLeft(s) == [] ==> TrimLeft(w1 + s + w2) == []
  {
    assert w1 + s + w2 == w1 + (s + w2);
    TrimLeftPadding(w1, s + w2);
    TrimLeftKeepsTail(s, w2);
  }

  /** White space added at either end is removed again: `TrimSpace` depends only on the core. */
  lemma TrimSpaceIgnoresPadding(w1: string, s: string, w2: string)
    requires AllSpace(w1) && AllSpace(w2)
    ensures TrimSpace(w1 + s + w2) == TrimSpace(s)
  {
    TrimLeftOfPadded(w1, s, w2);
    var l := TrimLeft(s);
    if l != [] {
      TrimRightPadding(l, w2);
    }
  }

  /** Trimming leaves nothing exactly when the string is all white space. */
  lemma TrimSpaceEmpty(s: string)
    ensures TrimSpace(s) == [] <==> AllSpace(s)
  {
    var l := TrimLeft(s);
    TrimLeftSuffix(s);
    TrimRightPrefix(l);
    if l != [] {
      assert !IsSpace(l[0]) && l[0] == s[|s| - |l|];
      assert TrimRight(l) != [];
    }
  }

  lemma TrimSpaceIdempotent(s: string)
    ensures TrimSpace(TrimSpace(s)) == TrimSpace(s)
  {
    TrimSpaceFixpoint(TrimSpace(s));
  }

  predicate IsLower(c: char) {
    'a' <= c <= 'z'
  }

  /** ASCII upper-casing of one character. */
  function UpperChar(c: char): (u: char)
    ensures !IsLower(u)
    ensures IsSpace(u) <==> IsSpace(c)
    ensures !IsLower(c) ==> u == c
  {
    if IsLower(c) then (c as int - 'a' as int + 'A' as int) as char else c
  }

  /** A lower-case letter becomes the capital with the same place in the alphabet. */
  lemma UpperCharOfLetter(c: char)
    requires IsLower(c)
    ensures UpperChar(c) as int == c as int - ('a' as int - 'A' as int)
    ensures 'A' <= UpperChar(c) <= 'Z'
  {
  }

  /**
   * Two characters that are the same, or the same ASCII letter in the two cases.
   * Stated on character codes, independently of `UpperChar`.
   */
  predicate SameIgnoringCase(a: char, b: char) {
    a == b
    || (IsLower(a) && b as int == a as int - ('a' as int - 'A' as int))
    || (IsLower(b) && a as int == b as int - ('a' as int - 'A' as int))
  }

  /** Two strings that differ at most in the case of their ASCII letters. */
  predicate EqualIgnoringCase(s: string, t: string) {
    |s| == |t| && forall i :: 0 <= i < |s| ==> SameIgnoringCase(s[i], t[i])
  }

  /** `strings.ToUpper` restricted to ASCII: letters raised one by one, everything else kept. */
  function ToUpper(s: string): (r: string)
    ensures |r| == |s|
  {
    if |s| == 0 then [] else [UpperChar(s[0])] + ToUpper(s[1..])
  }

  /** Position by position, `ToUpper` applies `UpperChar`. */
  lemma {:induction false} ToUpperPointwise(s: string)
    ensures forall i :: 0 <= i < |s| ==> ToUpper(s)[i] == UpperChar(s[i])
    decreases |s|
  {
    if |s| > 0 {
      ToUpperPointwise(s[1..]);
    }
  }

  /** An upper-cased string has no lower-case letter left, and upper-casing it again changes nothing. */
  lemma ToUpperIdempotent(s: string)
    ensures forall i :: 0 <= i < |ToUpper(s)| ==> !IsLower(ToUpper(s)[i])
    ensures ToUpper(ToUpper(s)) == ToUpper(s)
  {
    ToUpperPointwise(s);
    ToUpperPointwise(ToUpper(s));
  }

  /** Two strings upper-case alike exactly when they differ at most in letter case. */
  lemma ToUpperEqualIffIgnoringCase(s: string, t: string)
    requires |s| == |t|
    ensures ToUpper(s) == ToUpper(t) <==> EqualIgnoringCase(s, t)
  {
    ToUpperPointwise(s);
    ToUpperPointwise(t);
    if ToUpper(s) == ToUpper(t) {
      forall i | 0 <= i < |s| ensures SameIgnoringCase(s[i], t[i]) {
        assert UpperChar(s[i]) == UpperChar(t[i]);
      }
    }
    if EqualIgnoringCase(s, t) {
      forall i | 0 <= i < |s| ensures ToUpper(s)[i] == ToUpper(t)[i] {
        assert SameIgnoringCase(s[i], t[i]);
      }
    }
  }

  /** Upper-casing keeps white space where it was, so it keeps a trimmed string trimmed. */
  lemma ToUpperKeepsTrimmed(s: string)
    requires Trimmed(s)
    ensures Trimmed(ToUpper(s))
  {
    ToUpperPointwise(s);
  }

  lemma {:induction false} TrimLeftToUpper(s: string)
    ensures TrimLeft(ToUpper(s)) == ToUpper(TrimLeft(s))
    decreases |s|
  {
    if |s| > 0 {
      ToUpperPointwise(s);
      TrimLeftToUpper(s[1..]);
    }
  }

  lemma {:induction false} TrimRightToUpper(s: string)
    ensures TrimRight(ToUpper(s)) == ToUpper(TrimRight(s))
    decreases |s|
  {
    if |s| > 0 {
      ToUpperPointwise(s);
      ToUpperPointwise(s[..|s| - 1]);
      assert ToUpper(s)[..|s| - 1] == ToUpper(s[..|s| - 1]);
      TrimRightToUpper(s[..|s| - 1]);
      if !IsSpace(s[|s| - 1]) {
        assert TrimRight(s) == s;
      }
    }
  }

  /** Upper-casing and trimming can be done in either order. */
  lemma TrimSpaceToUpper(s: string)
    ensures TrimSpace(ToUpper(s)) == ToUpper(TrimSpace(s))
  {
    TrimLeftToUpper(s);
    TrimRightToUpper(TrimLeft(s));
  }

  /** `strings.ReplaceAll(s, " ", "")`: every space character removed, everything else kept in order. */
  function RemoveSpaces(s: string): (r: string)
    ensures ' ' !in r
    ensures |r| <= |s|
  {
    if |s| == 0 then
      []
    else
      var rest := RemoveSpaces(s[1..]);
      if s[0] == ' ' then rest else [s[0]] + rest
  }

  /** Every character other than a space occurs as often after the removal as before. */
  lemma {:induction false} RemoveSpacesKeepsOthers(s: string)
    ensures forall c :: c != ' ' ==> multiset(RemoveSpaces(s))[c] == multiset(s)[c]
    decreases |s|
  {
    if |s| > 0 {
      assert s == [s[0]] + s[1..];
      RemoveSpacesKeepsOthers(s[1..]);
    }
  }

  /** Removing spaces distributes over concatenation, so the relative order of the kept characters is unchanged. */
  lemma {:induction false} RemoveSpacesAppend(a: string, b: string)
    ensures RemoveSpaces(a + b) == RemoveSpaces(a) + RemoveSpaces(b)
    decreases |a|
  {
    if |a| == 0 {
      assert a + b == b;
    } else {
      assert (a + b)[1..] == a[1..] + b;
      RemoveSpacesAppend(a[1..], b);
    }
  }

  /** A string without spaces is left as it is. */
  lemma {:induction false} RemoveSpacesFixpoint(s: string)
    requires ' ' !in s
    ensures RemoveSpaces(s) == s
    decreases |s|
  {
    if |s| > 0 {
      assert ' ' !in s[1..];
      RemoveSpacesFixpoint(s[1..]);
    }
  }

  /** A first and a last character that are not spaces survive the removal at the same ends. */
  lemma RemoveSpacesKeepsEnds(s: string)
    requires |s| > 0 && s[0] != ' ' && s[|s| - 1] != ' '
    ensures |RemoveSpaces(s)| > 0
    ensures RemoveSpaces(s)[0] == s[0]
    ensures RemoveSpaces(s)[|RemoveSpaces(s)| - 1] == s[|s| - 1]
  {
    var last := [s[|s| - 1]];
    assert s == s[..|s| - 1] + last;
    RemoveSpacesAppend(s[..|s| - 1], last);
    assert RemoveSpaces(last) == last;
  }
}
