/** The part of Python's `str` behaviour that the game's prompts depend on:
    `lower()`, `upper()` and `strip()` as used to read the hit/stay and the
    continue/stop answers. */
module Text {

  /** Python's `str.isspace()`: the characters `strip()` removes. */
  predicate IsSpace(c: char)
  {
    || ('\U{9}' <= c <= '\U{D}')
    || ('\U{1C}' <= c <= '\U{20}')
    || c == '\U{85}' || c == '\U{A0}' || c == '\U{1680}'
    || ('\U{2000}' <= c <= '\U{200A}')
    || c == '\U{2028}' || c == '\U{2029}' || c == '\U{202F}' || c == '\U{205F}'
    || c == '\U{3000}'
  }

  predicate IsBlank(s: string)
  {
    forall i :: 0 <= i < |s| ==> IsSpace(s[i])
  }

  /** Lower-case mapping of one character: each ASCII capital becomes its
      own small letter, 32 code points on, and nothing else changes. */
  function LowerChar(c: char): (d: char)
    ensures !('A' <= d <= 'Z')
    ensures 'A' <= c <= 'Z' ==> 'a' <= d <= 'z' && d as int == c as int + 32
    ensures !('A' <= c <= 'Z') ==> d == c
    ensures IsSpace(d) <==> IsSpace(c)
  {
    if 'A' <= c <= 'Z' then (c as int + 32) as char else c
  }

  /** Upper-case mapping of one character: each ASCII small letter becomes
      its own capital, 32 code points back, the long s (U+017F) becomes the
      plain letter S, and nothing else changes. */
  function UpperChar(c: char): (d: char)
    ensures !('a' <= d <= 'z') && d != '\U{17F}'
    ensures 'a' <= c <= 'z' ==> 'A' <= d <= 'Z' && d as int == c as int - 32
    ensures c == '\U{17F}' ==> d == 'S'
    ensures !('a' <= c <= 'z') && c != '\U{17F}' ==> d == c
    ensures d == 'H' <==> c == 'h' || c == 'H'
    ensures d == 'S' <==> c == 's' || c == 'S' || c == '\U{17F}'
  {
    if 'a' <= c <= 'z' then (c as int - 32) as char
    else if c == '\U{17F}' then 'S'
    else c
  }

  /** On ASCII letters the two mappings undo each other. */
  lemma CaseRoundTrip(c: char)
    ensures 'A' <= c <= 'Z' ==> UpperChar(LowerChar(c)) == c
    ensures 'a' <= c <= 'z' ==> LowerChar(UpperChar(c)) == c
  {
  }

  /** Python's `lower()`: no capital is left, every capital becomes its own
      small letter in place, and every other character is kept. */
  function Lower(s: string): (t: string)
    ensures |t| == |s|
    ensures forall i :: 0 <= i < |t| ==> !('A' <= t[i] <= 'Z')
    ensures forall i :: 0 <= i < |s| && 'A' <= s[i] <= 'Z' ==>
      'a' <= t[i] <= 'z' && t[i] as int == s[i] as int + 32
    ensures forall i :: 0 <= i < |s| && !('A' <= s[i] <= 'Z') ==> t[i] == s[i]
  {
    seq(|s|, i requires 0 <= i < |s| => LowerChar(s[i]))
  }

  /** Python's `upper()`: no small ASCII letter or long s is left, every
      small letter becomes its own capital in place, the long s becomes S,
      and every other character is kept. */
  function Upper(s: string): (t: string)
    ensures |t| == |s|
    ensures forall i :: 0 <= i < |t| ==> !('a' <= t[i] <= 'z') && t[i] != '\U{17F}'
    ensures forall i :: 0 <= i < |s| && 'a' <= s[i] <= 'z' ==>
      'A' <= t[i] <= 'Z' && t[i] as int == s[i] as int - 32
    ensures forall i :: 0 <= i < |s| && s[i] == '\U{17F}' ==> t[i] == 'S'
    ensures forall i :: 0 <= i < |s| && !('a' <= s[i] <= 'z') && s[i] != '\U{17F}' ==> t[i] == s[i]
  {
    seq(|s|, i requires 0 <= i < |s| => UpperChar(s[i]))
  }

  /** Python's `lstrip()`: drops the leading white space. */
  function StripLeft(s: string): string
  {
    if |s| > 0 && IsSpace(s[0]) then StripLeft(s[1..]) else s
  }

  /** `lstrip()` removes a blank prefix and nothing more: what is left is a
      suffix of the text that does not start with white space. */
  lemma {:induction false} StripLeftRemovesBlankPrefix(s: string)
    ensures |StripLeft(s)| <= |s| && StripLeft(s) == s[|s| - |StripLeft(s)|..]
    ensures IsBlank(s[..|s| - |StripLeft(s)|])
    ensures StripLeft(s) == [] || !IsSpace(StripLeft(s)[0])
  {
    if |s| > 0 && IsSpace(s[0]) {
      StripLeftRemovesBlankPrefix(s[1..]);
    }
  }

  /** Python's `rstrip()`: drops the trailing white space. */
  function StripRight(s: string): string
  {
    if |s| > 0 && IsSpace(s[|s| - 1]) then StripRight(s[..|s| - 1]) else s
  }

  /** `rstrip()` removes a blank suffix and nothing more: what is left is a
      prefix of the text that does not end with white space. */
  lemma {:induction false} StripRightRemovesBlankSuffix(s: string)
    ensures |StripRight(s)| <= |s| && StripRight(s) == s[..|StripRight(s)|]
    ensures IsBlank(s[|StripRight(s)|..])
    ensures StripRight(s) == [] || !IsSpace(StripRight(s)[|StripRight(s)| - 1])
  {
    if |s| > 0 && IsSpace(s[|s| - 1]) {
      var init := s[..|s| - 1];
      StripRightRemovesBlankSuffix(init);
      var n := |StripRight(init)|;
      BlankExtends(init[n..], s[|s| - 1]);
      assert s[n..] == init[n..] + [s[|s| - 1]];
    } else {
      assert s[|s|..] == [];
    }
  }

  /** White space after blank text is blank text. */
  lemma BlankExtends(a: string, c: char)
    requires IsBlank(a) && IsSpace(c)
    ensures IsBlank(a + [c])
  {
    assert forall i :: 0 <= i < |a| ==> (a + [c])[i] == a[i];
  }

  /** Python's `strip()`. */
  function Strip(s: string): (t: string)
  {
    StripRight(StripLeft(s))
  }

  /** A stripped string is empty exactly when the original was all white space. */
  lemma StripEmptyIffBlank(s: string)
    ensures Strip(s) == [] <==> IsBlank(s)
  {
    var l := StripLeft(s);
    StripLeftRemovesBlankPrefix(s);
    StripRightRemovesBlankSuffix(l);
    if l == [] {
      assert s[..|s| - |l|] == s;
    } else {
      assert !IsSpace(l[0]);
      assert StripRight(l) != [];
      assert !IsBlank(s) by {
        assert s[|s| - |l|] == l[0];
      }
    }
  }

  /** `lower()` does not change which characters are white space, so it can
      be applied before or after `lstrip()`. */
  lemma {:induction false} StripLeftLower(s: string)
    ensures StripLeft(Lower(s)) == Lower(StripLeft(s))
  {
    if |s| > 0 && IsSpace(s[0]) {
      assert Lower(s)[1..] == Lower(s[1..]);
      StripLeftLower(s[1..]);
    }
  }

  /** The same for `rstrip()`. */
  lemma {:induction false} StripRightLower(s: string)
    ensures StripRight(Lower(s)) == Lower(StripRight(s))
  {
    if |s| > 0 && IsSpace(s[|s| - 1]) {
      assert Lower(s)[..|s| - 1] == Lower(s[..|s| - 1]);
      StripRightLower(s[..|s| - 1]);
    }
  }

  /** Lower-casing then stripping is stripping then lower-casing. */
  lemma StripLower(s: string)
    ensures Strip(Lower(s)) == Lower(Strip(s))
  {
    StripLeftLower(s);
    StripRightLower(StripLeft(s));
  }
}
