/** Text operations the costing application applies to names and field values:
    `str.lower()`, `str.strip()`, the substring test `needle in haystack`,
    `str.isalpha()` on one character, and the pattern `^\$?\s*[\d\.,]+$` that the
    recipes view uses to spot a number standing in a text column.
    Only the ASCII range is modelled (see README, "Left out"). */
module Strings {

  /** Python's `str.isspace()` restricted to ASCII: tab, line feed, vertical tab,
      form feed, carriage return, the four separators 0x1C..0x1F, and space. */
  predicate IsSpace(c: char) {
    ('\t' <= c <= '\r') || (28 as char <= c <= 31 as char) || c == ' '
  }

  predicate IsLetter(c: char) {
    ('a' <= c <= 'z') || ('A' <= c <= 'Z')
  }

  predicate IsDigit(c: char) {
    '0' <= c <= '9'
  }

  function LowerChar(c: char): (d: char)
    ensures IsLetter(c) <==> IsLetter(d)
    ensures !('A' <= d <= 'Z')
  {
    if 'A' <= c <= 'Z' then (c as int + 32) as char else c
  }

  /** `s.lower()` */
  function Lower(s: string): (r: string)
    ensures |r| == |s|
    ensures forall i :: 0 <= i < |s| ==> r[i] == LowerChar(s[i])
  {
    seq(|s|, i requires 0 <= i < |s| => LowerChar(s[i]))
  }

  /** Leading whitespace removed (the left half of `str.strip()`). */
  function TrimLeft(s: string): (r: string)
    ensures |r| <= |s| && r == s[|s| - |r|..]
    ensures r == [] || !IsSpace(r[0])
    ensures forall i :: 0 <= i < |s| - |r| ==> IsSpace(s[i])
  {
    if s != [] && IsSpace(s[0]) then TrimLeft(s[1..]) else s
  }

  /** Trailing whitespace removed (the right half of `str.strip()`). */
  function TrimRight(s: string): (r: string)
    ensures |r| <= |s| && r == s[..|r|]
    ensures r == [] || !IsSpace(r[|r| - 1])
    ensures forall i :: |r| <= i < |s| ==> IsSpace(s[i])
  {
    if s != [] && IsSpace(s[|s| - 1]) then TrimRight(s[..|s| - 1]) else s
  }

  /** `s.strip()` */
  function Strip(s: string): string {
    TrimRight(TrimLeft(s))
  }

  /** Every character of `s` is whitespace. */
  predicate IsBlank(s: string) {
    forall i :: 0 <= i < |s| ==> IsSpace(s[i])
  }

  /** `not s.strip()` holds exactly when `s` is empty or all whitespace. */
  lemma StripEmptyIffBlank(s: string)
    ensures Strip(s) == [] <==> IsBlank(s)
  {
    var l := TrimLeft(s);
    if l != [] {
      assert !IsSpace(l[0]);
      assert TrimRight(l) != [];
      assert l[0] == s[|s| - |l|];
    }
  }

  /** `needle in haystack` for Python strings. */
  function Contains(haystack: string, needle: string): bool
    decreases |haystack|
  {
    if |needle| > |haystack| then false
    else if haystack[..|needle|] == needle then true
    else Contains(haystack[1..], needle)
  }

  /** `needle` occurs in `haystack` at position `i`. */
  ghost predicate OccursAt(haystack: string, needle: string, i: int) {
    0 <= i && i + |needle| <= |haystack| && haystack[i..i + |needle|] == needle
  }

  /** The recursive test agrees with the definition of a substring occurrence. */
  lemma {:induction false} ContainsIff(haystack: string, needle: string)
    ensures Contains(haystack, needle) <==> exists i :: OccursAt(haystack, needle, i)
    decreases |haystack|
  {
    if |needle| > |haystack| {
    } else if haystack[..|needle|] == needle {
      assert OccursAt(haystack, needle, 0);
    } else {
      var tail := haystack[1..];
      ContainsIff(tail, needle);
      if Contains(tail, needle) {
        var i :| OccursAt(tail, needle, i);
        assert haystack[i + 1..i + 1 + |needle|] == tail[i..i + |needle|];
        assert OccursAt(haystack, needle, i + 1);
      } else {
        forall i | OccursAt(haystack, needle, i) ensures false {
          assert i != 0;
          assert tail[i - 1..i - 1 + |needle|] == haystack[i..i + |needle|];
          assert OccursAt(tail, needle, i - 1);
        }
      }
    }
  }

  /** `any(ch.isalpha() for ch in s)` */
  predicate HasLetter(s: string) {
    exists i :: 0 <= i < |s| && IsLetter(s[i])
  }

  predicate IsAmountChar(c: char) {
    IsDigit(c) || c == '.' || c == ','
  }

  /** `re.match(r'^\$?\s*[\d\.,]+$', s)` for a string `s` that has already been
      stripped: an optional dollar sign, optional whitespace, then one or more digits,
      dots or commas up to the end. */
  predicate LooksLikeAmount(s: string) {
    AmountBody(if s != [] && s[0] == '$' then s[1..] else s)
  }

  /** `\s*[\d\.,]+$`: optional whitespace, then one or more digits, dots or commas. */
  predicate AmountBody(t: string) {
    TrimLeft(t) != [] && forall i :: 0 <= i < |TrimLeft(t)| ==> IsAmountChar(TrimLeft(t)[i])
  }

  /** Every character of a string that matches the amount pattern is a dollar
      sign, whitespace, a digit, a dot or a comma. */
  lemma AmountCharacters(s: string)
    requires LooksLikeAmount(s)
    ensures forall i :: 0 <= i < |s| ==> s[i] == '$' || IsSpace(s[i]) || IsAmountChar(s[i])
  {
    if s != [] && s[0] == '$' {
      var t := s[1..];
      AmountBodyCharacters(t);
      forall i | 1 <= i < |s| ensures IsSpace(s[i]) || IsAmountChar(s[i]) {
        assert s[i] == t[i - 1];
      }
    } else {
      AmountBodyCharacters(s);
    }
  }

  /** After the optional dollar sign: leading whitespace, then amount characters. */
  lemma {:induction false} AmountBodyCharacters(t: string)
    requires AmountBody(t)
    ensures forall i :: 0 <= i < |t| ==> IsSpace(t[i]) || IsAmountChar(t[i])
  {
    if t != [] && IsSpace(t[0]) {
      var tail := t[1..];
      assert TrimLeft(t) == TrimLeft(tail);
      AmountBodyCharacters(tail);
      forall i | 1 <= i < |t| ensures IsSpace(t[i]) || IsAmountChar(t[i]) {
        assert t[i] == tail[i - 1];
      }
    } else {
      assert TrimLeft(t) == t;
    }
  }

  /** A string with a letter in it never matches the amount pattern. */
  lemma LetterIsNotAmount(s: string)
    requires HasLetter(s)
    ensures !LooksLikeAmount(s)
  {
    if LooksLikeAmount(s) {
      AmountCharacters(s);
    }
  }
}
