/**
 The string operations the guardrail relies on: lower-casing, substring
 search (Python's `word in text`) and fixed-point rendering of an amount.
 Strings are sequences of characters; no Unicode case mapping is modelled.
 */
module Text {

  /** Python's `str.lower()` on one character, restricted to ASCII:
      'A'..'Z' become 'a'..'z' and every other character is kept. */
  function LowerChar(c: char): (l: char)
    ensures !('A' <= l <= 'Z')
    ensures !('A' <= c <= 'Z') ==> l == c
    ensures 'A' <= c <= 'Z' ==> 'a' <= l <= 'z' && l as int - 'a' as int == c as int - 'A' as int
  {
    if 'A' <= c <= 'Z' then (c as int + 32) as char else c
  }

  /** `s.lower()`, character by character. */
  function Lower(s: string): (r: string)
    ensures |r| == |s|
    ensures forall i :: 0 <= i < |s| ==> r[i] == LowerChar(s[i])
    ensures forall i :: 0 <= i < |r| ==> !('A' <= r[i] <= 'Z')
    ensures forall i :: 0 <= i < |s| && !('A' <= s[i] <= 'Z') ==> r[i] == s[i]
  {
    seq(|s|, i requires 0 <= i < |s| => LowerChar(s[i]))
  }

  /** Lower-casing twice is lower-casing once. */
  lemma LowerIdempotent(s: string)
    ensures Lower(Lower(s)) == Lower(s)
  {
  }

  /** `word` occurs in `text` starting at position `i`. */
  predicate MatchAt(text: string, word: string, i: nat)
  {
    i + |word| <= |text| && text[i..i + |word|] == word
  }

  /** Python's `word in text`: some position of `text` starts an occurrence of `word`. */
  ghost predicate Contains(text: string, word: string)
  {
    exists i: nat :: MatchAt(text, word, i)
  }

  /** An occurrence in the tail of `text` is an occurrence in `text`, one position on. */
  lemma MatchInTail(text: string, word: string, i: nat)
    requires |text| > 0
    ensures MatchAt(text[1..], word, i) <==> MatchAt(text, word, i + 1)
  {
    if i + |word| <= |text[1..]| {
      assert text[1..][i..i + |word|] == text[i + 1..i + 1 + |word|];
    }
  }

  /** Dropping an equal first character from both sides keeps a match at the front. */
  lemma MatchAtFront(text: string, word: string)
    requires |text| > 0 && |word| > 0 && text[0] == word[0]
    ensures MatchAt(text[1..], word[1..], 0) <==> MatchAt(text, word, 0)
  {
    if |word| <= |text| {
      assert text[..|word|] == [text[0]] + text[1..][..|word| - 1];
      assert word == [word[0]] + word[1..];
    }
  }

  /** `text` begins with `word`, compared character by character. */
  function StartsWith(text: string, word: string): (r: bool)
    ensures r <==> MatchAt(text, word, 0)
    decreases |word|
  {
    if |word| == 0 then
      assert text[0..0] == word;
      true
    else if |text| == 0 || text[0] != word[0] then false
    else
      MatchAtFront(text, word);
      StartsWith(text[1..], word[1..])
  }

  /** The executable substring test: compare at the front, then search the tail. */
  function Occurs(text: string, word: string): (found: bool)
    ensures found <==> Contains(text, word)
    decreases |text|
  {
    if |text| < |word| then false
    else if StartsWith(text, word) then true
    else
      var rest := Occurs(text[1..], word);
      assert rest ==> Contains(text, word) by {
        if rest {
          var i: nat :| MatchAt(text[1..], word, i);
          MatchInTail(text, word, i);
        }
      }
      assert Contains(text, word) ==> rest by {
        if Contains(text, word) {
          var i: nat :| MatchAt(text, word, i);
          assert i > 0;
          MatchInTail(text, word, i - 1);
        }
      }
      rest
  }

  /** A decimal digit as a character. */
  function DigitChar(d: nat): (c: char)
    requires d < 10
    ensures '0' <= c <= '9'
    ensures c as int - '0' as int == d
  {
    ('0' as int + d) as char
  }

  /** The value a string of decimal digits denotes. */
  function DigitsValue(s: string): nat
  {
    if |s| == 0 then 0
    else
      var d := s[|s| - 1] as int - '0' as int;
      DigitsValue(s[..|s| - 1]) * 10 + (if 0 <= d < 10 then d else 0)
  }

  /** `str(n)`: the shortest decimal rendering of a natural number. */
  function NatToDecimal(n: nat): (s: string)
    ensures 1 <= |s|
    ensures forall i :: 0 <= i < |s| ==> '0' <= s[i] <= '9'
    ensures DigitsValue(s) == n
    ensures |s| > 1 ==> s[0] != '0'
    decreases n
  {
    if n < 10 then [DigitChar(n)]
    else
      var prefix := NatToDecimal(n / 10);
      var s := prefix + [DigitChar(n % 10)];
      assert s[..|s| - 1] == prefix;
      s
  }

  /** `n` written with exactly `width` digits, padded with leading zeros. */
  function PadDigits(n: nat, width: nat): (s: string)
    requires n < Pow10(width)
    ensures |s| == width
    ensures forall i :: 0 <= i < |s| ==> '0' <= s[i] <= '9'
    ensures DigitsValue(s) == n
    decreases width
  {
    if width == 0 then ""
    else
      var prefix := PadDigits(n / 10, width - 1);
      var s := prefix + [DigitChar(n % 10)];
      assert s[..|s| - 1] == prefix;
      s
  }

  function Pow10(k: nat): (p: nat)
    ensures p >= 1
  {
    if k == 0 then 1 else 10 * Pow10(k - 1)
  }

  /** Python's `f"{x:.4f}"` for an amount of `micro` millionths, rounding the
      exact value to four decimals with ties to even. */
  function FourDecimals(micro: nat): (s: string)
    ensures |s| >= 6 && s[|s| - 5] == '.'
    ensures forall i :: 0 <= i < |s| && i != |s| - 5 ==> '0' <= s[i] <= '9'
    ensures s[0] == '0' ==> s[1] == '.'
    ensures DigitsValue(s[..|s| - 5]) * 10000 + DigitsValue(s[|s| - 4..]) == RoundToTenThousandths(micro)
  {
    var q := RoundToTenThousandths(micro);
    var whole := NatToDecimal(q / 10000);
    var frac := PadDigits(q % 10000, 4);
    var s := whole + "." + frac;
    assert s[..|s| - 5] == whole;
    assert s[|s| - 4..] == frac;
    s
  }

  /** `micro` millionths rounded to the nearest ten-thousandth, ties to even. */
  function RoundToTenThousandths(micro: nat): (q: nat)
    ensures 100 * q - 50 <= micro <= 100 * q + 50
  {
    var q := micro / 100;
    var rest := micro % 100;
    if rest > 50 || (rest == 50 && q % 2 == 1) then q + 1 else q
  }
}
