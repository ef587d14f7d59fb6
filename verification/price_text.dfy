/** The price-text cleaning of `initializeProductPage` (universal-cart.js): strip the
    currency markers "Rs.", "Rs" and "PKR" in any letter case, strip the thousands
    commas, then trim. The `parseFloat` that follows is not part of this model. */
module PriceText {
  import opened JsText

  /** The code points JavaScript's `trim` removes: WhiteSpace (tab, vertical tab,
      form feed, no-break space, byte-order mark and every space separator) and
      LineTerminator (line feed, carriage return, line and paragraph separators). */
  predicate IsTrimmable(c: char) {
    var n := c as int;
    || n == 0x09 || n == 0x0A || n == 0x0B || n == 0x0C || n == 0x0D || n == 0x20
    || n == 0xA0 || n == 0x1680 || (0x2000 <= n <= 0x200A) || n == 0x2028 || n == 0x2029
    || n == 0x202F || n == 0x205F || n == 0x3000 || n == 0xFEFF
  }

  /** ASCII upper-casing. A case-insensitive regular expression without the `u` flag
      folds a character only when both it and its upper case are ASCII or both are
      not, so for the ASCII patterns used here folding is exactly this. */
  function Upper(c: char): char {
    if 'a' <= c <= 'z' then (c as int - 32) as char else c
  }

  /** Equal up to ASCII letter case. */
  predicate SameLetter(a: char, b: char) {
    Upper(a) == Upper(b)
  }

  /** `s` begins with `pat`, letter case ignored. */
  predicate MatchesAt(s: string, pat: string) {
    |pat| <= |s| && forall k :: 0 <= k < |pat| ==> SameLetter(s[k], pat[k])
  }

  /** `a` is `b` with some characters deleted: every character of `a` appears in
      `b`, in the same order. */
  predicate Subsequence(a: string, b: string)
    decreases |b|
  {
    |a| == 0 || (|b| > 0 && ((a[0] == b[0] && Subsequence(a[1..], b[1..])) || Subsequence(a, b[1..])))
  }

  /** A subsequence of a suffix is a subsequence of the whole. */
  lemma {:induction false} SubsequenceOfSuffix(a: string, b: string, n: nat)
    requires n <= |b| && Subsequence(a, b[n..])
    ensures Subsequence(a, b)
    decreases n
  {
    if n > 0 {
      assert b[1..][n - 1..] == b[n..];
      SubsequenceOfSuffix(a, b[1..], n - 1);
    }
  }

  /** `s.replace(/pat/gi, "")` for a literal pattern: scan left to right, drop each
      match and resume right after it, keep every other character. */
  function RemoveAll(s: string, pat: string): (r: string)
    requires |pat| > 0
    ensures |r| <= |s|
    ensures multiset(r) <= multiset(s)
    ensures Subsequence(r, s)
    decreases |s|
  {
    if |s| == 0 then []
    else if MatchesAt(s, pat) then
      var rest := RemoveAll(s[|pat|..], pat);
      assert s == s[..|pat|] + s[|pat|..];
      SubsequenceOfSuffix(rest, s, |pat|);
      rest
    else
      var rest := RemoveAll(s[1..], pat);
      assert s == [s[0]] + s[1..];
      assert ([s[0]] + rest)[1..] == rest;
      [s[0]] + rest
  }

  /** A one-character pattern leaves no character that matches it. */
  lemma {:induction false} RemoveAllSingleChar(s: string, c: char)
    ensures forall k :: 0 <= k < |RemoveAll(s, [c])| ==> !SameLetter(RemoveAll(s, [c])[k], c)
    decreases |s|
  {
    if |s| > 0 {
      RemoveAllSingleChar(s[1..], c);
    }
  }

  /** A match holds no character that matches no letter of the pattern. */
  lemma MatchLacksForeign(s: string, pat: string, x: char)
    requires MatchesAt(s, pat)
    requires forall k :: 0 <= k < |pat| ==> !SameLetter(x, pat[k])
    ensures x !in s[..|pat|]
  {
    forall k | 0 <= k < |pat| ensures s[..|pat|][k] != x {
      assert SameLetter(s[k], pat[k]);
    }
  }

  /** Counting a character in a string split at `n`. */
  lemma CountSplit(s: string, n: nat, x: char)
    requires n <= |s|
    ensures multiset(s)[x] == multiset(s[..n])[x] + multiset(s[n..])[x]
  {
    assert s == s[..n] + s[n..];
  }

  /** A character that matches no letter of the pattern is never part of a match,
      so the replacement keeps every occurrence of it. */
  lemma {:induction false} RemoveAllKeepsForeign(s: string, pat: string, x: char)
    requires |pat| > 0
    requires forall k :: 0 <= k < |pat| ==> !SameLetter(x, pat[k])
    ensures multiset(RemoveAll(s, pat))[x] == multiset(s)[x]
    decreases |s|
  {
    if |s| > 0 {
      if MatchesAt(s, pat) {
        RemoveAllKeepsForeign(s[|pat|..], pat, x);
        CountSplit(s, |pat|, x);
        MatchLacksForeign(s, pat, x);
      } else {
        RemoveAllKeepsForeign(s[1..], pat, x);
        CountSplit(s, 1, x);
        assert s[..1] == [s[0]];
      }
    }
  }

  /** When no character of `s` can start a match, the replacement changes nothing. */
  lemma {:induction false} RemoveAllUnmatched(s: string, pat: string)
    requires |pat| > 0
    requires forall k :: 0 <= k < |s| ==> !SameLetter(s[k], pat[0])
    ensures RemoveAll(s, pat) == s
    decreases |s|
  {
    if |s| > 0 {
      RemoveAllUnmatched(s[1..], pat);
    }
  }

  /** How many trimmable characters `s` starts with (what `trimStart` drops). */
  function LeadingBlanks(s: string): (n: nat)
    ensures n <= |s|
    ensures forall k :: 0 <= k < n ==> IsTrimmable(s[k])
    ensures n < |s| ==> !IsTrimmable(s[n])
    decreases |s|
  {
    if |s| > 0 && IsTrimmable(s[0]) then
      var m := LeadingBlanks(s[1..]);
      assert forall k :: 1 <= k < 1 + m ==> s[k] == s[1..][k - 1];
      1 + m
    else 0
  }

  /** How many trimmable characters `s` ends with (what `trimEnd` drops). */
  function TrailingBlanks(s: string): (n: nat)
    ensures n <= |s|
    ensures forall k :: |s| - n <= k < |s| ==> IsTrimmable(s[k])
    ensures n < |s| ==> !IsTrimmable(s[|s| - n - 1])
    decreases |s|
  {
    if |s| > 0 && IsTrimmable(s[|s| - 1]) then 1 + TrailingBlanks(s[..|s| - 1]) else 0
  }

  /** `trim`: the middle slice of `s` between its leading and its trailing run of
      trimmable characters; it neither begins nor ends with a trimmable character,
      and everything cut off on either side is trimmable. */
  function Trim(s: string): (r: string)
    ensures |r| == 0 || (!IsTrimmable(r[0]) && !IsTrimmable(r[|r| - 1]))
    ensures var i := LeadingBlanks(s);
      && i + |r| <= |s| && r == s[i..i + |r|]
      && (forall k :: 0 <= k < i ==> IsTrimmable(s[k]))
      && (forall k :: i + |r| <= k < |s| ==> IsTrimmable(s[k]))
  {
    var i := LeadingBlanks(s);
    if i == |s| then []
    else
      var j := |s| - TrailingBlanks(s);
      assert i < j;
      s[i..j]
  }

  /** Trimming twice is trimming once. */
  lemma TrimIdempotent(s: string)
    ensures Trim(Trim(s)) == Trim(s)
  {
    var r := Trim(s);
    if |r| > 0 {
      assert LeadingBlanks(r) == 0;
      assert TrailingBlanks(r) == 0;
      assert r[0..|r|] == r;
    }
  }

  /** The three currency-marker replacements, in the order the source applies them. */
  function StripMarkers(text: string): (r: string)
    ensures |r| <= |text|
  {
    RemoveAll(RemoveAll(RemoveAll(text, "Rs."), "Rs"), "PKR")
  }

  /** The thousands-comma replacement (`/,/g`, no case flag, which a comma does not
      need): no comma survives it. */
  function StripCommas(s: string): (r: string)
    ensures |r| <= |s|
    ensures forall k :: 0 <= k < |r| ==> r[k] != ','
  {
    RemoveAllSingleChar(s, ',');
    RemoveAll(s, ",")
  }

  /** Trimming keeps a character out of a string that did not contain it. */
  lemma TrimKeepsOut(s: string, c: char)
    requires forall k :: 0 <= k < |s| ==> s[k] != c
    ensures forall k :: 0 <= k < |Trim(s)| ==> Trim(s)[k] != c
  {
    var r := Trim(s);
    var i := LeadingBlanks(s);
    forall k | 0 <= k < |r| ensures r[k] != c {
      assert r[k] == s[i + k];
    }
  }

  /** The whole cleaning chain, in the order the source applies it. */
  function CleanPrice(text: string): (r: string)
    ensures forall k :: 0 <= k < |r| ==> r[k] != ','
    ensures |r| == 0 || (!IsTrimmable(r[0]) && !IsTrimmable(r[|r| - 1]))
    ensures |r| <= |text|
  {
    var noCommas := StripCommas(StripMarkers(text));
    TrimKeepsOut(noCommas, ',');
    Trim(noCommas)
  }

  /** Text with no currency-marker letter and no comma is only trimmed. */
  lemma {:induction false} CleanPlainText(text: string)
    requires forall k :: 0 <= k < |text| ==> Upper(text[k]) !in {'R', 'P', ','}
    ensures CleanPrice(text) == Trim(text)
  {
    RemoveAllUnmatched(text, "Rs.");
    RemoveAllUnmatched(text, "Rs");
    RemoveAllUnmatched(text, "PKR");
    RemoveAllUnmatched(text, ",");
  }

  /** A decimal digit. */
  predicate IsDigit(c: char) {
    '0' <= c <= '9'
  }

  /** The digits of `s`, in order. */
  function Digits(s: string): string
    decreases |s|
  {
    if |s| == 0 then [] else (if IsDigit(s[0]) then [s[0]] else []) + Digits(s[1..])
  }

  /** The digits of a concatenation are the digits of each part, in order. */
  lemma {:induction false} DigitsAppend(a: string, b: string)
    ensures Digits(a + b) == Digits(a) + Digits(b)
    decreases |a|
  {
    if |a| == 0 {
      assert a + b == b;
    } else {
      var head := if IsDigit(a[0]) then [a[0]] else [];
      var ab := a + b;
      assert ab[0] == a[0] && ab[1..] == a[1..] + b;
      assert Digits(ab) == head + Digits(a[1..] + b);
      DigitsAppend(a[1..], b);
      assert Digits(a) == head + Digits(a[1..]);
    }
  }

  /** A string without a digit has no digits. */
  lemma {:induction false} DigitsNone(s: string)
    requires forall k :: 0 <= k < |s| ==> !IsDigit(s[k])
    ensures Digits(s) == []
    decreases |s|
  {
    if |s| > 0 {
      DigitsNone(s[1..]);
    }
  }

  /** Removing a pattern none of whose letters is a digit in either case keeps every
      digit of the text, in order. */
  lemma {:induction false} RemoveAllKeepsDigits(s: string, pat: string)
    requires |pat| > 0
    requires DigitFree(pat)
    ensures Digits(RemoveAll(s, pat)) == Digits(s)
    decreases |s|
  {
    if |s| > 0 {
      if MatchesAt(s, pat) {
        RemoveAllKeepsDigits(s[|pat|..], pat);
        var m := s[..|pat|];
        forall k | 0 <= k < |m| ensures !IsDigit(m[k]) {
          assert SameLetter(s[k], pat[k]);
        }
        DigitsNone(m);
        assert s == m + s[|pat|..];
        DigitsAppend(m, s[|pat|..]);
      } else {
        RemoveAllKeepsDigits(s[1..], pat);
        var r := [s[0]] + RemoveAll(s[1..], pat);
        assert r[1..] == RemoveAll(s[1..], pat);
      }
    }
  }

  /** Splitting off a part made only of whitespace leaves the digits alone. */
  lemma DigitsSkipBlank(blank: string, rest: string)
    requires forall k :: 0 <= k < |blank| ==> IsTrimmable(blank[k])
    ensures Digits(blank + rest) == Digits(rest)
    ensures Digits(rest + blank) == Digits(rest)
  {
    DigitsNone(blank);
    DigitsAppend(blank, rest);
    DigitsAppend(rest, blank);
  }

  /** Dropping a leading run of whitespace keeps every digit. */
  lemma DropBlankFront(s: string, n: nat)
    requires n <= |s| && forall k :: 0 <= k < n ==> IsTrimmable(s[k])
    ensures Digits(s[n..]) == Digits(s)
  {
    assert s == s[..n] + s[n..];
    DigitsSkipBlank(s[..n], s[n..]);
  }

  /** Dropping a trailing run of whitespace keeps every digit. */
  lemma DropBlankBack(s: string, n: nat)
    requires n <= |s| && forall k :: n <= k < |s| ==> IsTrimmable(s[k])
    ensures Digits(s[..n]) == Digits(s)
  {
    var back := s[n..];
    assert forall k :: 0 <= k < |back| ==> back[k] == s[n + k];
    assert s == s[..n] + back;
    DigitsSkipBlank(back, s[..n]);
  }

  /** Trimming cuts only whitespace, so it keeps every digit, in order. */
  lemma TrimKeepsDigits(s: string)
    ensures Digits(Trim(s)) == Digits(s)
  {
    var r := Trim(s);
    var i := LeadingBlanks(s);
    var rest := s[i..];
    DropBlankFront(s, i);
    forall k | |r| <= k < |rest| ensures IsTrimmable(rest[k]) {
      assert rest[k] == s[i + k];
    }
    assert r == rest[..|r|];
    DropBlankBack(rest, |r|);
  }

  /** No letter of the pattern is a digit in either case. */
  predicate DigitFree(pat: string) {
    forall k :: 0 <= k < |pat| ==> !IsDigit(Upper(pat[k]))
  }

  /** The cleaning keeps every digit of the price text, in order: only marker
      letters, the dot of "Rs.", commas and surrounding whitespace go. */
  lemma CleanPriceKeepsDigits(text: string)
    ensures Digits(CleanPrice(text)) == Digits(text)
  {
    assert DigitFree("Rs.") && DigitFree("Rs") && DigitFree("PKR") && DigitFree(",");
    var a := RemoveAll(text, "Rs.");
    RemoveAllKeepsDigits(text, "Rs.");
    var b := RemoveAll(a, "Rs");
    RemoveAllKeepsDigits(a, "Rs");
    var c := RemoveAll(b, "PKR");
    RemoveAllKeepsDigits(b, "PKR");
    assert c == StripMarkers(text);
    var d := RemoveAll(c, ",");
    RemoveAllKeepsDigits(c, ",");
    assert d == StripCommas(c);
    TrimKeepsDigits(d);
  }
}
