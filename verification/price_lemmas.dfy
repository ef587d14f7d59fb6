/** What the price-text cleaning of `initializeProductPage` (universal-cart.js) does
    to a price as a product card shows it: a currency marker, optional whitespace,
    then a number written with digits and thousands commas. The marker goes, the
    commas go, the whitespace goes, and the digits are what is left. */
module PriceLemmas {
  import opened PriceText

  /** A character that can take no part in a currency-marker match: in either
      case it is none of R, S, the dot, P or K. */
  predicate Quiet(c: char) {
    var u := Upper(c);
    u != 'R' && u != 'S' && u != '.' && u != 'P' && u != 'K'
  }

  predicate AllQuiet(t: string) {
    forall k :: 0 <= k < |t| ==> Quiet(t[k])
  }

  /** One of the markers the source strips, in any letter case: "Rs.", "Rs" or "PKR". */
  predicate IsMarker(m: string) {
    || (|m| == 3 && MatchesAt(m, "Rs."))
    || (|m| == 2 && MatchesAt(m, "Rs"))
    || (|m| == 3 && MatchesAt(m, "PKR"))
  }

  /** Only whitespace and line terminators. */
  predicate Blank(s: string) {
    forall k :: 0 <= k < |s| ==> IsTrimmable(s[k])
  }

  /** A number as a price shows it: digits and thousands commas, starting with a digit. */
  predicate PriceNumber(n: string) {
    && |n| > 0 && IsDigit(n[0])
    && forall k :: 0 <= k < |n| ==> IsDigit(n[k]) || n[k] == ','
  }

  /** A match at the head of the text is dropped and the scan resumes after it. */
  lemma DropHead(m: string, t: string, pat: string)
    requires |pat| > 0 && |m| == |pat| && MatchesAt(m, pat)
    ensures RemoveAll(m + t, pat) == RemoveAll(t, pat)
  {
    assert MatchesAt(m + t, pat) by {
      assert forall k :: 0 <= k < |pat| ==> (m + t)[k] == m[k];
    }
    assert (m + t)[|pat|..] == t;
  }

  /** A head that does not start a match is kept and the scan moves one character on. */
  lemma KeepHead(s: string, pat: string)
    requires |s| > 0 && |pat| > 0 && !MatchesAt(s, pat)
    ensures RemoveAll(s, pat) == [s[0]] + RemoveAll(s[1..], pat)
  {
  }

  /** A text of quiet characters holds no match of a marker pattern. */
  lemma QuietPass(t: string, pat: string)
    requires AllQuiet(t) && |pat| > 0 && !Quiet(pat[0])
    ensures RemoveAll(t, pat) == t
  {
    forall k | 0 <= k < |t| ensures !SameLetter(t[k], pat[0]) {
      assert Quiet(t[k]);
    }
    RemoveAllUnmatched(t, pat);
  }

  /** A first character that differs from the pattern's first letter is kept in
      front of the rest. */
  lemma SkipByFirst(c: char, rest: string, pat: string)
    requires |pat| > 0 && !SameLetter(c, pat[0])
    ensures RemoveAll([c] + rest, pat) == [c] + RemoveAll(rest, pat)
  {
    var s := [c] + rest;
    assert s[0] == c && s[1..] == rest;
  }

  /** A first character followed by one that differs from the pattern's second
      letter is kept in front of the rest. */
  lemma SkipBySecond(c: char, rest: string, pat: string)
    requires |pat| >= 2 && |rest| > 0 && !SameLetter(rest[0], pat[1])
    ensures RemoveAll([c] + rest, pat) == [c] + RemoveAll(rest, pat)
  {
    var s := [c] + rest;
    assert s[1] == rest[0] && s[1..] == rest;
  }

  /** A pattern that begins "Rs" in either case, as "Rs." and "Rs" do. */
  predicate StartsRs(pat: string) {
    |pat| >= 2 && Upper(pat[0]) == 'R' && Upper(pat[1]) == 'S'
  }

  /** The "Rs." pass leaves a leading "Rs" (any case) alone when no dot follows it. */
  lemma RsSurvivesDotPass(m: string, t: string)
    requires |m| == 2 && MatchesAt(m, "Rs")
    requires AllQuiet(t) && |t| > 0
    ensures RemoveAll(m + t, "Rs.") == m + t
  {
    var dotted := "Rs.";
    var x1 := [m[1]] + t;
    var x0 := [m[0]] + x1;
    assert m + t == x0;
    assert x0[2] == t[0] && Quiet(t[0]);
    assert !MatchesAt(x0, dotted);
    assert Upper(m[1]) == 'S';
    calc {
      RemoveAll(x0, dotted);
      { KeepHead(x0, dotted); assert x0[1..] == x1; }
      [m[0]] + RemoveAll(x1, dotted);
      { SkipByFirst(m[1], t, dotted); QuietPass(t, dotted); }
      [m[0]] + x1;
    }
  }

  /** A pass of a pattern beginning "Rs" leaves a leading "PKR" (any case) alone. */
  lemma PkrSurvivesRsPass(m: string, t: string, pat: string)
    requires |m| == 3 && MatchesAt(m, "PKR")
    requires AllQuiet(t) && |t| > 0
    requires StartsRs(pat)
    ensures RemoveAll(m + t, pat) == m + t
  {
    var x2 := [m[2]] + t;
    var x1 := [m[1]] + x2;
    var x0 := [m[0]] + x1;
    assert m + t == x0;
    assert Upper(m[0]) == 'P' && Upper(m[1]) == 'K' && Quiet(t[0]);
    calc {
      RemoveAll(x0, pat);
      { SkipByFirst(m[0], x1, pat); }
      [m[0]] + RemoveAll(x1, pat);
      { SkipByFirst(m[1], x2, pat); }
      [m[0]] + ([m[1]] + RemoveAll(x2, pat));
      { SkipBySecond(m[2], t, pat); QuietPass(t, pat); }
      [m[0]] + ([m[1]] + x2);
    }
  }

  /** The three marker passes remove exactly the leading marker. */
  lemma MarkerStripped(m: string, t: string)
    requires IsMarker(m) && AllQuiet(t) && |t| > 0
    ensures StripMarkers(m + t) == t
  {
    if |m| == 3 && MatchesAt(m, "Rs.") {
      DropHead(m, t, "Rs.");
      QuietPass(t, "Rs.");
      QuietPass(t, "Rs");
      QuietPass(t, "PKR");
    } else if |m| == 2 && MatchesAt(m, "Rs") {
      RsSurvivesDotPass(m, t);
      DropHead(m, t, "Rs");
      QuietPass(t, "Rs");
      QuietPass(t, "PKR");
    } else {
      PkrSurvivesRsPass(m, t, "Rs.");
      PkrSurvivesRsPass(m, t, "Rs");
      DropHead(m, t, "PKR");
      QuietPass(t, "PKR");
    }
  }

  /** Appending to a non-empty string appends to its tail. */
  lemma ConsAppend(b: string, x: string)
    requires |b| > 0
    ensures b + x == [b[0]] + (b[1..] + x)
  {
  }

  /** The comma pass keeps leading whitespace as it is. */
  lemma {:induction false} CommasPassBlank(b: string, n: string)
    requires Blank(b)
    ensures RemoveAll(b + n, ",") == b + RemoveAll(n, ",")
    decreases |b|
  {
    if |b| == 0 {
      assert b + n == n;
    } else {
      var c, tail := b[0], b[1..];
      var r := RemoveAll(n, ",");
      assert IsTrimmable(c) && !SameLetter(c, ',');
      ConsAppend(b, n);
      ConsAppend(b, r);
      calc {
        RemoveAll(b + n, ",");
        RemoveAll([c] + (tail + n), ",");
        { SkipByFirst(c, tail + n, ","); }
        [c] + RemoveAll(tail + n, ",");
        { CommasPassBlank(tail, n); }
        [c] + (tail + r);
      }
    }
  }

  /** On digits and commas, the comma pass leaves exactly the digits. */
  lemma {:induction false} CommasOutOfNumber(n: string)
    requires forall k :: 0 <= k < |n| ==> IsDigit(n[k]) || n[k] == ','
    ensures RemoveAll(n, ",") == Digits(n)
    decreases |n|
  {
    if |n| > 0 {
      CommasOutOfNumber(n[1..]);
      if n[0] != ',' {
        KeepHead(n, ",");
      }
    }
  }

  /** Every character of `Digits(s)` is a digit. */
  lemma {:induction false} DigitsAreDigits(s: string)
    ensures forall k :: 0 <= k < |Digits(s)| ==> IsDigit(Digits(s)[k])
    decreases |s|
  {
    if |s| > 0 {
      DigitsAreDigits(s[1..]);
    }
  }

  /** Trimming leading whitespace off a run of digits gives the digits. */
  lemma TrimBlankDigits(b: string, d: string)
    requires Blank(b) && |d| > 0
    requires forall k :: 0 <= k < |d| ==> IsDigit(d[k])
    ensures Trim(b + d) == d
  {
    var s := b + d;
    var i := LeadingBlanks(s);
    assert forall k :: 0 <= k < |b| ==> s[k] == b[k];
    assert s[|b|] == d[0] && !IsTrimmable(s[|b|]);
    assert i == |b|;
    assert s[|s| - 1] == d[|d| - 1];
    assert TrailingBlanks(s) == 0;
    assert s[|b|..|s|] == d;
  }

  /** A marked price cleans to its digits: the marker, the whitespace after it
      and the thousands commas all go, so "Rs. 1,250" and "pkr2,000" clean to
      "1250" and "2000". */
  lemma CleanMarkedPrice(marker: string, blanks: string, number: string)
    requires IsMarker(marker) && Blank(blanks) && PriceNumber(number)
    ensures CleanPrice(marker + blanks + number) == Digits(number)
  {
    var t := blanks + number;
    forall k | 0 <= k < |t| ensures Quiet(t[k]) {
      if k < |blanks| {
        assert t[k] == blanks[k];
      } else {
        assert t[k] == number[k - |blanks|];
      }
    }
    assert marker + blanks + number == marker + t;
    MarkerStripped(marker, t);
    CommasPassBlank(blanks, number);
    CommasOutOfNumber(number);
    assert StripCommas(t) == blanks + Digits(number);
    DigitsAreDigits(number);
    assert Digits(number)[0] == number[0];
    TrimBlankDigits(blanks, Digits(number));
  }
}
