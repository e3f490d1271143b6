/**
 * Worked receipts for the amount extractor. Each example is first proved for
 * any text with the given characters, step by step through the scanner, and
 * then stated once for the literal text.
 */
module AmountExamples {
  import opened Common
  import opened AmountExtractor

  // ---------------------------------------------------------------------------
  // General evaluation lemmas
  // ---------------------------------------------------------------------------

  /** The scan passes over a stretch without digits. */
  lemma {:induction false} ScanSkips(s: string, p: nat, q: nat)
    requires p <= q <= |s| && forall i :: p <= i < q ==> !IsDigit(s[i])
    ensures Scan(s, p) == Scan(s, q)
    decreases q - p
  {
    if p < q {
      ScanSkips(s, p + 1, q);
    }
  }

  /** The candidates of a text whose matches have the cents `vs`. */
  lemma CandidatesFrom(text: string, vs: seq<nat>)
    requires |vs| == |MoneyMatches(Normalize(text))|
    requires forall k :: 0 <= k < |vs| ==> TokenCents(MoneyMatches(Normalize(text))[k]) == vs[k]
    ensures Candidates(text) == Positives(vs)
  {
    var ms := MoneyMatches(Normalize(text));
    assert seq(|ms|, k requires 0 <= k < |ms| => TokenCents(ms[k])) == vs;
  }

  /** A text with no digit at all has no match and no amount. */
  lemma NoDigitsNoAmount(text: string)
    requires forall i :: 0 <= i < |text| ==> !IsDigit(text[i])
    ensures MoneyMatches(Normalize(text)) == []
    ensures ParseAmount(text) == None
  {
    var s := Normalize(text);
    ScanSkips(s, 0, |s|);
    CandidatesFrom(text, []);
  }

  /** Filtering values that are all positive keeps them all, in order. */
  lemma {:induction false} PositivesKeepsPositive(vs: seq<nat>)
    requires forall i :: 0 <= i < |vs| ==> vs[i] > 0
    ensures Positives(vs) == vs
  {
    if vs != [] {
      PositivesKeepsPositive(vs[1..]);
      assert vs == [vs[0]] + vs[1..];
    }
  }

  /** Three matches with positive values are the three candidates, in order. */
  lemma CandidatesOfThree(text: string, a: nat, b: nat, c: nat)
    requires |MoneyMatches(Normalize(text))| == 3 && a > 0 && b > 0 && c > 0
    requires TokenCents(MoneyMatches(Normalize(text))[0]) == a
    requires TokenCents(MoneyMatches(Normalize(text))[1]) == b
    requires TokenCents(MoneyMatches(Normalize(text))[2]) == c
    ensures Candidates(text) == [a, b, c]
  {
    CandidatesFrom(text, [a, b, c]);
    PositivesKeepsPositive([a, b, c]);
  }

  /** The largest candidate is the one at k when no other candidate exceeds it. */
  lemma LargestAt(cs: seq<nat>, k: nat)
    requires k < |cs| && forall j :: 0 <= j < |cs| ==> cs[j] <= cs[k]
    ensures Largest(cs) == Some(cs[k])
  {
    var r := Largest(cs);
    assert cs[k] in cs;
    var j :| 0 <= j < |cs| && cs[j] == r.value;
  }

  // ---------------------------------------------------------------------------
  // Values of the token shapes
  // ---------------------------------------------------------------------------

  /** Stripping the whitespace of `d ddd...` drops the group's space. */
  lemma StripGroupSpace(t: string)
    requires |t| >= 2 && IsDigit(t[0]) && t[1] == ' '
    requires forall j :: 2 <= j < |t| ==> !IsJsWhitespace(t[j])
    ensures StripWhitespace(t) == [t[0]] + t[2..]
  {
    StripKeeps(t, 2);
    assert StripFrom(t, 1) == StripFrom(t, 2);
  }

  lemma TwoDigits(u: string)
    requires |u| >= 2 && IsDigit(u[0]) && IsDigit(u[1])
    ensures DecimalPrefix(u, 2) == DigitValue(u[0]) * 10 + DigitValue(u[1])
  {
    assert DecimalPrefix(u, 1) == DigitValue(u[0]);
  }

  /** Four digits with whatever follows them, read as a number. */
  lemma FourDigits(u: string)
    requires |u| >= 4 && IsDigit(u[0]) && IsDigit(u[1]) && IsDigit(u[2]) && IsDigit(u[3])
    ensures DecimalPrefix(u, 4) == DigitValue(u[0]) * 1000 + DigitValue(u[1]) * 100 + DigitValue(u[2]) * 10 + DigitValue(u[3])
  {
    TwoDigits(u);
    assert DecimalPrefix(u, 3) == DigitValue(u[0]) * 100 + DigitValue(u[1]) * 10 + DigitValue(u[2]);
  }

  /** `d.dd`, in cents. */
  lemma CentsOfUnits(t: string)
    requires |t| == 4 && IsDigit(t[0]) && t[1] == '.' && IsDigit(t[2]) && IsDigit(t[3])
    ensures TokenCents(t) == DigitValue(t[0]) * 100 + DigitValue(t[2]) * 10 + DigitValue(t[3])
  {
    StripKeeps(t, 0);
    assert t[0..] == t;
    assert DecimalPrefix(t, 1) == DigitValue(t[0]);
  }

  /** `dd.dd`, in cents. */
  lemma CentsOfTens(t: string)
    requires |t| == 5 && IsDigit(t[0]) && IsDigit(t[1]) && t[2] == '.' && IsDigit(t[3]) && IsDigit(t[4])
    ensures TokenCents(t) == DigitValue(t[0]) * 1000 + DigitValue(t[1]) * 100 + DigitValue(t[3]) * 10 + DigitValue(t[4])
  {
    StripKeeps(t, 0);
    assert t[0..] == t;
    TwoDigits(t);
  }

  /** `d ddd`, in cents: the space of the group is dropped. */
  lemma CentsOfOneGroup(t: string)
    requires |t| == 5 && IsDigit(t[0]) && t[1] == ' ' && IsDigit(t[2]) && IsDigit(t[3]) && IsDigit(t[4])
    ensures TokenCents(t) == (DigitValue(t[0]) * 1000 + DigitValue(t[2]) * 100 + DigitValue(t[3]) * 10 + DigitValue(t[4])) * 100
  {
    StripGroupSpace(t);
    var u := [t[0]] + t[2..];
    assert u[0] == t[0] && u[1] == t[2] && u[2] == t[3] && u[3] == t[4];
    FourDigits(u);
  }

  /** `d ddd.dd`, in cents. */
  lemma CentsOfOneGroupWithCents(t: string)
    requires |t| == 8 && IsDigit(t[0]) && t[1] == ' ' && IsDigit(t[2]) && IsDigit(t[3]) && IsDigit(t[4])
    requires t[5] == '.' && IsDigit(t[6]) && IsDigit(t[7])
    ensures TokenCents(t) == (DigitValue(t[0]) * 1000 + DigitValue(t[2]) * 100 + DigitValue(t[3]) * 10 + DigitValue(t[4])) * 100
                           + DigitValue(t[6]) * 10 + DigitValue(t[7])
  {
    StripGroupSpace(t);
    var u := [t[0]] + t[2..];
    assert u[0] == t[0] && u[1] == t[2] && u[2] == t[3] && u[3] == t[4];
    assert |u| == 7 && u[4] == '.' && u[5] == t[6] && u[6] == t[7];
    FourDigits(u);
  }

  // ---------------------------------------------------------------------------
  // "no numbers here"
  // ---------------------------------------------------------------------------

  lemma NoNumbersHere()
    ensures ParseAmount("no numbers here") == None
  {
    var text := "no numbers here";
    forall i | 0 <= i < |text|
      ensures !IsDigit(text[i])
    {
    }
    NoDigitsNoAmount(text);
  }

  // ---------------------------------------------------------------------------
  // "0.00": matched, worth nothing, dropped
  // ---------------------------------------------------------------------------

  lemma ZeroMatch(s: string)
    requires |s| == 4 && s[0] == '0' && s[1] == '.' && s[2] == '0' && s[3] == '0'
    ensures MoneyMatches(s) == [s] && TokenCents(s) == 0
  {
    DigitRunIs(s, 0, 1);
    assert GroupRun(s, 1) == 0;
    assert MatchAt(s, 0) == Some(4);
    assert Scan(s, 0) == [Span(0, 4)];
    assert s[0..4] == s;
    CentsOfUnits(s);
  }

  lemma ZeroIsDropped(text: string)
    requires |text| == 4 && text[0] == '0' && text[1] == '.' && text[2] == '0' && text[3] == '0'
    ensures ParseAmount(text) == None
  {
    var s := Normalize(text);
    assert s == text;
    ZeroMatch(s);
    CandidatesFrom(text, [0]);
  }

  lemma ZeroReceipt()
    ensures MoneyMatches("0.00") == ["0.00"] && TokenCents("0.00") == 0
    ensures ParseAmount("0.00") == None
  {
    ZeroMatch("0.00");
    ZeroIsDropped("0.00");
  }

  // ---------------------------------------------------------------------------
  // "1 234": thousands groups without cents
  // ---------------------------------------------------------------------------

  lemma GroupedThousandsMatch(s: string)
    requires |s| == 5 && s[0] == '1' && s[1] == ' ' && s[2] == '2' && s[3] == '3' && s[4] == '4'
    ensures MoneyMatches(s) == [s] && TokenCents(s) == 123400
  {
    DigitRunIs(s, 0, 1);
    assert GroupRun(s, 1) == 1;
    assert MatchAt(s, 0) == Some(5);
    assert Scan(s, 0) == [Span(0, 5)];
    assert s[0..5] == s;
    CentsOfOneGroup(s);
  }

  lemma GroupedThousands(text: string)
    requires |text| == 5 && text[0] == '1' && text[1] == ' ' && text[2] == '2' && text[3] == '3' && text[4] == '4'
    ensures ParseAmount(text) == Some(123400)
  {
    var s := Normalize(text);
    assert s == text;
    GroupedThousandsMatch(s);
    CandidatesFrom(text, [123400]);
  }

  lemma GroupedThousandsReceipt()
    ensures MoneyMatches("1 234") == ["1 234"] && TokenCents("1 234") == 123400
    ensures ParseAmount("1 234") == Some(123400)
  {
    GroupedThousandsMatch("1 234");
    GroupedThousands("1 234");
  }

  // ---------------------------------------------------------------------------
  // "1,234.56": a comma thousands separator reads as a space
  // ---------------------------------------------------------------------------

  lemma CommaThousands(text: string)
    requires |text| == 8 && text[0] == '1' && text[1] == ',' && text[2] == '2' && text[3] == '3'
    requires text[4] == '4' && text[5] == '.' && text[6] == '5' && text[7] == '6'
    ensures Normalize(text) == text[..1] + " " + text[2..]
    ensures ParseAmount(text) == Some(123456)
  {
    var s := Normalize(text);
    assert s == text[..1] + " " + text[2..];
    DigitRunIs(s, 0, 1);
    assert GroupRun(s, 1) == 1;
    assert MatchAt(s, 0) == Some(8);
    assert Scan(s, 0) == [Span(0, 8)];
    assert s[0..8] == s;
    CentsOfOneGroupWithCents(s);
    CandidatesFrom(text, [123456]);
  }

  lemma CommaThousandsReceipt()
    ensures ParseAmount("1,234.56") == Some(123456)
  {
    CommaThousands("1,234.56");
  }

  // ---------------------------------------------------------------------------
  // "12.50 15.00 8.75": the largest figure, neither the first nor the last
  // ---------------------------------------------------------------------------

  lemma ThreeFiguresScan(s: string)
    requires |s| == 16
    requires s[0] == '1' && s[1] == '2' && s[2] == '.' && s[3] == '5' && s[4] == '0' && s[5] == ' '
    requires s[6] == '1' && s[7] == '5' && s[8] == '.' && s[9] == '0' && s[10] == '0' && s[11] == ' '
    requires s[12] == '8' && s[13] == '.' && s[14] == '7' && s[15] == '5'
    ensures Scan(s, 0) == [Span(0, 5), Span(6, 11), Span(12, 16)]
  {
    DigitRunIs(s, 0, 2);
    assert GroupRun(s, 2) == 0;
    assert MatchAt(s, 0) == Some(5);
    assert MatchAt(s, 5) == None;
    DigitRunIs(s, 6, 2);
    assert GroupRun(s, 8) == 0;
    assert MatchAt(s, 6) == Some(11);
    assert MatchAt(s, 11) == None;
    DigitRunIs(s, 12, 1);
    assert GroupRun(s, 13) == 0;
    assert MatchAt(s, 12) == Some(16);
    assert Scan(s, 12) == [Span(12, 16)];
    assert Scan(s, 6) == [Span(6, 11), Span(12, 16)];
  }

  lemma ThreeFiguresMatches(s: string)
    requires |s| == 16
    requires s[0] == '1' && s[1] == '2' && s[2] == '.' && s[3] == '5' && s[4] == '0' && s[5] == ' '
    requires s[6] == '1' && s[7] == '5' && s[8] == '.' && s[9] == '0' && s[10] == '0' && s[11] == ' '
    requires s[12] == '8' && s[13] == '.' && s[14] == '7' && s[15] == '5'
    ensures |MoneyMatches(s)| == 3
    ensures TokenCents(MoneyMatches(s)[0]) == 1250
    ensures TokenCents(MoneyMatches(s)[1]) == 1500
    ensures TokenCents(MoneyMatches(s)[2]) == 875
  {
    ThreeFiguresScan(s);
    var ms := MoneyMatches(s);
    assert ms[0] == s[0..5] && ms[1] == s[6..11] && ms[2] == s[12..16];
    CentsOfTens(s[0..5]);
    CentsOfTens(s[6..11]);
    CentsOfUnits(s[12..16]);
  }

  lemma ThreeFiguresCandidates(text: string)
    requires |text| == 16
    requires text[0] == '1' && text[1] == '2' && text[2] == '.' && text[3] == '5' && text[4] == '0' && text[5] == ' '
    requires text[6] == '1' && text[7] == '5' && text[8] == '.' && text[9] == '0' && text[10] == '0' && text[11] == ' '
    requires text[12] == '8' && text[13] == '.' && text[14] == '7' && text[15] == '5'
    ensures Candidates(text) == [1250, 1500, 875]
  {
    ThreeFiguresMatches(Normalize(text));
    CandidatesOfThree(text, 1250, 1500, 875);
  }

  lemma LargestFigure(text: string)
    requires |text| == 16
    requires text[0] == '1' && text[1] == '2' && text[2] == '.' && text[3] == '5' && text[4] == '0' && text[5] == ' '
    requires text[6] == '1' && text[7] == '5' && text[8] == '.' && text[9] == '0' && text[10] == '0' && text[11] == ' '
    requires text[12] == '8' && text[13] == '.' && text[14] == '7' && text[15] == '5'
    ensures ParseAmount(text) == Some(1500)
  {
    ThreeFiguresCandidates(text);
    assert ParseAmount(text) == Largest([1250, 1500, 875]);
    LargestAt([1250, 1500, 875], 1);
  }

  lemma LargestFigureReceipt()
    ensures ParseAmount("12.50 15.00 8.75") == Some(1500)
  {
    LargestFigure("12.50 15.00 8.75");
  }
}
