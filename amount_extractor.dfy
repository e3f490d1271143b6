/**
 * The receipt amount extractor of the upload modal: from the text that OCR
 * recognised, pick the largest positive money figure, or report that there
 * is none.
 *
 * The JavaScript code normalises separators, runs one global regular
 * expression with three alternatives, parses every match with `parseFloat`
 * and keeps the maximum positive value. Here the regular expression is a
 * hand-written scanner (`MatchAt`, `Scan`) that makes the same choices the
 * backtracking engine makes, and values are integer cents.
 */
module AmountExtractor {
  import opened Common

  // ---------------------------------------------------------------------------
  // Character classes
  // ---------------------------------------------------------------------------

  /** `\w` of a JavaScript regular expression without the `u` flag. */
  predicate IsWordChar(c: char)
  {
    'a' <= c <= 'z' || 'A' <= c <= 'Z' || IsDigit(c) || c == '_'
  }

  /** `\s` of a JavaScript regular expression: the WhiteSpace and LineTerminator code points. */
  predicate IsJsWhitespace(c: char)
  {
    c == ' ' || c == '\t' || c == '\n' || c == '\U{B}' || c == '\U{C}' || c == '\r'
    || c == '\U{A0}' || c == '\U{1680}' || ('\U{2000}' <= c <= '\U{200A}')
    || c == '\U{2028}' || c == '\U{2029}' || c == '\U{202F}' || c == '\U{205F}'
    || c == '\U{3000}' || c == '\U{FEFF}'
  }

  /** The character class `[,\s]` of the normalisation step. */
  predicate IsSeparator(c: char)
  {
    c == ',' || IsJsWhitespace(c)
  }

  // ---------------------------------------------------------------------------
  // Normalisation: text.replace(/[,\s]/g, ' ')
  // ---------------------------------------------------------------------------

  /** Every comma and every whitespace character becomes one space; nothing else moves. */
  function Normalize(text: string): (r: string)
    ensures |r| == |text|
    ensures forall i :: 0 <= i < |text| ==>
      (IsSeparator(text[i]) ==> r[i] == ' ') && (!IsSeparator(text[i]) ==> r[i] == text[i])
    ensures forall i :: 0 <= i < |r| ==> r[i] != ',' && (IsJsWhitespace(r[i]) ==> r[i] == ' ')
  {
    if text == [] then []
    else [if IsSeparator(text[0]) then ' ' else text[0]] + Normalize(text[1..])
  }

  // ---------------------------------------------------------------------------
  // The three token shapes, stated on a token by itself
  // ---------------------------------------------------------------------------

  /** `(?:\s\d{3})*` once whitespace is a plain space: zero or more thousands groups. */
  predicate ThousandsGroups(u: string)
    decreases |u|
  {
    u == [] || (|u| >= 4 && u[0] == ' ' && AllDigits(u[1..4]) && ThousandsGroups(u[4..]))
  }

  /** `\d{1,3}(?:\s\d{3})*`: one to three digits, then thousands groups. */
  predicate Grouped(t: string)
  {
    exists n :: 1 <= n <= 3 && n <= |t| && AllDigits(t[..n]) && ThousandsGroups(t[n..])
  }

  /** The token ends in `\.\d{2}` and has at least one character before it. */
  predicate HasCents(t: string)
  {
    |t| >= 4 && t[|t| - 3] == '.' && IsDigit(t[|t| - 2]) && IsDigit(t[|t| - 1])
  }

  /** The three alternatives of the money pattern. */
  predicate IsMoneyToken(t: string)
  {
    (HasCents(t) && Grouped(t[..|t| - 3]))      // grouped thousands with cents
    || (HasCents(t) && AllDigits(t[..|t| - 3])) // bare digits with cents
    || (Grouped(t) && ' ' in t)                 // grouped thousands, at least one group, no cents
  }

  // ---------------------------------------------------------------------------
  // The scanner
  // ---------------------------------------------------------------------------

  /** `\b`: a word character on exactly one side of position i. */
  predicate IsBoundary(s: string, i: nat)
    requires i <= |s|
  {
    (i > 0 && IsWordChar(s[i - 1])) != (i < |s| && IsWordChar(s[i]))
  }

  /** Length of the run of digits that starts at p. */
  function DigitRun(s: string, p: nat): (n: nat)
    requires p <= |s|
    ensures p + n <= |s|
    ensures forall i :: p <= i < p + n ==> IsDigit(s[i])
    ensures p + n == |s| || !IsDigit(s[p + n])
    decreases |s| - p
  {
    if p < |s| && IsDigit(s[p]) then 1 + DigitRun(s, p + 1) else 0
  }

  /** A thousands group `\s\d{3}` starts at q. */
  predicate GroupAt(s: string, q: nat)
  {
    q + 4 <= |s| && s[q] == ' ' && IsDigit(s[q + 1]) && IsDigit(s[q + 2]) && IsDigit(s[q + 3])
  }

  /** g thousands groups follow one another from q on. */
  predicate GroupsFrom(s: string, q: nat, g: nat)
    decreases g
  {
    g == 0 || (GroupAt(s, q) && GroupsFrom(s, q + 4, g - 1))
  }

  /** Number of consecutive thousands groups from q on (the greedy `(?:\s\d{3})*`). */
  function GroupRun(s: string, q: nat): (g: nat)
    requires q <= |s|
    ensures q + 4 * g <= |s|
    ensures GroupsFrom(s, q, g)
    ensures !GroupAt(s, q + 4 * g)
    decreases |s| - q
  {
    if GroupAt(s, q) then 1 + GroupRun(s, q + 4) else 0
  }

  /** `\.\d{2}` starts at q. */
  predicate CentsAt(s: string, q: nat)
  {
    q + 3 <= |s| && s[q] == '.' && IsDigit(s[q + 1]) && IsDigit(s[q + 2])
  }

  /**
   * Where a match that starts at p ends, given the length n of the digit run
   * at p and the number g of thousands groups after it (0 when n > 3).
   *
   * Because every alternative begins with a bounded or greedy run of digits
   * that must be followed by a space or a dot, the engine can only succeed
   * with the whole digit run, so the first and third alternatives need
   * n <= 3 and then take the greedy g groups. The only backtracking that can
   * change the result is the third alternative giving back its last group,
   * after which the boundary before that group's space always holds.
   */
  function MatchEnd(s: string, p: nat, n: nat, g: nat): (r: Option<nat>)
    requires p + n + 4 * g <= |s|
    ensures r.Some? ==> p + n <= r.value <= |s|
  {
    var q := p + n + 4 * g;
    if n <= 3 && CentsAt(s, q) && IsBoundary(s, q + 3) then Some(q + 3)       // \d{1,3}(?:\s\d{3})*\.\d{2}
    else if CentsAt(s, p + n) && IsBoundary(s, p + n + 3) then Some(p + n + 3) // \d+\.\d{2}
    else if n <= 3 && 1 <= g && IsBoundary(s, q) then Some(q)                  // \d{1,3}(?:\s\d{3})+
    else if n <= 3 && 2 <= g then Some(q - 4)                                  // the same, one group given back
    else None
  }

  /** The end of the match of the money pattern that starts at p, if one does. */
  function MatchAt(s: string, p: nat): (r: Option<nat>)
    requires p <= |s|
    ensures r.Some? ==> p < r.value <= |s|
  {
    if p == |s| || !IsDigit(s[p]) || !IsBoundary(s, p) then None
    else
      var n := DigitRun(s, p);
      MatchEnd(s, p, n, if n <= 3 then GroupRun(s, p + n) else 0)
  }

  /** A match: the half-open range [start, end) of the scanned string. */
  datatype Span = Span(start: nat, end: nat)

  /** The global match from p on: after a match resume at its end, otherwise one position later. */
  function Scan(s: string, p: nat): (spans: seq<Span>)
    requires p <= |s|
    ensures forall sp :: sp in spans ==> p <= sp.start < sp.end <= |s|
    ensures forall k :: 0 <= k < |spans| - 1 ==> spans[k].end <= spans[k + 1].start
    decreases |s| - p
  {
    if p == |s| then []
    else match MatchAt(s, p)
      case Some(e) => [Span(p, e)] + Scan(s, e)
      case None => Scan(s, p + 1)
  }

  /** `normalized.match(...)` with the `g` flag: the matched substrings in order. */
  function MoneyMatches(s: string): (ms: seq<string>)
  {
    var spans := Scan(s, 0);
    seq(|spans|, k requires 0 <= k < |spans| => s[spans[k].start..spans[k].end])
  }

  // ---------------------------------------------------------------------------
  // Values and selection
  // ---------------------------------------------------------------------------

  /** The characters of t from position i on that are not whitespace. */
  function StripFrom(t: string, i: nat): (r: string)
    requires i <= |t|
    ensures |r| <= |t| - i
    ensures forall j :: 0 <= j < |r| ==> !IsJsWhitespace(r[j])
    ensures forall j :: 0 <= j < |r| ==> r[j] in t[i..]
    decreases |t| - i
  {
    if i == |t| then []
    else (if IsJsWhitespace(t[i]) then [] else [t[i]]) + StripFrom(t, i + 1)
  }

  /** `s.replace(/\s/g, '')` */
  function StripWhitespace(t: string): (r: string)
    ensures |r| <= |t|
    ensures forall j :: 0 <= j < |r| ==> !IsJsWhitespace(r[j])
    ensures forall j :: 0 <= j < |r| ==> r[j] in t
  {
    assert t[0..] == t;
    StripFrom(t, 0)
  }

  /** `parseFloat` of a match with its spaces removed, in cents. */
  function TokenCents(t: string): nat
  {
    var u := StripWhitespace(t);
    if HasCents(u) then DecimalPrefix(u, |u| - 3) * 100 + DigitValue(u[|u| - 2]) * 10 + DigitValue(u[|u| - 1])
    else DecimalValue(u) * 100
  }

  /** `.filter((n) => n > 0)` */
  function Positives(vs: seq<nat>): (r: seq<nat>)
    ensures forall c :: c in r ==> c > 0 && c in vs
    ensures forall c :: c in vs && c > 0 ==> c in r
  {
    if vs == [] then []
    else (if vs[0] > 0 then [vs[0]] else []) + Positives(vs[1..])
  }

  /** The candidate amounts of a text: the positive values of its matches, in text order. */
  function Candidates(text: string): (cs: seq<nat>)
    ensures forall c :: c in cs ==> c > 0
  {
    var ms := MoneyMatches(Normalize(text));
    Positives(seq(|ms|, k requires 0 <= k < |ms| => TokenCents(ms[k])))
  }

  /** `Math.max(...candidates)` */
  function MaxOf(vs: seq<nat>): (m: nat)
    requires vs != []
    ensures m in vs
    ensures forall v :: v in vs ==> v <= m
  {
    if |vs| == 1 then vs[0]
    else
      var rest := MaxOf(vs[1..]);
      assert forall v :: v in vs ==> v == vs[0] || v in vs[1..];
      if vs[0] >= rest then vs[0] else rest
  }

  /** The largest of the candidates, or none when there are none. */
  function Largest(cs: seq<nat>): (r: Option<nat>)
    ensures r == None <==> cs == []
    ensures r.Some? ==> r.value in cs && forall c :: c in cs ==> c <= r.value
  {
    if cs == [] then None else Some(MaxOf(cs))
  }

  /** `parseAmountFromText`: the largest positive candidate, in cents, or `null`. */
  function ParseAmount(text: string): (r: Option<nat>)
    ensures text == [] ==> r == None
    ensures r == None <==> Candidates(text) == []
    ensures r.Some? ==> r.value > 0 && r.value in Candidates(text)
    ensures r.Some? ==> forall c :: c in Candidates(text) ==> c <= r.value
  {
    if text == [] then None else Largest(Candidates(text))
  }

  // ---------------------------------------------------------------------------
  // Every match is one of the three shapes, bounded by word boundaries
  // ---------------------------------------------------------------------------

  lemma {:induction false} GroupsFromAt(s: string, q: nat, g: nat, j: nat)
    requires GroupsFrom(s, q, g) && j < g
    ensures GroupAt(s, q + 4 * j)
    decreases j
  {
    if j > 0 {
      GroupsFromAt(s, q + 4, g - 1, j - 1);
    }
  }

  lemma {:induction false} GroupsFromFewer(s: string, q: nat, g: nat)
    requires GroupsFrom(s, q, g) && g > 0
    ensures GroupsFrom(s, q, g - 1)
    decreases g
  {
    if g > 1 {
      GroupsFromFewer(s, q + 4, g - 1);
    }
  }

  /** g consecutive groups read as a string are thousands groups. */
  lemma {:induction false} GroupsSlice(s: string, q: nat, g: nat)
    requires GroupsFrom(s, q, g) && q + 4 * g <= |s|
    ensures ThousandsGroups(s[q..q + 4 * g])
    decreases g
  {
    if g > 0 {
      GroupsSlice(s, q + 4, g - 1);
      var u := s[q..q + 4 * g];
      assert u[1..4] == s[q + 1..q + 4];
      assert u[4..] == s[q + 4..q + 4 + 4 * (g - 1)];
    }
  }

  /** A digit run of one to three digits followed by g groups is a grouped integer. */
  lemma GroupedSlice(s: string, p: nat, n: nat, g: nat)
    requires 1 <= n <= 3 && p + n + 4 * g <= |s|
    requires forall i :: p <= i < p + n ==> IsDigit(s[i])
    requires GroupsFrom(s, p + n, g)
    ensures Grouped(s[p..p + n + 4 * g])
  {
    var t := s[p..p + n + 4 * g];
    GroupsSlice(s, p + n, g);
    assert t[..n] == s[p..p + n];
    assert t[n..] == s[p + n..p + n + 4 * g];
  }

  /** First alternative: a grouped integer, a dot and two digits. */
  lemma GroupedWithCents(s: string, p: nat, n: nat, g: nat)
    requires 1 <= n <= 3 && p + n <= |s| && forall i :: p <= i < p + n ==> IsDigit(s[i])
    requires GroupsFrom(s, p + n, g) && CentsAt(s, p + n + 4 * g)
    ensures IsMoneyToken(s[p..p + n + 4 * g + 3])
  {
    var t := s[p..p + n + 4 * g + 3];
    GroupedSlice(s, p, n, g);
    assert t[..|t| - 3] == s[p..p + n + 4 * g];
  }

  /** Second alternative: a digit run, a dot and two digits. */
  lemma DigitsWithCents(s: string, p: nat, n: nat)
    requires 1 <= n && p + n <= |s| && forall i :: p <= i < p + n ==> IsDigit(s[i])
    requires CentsAt(s, p + n)
    ensures IsMoneyToken(s[p..p + n + 3])
  {
    var t := s[p..p + n + 3];
    assert t[..|t| - 3] == s[p..p + n];
  }

  /** Third alternative: a grouped integer with at least one group. */
  lemma GroupedWithoutCents(s: string, p: nat, n: nat, g: nat)
    requires 1 <= n <= 3 && p + n + 4 * g <= |s| && forall i :: p <= i < p + n ==> IsDigit(s[i])
    requires GroupsFrom(s, p + n, g) && 1 <= g
    ensures IsMoneyToken(s[p..p + n + 4 * g])
  {
    var t := s[p..p + n + 4 * g];
    GroupedSlice(s, p, n, g);
    GroupsFromAt(s, p + n, g, 0);
    assert t[n] == ' ';
  }

  /** Giving back the last of two or more groups leaves a boundary before its space. */
  lemma BoundaryBeforeLastGroup(s: string, p: nat, n: nat, g: nat)
    requires 1 <= n && p + n + 4 * g <= |s| && forall i :: p <= i < p + n ==> IsDigit(s[i])
    requires GroupsFrom(s, p + n, g) && 1 <= g
    ensures IsBoundary(s, p + n + 4 * (g - 1))
  {
    GroupsFromAt(s, p + n, g, g - 1);
    if g > 1 {
      GroupsFromAt(s, p + n, g, g - 2);
    }
  }

  /** Whatever MatchEnd accepts after a digit run and its groups is a money token ending at a boundary. */
  lemma MatchEndSound(s: string, p: nat, n: nat, g: nat)
    requires 1 <= n && p + n + 4 * g <= |s| && forall i :: p <= i < p + n ==> IsDigit(s[i])
    requires GroupsFrom(s, p + n, g) && (n > 3 ==> g == 0)
    requires MatchEnd(s, p, n, g).Some?
    ensures IsBoundary(s, MatchEnd(s, p, n, g).value)
    ensures IsMoneyToken(s[p..MatchEnd(s, p, n, g).value])
  {
    var q := p + n + 4 * g;
    if n <= 3 && CentsAt(s, q) && IsBoundary(s, q + 3) {
      assert MatchEnd(s, p, n, g) == Some(q + 3);
      GroupedWithCents(s, p, n, g);
    } else if CentsAt(s, p + n) && IsBoundary(s, p + n + 3) {
      assert MatchEnd(s, p, n, g) == Some(p + n + 3);
      DigitsWithCents(s, p, n);
    } else if n <= 3 && 1 <= g && IsBoundary(s, q) {
      assert MatchEnd(s, p, n, g) == Some(q);
      GroupedWithoutCents(s, p, n, g);
    } else {
      assert MatchEnd(s, p, n, g) == Some(q - 4);
      GroupsFromFewer(s, p + n, g);
      GroupedWithoutCents(s, p, n, g - 1);
      BoundaryBeforeLastGroup(s, p, n, g);
    }
  }

  /** Whatever MatchAt accepts is a money token with a word boundary on both sides. */
  lemma MatchAtSound(s: string, p: nat)
    requires p <= |s| && MatchAt(s, p).Some?
    ensures IsBoundary(s, p) && IsBoundary(s, MatchAt(s, p).value)
    ensures IsMoneyToken(s[p..MatchAt(s, p).value])
  {
    var n := DigitRun(s, p);
    MatchEndSound(s, p, n, if n <= 3 then GroupRun(s, p + n) else 0);
  }

  /** Every span the scan reports is a bounded money token. */
  lemma {:induction false} ScanSound(s: string, p: nat)
    requires p <= |s|
    ensures forall sp :: sp in Scan(s, p) ==>
      IsBoundary(s, sp.start) && IsBoundary(s, sp.end) && IsMoneyToken(s[sp.start..sp.end])
    decreases |s| - p
  {
    if p < |s| {
      match MatchAt(s, p)
      case Some(e) =>
        MatchAtSound(s, p);
        ScanSound(s, e);
      case None =>
        ScanSound(s, p + 1);
    }
  }

  /** Each matched substring of a normalised text has one of the three shapes. */
  lemma MatchesAreMoneyTokens(text: string)
    ensures forall m :: m in MoneyMatches(Normalize(text)) ==> IsMoneyToken(m)
  {
    var s := Normalize(text);
    var spans := Scan(s, 0);
    ScanSound(s, 0);
    forall m | m in MoneyMatches(s) ensures IsMoneyToken(m) {
      var k :| 0 <= k < |spans| && m == s[spans[k].start..spans[k].end];
      assert spans[k] in spans;
    }
  }

  // ---------------------------------------------------------------------------
  // Every money token with a word boundary on both sides is found
  // ---------------------------------------------------------------------------

  /** The digit run at p, known from its characters. */
  lemma {:induction false} DigitRunIs(s: string, p: nat, n: nat)
    requires p + n <= |s| && forall i :: p <= i < p + n ==> IsDigit(s[i])
    requires p + n == |s| || !IsDigit(s[p + n])
    ensures DigitRun(s, p) == n
    decreases n
  {
    if n > 0 {
      DigitRunIs(s, p + 1, n - 1);
    }
  }

  /** Thousands groups read off a slice are groups of the string, four characters each. */
  lemma {:induction false} ThousandsGroupsAt(s: string, a: nat, b: nat)
    requires a <= b <= |s| && ThousandsGroups(s[a..b])
    ensures (b - a) % 4 == 0 && GroupsFrom(s, a, (b - a) / 4)
    decreases b - a
  {
    if a < b {
      var u := s[a..b];
      assert |u| >= 4 && u[0] == ' ' && AllDigits(u[1..4]) && ThousandsGroups(u[4..]);
      assert IsDigit(u[1..4][0]) && IsDigit(u[1..4][1]) && IsDigit(u[1..4][2]);
      assert u[4..] == s[a + 4..b];
      ThousandsGroupsAt(s, a + 4, b);
      assert (b - a) / 4 == (b - (a + 4)) / 4 + 1;
    }
  }

  /** The greedy group count takes at least the groups that are there. */
  lemma {:induction false} GroupRunAtLeast(s: string, q: nat, g: nat)
    requires q <= |s| && GroupsFrom(s, q, g)
    ensures GroupRun(s, q) >= g
    decreases g
  {
    if g > 0 {
      GroupRunAtLeast(s, q + 4, g - 1);
    }
  }

  /** ... and exactly those when no group follows them. */
  lemma {:induction false} GroupRunIs(s: string, q: nat, g: nat)
    requires q + 4 * g <= |s| && GroupsFrom(s, q, g) && !GroupAt(s, q + 4 * g)
    ensures GroupRun(s, q) == g
    decreases g
  {
    if g > 0 {
      GroupRunIs(s, q + 4, g - 1);
    }
  }

  /** The first n characters of the token at p are the digit run there. */
  lemma LeadingDigits(s: string, p: nat, e: nat, n: nat)
    requires p + n <= e <= |s| && AllDigits(s[p..e][..n])
    ensures forall i :: p <= i < p + n ==> IsDigit(s[i])
  {
    forall i | p <= i < p + n
      ensures IsDigit(s[i])
    {
      assert s[i] == s[p..e][..n][i - p];
    }
  }

  /** A grouped integer ending at `end`: m leading digits, then g thousands groups. */
  lemma GroupedParts(s: string, p: nat, end: nat) returns (m: nat, g: nat)
    requires p < end <= |s| && Grouped(s[p..end])
    ensures 1 <= m <= 3 && p + m + 4 * g == end
    ensures forall i :: p <= i < p + m ==> IsDigit(s[i])
    ensures GroupsFrom(s, p + m, g)
  {
    var t := s[p..end];
    m :| 1 <= m <= 3 && m <= |t| && AllDigits(t[..m]) && ThousandsGroups(t[m..]);
    assert t[m..] == s[p + m..end];
    ThousandsGroupsAt(s, p + m, end);
    g := (end - (p + m)) / 4;
    LeadingDigits(s, p, end, m);
  }

  /** The cents of a token read off the text. */
  lemma CentsOfSlice(s: string, p: nat, e: nat)
    requires p < e <= |s| && HasCents(s[p..e])
    ensures p + 4 <= e && CentsAt(s, e - 3)
    ensures s[p..e][..e - p - 3] == s[p..e - 3]
  {
    var t := s[p..e];
    assert s[e - 3] == t[|t| - 3] && s[e - 2] == t[|t| - 2] && s[e - 1] == t[|t| - 1];
  }

  /** A grouped integer with cents: its digit run, all its groups, then the cents. */
  lemma FindsGroupedWithCents(s: string, p: nat, e: nat) returns (m: nat, g: nat)
    requires p + 4 <= e <= |s| && Grouped(s[p..e - 3]) && CentsAt(s, e - 3)
    ensures 1 <= m <= 3 && DigitRun(s, p) == m && GroupRun(s, p + m) == g
    ensures p + m + 4 * g + 3 == e
  {
    m, g := GroupedParts(s, p, e - 3);
    DigitRunIs(s, p, m);
    GroupRunIs(s, p + m, g);
  }

  /** Digits with cents: the whole run of digits, then the cents. */
  lemma FindsDigitsWithCents(s: string, p: nat, e: nat)
    requires p + 4 <= e <= |s| && AllDigits(s[p..e - 3]) && CentsAt(s, e - 3)
    ensures DigitRun(s, p) == e - p - 3
  {
    forall i | p <= i < e - 3
      ensures IsDigit(s[i])
    {
      assert s[i] == s[p..e - 3][i - p];
    }
    DigitRunIs(s, p, e - p - 3);
  }

  /** A grouped integer with at least one group: its digit run, then at least its groups. */
  lemma FindsGroupedWithoutCents(s: string, p: nat, e: nat) returns (m: nat, g: nat)
    requires p < e <= |s|
    requires Grouped(s[p..e]) && ' ' in s[p..e]
    ensures 1 <= m <= 3 && DigitRun(s, p) == m
    ensures g >= 1 && GroupRun(s, p + m) >= g && p + m + 4 * g == e
  {
    var t := s[p..e];
    m, g := GroupedParts(s, p, e);
    var i :| 0 <= i < |t| && t[i] == ' ';
    assert s[p + i] == ' ';
    DigitRunIs(s, p, m);
    GroupRunAtLeast(s, p + m, g);
  }

  /** The first alternative accepts a digit run, all the groups after it and the cents. */
  lemma MatchesFirst(s: string, p: nat, e: nat, m: nat, g: nat)
    requires p + 4 <= e <= |s| && IsBoundary(s, p) && IsBoundary(s, e) && CentsAt(s, e - 3)
    requires 1 <= m <= 3 && DigitRun(s, p) == m && GroupRun(s, p + m) == g && p + m + 4 * g + 3 == e
    ensures MatchAt(s, p).Some?
  {
    assert MatchEnd(s, p, m, g) == Some(e);
  }

  /** The first or the second alternative accepts a digit run and the cents. */
  lemma MatchesSecond(s: string, p: nat, e: nat)
    requires p + 4 <= e <= |s| && IsBoundary(s, p) && IsBoundary(s, e) && CentsAt(s, e - 3)
    requires DigitRun(s, p) == e - p - 3
    ensures MatchAt(s, p).Some?
  {
  }

  /** With one or more groups after at most three digits the third alternative succeeds, giving back a group if it must. */
  lemma ThirdAlternative(s: string, p: nat, m: nat, g: nat)
    requires 1 <= m <= 3 && 1 <= g && p + m + 4 * g <= |s|
    requires g == 1 ==> IsBoundary(s, p + m + 4)
    ensures MatchEnd(s, p, m, g).Some?
  {
  }

  /** The third alternative accepts a digit run and one or more groups. */
  lemma MatchesThird(s: string, p: nat, e: nat, m: nat, g: nat)
    requires p < e <= |s| && IsBoundary(s, p) && IsBoundary(s, e)
    requires 1 <= m <= 3 && DigitRun(s, p) == m && g >= 1 && GroupRun(s, p + m) >= g && p + m + 4 * g == e
    ensures MatchAt(s, p).Some?
  {
    var groups := GroupRun(s, p + m);
    ThirdAlternative(s, p, m, groups);
    assert MatchAt(s, p) == MatchEnd(s, p, m, groups);
  }

  lemma CompleteGroupedWithCents(s: string, p: nat, e: nat)
    requires p < e <= |s| && IsBoundary(s, p) && IsBoundary(s, e)
    requires HasCents(s[p..e]) && Grouped(s[p..e][..|s[p..e]| - 3])
    ensures MatchAt(s, p).Some?
  {
    CentsOfSlice(s, p, e);
    var m, g := FindsGroupedWithCents(s, p, e);
    MatchesFirst(s, p, e, m, g);
  }

  lemma CompleteDigitsWithCents(s: string, p: nat, e: nat)
    requires p < e <= |s| && IsBoundary(s, p) && IsBoundary(s, e)
    requires HasCents(s[p..e]) && AllDigits(s[p..e][..|s[p..e]| - 3])
    ensures MatchAt(s, p).Some?
  {
    CentsOfSlice(s, p, e);
    FindsDigitsWithCents(s, p, e);
    MatchesSecond(s, p, e);
  }

  lemma CompleteGroupedWithoutCents(s: string, p: nat, e: nat)
    requires p < e <= |s| && IsBoundary(s, p) && IsBoundary(s, e)
    requires Grouped(s[p..e]) && ' ' in s[p..e]
    ensures MatchAt(s, p).Some?
  {
    var m, g := FindsGroupedWithoutCents(s, p, e);
    MatchesThird(s, p, e, m, g);
  }

  /** Whatever money token has a word boundary on both sides, a match starts where it does. */
  lemma MatchAtComplete(s: string, p: nat, e: nat)
    requires p < e <= |s| && IsBoundary(s, p) && IsBoundary(s, e)
    requires IsMoneyToken(s[p..e])
    ensures MatchAt(s, p).Some?
  {
    var t := s[p..e];
    if HasCents(t) && Grouped(t[..|t| - 3]) {
      CompleteGroupedWithCents(s, p, e);
    } else if HasCents(t) && AllDigits(t[..|t| - 3]) {
      CompleteDigitsWithCents(s, p, e);
    } else {
      CompleteGroupedWithoutCents(s, p, e);
    }
  }

  /** With cents after a grouped integer the first alternative takes exactly that token. */
  lemma LongestGroupedWithCents(s: string, p: nat, e: nat)
    requires p < e <= |s| && IsBoundary(s, p) && IsBoundary(s, e)
    requires HasCents(s[p..e]) && Grouped(s[p..e][..|s[p..e]| - 3])
    ensures MatchAt(s, p) == Some(e)
  {
    CentsOfSlice(s, p, e);
    var m, g := FindsGroupedWithCents(s, p, e);
    assert MatchAt(s, p) == MatchEnd(s, p, m, g);
  }

  /** With cents after a plain digit run the first or the second alternative takes exactly that token. */
  lemma LongestDigitsWithCents(s: string, p: nat, e: nat)
    requires p < e <= |s| && IsBoundary(s, p) && IsBoundary(s, e)
    requires HasCents(s[p..e]) && AllDigits(s[p..e][..|s[p..e]| - 3])
    ensures MatchAt(s, p) == Some(e)
  {
    CentsOfSlice(s, p, e);
    FindsDigitsWithCents(s, p, e);
    var n := e - p - 3;
    if n <= 3 {
      assert !GroupAt(s, p + n);
      assert MatchAt(s, p) == MatchEnd(s, p, n, GroupRun(s, p + n));
    } else {
      assert MatchAt(s, p) == MatchEnd(s, p, n, 0);
    }
  }

  /** Taking all its groups, the third alternative never ends before a bounded shorter run of them. */
  lemma ThirdAlternativeLongest(s: string, p: nat, m: nat, groups: nat, g: nat)
    requires 1 <= m <= 3 && 1 <= g <= groups && p + m + 4 * groups <= |s|
    requires IsBoundary(s, p + m + 4 * g) && !CentsAt(s, p + m)
    ensures MatchEnd(s, p, m, groups).Some? && p + m + 4 * g <= MatchEnd(s, p, m, groups).value
  {
  }

  /** Without cents the third alternative takes at least the token's groups, and more when more follow. */
  lemma LongestGroupedWithoutCents(s: string, p: nat, e: nat)
    requires p < e <= |s| && IsBoundary(s, p) && IsBoundary(s, e)
    requires Grouped(s[p..e]) && ' ' in s[p..e]
    ensures MatchAt(s, p).Some? && e <= MatchAt(s, p).value
  {
    var m, g := FindsGroupedWithoutCents(s, p, e);
    var groups := GroupRun(s, p + m);
    assert s[p + m] == ' ';
    ThirdAlternativeLongest(s, p, m, groups, g);
    assert MatchAt(s, p) == MatchEnd(s, p, m, groups);
  }

  /**
   * The match at p is the longest money token from p with a word boundary
   * after it: the alternatives are tried in the pattern's order and each
   * takes its groups greedily, so no bounded token from p reaches further.
   */
  lemma MatchAtLongest(s: string, p: nat, e: nat)
    requires p < e <= |s| && IsBoundary(s, p) && IsBoundary(s, e)
    requires IsMoneyToken(s[p..e])
    ensures MatchAt(s, p).Some? && e <= MatchAt(s, p).value
  {
    var t := s[p..e];
    if HasCents(t) && Grouped(t[..|t| - 3]) {
      LongestGroupedWithCents(s, p, e);
    } else if HasCents(t) && AllDigits(t[..|t| - 3]) {
      LongestDigitsWithCents(s, p, e);
    } else {
      LongestGroupedWithoutCents(s, p, e);
    }
  }

  /** Every span of the scan is the match that starts where it does. */
  lemma {:induction false} ScanSpansAreMatches(s: string, p: nat)
    requires p <= |s|
    ensures forall sp :: sp in Scan(s, p) ==> MatchAt(s, sp.start) == Some(sp.end)
    decreases |s| - p
  {
    if p < |s| {
      match MatchAt(s, p)
      case Some(e) =>
        ScanSpansAreMatches(s, e);
      case None =>
        ScanSpansAreMatches(s, p + 1);
    }
  }

  /**
   * Every span of the global match is the longest bounded money token from
   * its start: no money token with word boundaries on both sides starts
   * there and ends later.
   */
  lemma SpansAreLongest(s: string, sp: Span, e: nat)
    requires sp in Scan(s, 0) && e <= |s| && IsBoundary(s, e)
    requires sp.start < e && IsMoneyToken(s[sp.start..e])
    ensures e <= sp.end
  {
    ScanSpansAreMatches(s, 0);
    ScanSound(s, 0);
    MatchAtLongest(s, sp.start, e);
  }

  /**
   * The scan misses no match: every position from p on where a match could
   * start lies inside a reported span. It either starts one, or it was
   * stepped over as part of an earlier match (in "1.23 456" the bounded
   * token "23 456" starts inside the match "1.23").
   */
  lemma {:induction false} ScanCovers(s: string, p: nat)
    requires p <= |s|
    ensures forall q :: p <= q < |s| && MatchAt(s, q).Some? ==>
      exists sp :: sp in Scan(s, p) && sp.start <= q < sp.end
    decreases |s| - p
  {
    if p < |s| {
      match MatchAt(s, p)
      case Some(e) =>
        ScanCovers(s, e);
        assert Scan(s, p)[0] == Span(p, e);
      case None =>
        ScanCovers(s, p + 1);
    }
  }

  /** Every bounded money token of the text starts inside a span of the scan. */
  lemma TokensAreCovered(s: string, q: nat, e: nat)
    requires q < e <= |s| && IsBoundary(s, q) && IsBoundary(s, e)
    requires IsMoneyToken(s[q..e])
    ensures exists sp :: sp in Scan(s, 0) && sp.start <= q < sp.end
  {
    MatchAtComplete(s, q, e);
    ScanCovers(s, 0);
  }

  // ---------------------------------------------------------------------------
  // The value of a token
  // ---------------------------------------------------------------------------

  /** The digits of t, in order. */
  function DigitsOf(t: string): (d: string)
    ensures AllDigits(d) && |d| <= |t|
  {
    if t == [] then [] else (if IsDigit(t[0]) then [t[0]] else []) + DigitsOf(t[1..])
  }

  lemma {:induction false} DigitsOfAppend(a: string, b: string)
    ensures DigitsOf(a + b) == DigitsOf(a) + DigitsOf(b)
  {
    if a == [] {
      assert a + b == b;
    } else {
      assert (a + b)[0] == a[0] && (a + b)[1..] == a[1..] + b;
      DigitsOfAppend(a[1..], b);
    }
  }

  /** Only digits and spaces, as in the integer part of a money token. */
  predicate DigitsAndSpaces(x: string)
  {
    forall i :: 0 <= i < |x| ==> IsDigit(x[i]) || x[i] == ' '
  }

  lemma {:induction false} ThousandsGroupsChars(u: string)
    requires ThousandsGroups(u)
    ensures DigitsAndSpaces(u)
    decreases |u|
  {
    if u != [] {
      ThousandsGroupsChars(u[4..]);
      forall i | 0 <= i < |u|
        ensures IsDigit(u[i]) || u[i] == ' '
      {
        if 1 <= i < 4 {
          assert u[i] == u[1..4][i - 1];
        } else if i >= 4 {
          assert u[i] == u[4..][i - 4];
        }
      }
    }
  }

  lemma GroupedChars(x: string)
    requires Grouped(x)
    ensures |x| >= 1 && DigitsAndSpaces(x) && IsDigit(x[0])
  {
    var n :| 1 <= n <= 3 && n <= |x| && AllDigits(x[..n]) && ThousandsGroups(x[n..]);
    ThousandsGroupsChars(x[n..]);
    forall i | 0 <= i < |x|
      ensures IsDigit(x[i]) || x[i] == ' '
    {
      if i < n {
        assert x[i] == x[..n][i];
      } else {
        assert x[i] == x[n..][i - n];
      }
    }
    assert x[0] == x[..n][0];
  }

  /** Stripping whitespace keeps a stretch without whitespace as it is. */
  lemma {:induction false} StripKeeps(t: string, i: nat)
    requires i <= |t| && forall j :: i <= j < |t| ==> !IsJsWhitespace(t[j])
    ensures StripFrom(t, i) == t[i..]
    decreases |t| - i
  {
    if i < |t| {
      StripKeeps(t, i + 1);
      assert t[i..] == [t[i]] + t[i + 1..];
    }
  }

  /** Stripping from i is stripping up to j, then from j on. */
  lemma {:induction false} StripSplit(t: string, i: nat, j: nat)
    requires i <= j <= |t|
    ensures StripFrom(t, i) == StripFrom(t[..j], i) + StripFrom(t, j)
    decreases j - i
  {
    if i < j {
      StripSplit(t, i + 1, j);
      assert t[..j][i] == t[i];
    }
  }

  /** Stripping the spaces of digits and spaces leaves the digits. */
  lemma {:induction false} StripDigitsAndSpaces(x: string, i: nat)
    requires i <= |x| && DigitsAndSpaces(x)
    ensures StripFrom(x, i) == DigitsOf(x[i..])
    decreases |x| - i
  {
    if i < |x| {
      StripDigitsAndSpaces(x, i + 1);
      assert x[i..][0] == x[i] && x[i..][1..] == x[i + 1..];
    } else {
      assert x[i..] == [];
    }
  }

  /** The dot and the two cents digits hold no whitespace. */
  lemma StripCents(t: string)
    requires HasCents(t)
    ensures StripFrom(t, |t| - 3) == t[|t| - 3..]
  {
    var n := |t|;
    assert StripFrom(t, n - 1) == [t[n - 1]];
    assert StripFrom(t, n - 2) == [t[n - 2], t[n - 1]];
    assert StripFrom(t, n - 3) == [t[n - 3], t[n - 2], t[n - 1]];
  }

  /** Stripping a token with cents leaves the digits of its integer part, then the dot and the cents. */
  lemma StripWithCents(t: string)
    requires HasCents(t) && DigitsAndSpaces(t[..|t| - 3])
    ensures StripWhitespace(t) == DigitsOf(t[..|t| - 3]) + t[|t| - 3..]
  {
    var x := t[..|t| - 3];
    StripSplit(t, 0, |t| - 3);
    StripDigitsAndSpaces(x, 0);
    assert x[0..] == x;
    StripCents(t);
  }

  /** The digits of the dot and two digits are the two digits. */
  lemma DigitsOfCents(c: string)
    requires |c| == 3 && c[0] == '.' && IsDigit(c[1]) && IsDigit(c[2])
    ensures DigitsOf(c) == [c[1], c[2]]
  {
    assert DigitsOf(c[2..]) == [c[2]] by {
      assert c[2..][1..] == [];
    }
    assert DigitsOf(c[1..]) == [c[1], c[2]] by {
      assert c[1..][1..] == c[2..];
    }
  }

  /** The digits of a token with cents: those of its integer part, then the two cents digits. */
  lemma DigitsOfTokenWithCents(t: string)
    requires HasCents(t)
    ensures DigitsOf(t) == DigitsOf(t[..|t| - 3]) + [t[|t| - 2], t[|t| - 1]]
  {
    var cents := t[|t| - 3..];
    assert t == t[..|t| - 3] + cents;
    DigitsOfAppend(t[..|t| - 3], cents);
    DigitsOfCents(cents);
  }

  /** A token with cents: its integer digits followed by the two cents digits. */
  lemma TokenValueWithCents(t: string)
    requires HasCents(t) && DigitsAndSpaces(t[..|t| - 3]) && IsDigit(t[0])
    ensures TokenCents(t) == DecimalValue(DigitsOf(t))
  {
    var x := t[..|t| - 3];
    StripWithCents(t);
    DigitsOfTokenWithCents(t);
    var d := DigitsOf(x);
    assert x[0] == t[0];
    assert |d| >= 1;
    var u := d + t[|t| - 3..];
    assert u[..|d|] == d[..|d|];
    DecimalPrefixSame(u, d, |d|);
    assert u[|u| - 2] == t[|t| - 2] && u[|u| - 1] == t[|t| - 1];
    DecimalValueTwoMore(d, t[|t| - 2], t[|t| - 1]);
  }

  /** A token of digits and spaces: its digits, times a hundred. */
  lemma TokenValueWithoutCents(t: string)
    requires DigitsAndSpaces(t)
    ensures !HasCents(t)
    ensures TokenCents(t) == DecimalValue(DigitsOf(t)) * 100
  {
    StripDigitsAndSpaces(t, 0);
    assert t[0..] == t;
    var u := StripWhitespace(t);
    if |u| >= 4 {
      assert IsDigit(u[|u| - 3]);
    }
    if |t| >= 4 {
      assert IsDigit(t[|t| - 3]) || t[|t| - 3] == ' ';
    }
  }

  /**
   * `toNumber` of a money token, in cents: the number its digits spell once
   * the spaces and the dot are dropped, so a token without cents is worth a
   * hundred times its digits.
   */
  lemma TokenValue(t: string)
    requires IsMoneyToken(t)
    ensures TokenCents(t) == DecimalValue(DigitsOf(t)) * (if HasCents(t) then 1 else 100)
  {
    if HasCents(t) && Grouped(t[..|t| - 3]) {
      GroupedChars(t[..|t| - 3]);
      assert t[0] == t[..|t| - 3][0];
      TokenValueWithCents(t);
    } else if HasCents(t) && AllDigits(t[..|t| - 3]) {
      assert t[0] == t[..|t| - 3][0];
      TokenValueWithCents(t);
    } else {
      GroupedChars(t);
      TokenValueWithoutCents(t);
    }
  }

  // ---------------------------------------------------------------------------
  // Absence
  // ---------------------------------------------------------------------------

  /** When every match parses to zero (say "0.00"), there is no amount. */
  lemma ZeroMatchesGiveNoAmount(text: string)
    requires forall m :: m in MoneyMatches(Normalize(text)) ==> TokenCents(m) == 0
    ensures ParseAmount(text) == None
  {
    var ms := MoneyMatches(Normalize(text));
    var vs := seq(|ms|, k requires 0 <= k < |ms| => TokenCents(ms[k]));
    forall c | c in vs ensures c == 0 {
      var k :| 0 <= k < |vs| && vs[k] == c;
      assert ms[k] in ms;
    }
  }
}
