/**
 * Character and string primitives the scraper relies on: ASCII upper-casing
 * (str.upper), substring search (str.find and `in`), whitespace stripping
 * (str.strip), splitting on a separator (str.split) and the pattern `(\d+)%`
 * as re.findall applies it.
 */
module Text {

  predicate IsDigit(c: char) {
    '0' <= c <= '9'
  }

  predicate AllDigits(s: string) {
    forall k | 0 <= k < |s| :: IsDigit(s[k])
  }

  /** The characters Python's str.isspace accepts; used by str.strip and by `\s`. */
  predicate IsSpace(c: char) {
    c == ' ' || c == '\t' || c == '\n' || c == '\r' || c == '\U{000B}' || c == '\U{000C}'
    || ('\U{001C}' <= c <= '\U{001F}') || c == '\U{0085}' || c == '\U{00A0}' || c == '\U{1680}'
    || ('\U{2000}' <= c <= '\U{200A}') || c == '\U{2028}' || c == '\U{2029}' || c == '\U{202F}'
    || c == '\U{205F}' || c == '\U{3000}'
  }

  function UpperChar(c: char): char {
    if 'a' <= c <= 'z' then (c as int - 32) as char else c
  }

  /** str.upper, restricted to the ASCII letters. */
  function Upper(s: string): (r: string)
    ensures |r| == |s|
    ensures forall k :: 0 <= k < |s| ==> r[k] == UpperChar(s[k])
  {
    seq(|s|, k requires 0 <= k < |s| => UpperChar(s[k]))
  }

  function DigitValue(c: char): nat
    requires IsDigit(c)
  {
    c as int - '0' as int
  }

  /** The number a run of decimal digits denotes (leading zeros allowed, as float() allows them). */
  function DigitsValue(ds: string): nat
    requires AllDigits(ds)
    decreases |ds|
  {
    if ds == [] then 0 else 10 * DigitsValue(ds[..|ds| - 1]) + DigitValue(ds[|ds| - 1])
  }

  // ---------------------------------------------------------------- searching

  predicate OccursAt(hay: string, needle: string, i: int) {
    0 <= i && i + |needle| <= |hay| && hay[i..i + |needle|] == needle
  }

  lemma OccursAtShift(hay: string, needle: string, j: int)
    requires |hay| > 0 && j >= 0
    ensures OccursAt(hay, needle, j + 1) <==> OccursAt(hay[1..], needle, j)
  {
    if j + 1 + |needle| <= |hay| {
      assert hay[1..][j..j + |needle|] == hay[j + 1..j + 1 + |needle|];
    }
  }

  /** str.find: the first index at which needle occurs in hay, or -1 (see FindIsFirstOccurrence). */
  function Find(hay: string, needle: string): (r: int)
    ensures -1 <= r
    ensures r >= 0 ==> r + |needle| <= |hay|
    decreases |hay|
  {
    if |hay| < |needle| then -1
    else if hay[..|needle|] == needle then 0
    else
      var r := Find(hay[1..], needle);
      if r < 0 then -1 else r + 1
  }

  /** Find returns the first occurrence, and -1 exactly when there is none. */
  lemma {:induction false} FindIsFirstOccurrence(hay: string, needle: string)
    ensures var r := Find(hay, needle);
      && (r >= 0 ==> OccursAt(hay, needle, r))
      && (r >= 0 ==> forall j :: 0 <= j < r ==> !OccursAt(hay, needle, j))
      && (r < 0 ==> forall j :: !OccursAt(hay, needle, j))
    decreases |hay|
  {
    if |hay| >= |needle| && hay[..|needle|] != needle {
      FindIsFirstOccurrence(hay[1..], needle);
      forall j | 1 <= j ensures OccursAt(hay, needle, j) <==> OccursAt(hay[1..], needle, j - 1) {
        OccursAtShift(hay, needle, j - 1);
      }
      assert !OccursAt(hay, needle, 0);
    }
  }

  /** Python's `needle in hay` for strings. */
  predicate Contains(hay: string, needle: string) {
    Find(hay, needle) >= 0
  }

  /** kw occurs at j in text.upper(). */
  predicate MatchesUpperAt(text: string, kw: string, j: int) {
    0 <= j && j + |kw| <= |text| && UpperEq(text[j..j + |kw|], kw)
  }

  /** a.upper() == b, compared character by character from the front. */
  predicate UpperEq(a: string, b: string)
    decreases |a|
  {
    |a| == |b| && (a == [] || (UpperChar(a[0]) == b[0] && UpperEq(a[1..], b[1..])))
  }

  lemma {:induction false} UpperEqIff(a: string, b: string)
    ensures UpperEq(a, b) <==> Upper(a) == b
    decreases |a|
  {
    if |a| == |b| && a != [] {
      UpperEqIff(a[1..], b[1..]);
      assert Upper(a) == [UpperChar(a[0])] + Upper(a[1..]);
      assert b == [b[0]] + b[1..];
    }
  }

  /** `kw in text.upper()`. */
  predicate ContainsUpper(text: string, kw: string) {
    exists j | 0 <= j <= |text| - |kw| :: MatchesUpperAt(text, kw, j)
  }

  lemma ContainsIff(hay: string, needle: string)
    ensures Contains(hay, needle) <==> exists j :: OccursAt(hay, needle, j)
  {
    FindIsFirstOccurrence(hay, needle);
  }

  /** Matching position by position agrees with `kw in text.upper()` computed by str.find. */
  lemma ContainsUpperIff(text: string, kw: string)
    ensures ContainsUpper(text, kw) <==> Contains(Upper(text), kw)
  {
    var u := Upper(text);
    ContainsIff(u, kw);
    forall j ensures MatchesUpperAt(text, kw, j) <==> OccursAt(u, kw, j) {
      if 0 <= j && j + |kw| <= |text| {
        UpperEqIff(text[j..j + |kw|], kw);
        assert Upper(text[j..j + |kw|]) == u[j..j + |kw|];
      }
    }
  }

  // ---------------------------------------------------------------- stripping

  function LeadingSpaces(s: string): (n: nat)
    ensures n <= |s|
    ensures forall k :: 0 <= k < n ==> IsSpace(s[k])
    ensures n < |s| ==> !IsSpace(s[n])
    decreases |s|
  {
    if s == [] || !IsSpace(s[0]) then 0 else 1 + LeadingSpaces(s[1..])
  }

  function TrailingSpaces(s: string): (n: nat)
    ensures n <= |s|
    ensures forall k :: |s| - n <= k < |s| ==> IsSpace(s[k])
    ensures n < |s| ==> !IsSpace(s[|s| - 1 - n])
    decreases |s|
  {
    if s == [] || !IsSpace(s[|s| - 1]) then 0 else 1 + TrailingSpaces(s[..|s| - 1])
  }

  /** The text between the leading and the trailing whitespace of s. */
  function Trimmed(s: string): string {
    var rest := s[LeadingSpaces(s)..];
    rest[..|rest| - TrailingSpaces(rest)]
  }

  lemma TrimmedShape(s: string)
    ensures var a, r := LeadingSpaces(s), Trimmed(s);
      && a + |r| <= |s| && r == s[a..a + |r|]
      && (a < |s| ==> r != [])
  {
    var a := LeadingSpaces(s);
    var rest := s[a..];
    var r := rest[..|rest| - TrailingSpaces(rest)];
    assert r == s[a..a + |r|];
    if a < |s| {
      assert rest[0] == s[a];
    }
  }

  lemma TrimmedTail(s: string)
    ensures LeadingSpaces(s) + |Trimmed(s)| <= |s|
    ensures forall k :: LeadingSpaces(s) + |Trimmed(s)| <= k < |s| ==> IsSpace(s[k])
  {
    var a := LeadingSpaces(s);
    var rest := s[a..];
    var b := TrailingSpaces(rest);
    assert |Trimmed(s)| == |rest| - b;
    forall k | a + |rest| - b <= k < |s| ensures IsSpace(s[k]) {
      assert s[k] == rest[k - a];
    }
  }

  lemma TrimmedEnds(s: string)
    requires Trimmed(s) != []
    ensures !IsSpace(Trimmed(s)[0]) && !IsSpace(Trimmed(s)[|Trimmed(s)| - 1])
  {
    var a := LeadingSpaces(s);
    var rest := s[a..];
    var b := TrailingSpaces(rest);
    assert rest[0] == s[a];
    assert Trimmed(s)[|Trimmed(s)| - 1] == rest[|rest| - 1 - b];
  }

  /** str.strip(): drops leading and trailing whitespace and nothing else. */
  function Strip(s: string): (r: string)
    ensures |r| <= |s|
    ensures r == [] <==> forall k :: 0 <= k < |s| ==> IsSpace(s[k])
    ensures r != [] ==> !IsSpace(r[0]) && !IsSpace(r[|r| - 1])
    ensures LeadingSpaces(s) + |r| <= |s| && r == s[LeadingSpaces(s)..LeadingSpaces(s) + |r|]
    ensures forall k :: LeadingSpaces(s) + |r| <= k < |s| ==> IsSpace(s[k])
  {
    TrimmedShape(s);
    TrimmedTail(s);
    if Trimmed(s) != [] then TrimmedEnds(s); Trimmed(s) else Trimmed(s)
  }

  /** A text that neither starts nor ends with whitespace is left as it is. */
  lemma StripUnpadded(s: string)
    requires s != [] && !IsSpace(s[0]) && !IsSpace(s[|s| - 1])
    ensures Strip(s) == s
  {
    assert LeadingSpaces(s) == 0;
    assert TrailingSpaces(s[0..]) == 0 by { assert s[0..] == s; }
  }

  // ---------------------------------------------------------------- splitting

  /** The first index of c in s, or |s| when s has none. */
  function IndexOf(s: string, c: char): (i: nat)
    ensures i <= |s|
    ensures i < |s| ==> s[i] == c
    ensures forall k :: 0 <= k < i ==> s[k] != c
    decreases |s|
  {
    if s == [] then 0 else if s[0] == c then 0 else 1 + IndexOf(s[1..], c)
  }

  /** str.split(sep) for a one-character separator. */
  function Split(s: string, sep: char): (parts: seq<string>)
    ensures |parts| >= 1
    ensures forall k :: 0 <= k < |parts| ==> sep !in parts[k]
    decreases |s|
  {
    var i := IndexOf(s, sep);
    if i == |s| then [s] else [s[..i]] + Split(s[i + 1..], sep)
  }

  /** sep.join(parts). */
  function Join(parts: seq<string>, sep: char): string
    decreases |parts|
  {
    if parts == [] then [] else if |parts| == 1 then parts[0] else parts[0] + [sep] + Join(parts[1..], sep)
  }

  /** Splitting loses nothing: joining the pieces back gives the original text. */
  lemma {:induction false} JoinSplit(s: string, sep: char)
    ensures Join(Split(s, sep), sep) == s
    decreases |s|
  {
    var i := IndexOf(s, sep);
    if i < |s| {
      var rest := Split(s[i + 1..], sep);
      JoinSplit(s[i + 1..], sep);
      var parts := [s[..i]] + rest;
      assert Split(s, sep) == parts;
      assert parts[1..] == rest;
      assert Join(parts, sep) == s[..i] + [sep] + Join(rest, sep);
      assert s == s[..i] + [sep] + s[i + 1..];
    }
  }

  // ---------------------------------------------------------------- (\d+)%

  /** Length of the run of digits s starts with. */
  function DigitRun(s: string): (n: nat)
    ensures n <= |s|
    ensures forall k :: 0 <= k < n ==> IsDigit(s[k])
    ensures n < |s| ==> !IsDigit(s[n])
    decreases |s|
  {
    if s == [] || !IsDigit(s[0]) then 0 else 1 + DigitRun(s[1..])
  }

  /** Every token is a non-empty run of digits. */
  predicate DigitTokens(toks: seq<string>) {
    forall k | 0 <= k < |toks| :: toks[k] != [] && AllDigits(toks[k])
  }

  /**
   * The scan behind re.findall(r'(\d+)%', s): the captured digit strings, left to right.
   * At a digit the greedy `\d+` takes the whole run; if no '%' follows it,
   * no later start inside the run can match either.
   */
  function ScanPercents(s: string): seq<string>
    decreases |s|
  {
    if s == [] then []
    else if !IsDigit(s[0]) then ScanPercents(s[1..])
    else
      var n := DigitRun(s);
      if n < |s| && s[n] == '%' then [s[..n]] + ScanPercents(s[n + 1..])
      else ScanPercents(s[n..])
  }

  /** A text without digits holds no percent number. */
  lemma {:induction false} ScanPercentsNoDigits(s: string)
    requires forall k :: 0 <= k < |s| ==> !IsDigit(s[k])
    ensures ScanPercents(s) == []
    decreases |s|
  {
    if s != [] {
      ScanPercentsNoDigits(s[1..]);
    }
  }

  /** Every token is a non-empty run of digits. */
  lemma {:induction false} ScanPercentsAreDigits(s: string)
    ensures DigitTokens(ScanPercents(s))
    decreases |s|
  {
    if s != [] {
      if !IsDigit(s[0]) {
        ScanPercentsAreDigits(s[1..]);
      } else {
        var n := DigitRun(s);
        if n < |s| && s[n] == '%' {
          ScanPercentsAreDigits(s[n + 1..]);
          assert AllDigits(s[..n]);
        } else {
          ScanPercentsAreDigits(s[n..]);
        }
      }
    }
  }

  /** re.findall(r'(\d+)%', s): every token is a non-empty run of digits. */
  function PercentTokens(s: string): (toks: seq<string>)
    ensures DigitTokens(toks)
  {
    ScanPercentsAreDigits(s);
    ScanPercents(s)
  }

  /** The numbers re.findall(r'(\d+)%', s) yields, as float() reads them. */
  function PercentValues(s: string): (vs: seq<nat>)
    ensures |vs| == |PercentTokens(s)|
    ensures forall k :: 0 <= k < |vs| ==> vs[k] == DigitsValue(PercentTokens(s)[k])
  {
    var toks := PercentTokens(s);
    seq(|toks|, k requires 0 <= k < |toks| => DigitsValue(toks[k]))
  }

  /**
   * Independent description of the same tokens, by position: a percent
   * number starts at i when s[i] opens a maximal run of digits and the run
   * is immediately followed by '%'.
   */
  predicate PercentStartsAt(s: string, i: nat)
    requires i < |s|
  {
    && IsDigit(s[i])
    && (i == 0 || !IsDigit(s[i - 1]))
    && i + DigitRun(s[i..]) < |s|
    && s[i + DigitRun(s[i..])] == '%'
  }

  function PercentTokensFrom(s: string, i: nat): seq<string>
    requires i <= |s|
    decreases |s| - i
  {
    if i == |s| then []
    else (if PercentStartsAt(s, i) then [s[i..i + DigitRun(s[i..])]] else []) + PercentTokensFrom(s, i + 1)
  }

  lemma DigitRunShift(s: string, i: nat)
    requires i < |s| && IsDigit(s[i])
    ensures DigitRun(s[i..]) == 1 + DigitRun(s[i + 1..])
  {
    assert s[i..][1..] == s[i + 1..];
  }

  /** Inside a run of digits no percent number starts. */
  lemma {:induction false} SkipRun(s: string, k: nat, n: nat)
    requires k < |s| && 0 < n && k + n <= |s|
    requires forall j :: k <= j < k + n ==> IsDigit(s[j])
    ensures PercentTokensFrom(s, k + 1) == PercentTokensFrom(s, k + n)
    decreases n
  {
    if n > 1 {
      assert !PercentStartsAt(s, k + 1);
      SkipRun(s, k + 1, n - 1);
    }
  }

  /** The scanner on a text that opens with a digit. */
  lemma ScanDigit(t: string)
    requires t != [] && IsDigit(t[0])
    ensures var n := DigitRun(t);
      ScanPercents(t) == if n < |t| && t[n] == '%' then [t[..n]] + ScanPercents(t[n + 1..]) else ScanPercents(t[n..])
  {
  }

  /** The scanner at a digit: it takes the whole run, as a token when '%' follows. */
  lemma ScanAtRun(s: string, k: nat)
    requires k < |s| && IsDigit(s[k])
    ensures var n := DigitRun(s[k..]);
      && k + n <= |s|
      && ScanPercents(s[k..]) ==
         if k + n < |s| && s[k + n] == '%' then [s[k..k + n]] + ScanPercents(s[k + n + 1..])
         else ScanPercents(s[k + n..])
  {
    var t := s[k..];
    var n := DigitRun(t);
    ScanDigit(t);
    assert t[..n] == s[k..k + n];
    if k + n < |s| {
      assert t[n] == s[k + n];
      assert t[n + 1..] == s[k + n + 1..];
    }
    assert t[n..] == s[k + n..];
  }

  /** The run of digits starting at k, in positions of s. */
  lemma RunAt(s: string, k: nat)
    requires k < |s|
    ensures var n := DigitRun(s[k..]);
      && k + n <= |s|
      && (forall j :: k <= j < k + n ==> IsDigit(s[j]))
      && (k + n < |s| ==> !IsDigit(s[k + n]))
  {
    var n := DigitRun(s[k..]);
    forall j | k <= j < k + n ensures IsDigit(s[j]) {
      assert s[k..][j - k] == s[j];
    }
    if k + n < |s| {
      assert s[k..][n] == s[k + n];
    }
  }

  /** The positional description at the start of a run: one token when '%' follows the run. */
  lemma PositionsAtRun(s: string, k: nat)
    requires k < |s| && IsDigit(s[k])
    requires k == 0 || !IsDigit(s[k - 1])
    ensures var n := DigitRun(s[k..]);
      && k + n <= |s|
      && PercentTokensFrom(s, k) ==
         if k + n < |s| && s[k + n] == '%' then [s[k..k + n]] + PercentTokensFrom(s, k + n + 1)
         else PercentTokensFrom(s, k + n)
  {
    var n := DigitRun(s[k..]);
    RunAt(s, k);
    SkipRun(s, k, n);
    var starts := k + n < |s| && s[k + n] == '%';
    assert PercentStartsAt(s, k) == starts;
    assert PercentTokensFrom(s, k) == (if starts then [s[k..k + n]] else []) + PercentTokensFrom(s, k + 1);
    if starts {
      assert !PercentStartsAt(s, k + n);
      assert PercentTokensFrom(s, k + n) == PercentTokensFrom(s, k + n + 1);
    }
  }

  /** Away from a digit neither description produces anything at k. */
  lemma StepOverNonDigit(s: string, k: nat)
    requires k < |s| && !IsDigit(s[k])
    ensures ScanPercents(s[k..]) == ScanPercents(s[k + 1..])
    ensures PercentTokensFrom(s, k) == PercentTokensFrom(s, k + 1)
  {
    assert s[k..][1..] == s[k + 1..];
  }

  lemma {:induction false} TokensAgreeFrom(s: string, k: nat)
    requires k <= |s|
    requires k == 0 || k == |s| || !IsDigit(s[k - 1]) || !IsDigit(s[k])
    ensures ScanPercents(s[k..]) == PercentTokensFrom(s, k)
    decreases |s| - k
  {
    if k == |s| {
    } else if !IsDigit(s[k]) {
      StepOverNonDigit(s, k);
      TokensAgreeFrom(s, k + 1);
    } else {
      var n := DigitRun(s[k..]);
      RunAt(s, k);
      var next := if k + n < |s| && s[k + n] == '%' then k + n + 1 else k + n;
      TokensAgreeFrom(s, next);
      AgreeAtRun(s, k);
    }
  }

  /** Both descriptions take the same step over the run of digits at k. */
  lemma AgreeAtRun(s: string, k: nat)
    requires k < |s| && IsDigit(s[k])
    requires k == 0 || !IsDigit(s[k - 1])
    requires var n := DigitRun(s[k..]);
      var next := if k + n < |s| && s[k + n] == '%' then k + n + 1 else k + n;
      next <= |s| && ScanPercents(s[next..]) == PercentTokensFrom(s, next)
    ensures ScanPercents(s[k..]) == PercentTokensFrom(s, k)
  {
    ScanAtRun(s, k);
    PositionsAtRun(s, k);
  }

  /** The scanner finds exactly the percent numbers, in order and with repetitions. */
  lemma PercentTokensMatchPositions(s: string)
    ensures PercentTokens(s) == PercentTokensFrom(s, 0)
  {
    TokensAgreeFrom(s, 0);
  }
}
