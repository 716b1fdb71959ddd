/**
 * The structural fallback of the context extraction: when the vote left a
 * label without a value, every non-blank element text is searched for
 * `N% KEYWORD` and then `KEYWORD N%` (case-insensitive, any whitespace
 * between), and the first element that yields a number fills the label.
 * Unlike the collectors, these numbers are not checked against 0..100.
 */
module Fallback {
  import opened Text
  import opened Domain

  /**
   * The length of the keyword of l that occurs at j, ignoring ASCII case, or 0
   * when none does (the alternation tries the first keyword first).
   */
  function KeywordLength(t: string, l: Label, j: nat): (n: nat)
    ensures n > 0 ==> j + n <= |t|
    ensures n > 0 <==> MatchesUpperAt(t, Keywords(l)[0], j) || MatchesUpperAt(t, Keywords(l)[1], j)
  {
    var kws := Keywords(l);
    if MatchesUpperAt(t, kws[0], j) then |kws[0]|
    else if MatchesUpperAt(t, kws[1], j) then |kws[1]|
    else 0
  }

  /** `(\d+)%` matches at i: a run of digits starts there and '%' follows it. */
  predicate PercentAt(t: string, i: nat) {
    i < |t| && IsDigit(t[i]) && i + DigitRun(t[i..]) < |t| && t[i + DigitRun(t[i..])] == '%'
  }

  /** Where `\s*` stops when it starts at i. */
  function SkipSpaces(t: string, i: nat): (j: nat)
    requires i <= |t|
    ensures i <= j <= |t|
  {
    i + LeadingSpaces(t[i..])
  }

  /** `(\d+)%\s*(?:KW1|KW2)` matches at i. */
  predicate NumKwAt(t: string, l: Label, i: nat) {
    PercentAt(t, i) && KeywordLength(t, l, SkipSpaces(t, i + DigitRun(t[i..]) + 1)) > 0
  }

  /** `(?:KW1|KW2)\s*(\d+)%` matches at i; its digits start at NumStart. */
  predicate KwNumAt(t: string, l: Label, i: nat) {
    i <= |t| && KeywordLength(t, l, i) > 0 && PercentAt(t, NumStart(t, l, i))
  }

  /** Where the digits after the keyword at i and the blanks after it start. */
  function NumStart(t: string, l: Label, i: nat): (j: nat)
    requires i <= |t|
    ensures j <= |t|
  {
    var n := KeywordLength(t, l, i);
    if n == 0 then i else SkipSpaces(t, i + n)
  }

  /** The leftmost position at or after i where `(\d+)%\s*KW` matches, or |t|. */
  function NumKwIndex(t: string, l: Label, i: nat): (k: nat)
    requires i <= |t|
    ensures i <= k <= |t|
    ensures k < |t| ==> NumKwAt(t, l, k)
    ensures forall j :: i <= j < k ==> !NumKwAt(t, l, j)
    decreases |t| - i
  {
    if i == |t| || NumKwAt(t, l, i) then i else NumKwIndex(t, l, i + 1)
  }

  /** The leftmost position at or after i where `KW\s*(\d+)%` matches, or |t|. */
  function KwNumIndex(t: string, l: Label, i: nat): (k: nat)
    requires i <= |t|
    ensures i <= k <= |t|
    ensures k < |t| ==> KwNumAt(t, l, k)
    ensures forall j :: i <= j < k ==> !KwNumAt(t, l, j)
    decreases |t| - i
  {
    if i == |t| || KwNumAt(t, l, i) then i else KwNumIndex(t, l, i + 1)
  }

  /** `float(re.findall(r'(\d+)%\s*(?:KW1|KW2)', t, re.IGNORECASE)[0])`, if there is a match. */
  function NumKw(t: string, l: Label): Option<int> {
    var k := NumKwIndex(t, l, 0);
    if k == |t| then None else Some(DigitsValue(t[k..k + DigitRun(t[k..])]))
  }

  /** `float(re.findall(r'(?:KW1|KW2)\s*(\d+)%', t, re.IGNORECASE)[0])`, if there is a match. */
  function KwNum(t: string, l: Label): Option<int> {
    var k := KwNumIndex(t, l, 0);
    if k == |t| then None
    else
      var j := NumStart(t, l, k);
      Some(DigitsValue(t[j..j + DigitRun(t[j..])]))
  }

  /** What one element offers for l: the number before a keyword, else the number after one. */
  function ElementMatch(e: string, l: Label): (r: Option<int>)
    ensures Strip(e) == [] ==> r.None?
    ensures NumKw(Strip(e), l).Some? ==> r == NumKw(Strip(e), l)
    ensures NumKw(Strip(e), l).None? ==> r == KwNum(Strip(e), l)
  {
    var t := Strip(e);
    if t == [] then None
    else
      match NumKw(t, l)
      case Some(v) => Some(v)
      case None => KwNum(t, l)
  }

  /** What each element offers for l, in element order. */
  function Matches(es: seq<string>, l: Label): (ms: seq<Option<int>>)
    ensures |ms| == |es|
    ensures forall k :: 0 <= k < |es| ==> ms[k] == ElementMatch(es[k], l)
  {
    seq(|es|, k requires 0 <= k < |es| => ElementMatch(es[k], l))
  }

  /** A label keeps its value; a missing one takes the first element's offer. */
  function FillMissing(o: Option<int>, es: seq<string>, l: Label): Option<int> {
    if o.Some? then o else FirstSome(Matches(es, l))
  }

  function FillAll(r: Readings, es: seq<string>): Readings {
    Readings(FillMissing(r.player, es, Player), FillMissing(r.banker, es, Banker), FillMissing(r.tie, es, Tie))
  }

  /** The fallback, run only when some label is still missing. */
  function Fill(r: Readings, es: seq<string>): Readings {
    if r.Complete() then r else FillAll(r, es)
  }

  /**
   * A label that already has a value keeps it; a missing one takes the value
   * of the first element (in document order) that offers one, or stays missing.
   */
  lemma FillPerLabel(r: Readings, es: seq<string>, l: Label)
    ensures r.Get(l).Some? ==> Fill(r, es).Get(l) == r.Get(l)
    ensures r.Get(l).None? ==>
      var k := FirstSomeIndex(Matches(es, l));
      && (k < |es| ==> Fill(r, es).Get(l) == ElementMatch(es[k], l) && Fill(r, es).Get(l).Some?)
      && (k == |es| ==> Fill(r, es).Get(l).None?)
      && forall j :: 0 <= j < k ==> ElementMatch(es[j], l).None?
  {
    var k := FirstSomeIndex(Matches(es, l));
    if r.Get(l).None? {
      assert !r.Complete();
      forall j | 0 <= j < k ensures ElementMatch(es[j], l).None? {
        assert Matches(es, l)[j].None?;
      }
    }
  }

  /** The readings after one more element has been searched. */
  function Offer(r: Readings, e: string): Readings {
    Readings(
      if r.player.Some? then r.player else ElementMatch(e, Player),
      if r.banker.Some? then r.banker else ElementMatch(e, Banker),
      if r.tie.Some? then r.tie else ElementMatch(e, Tie))
  }

  /** Offering one more element appends its match. */
  lemma MatchesSnoc(es: seq<string>, i: nat, l: Label)
    requires i < |es|
    ensures Matches(es[..i + 1], l) == Matches(es[..i], l) + [ElementMatch(es[i], l)]
  {
    var a, b := Matches(es[..i + 1], l), Matches(es[..i], l);
    assert forall k :: 0 <= k < i ==> es[..i + 1][k] == es[..i][k];
    SnocOf(a, b, ElementMatch(es[i], l));
  }

  /** One label's value after one more element. */
  lemma FillMissingSnoc(o: Option<int>, es: seq<string>, i: nat, l: Label)
    requires i < |es|
    ensures FillMissing(o, es[..i + 1], l) ==
      var prev := FillMissing(o, es[..i], l); if prev.Some? then prev else ElementMatch(es[i], l)
  {
    MatchesSnoc(es, i, l);
    FirstSomeSnoc(Matches(es[..i], l), ElementMatch(es[i], l));
  }

  lemma FillAllSnoc(r: Readings, es: seq<string>, i: nat)
    requires i < |es|
    ensures FillAll(r, es[..i + 1]) == Offer(FillAll(r, es[..i]), es[i])
  {
    FillMissingSnoc(r.player, es, i, Player);
    FillMissingSnoc(r.banker, es, i, Banker);
    FillMissingSnoc(r.tie, es, i, Tie);
  }

  /** The six `if matches and X_percent is None` checks on one element. */
  method SearchElement(r: Readings, e: string) returns (out: Readings)
    ensures out == Offer(r, e)
  {
    out := r;
    var text := Strip(e);
    if text != [] {
      var m := NumKw(text, Player);
      if m.Some? && out.player.None? { out := out.(player := m); }
      m := KwNum(text, Player);
      if m.Some? && out.player.None? { out := out.(player := m); }
      m := NumKw(text, Banker);
      if m.Some? && out.banker.None? { out := out.(banker := m); }
      m := KwNum(text, Banker);
      if m.Some? && out.banker.None? { out := out.(banker := m); }
      m := NumKw(text, Tie);
      if m.Some? && out.tie.None? { out := out.(tie := m); }
      m := KwNum(text, Tie);
      if m.Some? && out.tie.None? { out := out.(tie := m); }
    }
  }

  /** The loop over every element, entered only when some label is still missing. */
  method StructuralFallback(r: Readings, elements: seq<string>) returns (out: Readings)
    ensures out == Fill(r, elements)
  {
    out := r;
    if r.player.None? || r.banker.None? || r.tie.None? {
      var i := 0;
      assert FillAll(r, elements[..0]) == r;
      while i < |elements|
        invariant 0 <= i <= |elements|
        invariant out == FillAll(r, elements[..i])
      {
        FillAllSnoc(r, elements, i);
        out := SearchElement(out, elements[i]);
        i := i + 1;
      }
      assert elements[..i] == elements;
    }
  }

  /** A text without the first letter of either of l's keywords offers nothing for l. */
  lemma NoKeywordStart(t: string, l: Label)
    requires forall k :: 0 <= k < |t| ==> UpperChar(t[k]) != Keywords(l)[0][0] && UpperChar(t[k]) != Keywords(l)[1][0]
    ensures NumKwIndex(t, l, 0) == |t| && KwNumIndex(t, l, 0) == |t|
  {
    forall j: nat ensures KeywordLength(t, l, j) == 0 {
      if j < |t| {
        assert !MatchesUpperAt(t, Keywords(l)[0], j) && !MatchesUpperAt(t, Keywords(l)[1], j);
      }
    }
  }
}
