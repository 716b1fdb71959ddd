/**
 * The text collectors of the context extraction: script-extracted texts,
 * element texts, the markup patterns and the markup context windows. Each
 * appends percent values to the caller's candidate lists in place; each is
 * specified by a fold over its input, and the lemmas say what the folds add.
 */
module Collectors {
  import opened Text
  import opened Domain
  import opened Candidates

  const MaxElementText: nat := 300

  predicate AllInRange(s: seq<int>) {
    forall i :: 0 <= i < |s| ==> InRange(s[i])
  }

  lemma ConcatInRange(a: seq<int>, b: seq<int>)
    requires AllInRange(a) && AllInRange(b)
    ensures AllInRange(a + b)
  {
    forall i | 0 <= i < |a + b| ensures InRange((a + b)[i]) {
      if i >= |a| {
        assert (a + b)[i] == b[i - |a|];
      }
    }
  }

  // ---------------------------------------------------------------- lists of lists

  /** The lists of xss one after the other. */
  function Flatten<T>(xss: seq<seq<T>>): seq<T>
    decreases |xss|
  {
    if xss == [] then [] else Flatten(xss[..|xss| - 1]) + xss[|xss| - 1]
  }

  /** A sequence that agrees with x and then with y is x + y. */
  lemma ConcatOf<T>(s: seq<T>, x: seq<T>, y: seq<T>)
    requires |s| == |x| + |y|
    requires forall k :: 0 <= k < |x| ==> s[k] == x[k]
    requires forall k :: 0 <= k < |y| ==> s[|x| + k] == y[k]
    ensures s == x + y
  {
  }

  lemma {:induction false} FlattenConcat<T>(xss: seq<seq<T>>, yss: seq<seq<T>>)
    ensures Flatten(xss + yss) == Flatten(xss) + Flatten(yss)
    decreases |yss|
  {
    if yss == [] {
      assert xss + yss == xss;
    } else {
      var init := yss[..|yss| - 1];
      var all := xss + yss;
      assert all[..|all| - 1] == xss + init;
      FlattenConcat(xss, init);
      ConcatAssoc(Flatten(xss), Flatten(init), yss[|yss| - 1]);
    }
  }

  lemma {:induction false} FlattenMembers<T>(xss: seq<seq<T>>, v: T)
    ensures v in Flatten(xss) <==> exists k :: 0 <= k < |xss| && v in xss[k]
    decreases |xss|
  {
    if xss != [] {
      var n := |xss| - 1;
      var init := xss[..n];
      FlattenMembers(init, v);
      if v in Flatten(xss) && v in Flatten(init) {
        var k :| 0 <= k < n && v in init[k];
        assert xss[k] == init[k];
      }
      if exists k :: 0 <= k < |xss| && v in xss[k] {
        var k :| 0 <= k < |xss| && v in xss[k];
        if k < n {
          assert init[k] == xss[k];
        }
      }
    }
  }

  // ---------------------------------------------------------------- the collectors

  /** The values of vs with `0 <= val <= 100`, in order. */
  function KeepInRange(vs: seq<int>): (r: seq<int>)
    ensures AllInRange(r)
    ensures |r| <= |vs|
    decreases |vs|
  {
    if vs == [] then []
    else
      var prev := KeepInRange(vs[..|vs| - 1]);
      var last := if InRange(vs[|vs| - 1]) then [vs[|vs| - 1]] else [];
      ConcatInRange(prev, last);
      prev + last
  }

  /** Each in-range value is kept as many times as it occurs, every other value never. */
  lemma {:induction false} KeepInRangeCount(vs: seq<int>, v: int)
    ensures multiset(KeepInRange(vs))[v] == if InRange(v) then multiset(vs)[v] else 0
    decreases |vs|
  {
    if vs != [] {
      var init := vs[..|vs| - 1];
      KeepInRangeCount(init, v);
      assert vs == init + [vs[|vs| - 1]];
    }
  }

  /** Filtering keeps the order: the kept values of a + b are those of a followed by those of b. */
  lemma {:induction false} KeepInRangeConcat(a: seq<int>, b: seq<int>)
    ensures KeepInRange(a + b) == KeepInRange(a) + KeepInRange(b)
    decreases |b|
  {
    if b == [] {
      assert a + b == a;
    } else {
      var init := b[..|b| - 1];
      KeepInRangeConcat(a, init);
      assert (a + b)[..|a + b| - 1] == a + init;
      assert (a + b)[|a + b| - 1] == b[|b| - 1];
    }
  }

  /** Exactly the in-range values survive. */
  lemma {:induction false} KeepInRangeMembers(vs: seq<int>, v: int)
    ensures v in KeepInRange(vs) <==> v in vs && InRange(v)
    decreases |vs|
  {
    if vs != [] {
      var init := vs[..|vs| - 1];
      KeepInRangeMembers(init, v);
      assert vs == init + [vs[|vs| - 1]];
      assert v in vs <==> v in init || v == vs[|vs| - 1];
    }
  }

  /** What one text contributes to l's list: its in-range percents, if it mentions l. */
  function TextHits(t: string, l: Label): (hits: seq<int>)
    ensures hits != [] ==> Mentions(t, l)
    ensures AllInRange(hits)
  {
    if Mentions(t, l) then KeepInRange(PercentValues(t)) else []
  }

  /**
   * A text that mentions l gives l every in-range percent it holds, as often
   * as it holds it; a text that does not mention l gives nothing.
   */
  lemma TextHitsMembers(t: string, l: Label, v: int)
    ensures v in TextHits(t, l) <==> Mentions(t, l) && InRange(v) && v in PercentValues(t)
    ensures multiset(TextHits(t, l))[v] == if Mentions(t, l) && InRange(v) then multiset(PercentValues(t))[v] else 0
  {
    KeepInRangeCount(PercentValues(t), v);
  }

  /** The three `if any(keyword in text_upper ...)` blocks of one text; they are independent. */
  function TextContribution(t: string): Candidates {
    Candidates(TextHits(t, Player), TextHits(t, Banker), TextHits(t, Tie))
  }

  /** Concatenation of what each text contributes to l's list, in text order. */
  function TextsHits(texts: seq<string>, l: Label): (hits: seq<int>)
    ensures AllInRange(hits)
    decreases |texts|
  {
    if texts == [] then []
    else
      var prev := TextsHits(texts[..|texts| - 1], l);
      var last := TextHits(texts[|texts| - 1], l);
      ConcatInRange(prev, last);
      prev + last
  }

  /** What the script texts add to the three lists. */
  function ScriptContribution(texts: seq<string>): Candidates {
    Candidates(TextsHits(texts, Player), TextsHits(texts, Banker), TextsHits(texts, Tie))
  }

  /** What each text contributes to l's list, text by text. */
  function PerText(texts: seq<string>, l: Label): (hs: seq<seq<int>>)
    ensures |hs| == |texts|
    ensures forall k :: 0 <= k < |texts| ==> hs[k] == TextHits(texts[k], l)
  {
    seq(|texts|, k requires 0 <= k < |texts| => TextHits(texts[k], l))
  }

  lemma {:induction false} TextsHitsFlatten(texts: seq<string>, l: Label)
    ensures TextsHits(texts, l) == Flatten(PerText(texts, l))
    decreases |texts|
  {
    if texts != [] {
      var n := |texts| - 1;
      var init := texts[..n];
      var hs := PerText(texts, l);
      SnocOf(hs, PerText(init, l), TextHits(texts[n], l));
      TextsHitsFlatten(init, l);
    }
  }

  /** Each text's values follow those of the texts before it. */
  lemma TextsHitsConcat(a: seq<string>, b: seq<string>, l: Label)
    ensures TextsHits(a + b, l) == TextsHits(a, l) + TextsHits(b, l)
  {
    var x, y, xy := PerText(a, l), PerText(b, l), PerText(a + b, l);
    ConcatOf(xy, x, y);
    FlattenConcat(x, y);
    TextsHitsFlatten(a, l);
    TextsHitsFlatten(b, l);
    TextsHitsFlatten(a + b, l);
  }

  /** A value is collected for l exactly when some text mentions l and offers it in range. */
  lemma TextsHitsMembers(texts: seq<string>, l: Label, v: int)
    ensures v in TextsHits(texts, l) <==> exists k :: 0 <= k < |texts| && v in TextHits(texts[k], l)
  {
    TextsHitsFlatten(texts, l);
    FlattenMembers(PerText(texts, l), v);
  }

  lemma TextsSnoc(texts: seq<string>, i: nat)
    requires i < |texts|
    ensures ScriptContribution(texts[..i + 1]) == ScriptContribution(texts[..i]).Plus(TextContribution(texts[i]))
  {
    assert texts[..i + 1][..i] == texts[..i];
  }

  /** `text = element.text.strip(); if not text or len(text) > 300: continue`. */
  function ElementText(e: string): (r: Option<string>)
    ensures r.Some? ==> r.value != [] && |r.value| <= MaxElementText && r.value == Strip(e)
    ensures r.None? <==> Strip(e) == [] || |Strip(e)| > MaxElementText
  {
    var t := Strip(e);
    if t == [] || |t| > MaxElementText then None else Some(t)
  }

  /** What one element contributes to l's list: nothing when blank or longer than 300 characters. */
  function ElementHits(e: string, l: Label): (hits: seq<int>)
    ensures AllInRange(hits)
  {
    match ElementText(e)
    case None => []
    case Some(t) => TextHits(t, l)
  }

  /** A kept element gives l what its stripped text gives; a blank or over-long one gives nothing. */
  lemma ElementHitsMembers(e: string, l: Label, v: int)
    ensures v in ElementHits(e, l) <==>
      ElementText(e).Some? && Mentions(Strip(e), l) && InRange(v) && v in PercentValues(Strip(e))
  {
    TextHitsMembers(Strip(e), l, v);
  }

  function ElementsHits(es: seq<string>, l: Label): (hits: seq<int>)
    ensures AllInRange(hits)
    decreases |es|
  {
    if es == [] then []
    else
      var prev := ElementsHits(es[..|es| - 1], l);
      var last := ElementHits(es[|es| - 1], l);
      ConcatInRange(prev, last);
      prev + last
  }

  /** What each element contributes to l's list, element by element. */
  function PerElement(es: seq<string>, l: Label): (hs: seq<seq<int>>)
    ensures |hs| == |es|
    ensures forall k :: 0 <= k < |es| ==> hs[k] == ElementHits(es[k], l)
  {
    seq(|es|, k requires 0 <= k < |es| => ElementHits(es[k], l))
  }

  lemma {:induction false} ElementsHitsFlatten(es: seq<string>, l: Label)
    ensures ElementsHits(es, l) == Flatten(PerElement(es, l))
    decreases |es|
  {
    if es != [] {
      var n := |es| - 1;
      var init := es[..n];
      var hs := PerElement(es, l);
      SnocOf(hs, PerElement(init, l), ElementHits(es[n], l));
      ElementsHitsFlatten(init, l);
    }
  }

  /** Each element's values follow those of the es before it. */
  lemma ElementsHitsConcat(a: seq<string>, b: seq<string>, l: Label)
    ensures ElementsHits(a + b, l) == ElementsHits(a, l) + ElementsHits(b, l)
  {
    var x, y, xy := PerElement(a, l), PerElement(b, l), PerElement(a + b, l);
    ConcatOf(xy, x, y);
    FlattenConcat(x, y);
    ElementsHitsFlatten(a, l);
    ElementsHitsFlatten(b, l);
    ElementsHitsFlatten(a + b, l);
  }

  /** A value is collected for l exactly when some kept element mentions l and offers it in range. */
  lemma ElementsHitsMembers(es: seq<string>, l: Label, v: int)
    ensures v in ElementsHits(es, l) <==> exists k :: 0 <= k < |es| && v in ElementHits(es[k], l)
  {
    ElementsHitsFlatten(es, l);
    FlattenMembers(PerElement(es, l), v);
  }

  function ElementContribution(e: string): Candidates {
    match ElementText(e)
    case None => NoCandidates
    case Some(t) => TextContribution(t)
  }

  lemma ElementsSnoc(es: seq<string>, i: nat)
    requires i < |es|
    ensures ElementsContribution(es[..i + 1]) == ElementsContribution(es[..i]).Plus(ElementContribution(es[i]))
  {
    assert es[..i + 1][..i] == es[..i];
  }

  /** What the page's elements add to the three lists. */
  function ElementsContribution(es: seq<string>): Candidates {
    Candidates(ElementsHits(es, Player), ElementsHits(es, Banker), ElementsHits(es, Tie))
  }

  /**
   * The six markup patterns per label are not modelled as regular expressions:
   * `found` holds the numbers they captured, per label, and only the in-range
   * ones are appended, player's first, then banker's, then tie's.
   */
  function AddPatternHits(c: Candidates, found: Candidates): (r: Candidates)
    ensures forall l :: r.Get(l) == c.Get(l) + KeepInRange(found.Get(l))
  {
    c.Extend(Player, KeepInRange(found.player))
     .Extend(Banker, KeepInRange(found.banker))
     .Extend(Tie, KeepInRange(found.tie))
  }

  /**
   * Whether the markup files the number `tok` under l: it is in 0..100, "tok%"
   * occurs in the markup, and the window around its first occurrence is
   * classified as l.
   */
  predicate FiledUnder(markup: string, tok: string, l: Label)
    requires AllDigits(tok)
  {
    var idx := Find(markup, tok + "%");
    InRange(DigitsValue(tok)) && 0 <= idx && WindowLabel(Window(markup, idx)) == Some(l)
  }

  /**
   * One `N%` of the markup: classified by the window around the FIRST
   * occurrence of "N%" in the markup, filed under at most one label
   * (player before banker before tie), and appended only if not yet present.
   */
  function MarkupStep(c: Candidates, markup: string, tok: string): (r: Candidates)
    requires tok != [] && AllDigits(tok)
    ensures r != c ==>
      var v := DigitsValue(tok);
      var idx := Find(markup, tok + "%");
      && InRange(v) && 0 <= idx
      && WindowLabel(Window(markup, idx)).Some?
      && v !in c.Get(WindowLabel(Window(markup, idx)).value)
      && r == c.Extend(WindowLabel(Window(markup, idx)).value, [v])
  {
    var v := DigitsValue(tok);
    if !InRange(v) then c
    else
      var idx := Find(markup, tok + "%");
      if idx < 0 then c
      else
        match WindowLabel(Window(markup, idx))
        case None => c
        case Some(l) => if v in c.Get(l) then c else c.Extend(l, [v])
  }

  /** A number filed under l is in l's list afterwards; a list it is not filed under is left alone. */
  lemma MarkupStepFiles(c: Candidates, markup: string, tok: string, l: Label)
    requires tok != [] && AllDigits(tok)
    ensures FiledUnder(markup, tok, l) ==> DigitsValue(tok) in MarkupStep(c, markup, tok).Get(l)
    ensures !FiledUnder(markup, tok, l) ==> MarkupStep(c, markup, tok).Get(l) == c.Get(l)
  {
  }

  function ScanMarkup(c: Candidates, markup: string, toks: seq<string>): Candidates
    requires DigitTokens(toks)
    decreases |toks|
  {
    if toks == [] then c
    else ScanMarkup(MarkupStep(c, markup, toks[0]), markup, toks[1..])
  }

  /** `after` is `before` followed by values in 0..100. */
  predicate ExtendsInRange(before: seq<int>, after: seq<int>) {
    && |before| <= |after|
    && after[..|before|] == before
    && forall i :: |before| <= i < |after| ==> InRange(after[i])
  }

  lemma ExtendsInRangeTrans(a: seq<int>, b: seq<int>, z: seq<int>)
    requires ExtendsInRange(a, b) && ExtendsInRange(b, z)
    ensures ExtendsInRange(a, z)
  {
    assert z[..|a|] == b[..|a|] by { assert z[..|b|] == b; }
    forall i | |a| <= i < |z| ensures InRange(z[i]) {
      if i < |b| {
        assert z[i] == z[..|b|][i];
      }
    }
  }

  lemma AppendedInRange(a: seq<int>, x: seq<int>)
    requires AllInRange(x)
    ensures ExtendsInRange(a, a + x)
  {
    assert (a + x)[..|a|] == a;
    forall i | |a| <= i < |a + x| ensures InRange((a + x)[i]) {
      assert (a + x)[i] == x[i - |a|];
    }
  }

  /** Every value added is in 0..100 and was not yet in the list. */
  predicate AddsOnlyFresh(before: seq<int>, after: seq<int>) {
    && ExtendsInRange(before, after)
    && forall i :: |before| <= i < |after| ==> after[i] !in after[..i]
  }

  /** Adding only fresh in-range values twice adds only fresh in-range values. */
  lemma AddsOnlyFreshTrans(a: seq<int>, b: seq<int>, z: seq<int>)
    requires AddsOnlyFresh(a, b) && AddsOnlyFresh(b, z)
    ensures AddsOnlyFresh(a, z)
  {
    ExtendsInRangeTrans(a, b, z);
    forall i | |a| <= i < |z| ensures z[i] !in z[..i] {
      if i < |b| {
        assert z[..|b|] == b;
        assert z[..i] == b[..i];
        assert z[i] == b[i];
      }
    }
  }

  lemma {:induction false} ScanMarkupAddsOnlyFresh(c: Candidates, markup: string, toks: seq<string>, l: Label)
    requires DigitTokens(toks)
    ensures AddsOnlyFresh(c.Get(l), ScanMarkup(c, markup, toks).Get(l))
    decreases |toks|
  {
    if toks != [] {
      var c1 := MarkupStep(c, markup, toks[0]);
      var a, b := c.Get(l), c1.Get(l);
      assert AddsOnlyFresh(a, b);
      ScanMarkupAddsOnlyFresh(c1, markup, toks[1..], l);
      AddsOnlyFreshTrans(a, b, ScanMarkup(c1, markup, toks[1..]).Get(l));
    }
  }


  /**
   * The markup pass files a value under l exactly when it was already there
   * or some token of the markup with that value is filed under l.
   */
  lemma {:induction false} ScanMarkupMembers(c: Candidates, markup: string, toks: seq<string>, l: Label, v: int)
    requires DigitTokens(toks)
    ensures v in ScanMarkup(c, markup, toks).Get(l) <==>
      v in c.Get(l) || exists k :: 0 <= k < |toks| && FiledUnder(markup, toks[k], l) && DigitsValue(toks[k]) == v
    decreases |toks|
  {
    if toks != [] {
      var c1 := MarkupStep(c, markup, toks[0]);
      var rest := toks[1..];
      ScanMarkupMembers(c1, markup, rest, l, v);
      MarkupStepFiles(c, markup, toks[0], l);
      var here := FiledUnder(markup, toks[0], l) && DigitsValue(toks[0]) == v;
      assert v in c1.Get(l) <==> v in c.Get(l) || here;
      if exists k :: 0 <= k < |rest| && FiledUnder(markup, rest[k], l) && DigitsValue(rest[k]) == v {
        var k :| 0 <= k < |rest| && FiledUnder(markup, rest[k], l) && DigitsValue(rest[k]) == v;
        assert toks[k + 1] == rest[k];
      }
      if exists k :: 0 <= k < |toks| && FiledUnder(markup, toks[k], l) && DigitsValue(toks[k]) == v {
        var k :| 0 <= k < |toks| && FiledUnder(markup, toks[k], l) && DigitsValue(toks[k]) == v;
        if k > 0 {
          assert rest[k - 1] == toks[k];
        }
      }
    }
  }

  /** The lists after the script texts and then the element texts. */
  function PageCandidates(seed: Candidates, scriptTexts: seq<string>, elements: seq<string>): Candidates {
    seed.Plus(ScriptContribution(scriptTexts)).Plus(ElementsContribution(elements))
  }

  /** The lists after the markup patterns and then the markup context windows. */
  function MarkupCandidates(c: Candidates, markup: string, found: Candidates): Candidates {
    ScanMarkup(AddPatternHits(c, found), markup, PercentTokens(markup))
  }

  /**
   * All the candidate lists one context yields: script texts, then element
   * texts, then (when the markup is not empty) the markup patterns and the
   * markup context windows.
   */
  function Collect(seed: Candidates, scriptTexts: seq<string>, elements: seq<string>,
                   markup: string, found: Candidates): Candidates
  {
    var c := PageCandidates(seed, scriptTexts, elements);
    if markup == [] then c else MarkupCandidates(c, markup, found)
  }

  lemma PageInRange(seed: Candidates, scriptTexts: seq<string>, elements: seq<string>, l: Label)
    ensures ExtendsInRange(seed.Get(l), PageCandidates(seed, scriptTexts, elements).Get(l))
  {
    var a, b := TextsHits(scriptTexts, l), ElementsHits(elements, l);
    var mid := seed.Plus(ScriptContribution(scriptTexts));
    assert ScriptContribution(scriptTexts).Get(l) == a by { match l case _ => }
    assert ElementsContribution(elements).Get(l) == b by { match l case _ => }
    assert mid.Get(l) == seed.Get(l) + a;
    assert PageCandidates(seed, scriptTexts, elements).Get(l) == mid.Get(l) + b;
    ConcatAssoc(seed.Get(l), a, b);
    ConcatInRange(a, b);
    AppendedInRange(seed.Get(l), a + b);
  }

  lemma MarkupInRange(c: Candidates, markup: string, found: Candidates, l: Label)
    ensures ExtendsInRange(c.Get(l), MarkupCandidates(c, markup, found).Get(l))
  {
    var c1 := AddPatternHits(c, found);
    AppendedInRange(c.Get(l), KeepInRange(found.Get(l)));
    ScanMarkupAddsOnlyFresh(c1, markup, PercentTokens(markup), l);
    ExtendsInRangeTrans(c.Get(l), c1.Get(l), MarkupCandidates(c, markup, found).Get(l));
  }

  /** The collectors only append, and whatever the page contributes to a list lies in 0..100. */
  lemma CollectedInRange(seed: Candidates, scriptTexts: seq<string>, elements: seq<string>,
                         markup: string, found: Candidates, l: Label)
    ensures ExtendsInRange(seed.Get(l), Collect(seed, scriptTexts, elements, markup, found).Get(l))
  {
    var c := PageCandidates(seed, scriptTexts, elements);
    PageInRange(seed, scriptTexts, elements, l);
    if markup != [] {
      MarkupInRange(c, markup, found, l);
      ExtendsInRangeTrans(seed.Get(l), c.Get(l), MarkupCandidates(c, markup, found).Get(l));
    }
  }

  // ---------------------------------------------------------------- the collectors, in place

  /** `for match in matches: if 0 <= val <= 100: lst.append(val)` */
  method AppendInRange(c: CandidateLists, l: Label, vs: seq<int>)
    modifies c
    ensures c.Snapshot() == old(c.Snapshot()).Extend(l, KeepInRange(vs))
  {
    var i := 0;
    while i < |vs|
      invariant 0 <= i <= |vs|
      invariant c.Snapshot() == old(c.Snapshot()).Extend(l, KeepInRange(vs[..i]))
    {
      assert vs[..i + 1][..i] == vs[..i];
      ExtendTwice(old(c.Snapshot()), l, KeepInRange(vs[..i]), [vs[i]]);
      if InRange(vs[i]) {
        c.Append(l, vs[i]);
      }
      i := i + 1;
    }
    assert vs[..i] == vs;
  }

  /** The three label blocks of one text. */
  method CollectText(c: CandidateLists, t: string)
    modifies c
    ensures c.Snapshot() == old(c.Snapshot()).Plus(TextContribution(t))
  {
    var values := PercentValues(t);
    if Mentions(t, Player) {
      AppendInRange(c, Player, values);
    }
    if Mentions(t, Banker) {
      AppendInRange(c, Banker, values);
    }
    if Mentions(t, Tie) {
      AppendInRange(c, Tie, values);
    }
  }

  /** The loop over the texts the in-page script returned. */
  method CollectScriptTexts(c: CandidateLists, texts: seq<string>)
    modifies c
    ensures c.Snapshot() == old(c.Snapshot()).Plus(ScriptContribution(texts))
  {
    var i := 0;
    while i < |texts|
      invariant 0 <= i <= |texts|
      invariant c.Snapshot() == old(c.Snapshot()).Plus(ScriptContribution(texts[..i]))
    {
      TextsSnoc(texts, i);
      PlusAssoc(old(c.Snapshot()), ScriptContribution(texts[..i]), TextContribution(texts[i]));
      CollectText(c, texts[i]);
      i := i + 1;
    }
    assert texts[..i] == texts;
  }

  /** One element: its stripped text, unless blank or longer than 300 characters. */
  method CollectElement(c: CandidateLists, e: string)
    modifies c
    ensures c.Snapshot() == old(c.Snapshot()).Plus(ElementContribution(e))
  {
    var text := Strip(e);
    if text != [] && |text| <= MaxElementText {
      CollectText(c, text);
    }
  }

  /** The loop over every element's visible text. */
  method CollectElements(c: CandidateLists, elements: seq<string>)
    modifies c
    ensures c.Snapshot() == old(c.Snapshot()).Plus(ElementsContribution(elements))
  {
    var i := 0;
    while i < |elements|
      invariant 0 <= i <= |elements|
      invariant c.Snapshot() == old(c.Snapshot()).Plus(ElementsContribution(elements[..i]))
    {
      ElementsSnoc(elements, i);
      PlusAssoc(old(c.Snapshot()), ElementsContribution(elements[..i]), ElementContribution(elements[i]));
      CollectElement(c, elements[i]);
      i := i + 1;
    }
    assert elements[..i] == elements;
  }

  /** The markup-pattern loops, player's patterns first, then banker's, then tie's. */
  method CollectPatternHits(c: CandidateLists, found: Candidates)
    modifies c
    ensures c.Snapshot() == AddPatternHits(old(c.Snapshot()), found)
  {
    AppendInRange(c, Player, found.player);
    AppendInRange(c, Banker, found.banker);
    AppendInRange(c, Tie, found.tie);
  }

  /** The loop over every percentage of the markup, classified by its context window. */
  method CollectMarkupWindows(c: CandidateLists, markup: string)
    modifies c
    ensures c.Snapshot() == ScanMarkup(old(c.Snapshot()), markup, PercentTokens(markup))
  {
    var toks := PercentTokens(markup);
    var i := 0;
    while i < |toks|
      invariant 0 <= i <= |toks|
      invariant ScanMarkup(c.Snapshot(), markup, toks[i..]) == ScanMarkup(old(c.Snapshot()), markup, toks)
    {
      assert toks[i..][1..] == toks[i + 1..];
      var v := DigitsValue(toks[i]);
      if InRange(v) {
        var idx := Find(markup, toks[i] + "%");
        if idx >= 0 {
          var filed := WindowLabel(Window(markup, idx));
          if filed.Some? {
            c.AppendIfAbsent(filed.value, v);
          }
        }
      }
      i := i + 1;
    }
  }
}
