/**
 * The text half of the screenshot reader: from the recognised text of a
 * screenshot to the statistics. A keyword pass keeps, per label, the
 * largest in-range percentage seen on a line naming the label or in the
 * window around a percentage; two heuristics then look for a triple of
 * percentages summing to about 100, read left to right as player, tie,
 * banker; only a complete triple of readings is emitted.
 */
module Transcript {
  import opened Text
  import opened Domain
  import opened Collectors

  // ---------------------------------------------------------------- running maximum

  /** `if x is None or val > x: x = val` */
  function Raise(o: Option<int>, v: int): (r: Option<int>)
    ensures r.Some? && r.value >= v
    ensures o.Some? ==> r.value >= o.value
    ensures r == o || r == Some(v)
  {
    if o.None? || v > o.value then Some(v) else o
  }

  /** The largest element of s, if any. */
  function MaxOf(s: seq<int>): (r: Option<int>)
    ensures r.None? <==> s == []
    ensures r.Some? ==> r.value in s && forall i :: 0 <= i < |s| ==> s[i] <= r.value
    decreases |s|
  {
    if s == [] then None
    else
      var prev := MaxOf(s[..|s| - 1]);
      assert s == s[..|s| - 1] + [s[|s| - 1]];
      Raise(prev, s[|s| - 1])
  }

  /** The running maximum o after seeing the values vs, in order. */
  function RaiseAll(o: Option<int>, vs: seq<int>): Option<int>
    decreases |vs|
  {
    if vs == [] then o else Raise(RaiseAll(o, vs[..|vs| - 1]), vs[|vs| - 1])
  }

  lemma RaiseAllSnoc(o: Option<int>, xs: seq<int>, v: int)
    ensures RaiseAll(o, xs + [v]) == Raise(RaiseAll(o, xs), v)
  {
    assert (xs + [v])[..|xs|] == xs;
  }

  /** Running on through a then b is running through a + b. */
  lemma {:induction false} RaiseAllConcat(o: Option<int>, a: seq<int>, b: seq<int>)
    ensures RaiseAll(o, a + b) == RaiseAll(RaiseAll(o, a), b)
    decreases |b|
  {
    if b != [] {
      var init, last := b[..|b| - 1], b[|b| - 1];
      RaiseAllConcat(o, a, init);
      assert a + b == (a + init) + [last];
      RaiseAllSnoc(o, a + init, last);
    } else {
      assert a + b == a;
    }
  }

  lemma RaiseAllSingle(o: Option<int>, v: int)
    ensures RaiseAll(o, [v]) == Raise(o, v)
  {
    assert [v][..0] == [];
  }

  /** A running maximum started empty is the maximum of what it saw. */
  lemma {:induction false} RaiseAllIsMax(vs: seq<int>)
    ensures RaiseAll(None, vs) == MaxOf(vs)
    decreases |vs|
  {
    if vs != [] {
      RaiseAllIsMax(vs[..|vs| - 1]);
    }
  }

  lemma KeepInRangeSnoc(vs: seq<int>, i: nat)
    requires i < |vs|
    ensures KeepInRange(vs[..i + 1]) == KeepInRange(vs[..i]) + if InRange(vs[i]) then [vs[i]] else []
  {
    assert vs[..i + 1][..i] == vs[..i];
  }

  /** The inner `for pct in percentages_in_line` loop for one label. */
  method RaiseInRange(o: Option<int>, vs: seq<int>) returns (r: Option<int>)
    ensures r == RaiseAll(o, KeepInRange(vs))
  {
    r := o;
    var i := 0;
    while i < |vs|
      invariant 0 <= i <= |vs|
      invariant r == RaiseAll(o, KeepInRange(vs[..i]))
    {
      KeepInRangeSnoc(vs, i);
      if InRange(vs[i]) {
        RaiseAllSnoc(o, KeepInRange(vs[..i]), vs[i]);
        r := Raise(r, vs[i]);
      } else {
        assert KeepInRange(vs[..i + 1]) == KeepInRange(vs[..i]);
      }
      i := i + 1;
    }
    assert vs[..i] == vs;
  }

  // ---------------------------------------------------------------- the keyword pass

  /** `ocr_text.split('\n') if ocr_text else []` */
  function Lines(ocr: string): (lines: seq<string>)
    ensures ocr != [] ==> Join(lines, '\n') == ocr
    ensures forall k :: 0 <= k < |lines| ==> '\n' !in lines[k]
  {
    if ocr == [] then [] else JoinSplit(ocr, '\n'); Split(ocr, '\n')
  }

  /** What one percentage of the text gives l: its value, if its window is filed under l. */
  function WindowHit(ocr: string, tok: string, l: Label): (hits: seq<int>)
    requires tok != [] && AllDigits(tok)
    ensures AllInRange(hits) && |hits| <= 1
  {
    var v := DigitsValue(tok);
    if !InRange(v) then []
    else
      var idx := Find(ocr, tok + "%");
      if idx < 0 then []
      else if WindowLabel(Window(ocr, idx)) == Some(l) then [v]
      else []
  }

  /** Concatenation of the window hits of the tokens for l, in text order. */
  function WindowHits(ocr: string, toks: seq<string>, l: Label): (hits: seq<int>)
    requires DigitTokens(toks)
    ensures AllInRange(hits)
    decreases |toks|
  {
    if toks == [] then []
    else
      var prev := WindowHits(ocr, toks[..|toks| - 1], l);
      var last := WindowHit(ocr, toks[|toks| - 1], l);
      ConcatInRange(prev, last);
      prev + last
  }

  /** Every value the keyword pass considers for l: line hits, then window hits. */
  function KeywordValues(ocr: string, l: Label): (vs: seq<int>)
    ensures AllInRange(vs)
  {
    var a := TextsHits(Lines(ocr), l);
    var b := WindowHits(ocr, PercentTokens(ocr), l);
    ConcatInRange(a, b);
    a + b
  }

  /** The readings after the keyword pass: the largest value found for each label. */
  function KeywordPass(ocr: string): Readings {
    Readings(MaxOf(KeywordValues(ocr, Player)), MaxOf(KeywordValues(ocr, Banker)), MaxOf(KeywordValues(ocr, Tie)))
  }

  /**
   * After the keyword pass a label has a value exactly when some line naming
   * it or some window filed under it shows an in-range percentage, and the
   * value is the largest of those.
   */
  lemma KeywordPassIsLargestSeen(ocr: string, l: Label)
    ensures KeywordPass(ocr).Get(l).None? <==> KeywordValues(ocr, l) == []
    ensures KeywordPass(ocr).Get(l).Some? ==>
      var v := KeywordPass(ocr).Get(l).value;
      && InRange(v) && v in KeywordValues(ocr, l)
      && forall i :: 0 <= i < |KeywordValues(ocr, l)| ==> KeywordValues(ocr, l)[i] <= v
  {
    var vs := KeywordValues(ocr, l);
    assert KeywordPass(ocr).Get(l) == MaxOf(vs);
    if vs != [] {
      var i :| 0 <= i < |vs| && vs[i] == MaxOf(vs).value;
    }
  }

  /** The three running maxima after each has seen its own values. */
  function AfterHits(r: Readings, player: seq<int>, banker: seq<int>, tie: seq<int>): Readings {
    Readings(RaiseAll(r.player, player), RaiseAll(r.banker, banker), RaiseAll(r.tie, tie))
  }

  lemma AfterHitsConcat(r: Readings, p: seq<int>, b: seq<int>, t: seq<int>, p': seq<int>, b': seq<int>, t': seq<int>)
    ensures AfterHits(r, p + p', b + b', t + t') == AfterHits(AfterHits(r, p, b, t), p', b', t')
  {
    RaiseAllConcat(r.player, p, p');
    RaiseAllConcat(r.banker, b, b');
    RaiseAllConcat(r.tie, t, t');
  }

  /** The keyword pass is the three running maxima, started empty, over all its values. */
  lemma KeywordPassAsRunningMax(ocr: string)
    ensures KeywordPass(ocr) == AfterHits(NoReadings, KeywordValues(ocr, Player), KeywordValues(ocr, Banker), KeywordValues(ocr, Tie))
  {
    RaiseAllIsMax(KeywordValues(ocr, Player));
    RaiseAllIsMax(KeywordValues(ocr, Banker));
    RaiseAllIsMax(KeywordValues(ocr, Tie));
  }

  /** The three label blocks of one line; they are independent. */
  method ScanLine(r: Readings, line: string) returns (out: Readings)
    ensures out == AfterHits(r, TextHits(line, Player), TextHits(line, Banker), TextHits(line, Tie))
  {
    out := r;
    var values := PercentValues(line);
    if Mentions(line, Player) {
      var m := RaiseInRange(out.player, values);
      out := out.(player := m);
    }
    if Mentions(line, Banker) {
      var m := RaiseInRange(out.banker, values);
      out := out.(banker := m);
    }
    if Mentions(line, Tie) {
      var m := RaiseInRange(out.tie, values);
      out := out.(tie := m);
    }
  }

  lemma LinesSnoc(lines: seq<string>, i: nat, l: Label)
    requires i < |lines|
    ensures TextsHits(lines[..i + 1], l) == TextsHits(lines[..i], l) + TextHits(lines[i], l)
  {
    assert lines[..i + 1][..i] == lines[..i];
  }

  /** The loop over the lines. */
  method ScanLines(lines: seq<string>) returns (r: Readings)
    ensures r == AfterHits(NoReadings, TextsHits(lines, Player), TextsHits(lines, Banker), TextsHits(lines, Tie))
  {
    r := NoReadings;
    var i := 0;
    while i < |lines|
      invariant 0 <= i <= |lines|
      invariant r == AfterHits(NoReadings, TextsHits(lines[..i], Player), TextsHits(lines[..i], Banker), TextsHits(lines[..i], Tie))
    {
      LinesSnoc(lines, i, Player);
      LinesSnoc(lines, i, Banker);
      LinesSnoc(lines, i, Tie);
      AfterHitsConcat(NoReadings, TextsHits(lines[..i], Player), TextsHits(lines[..i], Banker), TextsHits(lines[..i], Tie),
                      TextHits(lines[i], Player), TextHits(lines[i], Banker), TextHits(lines[i], Tie));
      r := ScanLine(r, lines[i]);
      i := i + 1;
    }
    assert lines[..i] == lines;
  }

  lemma WindowsSnoc(ocr: string, toks: seq<string>, i: nat, l: Label)
    requires DigitTokens(toks) && i < |toks|
    ensures WindowHits(ocr, toks[..i + 1], l) == WindowHits(ocr, toks[..i], l) + WindowHit(ocr, toks[i], l)
  {
    assert toks[..i + 1][..i] == toks[..i];
  }

  /** The running maxima over one more percentage continue those over the ones before it. */
  lemma WindowsStep(r0: Readings, ocr: string, toks: seq<string>, i: nat)
    requires DigitTokens(toks) && i < |toks|
    ensures AfterHits(r0, WindowHits(ocr, toks[..i + 1], Player), WindowHits(ocr, toks[..i + 1], Banker), WindowHits(ocr, toks[..i + 1], Tie))
         == AfterHits(AfterHits(r0, WindowHits(ocr, toks[..i], Player), WindowHits(ocr, toks[..i], Banker), WindowHits(ocr, toks[..i], Tie)),
                      WindowHit(ocr, toks[i], Player), WindowHit(ocr, toks[i], Banker), WindowHit(ocr, toks[i], Tie))
  {
    WindowsSnoc(ocr, toks, i, Player);
    WindowsSnoc(ocr, toks, i, Banker);
    WindowsSnoc(ocr, toks, i, Tie);
    AfterHitsConcat(r0, WindowHits(ocr, toks[..i], Player), WindowHits(ocr, toks[..i], Banker), WindowHits(ocr, toks[..i], Tie),
                    WindowHit(ocr, toks[i], Player), WindowHit(ocr, toks[i], Banker), WindowHit(ocr, toks[i], Tie));
  }

  /** One percentage of the text, filed under at most one label by its window (if/elif). */
  method ScanWindow(r: Readings, ocr: string, tok: string) returns (out: Readings)
    requires tok != [] && AllDigits(tok)
    ensures out == AfterHits(r, WindowHit(ocr, tok, Player), WindowHit(ocr, tok, Banker), WindowHit(ocr, tok, Tie))
  {
    out := r;
    var v := DigitsValue(tok);
    if InRange(v) {
      var idx := Find(ocr, tok + "%");
      if idx >= 0 {
        var filed := WindowLabel(Window(ocr, idx));
        RaiseAllSingle(r.player, v);
        RaiseAllSingle(r.banker, v);
        RaiseAllSingle(r.tie, v);
        match filed
        case Some(Player) => out := out.(player := Raise(out.player, v));
        case Some(Banker) => out := out.(banker := Raise(out.banker, v));
        case Some(Tie) => out := out.(tie := Raise(out.tie, v));
        case None =>
      }
    }
  }

  /** The loop over every percentage of the text, after the lines. */
  method ScanWindows(r0: Readings, ocr: string) returns (r: Readings)
    ensures var toks := PercentTokens(ocr);
      r == AfterHits(r0, WindowHits(ocr, toks, Player), WindowHits(ocr, toks, Banker), WindowHits(ocr, toks, Tie))
  {
    var toks := PercentTokens(ocr);
    r := r0;
    var i := 0;
    while i < |toks|
      invariant 0 <= i <= |toks|
      invariant r == AfterHits(r0, WindowHits(ocr, toks[..i], Player), WindowHits(ocr, toks[..i], Banker), WindowHits(ocr, toks[..i], Tie))
    {
      WindowsStep(r0, ocr, toks, i);
      r := ScanWindow(r, ocr, toks[i]);
      i := i + 1;
    }
    assert toks[..i] == toks;
  }

  /** Both loops of the keyword pass. */
  method RunKeywordPass(ocr: string, lines: seq<string>) returns (r: Readings)
    requires lines == Lines(ocr)
    ensures r == KeywordPass(ocr)
  {
    r := ScanLines(lines);
    r := ScanWindows(r, ocr);
    var toks := PercentTokens(ocr);
    AfterHitsConcat(NoReadings, TextsHits(lines, Player), TextsHits(lines, Banker), TextsHits(lines, Tie),
                    WindowHits(ocr, toks, Player), WindowHits(ocr, toks, Banker), WindowHits(ocr, toks, Tie));
    KeywordPassAsRunningMax(ocr);
  }

  // ---------------------------------------------------------------- heuristic 1: an inline triple

  /** Percentages read left to right as player, tie, banker, as the table shows them. */
  datatype Triple = Triple(player: int, tie: int, banker: int)

  predicate NearHundred(sum: int) {
    90 <= sum <= 110
  }

  /**
   * What a line offers heuristic 1: its first three percentages, when it has
   * at least three, they sum to 90..110, and either the line names all three
   * labels or none of the three exceeds 100.
   */
  function LineTriple(line: string): (r: Option<Triple>)
    ensures r.Some? ==> |PercentValues(line)| >= 3
    ensures r.Some? ==> var t := r.value; NearHundred(t.player + t.tie + t.banker)
    ensures r.Some? ==> var nums := PercentValues(line); r.value == Triple(nums[0], nums[1], nums[2])
    ensures var nums := PercentValues(line);
      r.Some? <==>
        && |nums| >= 3 && NearHundred(nums[0] + nums[1] + nums[2])
        && ((Mentions(line, Player) && Mentions(line, Tie) && Mentions(line, Banker))
            || (nums[0] <= 100 && nums[1] <= 100 && nums[2] <= 100))
  {
    var nums := PercentValues(line);
    if |nums| < 3 || !NearHundred(nums[0] + nums[1] + nums[2]) then None
    else if Mentions(line, Player) && Mentions(line, Tie) && Mentions(line, Banker) then Some(Triple(nums[0], nums[1], nums[2]))
    else if nums[0] <= 100 && nums[1] <= 100 && nums[2] <= 100 then Some(Triple(nums[0], nums[1], nums[2]))
    else None
  }

  function LineTriples(lines: seq<string>): (ts: seq<Option<Triple>>)
    ensures |ts| == |lines|
    ensures forall k :: 0 <= k < |lines| ==> ts[k] == LineTriple(lines[k])
  {
    seq(|lines|, k requires 0 <= k < |lines| => LineTriple(lines[k]))
  }

  /** Heuristic 1, run only when a label is missing: the first qualifying line overwrites all three. */
  function InlineTriple(r: Readings, lines: seq<string>): Readings {
    if r.Complete() then r
    else
      match FirstSome(LineTriples(lines))
      case None => r
      case Some(t) => Readings(Some(t.player), Some(t.banker), Some(t.tie))
  }

  /** The test heuristic 1 applies to one line. */
  method CheckLine(line: string) returns (t: Option<Triple>)
    ensures t == LineTriple(line)
  {
    t := None;
    var nums := PercentValues(line);
    if |nums| >= 3 {
      var total := nums[0] + nums[1] + nums[2];
      if 90 <= total <= 110 {
        if Mentions(line, Player) && Mentions(line, Tie) && Mentions(line, Banker) {
          t := Some(Triple(nums[0], nums[1], nums[2]));
        } else if 0 <= nums[0] <= 100 && 0 <= nums[1] <= 100 && 0 <= nums[2] <= 100 {
          t := Some(Triple(nums[0], nums[1], nums[2]));
        }
      }
    }
  }

  /** The loop over the lines with its `break` at the first qualifying one. */
  method FindInlineTriple(lines: seq<string>) returns (found: Option<Triple>)
    ensures found == FirstSome(LineTriples(lines))
  {
    found := None;
    var i := 0;
    while i < |lines| && found.None?
      invariant 0 <= i <= |lines|
      invariant found.None? ==> forall j :: 0 <= j < i ==> LineTriple(lines[j]).None?
      invariant found.Some? ==> 0 < i && found == LineTriple(lines[i - 1])
                                && forall j :: 0 <= j < i - 1 ==> LineTriple(lines[j]).None?
    {
      found := CheckLine(lines[i]);
      i := i + 1;
    }
    var ts := LineTriples(lines);
    if found.Some? {
      FirstSomeAt(ts, i - 1);
    } else {
      FirstSomeOfNones(ts);
    }
  }

  // ---------------------------------------------------------------- heuristic 2: the best window of three

  /** `-abs(triplet[1] - min(triplet))`: windows whose middle value is the smallest score best. */
  function Score(a: int, b: int, c: int): (s: int)
    ensures s <= 0
    ensures s == 0 <==> b <= a && b <= c
  {
    var m := if a <= b && a <= c then a else if b <= c then b else c;
    if b >= m then m - b else b - m
  }

  predicate Plausible(nums: seq<int>, i: nat) {
    i + 2 < |nums| && NearHundred(nums[i] + nums[i + 1] + nums[i + 2])
  }

  function ScoreAt(nums: seq<int>, i: nat): int
    requires i + 2 < |nums|
  {
    Score(nums[i], nums[i + 1], nums[i + 2])
  }

  /**
   * The best plausible window starting before n: highest score, and the
   * earliest among equal scores (`score > best[0]` replaces only on a strict gain).
   */
  function BestBefore(nums: seq<int>, n: nat): (b: Option<nat>)
    ensures b.None? <==> forall j :: 0 <= j < n ==> !Plausible(nums, j)
    ensures b.Some? ==> b.value < n && Plausible(nums, b.value)
    ensures b.Some? ==> forall j :: 0 <= j < n && Plausible(nums, j) ==> ScoreAt(nums, j) <= ScoreAt(nums, b.value)
    ensures b.Some? ==> forall j :: 0 <= j < b.value && Plausible(nums, j) ==> ScoreAt(nums, j) < ScoreAt(nums, b.value)
    decreases n
  {
    if n == 0 then None
    else
      var prev := BestBefore(nums, n - 1);
      if Plausible(nums, n - 1) && (prev.None? || ScoreAt(nums, n - 1) > ScoreAt(nums, prev.value)) then Some(n - 1)
      else prev
  }

  /** The windows `range(len(nums) - 2)` of the in-range percentages. */
  function BestWindow(nums: seq<int>): Option<nat> {
    if |nums| < 3 then None else BestBefore(nums, |nums| - 2)
  }

  /** Heuristic 2 fills only the labels still missing, from the best window. */
  function BestTriple(r: Readings, ocr: string): Readings {
    if r.Complete() || |PercentTokens(ocr)| < 3 then r
    else
      var nums := KeepInRange(PercentValues(ocr));
      match BestWindow(nums)
      case None => r
      case Some(i) =>
        Readings(if r.player.Some? then r.player else Some(nums[i]),
                 if r.banker.Some? then r.banker else Some(nums[i + 2]),
                 if r.tie.Some? then r.tie else Some(nums[i + 1]))
  }

  /** One more window: it becomes the best when plausible and strictly better. */
  lemma BestBeforeNext(nums: seq<int>, i: nat)
    requires i + 2 < |nums|
    ensures var prev := BestBefore(nums, i);
      BestBefore(nums, i + 1) ==
        if 90 <= nums[i] + nums[i + 1] + nums[i + 2] <= 110
           && (prev.None? || Score(nums[i], nums[i + 1], nums[i + 2]) > ScoreAt(nums, prev.value))
        then Some(i) else prev
  {
  }

  /** The sliding-window loop. */
  method FindBestWindow(nums: seq<int>) returns (best: Option<nat>)
    ensures best == BestWindow(nums)
  {
    best := None;
    if |nums| >= 3 {
      var i := 0;
      while i < |nums| - 2
        invariant 0 <= i <= |nums| - 2
        invariant best == BestBefore(nums, i)
      {
        BestBeforeNext(nums, i);
        var total := nums[i] + nums[i + 1] + nums[i + 2];
        if 90 <= total <= 110 {
          var score := Score(nums[i], nums[i + 1], nums[i + 2]);
          if best.None? || score > ScoreAt(nums, best.value) {
            best := Some(i);
          }
        }
        i := i + 1;
      }
    }
  }

  // ---------------------------------------------------------------- the whole reader

  /** The readings after the keyword pass and both heuristics. */
  function TranscriptReadings(ocr: string): Readings {
    BestTriple(InlineTriple(KeywordPass(ocr), Lines(ocr)), ocr)
  }

  /** Statistics only when all three labels have a value; marked as read from the screenshot. */
  function TranscriptStats(ocr: Option<string>, now: real): (s: Option<Stats>)
    ensures ocr.None? ==> s.None?
    ensures ocr.Some? ==> (s.Some? <==> TranscriptReadings(ocr.value).Complete())
    ensures s.Some? ==>
      var r := TranscriptReadings(ocr.value);
      && s.value.player == r.player.value as real
      && s.value.banker == r.banker.value as real
      && s.value.tie == r.tie.value as real
      && s.value.playerWinning == (r.player.value > 50)
      && s.value.timestamp == now && s.value.viaOcr
  {
    match ocr
    case None => None
    case Some(text) =>
      var r := TranscriptReadings(text);
      if r.Complete() then
        Some(Stats(r.player.value as real, r.banker.value as real, r.tie.value as real, r.player.value > 50, now, true))
      else None
  }

  /** Heuristic 1 as the source runs it: only with a label missing. */
  method ApplyInlineTriple(r: Readings, lines: seq<string>) returns (out: Readings)
    ensures out == InlineTriple(r, lines)
  {
    out := r;
    if r.player.None? || r.banker.None? || r.tie.None? {
      var t := FindInlineTriple(lines);
      if t.Some? {
        out := Readings(Some(t.value.player), Some(t.value.banker), Some(t.value.tie));
      }
    }
  }

  /** Heuristic 2 as the source runs it: only with a label missing and three percentages in the text. */
  method ApplyBestTriple(r: Readings, ocr: string) returns (out: Readings)
    ensures out == BestTriple(r, ocr)
  {
    out := r;
    var toks := PercentTokens(ocr);
    if (r.player.None? || r.banker.None? || r.tie.None?) && |toks| >= 3 {
      var nums := KeepInRange(PercentValues(ocr));
      var best := FindBestWindow(nums);
      if best.Some? {
        var i := best.value;
        out := Readings(if r.player.Some? then r.player else Some(nums[i]),
                        if r.banker.Some? then r.banker else Some(nums[i + 2]),
                        if r.tie.Some? then r.tie else Some(nums[i + 1]));
      }
    }
  }

  /** The parsing half of `_extract_stats_from_screenshot`, from the recognised text on. */
  method ParseTranscript(ocr: Option<string>, now: real) returns (s: Option<Stats>)
    ensures s == TranscriptStats(ocr, now)
  {
    if ocr.None? {
      return None;
    }
    var text := ocr.value;
    var lines := if text != [] then Split(text, '\n') else [];
    var r := RunKeywordPass(text, lines);
    r := ApplyInlineTriple(r, lines);
    r := ApplyBestTriple(r, text);
    assert r == TranscriptReadings(text);
    if r.player.Some? && r.banker.Some? && r.tie.Some? {
      s := Some(Stats(r.player.value as real, r.banker.value as real, r.tie.value as real, r.player.value > 50, now, true));
    } else {
      s := None;
    }
  }

  // ---------------------------------------------------------------- properties

  /** Heuristic 1 replaces every reading, even one the keyword pass had found. */
  lemma InlineTripleOverwrites(r: Readings, lines: seq<string>, k: nat)
    requires !r.Complete()
    requires k < |lines| && LineTriple(lines[k]).Some?
    requires forall j :: 0 <= j < k ==> LineTriple(lines[j]).None?
    ensures var t := LineTriple(lines[k]).value;
      InlineTriple(r, lines) == Readings(Some(t.player), Some(t.banker), Some(t.tie))
  {
    FirstSomeAt(LineTriples(lines), k);
  }

  /** A line naming all three labels is taken without checking the range of its numbers. */
  lemma LabelledLineIsNotRangeChecked(line: string)
    requires |PercentValues(line)| >= 3
    requires NearHundred(PercentValues(line)[0] + PercentValues(line)[1] + PercentValues(line)[2])
    requires Mentions(line, Player) && Mentions(line, Tie) && Mentions(line, Banker)
    ensures LineTriple(line) == Some(Triple(PercentValues(line)[0], PercentValues(line)[1], PercentValues(line)[2]))
  {
  }

  /** Heuristic 2 keeps every reading already found and fills the others from one window. */
  lemma BestTripleFillsOnlyMissing(r: Readings, ocr: string, l: Label)
    ensures r.Get(l).Some? ==> BestTriple(r, ocr).Get(l) == r.Get(l)
    ensures !r.Complete() && |PercentTokens(ocr)| >= 3 && BestWindow(KeepInRange(PercentValues(ocr))).Some? ==>
      BestTriple(r, ocr).Complete()
    ensures var nums := KeepInRange(PercentValues(ocr));
      !r.Complete() && |PercentTokens(ocr)| >= 3 && BestWindow(nums).Some? ==>
        var i, t := BestWindow(nums).value, BestTriple(r, ocr);
        && (r.player.None? ==> t.player == Some(nums[i]))
        && (r.tie.None? ==> t.tie == Some(nums[i + 1]))
        && (r.banker.None? ==> t.banker == Some(nums[i + 2]))
    ensures r.Complete() || |PercentTokens(ocr)| < 3 || BestWindow(KeepInRange(PercentValues(ocr))).None? ==>
      BestTriple(r, ocr) == r
  {
    var nums := KeepInRange(PercentValues(ocr));
    var b := BestWindow(nums);
    if !r.Complete() && |PercentTokens(ocr)| >= 3 && b.Some? {
      var i := b.value;
      assert BestTriple(r, ocr) == Readings(if r.player.Some? then r.player else Some(nums[i]),
                                            if r.banker.Some? then r.banker else Some(nums[i + 2]),
                                            if r.tie.Some? then r.tie else Some(nums[i + 1]));
    }
  }

  /** The chosen window sums to 90..110, and no plausible window scores better. */
  lemma BestWindowIsBest(nums: seq<int>)
    ensures BestWindow(nums).Some? ==>
      var i := BestWindow(nums).value;
      && i + 2 < |nums| && NearHundred(nums[i] + nums[i + 1] + nums[i + 2])
      && forall j :: 0 <= j && j + 2 < |nums| && Plausible(nums, j) ==> ScoreAt(nums, j) <= ScoreAt(nums, i)
    ensures BestWindow(nums).None? ==> forall j :: 0 <= j && j + 2 < |nums| ==> !Plausible(nums, j)
  {
  }
  /** Without a qualifying line, heuristic 1 changes nothing. */
  lemma InlineTripleIdle(r: Readings, lines: seq<string>)
    requires forall k :: 0 <= k < |lines| ==> LineTriple(lines[k]).None?
    ensures InlineTriple(r, lines) == r
  {
    var ts := LineTriples(lines);
    forall k | 0 <= k < |ts| ensures ts[k].None? {
      assert ts[k] == LineTriple(lines[k]);
    }
    FirstSomeOfNones(ts);
  }

  /** Heuristic 2 only supplies in-range values. */
  lemma BestTripleInRange(r: Readings, ocr: string, l: Label)
    requires r.Get(l).Some? ==> InRange(r.Get(l).value)
    ensures BestTriple(r, ocr).Get(l).Some? ==> InRange(BestTriple(r, ocr).Get(l).value)
  {
    if r.Get(l).None? && !r.Complete() && |PercentTokens(ocr)| >= 3 {
      var nums := KeepInRange(PercentValues(ocr));
      var b := BestWindow(nums);
      if b.Some? {
        var i := b.value;
        assert InRange(nums[i]) && InRange(nums[i + 1]) && InRange(nums[i + 2]);
      }
    }
  }

  /** Every reading the keyword pass or heuristic 2 supplies lies in 0..100. */
  lemma ReadingsInRangeWithoutInlineTriple(ocr: string, l: Label)
    requires forall k :: 0 <= k < |Lines(ocr)| ==> LineTriple(Lines(ocr)[k]).None?
    ensures TranscriptReadings(ocr).Get(l).Some? ==> InRange(TranscriptReadings(ocr).Get(l).value)
  {
    KeywordPassIsLargestSeen(ocr, l);
    InlineTripleIdle(KeywordPass(ocr), Lines(ocr));
    BestTripleInRange(KeywordPass(ocr), ocr, l);
  }

  /**
   * Statistics are emitted exactly when all three readings are known after
   * both heuristics; without a qualifying inline line they lie in 0..100.
   */
  lemma TranscriptStatsInRange(ocr: string, now: real)
    requires forall k :: 0 <= k < |Lines(ocr)| ==> LineTriple(Lines(ocr)[k]).None?
    ensures var s := TranscriptStats(Some(ocr), now);
      s.Some? ==> && 0.0 <= s.value.player <= 100.0
                  && 0.0 <= s.value.banker <= 100.0
                  && 0.0 <= s.value.tie <= 100.0
  {
    var r := TranscriptReadings(ocr);
    ReadingsInRangeWithoutInlineTriple(ocr, Player);
    ReadingsInRangeWithoutInlineTriple(ocr, Banker);
    ReadingsInRangeWithoutInlineTriple(ocr, Tie);
    assert r.player == r.Get(Player) && r.banker == r.Get(Banker) && r.tie == r.Get(Tie);
  }
}
