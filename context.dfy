/**
 * Statistics from one browsing context (the page or an iframe): collect the
 * candidate lists, vote each down to one value, fill missing labels from the
 * element texts, then pass the readings through the plausibility gate and
 * the fallbacks that build the statistics record.
 */
module ContextExtraction {
  import opened Text
  import opened Domain
  import opened Candidates
  import opened Collectors
  import opened Fallback

  /** The vote of each list; an empty list leaves its label missing. */
  function VoteAll(c: Candidates): (r: Readings)
    ensures forall l :: r.Get(l) == Vote(c.Get(l))
  {
    Readings(Vote(c.player), Vote(c.banker), Vote(c.tie))
  }

  /** max(0, x), as the source clamps a negative remainder. */
  function ClampAtZero(x: real): (r: real)
    ensures r >= 0.0 && r >= x
    ensures r == x || r == 0.0
  {
    if x < 0.0 then 0.0 else x
  }

  /** The share of the remainder attributed to the banker when only the player is known. */
  const BankerShare: real := 0.6

  const GateLow: real := 85.0
  const GateHigh: real := 110.0

  /**
   * The plausibility gate and the fallbacks, in the source's order:
   * all three known and summing to 85..110 are emitted as read; otherwise
   * player and banker known give a tie of 100 - player - banker (at least 0),
   * discarding any observed tie; otherwise a known player gives an estimated
   * banker of 60% of the remainder and, unless a tie was observed, the
   * rest as tie (at least 0). Nothing is emitted without a player value.
   */
  function Finalize(r: Readings, now: real): (s: Option<Stats>)
    ensures s.Some? <==> r.player.Some?
    ensures s.Some? ==>
      && s.value.player == r.player.value as real
      && s.value.playerWinning == (r.player.value > 50)
      && s.value.timestamp == now && !s.value.viaOcr
    ensures s.Some? && r.banker.Some? ==> s.value.banker == r.banker.value as real
    ensures s.Some? && r.banker.Some? ==> s.value.tie >= 0.0 || r.tie.Some?
    ensures s.Some? && r.banker.None? ==> s.value.banker == BankerShare * (100.0 - s.value.player)
    ensures s.Some? && r.banker.None? && r.tie.Some? ==> s.value.tie == r.tie.value as real
  {
    match r.player
    case None => None
    case Some(pv) =>
      var p := pv as real;
      if r.banker.Some? then
        var b := r.banker.value as real;
        if r.tie.Some? && GateLow <= p + b + r.tie.value as real <= GateHigh then
          Some(Stats(p, b, r.tie.value as real, pv > 50, now, false))
        else
          Some(Stats(p, b, ClampAtZero(100.0 - p - b), pv > 50, now, false))
      else
        // the banker is necessarily missing here: estimate it
        var b := BankerShare * (100.0 - p);
        var t := if r.tie.Some? then r.tie.value as real else ClampAtZero(100.0 - p - b);
        Some(Stats(p, b, t, pv > 50, now, false))
  }

  /** Three values inside the gate are emitted exactly as read. */
  lemma FinalizeKeepsPlausibleTriple(r: Readings, now: real)
    requires r.Complete()
    requires GateLow <= (r.player.value + r.banker.value + r.tie.value) as real <= GateHigh
    ensures Finalize(r, now) == Some(Stats(r.player.value as real, r.banker.value as real, r.tie.value as real,
                                           r.player.value > 50, now, false))
  {
  }

  /**
   * With player and banker known and the triple not plausible, the tie is the
   * remainder: the three sum to 100 unless player and banker already exceed
   * it, and then the tie is 0.
   */
  lemma FinalizeDerivesTie(r: Readings, now: real)
    requires r.player.Some? && r.banker.Some?
    requires !(r.tie.Some? && GateLow <= (r.player.value + r.banker.value + r.tie.value) as real <= GateHigh)
    ensures var s := Finalize(r, now).value;
      && (r.player.value + r.banker.value <= 100 ==> s.player + s.banker + s.tie == 100.0)
      && (r.player.value + r.banker.value > 100 ==> s.tie == 0.0)
  {
    var p, b := r.player.value as real, r.banker.value as real;
    assert Finalize(r, now).value.tie == ClampAtZero(100.0 - p - b);
  }

  /**
   * With only the player known (no tie observed), the banker is 60% of the
   * remainder and the tie the clamped rest: up to 100 the two split the
   * remainder 60/40 and the three sum to 100; above 100 the tie is 0.
   */
  lemma FinalizeEstimatesFromPlayer(r: Readings, now: real)
    requires r.player.Some? && r.banker.None? && r.tie.None?
    ensures var s := Finalize(r, now).value;
      && s.banker == 0.6 * (100.0 - s.player)
      && s.tie == ClampAtZero(100.0 - s.player - s.banker)
      && (r.player.value <= 100 ==>
            s.tie == 0.4 * (100.0 - s.player) && s.player + s.banker + s.tie == 100.0)
      && (r.player.value > 100 ==> s.tie == 0.0)
  {
  }

  lemma FinalizeExampleRemainder()
    ensures Finalize(Readings(Some(70), Some(22), None), 0.0).value.tie == 8.0
  {
  }

  lemma FinalizeExampleOverflow()
    ensures Finalize(Readings(Some(40), Some(65), None), 0.0).value.tie == 0.0
  {
  }

  /** A triple summing to 84 fails the gate: its observed tie is replaced by the remainder. */
  lemma FinalizeExampleBelowGate()
    ensures Finalize(Readings(Some(50), Some(30), Some(4)), 0.0).value.tie == 20.0
  {
  }

  /** A lone player value is still emitted, with estimated banker and tie. */
  lemma FinalizeExamplePlayerOnly()
    ensures Finalize(Readings(Some(55), None, None), 0.0) == Some(Stats(55.0, 27.0, 18.0, true, 0.0, false))
  {
  }

  /** The whole extraction from one context, as a function of what the page shows. */
  function ContextStats(seed: Candidates, scriptTexts: seq<string>, elements: seq<string>,
                        markup: string, found: Candidates, now: real): Option<Stats>
  {
    Finalize(Fill(VoteAll(Collect(seed, scriptTexts, elements, markup, found)), elements), now)
  }

  /**
   * `_extract_stats_from_context`: the collectors append to fresh lists
   * seeded with the caller's candidates, the votes pick one value per list,
   * the structural fallback fills what is missing, and the gate decides.
   */
  method ExtractFromContext(seed: Candidates, scriptTexts: seq<string>, elements: seq<string>,
                            markup: string, found: Candidates, now: real) returns (s: Option<Stats>)
    ensures s == ContextStats(seed, scriptTexts, elements, markup, found, now)
  {
    var lists := new CandidateLists(seed);
    CollectScriptTexts(lists, scriptTexts);
    CollectElements(lists, elements);
    if markup != [] {
      CollectPatternHits(lists, found);
      CollectMarkupWindows(lists, markup);
    }
    var votes := VoteAll(lists.Snapshot());
    var readings := StructuralFallback(votes, elements);
    s := Finalize(readings, now);
  }

  /**
   * When the page yields any player candidate, the context produces
   * statistics, their player value is the vote over the player list, and it
   * lies in 0..100 when the caller's seed candidates do.
   */
  lemma VotedPlayerIsEmitted(seed: Candidates, scriptTexts: seq<string>, elements: seq<string>,
                             markup: string, found: Candidates, now: real)
    requires Collect(seed, scriptTexts, elements, markup, found).player != []
    ensures var s := ContextStats(seed, scriptTexts, elements, markup, found, now);
      && s.Some?
      && s.value.player == Vote(Collect(seed, scriptTexts, elements, markup, found).player).value as real
      && (AllInRange(seed.player) ==> 0.0 <= s.value.player <= 100.0)
  {
    var c := Collect(seed, scriptTexts, elements, markup, found);
    var v := VoteAll(c);
    FillPerLabel(v, elements, Player);
    var p := Vote(c.player).value;
    if AllInRange(seed.player) {
      CollectedInRange(seed, scriptTexts, elements, markup, found, Player);
      var k :| 0 <= k < |c.player| && c.player[k] == p;
      if k < |seed.player| {
        assert c.player[k] == c.player[..|seed.player|][k];
      }
    }
  }

  /**
   * The structural fallback does not check the range: when no collector
   * found a player value, the first element offering `N% JOGADOR` or
   * `JOGADOR N%` decides the player, whatever N is. With no banker value
   * anywhere the estimated banker is 60% of 100 - N, negative for N > 100,
   * and with no tie value either the tie is the remainder clamped at 0.
   */
  lemma FallbackPlayerIsNotRangeChecked(seed: Candidates, scriptTexts: seq<string>, elements: seq<string>,
                                        markup: string, found: Candidates, now: real, k: nat)
    requires Collect(seed, scriptTexts, elements, markup, found).player == []
    requires k < |elements| && ElementMatch(elements[k], Player).Some?
    requires forall j :: 0 <= j < k ==> ElementMatch(elements[j], Player).None?
    ensures var s := ContextStats(seed, scriptTexts, elements, markup, found, now);
      && s.Some?
      && s.value.player == ElementMatch(elements[k], Player).value as real
      && (Collect(seed, scriptTexts, elements, markup, found).banker == []
          && (forall j :: 0 <= j < |elements| ==> ElementMatch(elements[j], Banker).None?)
          ==> s.value.banker == 0.6 * (100.0 - s.value.player))
      && (Collect(seed, scriptTexts, elements, markup, found).banker == []
          && (forall j :: 0 <= j < |elements| ==> ElementMatch(elements[j], Banker).None?)
          && Collect(seed, scriptTexts, elements, markup, found).tie == []
          && (forall j :: 0 <= j < |elements| ==> ElementMatch(elements[j], Tie).None?)
          ==> s.value.tie == ClampAtZero(100.0 - s.value.player - s.value.banker))
  {
    var c := Collect(seed, scriptTexts, elements, markup, found);
    assert ContextStats(seed, scriptTexts, elements, markup, found, now) == Finalize(Fill(VoteAll(c), elements), now);
    FallbackPlayerFromLists(c, elements, now, k);
  }

  /** The same, for any candidate lists: the first offer becomes the player, and the estimates follow it. */
  lemma FallbackPlayerFromLists(c: Candidates, elements: seq<string>, now: real, k: nat)
    requires c.player == []
    requires k < |elements| && ElementMatch(elements[k], Player).Some?
    requires forall j :: 0 <= j < k ==> ElementMatch(elements[j], Player).None?
    ensures var s := Finalize(Fill(VoteAll(c), elements), now);
      && s.Some?
      && s.value.player == ElementMatch(elements[k], Player).value as real
      && (c.banker == [] && (forall j :: 0 <= j < |elements| ==> ElementMatch(elements[j], Banker).None?)
          ==> s.value.banker == 0.6 * (100.0 - s.value.player))
      && (c.banker == [] && (forall j :: 0 <= j < |elements| ==> ElementMatch(elements[j], Banker).None?)
          && c.tie == [] && (forall j :: 0 <= j < |elements| ==> ElementMatch(elements[j], Tie).None?)
          ==> s.value.tie == ClampAtZero(100.0 - s.value.player - s.value.banker))
  {
    var v := VoteAll(c);
    FillPerLabel(v, elements, Player);
    var ms := Matches(elements, Player);
    forall j | 0 <= j < k ensures ms[j].None? {
      assert ms[j] == ElementMatch(elements[j], Player);
    }
    FirstSomeAt(ms, k);
    if c.banker == [] && (forall j :: 0 <= j < |elements| ==> ElementMatch(elements[j], Banker).None?) {
      NoValueFilled(c, elements, Banker);
      if c.tie == [] && (forall j :: 0 <= j < |elements| ==> ElementMatch(elements[j], Tie).None?) {
        PlayerOnlyTie(c, elements, now);
      }
    }
  }

  /** A filled player with neither banker nor tie anywhere: the tie is the clamped remainder. */
  lemma PlayerOnlyTie(c: Candidates, elements: seq<string>, now: real)
    requires Fill(VoteAll(c), elements).player.Some?
    requires c.banker == [] && forall j :: 0 <= j < |elements| ==> ElementMatch(elements[j], Banker).None?
    requires c.tie == [] && forall j :: 0 <= j < |elements| ==> ElementMatch(elements[j], Tie).None?
    ensures var s := Finalize(Fill(VoteAll(c), elements), now).value;
      s.tie == ClampAtZero(100.0 - s.player - s.banker)
  {
    var filled := Fill(VoteAll(c), elements);
    NoValueFilled(c, elements, Banker);
    NoValueFilled(c, elements, Tie);
    assert filled.banker.None? && filled.tie.None?;
    FinalizeEstimatesFromPlayer(filled, now);
  }

  /** A label with no candidate and no element offering a value stays missing after the fallback. */
  lemma NoValueFilled(c: Candidates, elements: seq<string>, l: Label)
    requires c.Get(l) == []
    requires forall j :: 0 <= j < |elements| ==> ElementMatch(elements[j], l).None?
    ensures Fill(VoteAll(c), elements).Get(l).None?
  {
    var v := VoteAll(c);
    FillPerLabel(v, elements, l);
    var ms := Matches(elements, l);
    forall j | 0 <= j < |ms| ensures ms[j].None? {
      assert ms[j] == ElementMatch(elements[j], l);
    }
    FirstSomeOfNones(ms);
  }

  /** The one element of the example below: a number above 100 next to a player keyword. */
  const OutOfRangeElement: string := "500% JOGADOR"

  lemma OutOfRangeElementDigits()
    ensures DigitRun(OutOfRangeElement) == 3
  {
    var e := OutOfRangeElement;
    var n := DigitRun(e);
    assert IsDigit(e[0]) && IsDigit(e[1]) && IsDigit(e[2]) && !IsDigit(e[3]);
  }

  lemma OutOfRangeElementTokens()
    ensures PercentTokens(OutOfRangeElement) == ["500"]
  {
    var e := OutOfRangeElement;
    OutOfRangeElementDigits();
    assert e[..3] == "500";
    ScanPercentsNoDigits(e[4..]);
  }

  lemma OutOfRangeElementValues()
    ensures Strip(OutOfRangeElement) == OutOfRangeElement
    ensures PercentValues(OutOfRangeElement) == [500]
  {
    var e := OutOfRangeElement;
    StripUnpadded(e);
    OutOfRangeElementTokens();
    FiveHundred();
    assert PercentValues(e)[0] == 500;
  }

  lemma FiveHundred()
    ensures DigitsValue("500") == 500
  {
    assert "500"[..2] == "50" && "50"[..1] == "5" && "5"[..0] == "";
    assert DigitsValue("5") == 5;
    assert DigitsValue("50") == 50;
  }

  lemma SingleElementHits(e: string, l: Label)
    ensures ElementsHits([e], l) == ElementHits(e, l)
  {
    assert [e][..0] == [];
  }

  lemma OutOfRangeElementCollectsNothing()
    ensures var none := Candidates([], [], []);
      var c := Collect(none, [], [OutOfRangeElement], [], none);
      c.player == [] && c.banker == [] && c.tie == []
  {
    var e := OutOfRangeElement;
    OutOfRangeElementValues();
    assert KeepInRange([500]) == [] by { assert [500][..0] == []; }
    assert TextHits(e, Player) == [] && TextHits(e, Banker) == [] && TextHits(e, Tie) == [];
    assert ElementText(e) == Some(e);
    assert ElementHits(e, Player) == [] && ElementHits(e, Banker) == [] && ElementHits(e, Tie) == [];
    SingleElementHits(e, Player);
    SingleElementHits(e, Banker);
    SingleElementHits(e, Tie);
    var none := Candidates([], [], []);
    assert ScriptContribution([]) == none;
    var page := ElementsContribution([e]);
    assert page.player == [] && page.banker == [] && page.tie == [];
    var c := Collect(none, [], [e], [], none);
    assert c == none.Plus(none).Plus(page);
    assert c.player == [] + [] + page.player && c.banker == [] + [] + page.banker;
    assert c.tie == [] + [] + page.tie;
  }

  lemma OutOfRangeElementKeyword()
    ensures SkipSpaces(OutOfRangeElement, 4) == 5
    ensures MatchesUpperAt(OutOfRangeElement, Keywords(Player)[0], 5)
  {
    var e := OutOfRangeElement;
    var t := e[4..];
    assert IsSpace(t[0]) && !IsSpace(t[1]);
    var w := e[5..12];
    assert Upper(w) == Keywords(Player)[0] by {
      forall k | 0 <= k < 7 ensures Upper(w)[k] == Keywords(Player)[0][k] {
        assert w[k] == e[5 + k];
      }
    }
    UpperEqIff(w, Keywords(Player)[0]);
  }

  lemma OutOfRangeElementNumKw()
    ensures NumKw(OutOfRangeElement, Player) == Some(500)
  {
    var e := OutOfRangeElement;
    OutOfRangeElementDigits();
    OutOfRangeElementKeyword();
    assert e[0..] == e;
    assert NumKwAt(e, Player, 0);
    assert e[0..3] == "500";
    FiveHundred();
  }

  lemma OutOfRangeElementOffers()
    ensures ElementMatch(OutOfRangeElement, Player) == Some(500)
    ensures ElementMatch(OutOfRangeElement, Banker).None?
    ensures ElementMatch(OutOfRangeElement, Tie).None?
  {
    var e := OutOfRangeElement;
    StripUnpadded(e);
    OutOfRangeElementNumKw();
    assert ElementMatch(e, Player) == Some(500);
    OutOfRangeElementNoBanker();
    OutOfRangeElementNoTie();
  }

  lemma OutOfRangeElementNoBanker()
    ensures ElementMatch(OutOfRangeElement, Banker).None?
  {
    var e := OutOfRangeElement;
    StripUnpadded(e);
    assert Keywords(Banker)[0][0] == 'B' && Keywords(Banker)[1][0] == 'B';
    forall k | 0 <= k < |e| ensures UpperChar(e[k]) != 'B' {
    }
    NoKeywordStart(e, Banker);
  }

  lemma OutOfRangeElementNoTie()
    ensures ElementMatch(OutOfRangeElement, Tie).None?
  {
    var e := OutOfRangeElement;
    StripUnpadded(e);
    assert Keywords(Tie)[0][0] == 'E' && Keywords(Tie)[1][0] == 'T';
    forall k | 0 <= k < |e| ensures UpperChar(e[k]) != 'E' && UpperChar(e[k]) != 'T' {
    }
    NoKeywordStart(e, Tie);
  }

  /** A page whose only element reads "500% JOGADOR" yields player 500, a negative banker estimate and tie 0. */
  lemma FallbackExampleOutOfRange()
    ensures var none := Candidates([], [], []);
      var s := ContextStats(none, [], [OutOfRangeElement], [], none, 0.0);
      s.Some? && s.value.player == 500.0 && s.value.banker == -240.0 && s.value.tie == 0.0
  {
    OutOfRangeElementStats();
    OutOfRangeElementFinalized();
  }

  lemma OutOfRangeElementStats()
    ensures var none := Candidates([], [], []);
      ContextStats(none, [], [OutOfRangeElement], [], none, 0.0) == Finalize(Fill(VoteAll(none), [OutOfRangeElement]), 0.0)
  {
    var none := Candidates([], [], []);
    OutOfRangeElementCollectsNothing();
    assert Collect(none, [], [OutOfRangeElement], [], none) == none;
  }

  lemma OutOfRangeElementFinalized()
    ensures var s := Finalize(Fill(VoteAll(Candidates([], [], [])), [OutOfRangeElement]), 0.0);
      s.Some? && s.value.player == 500.0 && s.value.banker == -240.0 && s.value.tie == 0.0
  {
    OutOfRangeElementOffers();
    SoleFiveHundredFinalized(OutOfRangeElement);
  }

  lemma SoleFiveHundredFinalized(e: string)
    requires ElementMatch(e, Player) == Some(500) && ElementMatch(e, Banker).None? && ElementMatch(e, Tie).None?
    ensures var s := Finalize(Fill(VoteAll(Candidates([], [], [])), [e]), 0.0);
      s.Some? && s.value.player == 500.0 && s.value.banker == -240.0 && s.value.tie == 0.0
  {
    var none := Candidates([], [], []);
    var es := [e];
    FallbackPlayerFromLists(none, es, 0.0, 0);
    var s := Finalize(Fill(VoteAll(none), es), 0.0).value;
    FiveHundredEstimates(s.player, s.banker, s.tie);
  }

  lemma FiveHundredEstimates(player: real, banker: real, tie: real)
    requires player == 500.0 && banker == 0.6 * (100.0 - player) && tie == ClampAtZero(100.0 - player - banker)
    ensures banker == -240.0 && tie == 0.0
  {
  }
}
