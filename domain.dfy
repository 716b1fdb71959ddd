/**
 * The three quantities the scraper reads off the page, the bilingual keyword
 * table that names them, the partial readings the reconciliation works on,
 * and the statistics record handed to the notifier.
 */
module Domain {
  import opened Text

  datatype Option<+T> = None | Some(value: T)

  /** The first Some in xs, with its index; the first index scanned in element order. */
  function FirstSomeIndex<T>(xs: seq<Option<T>>): (k: nat)
    ensures k <= |xs|
    ensures k < |xs| ==> xs[k].Some?
    ensures forall j :: 0 <= j < k ==> xs[j].None?
    decreases |xs|
  {
    if xs == [] || xs[0].Some? then 0 else 1 + FirstSomeIndex(xs[1..])
  }

  function FirstSome<T>(xs: seq<Option<T>>): Option<T> {
    var k := FirstSomeIndex(xs);
    if k < |xs| then xs[k] else None
  }

  /** The first Some is at k when xs[k] is Some and nothing before it is. */
  lemma FirstSomeAt<T>(xs: seq<Option<T>>, k: nat)
    requires k < |xs| && xs[k].Some?
    requires forall j :: 0 <= j < k ==> xs[j].None?
    ensures FirstSomeIndex(xs) == k && FirstSome(xs) == xs[k]
  {
  }

  lemma FirstSomeOfNones<T>(xs: seq<Option<T>>)
    requires forall j :: 0 <= j < |xs| ==> xs[j].None?
    ensures FirstSome(xs) == None
  {
  }

  /** Scanning one more entry changes the first Some only when there was none yet. */
  lemma FirstSomeSnoc<T>(xs: seq<Option<T>>, x: Option<T>)
    ensures FirstSome(xs + [x]) == if FirstSome(xs).Some? then FirstSome(xs) else x
  {
    var k, k' := FirstSomeIndex(xs), FirstSomeIndex(xs + [x]);
    if k < |xs| {
      assert (xs + [x])[k] == xs[k];
      assert k' <= k;
      assert forall j :: 0 <= j < k' ==> (xs + [x])[j] == xs[j];
      assert k' == k;
    } else {
      assert forall j :: 0 <= j < |xs| ==> (xs + [x])[j] == xs[j];
      assert k' >= |xs|;
      assert (xs + [x])[|xs|] == x;
      if x.Some? {
        assert k' == |xs|;
      } else {
        assert k' == |xs| + 1;
      }
    }
  }

  /** A sequence that agrees with b and then holds x is b + [x]. */
  lemma SnocOf<T>(a: seq<T>, b: seq<T>, x: T)
    requires |a| == |b| + 1 && a[|b|] == x
    requires forall k :: 0 <= k < |b| ==> a[k] == b[k]
    ensures a == b + [x]
  {
  }

  lemma ConcatAssoc<T>(x: seq<T>, y: seq<T>, z: seq<T>)
    ensures x + y + z == x + (y + z)
  {
  }

  /** Player, Banker and Tie: the page's "JOGADOR"/"BANCA"/"EMPATE" sections. */
  datatype Label = Player | Banker | Tie

  /** Both locales' keyword for each label, as the page prints them in upper case. */
  function Keywords(l: Label): (kws: seq<string>)
    ensures |kws| == 2
  {
    match l
    case Player => ["JOGADOR", "PLAYER"]
    case Banker => ["BANCA", "BANKER"]
    case Tie => ["EMPATE", "TIE"]
  }

  /** `any(kw in text.upper() for kw in KEYWORDS[l])`. */
  predicate Mentions(text: string, l: Label) {
    ContainsUpper(text, Keywords(l)[0]) || ContainsUpper(text, Keywords(l)[1])
  }

  /** Mentions is the `in` test on the upper-cased text, for either keyword. */
  lemma MentionsIff(text: string, l: Label)
    ensures Mentions(text, l) <==> Contains(Upper(text), Keywords(l)[0]) || Contains(Upper(text), Keywords(l)[1])
  {
    ContainsUpperIff(text, Keywords(l)[0]);
    ContainsUpperIff(text, Keywords(l)[1]);
  }

  /** Percent values are kept only when `0 <= val <= 100`. */
  predicate InRange(v: int) {
    0 <= v <= 100
  }

  const WindowRadius: nat := 200

  /** text[max(0, idx - 200):min(len(text), idx + 200)]. */
  function Window(text: string, idx: nat): (w: string)
    requires idx <= |text|
    ensures |w| <= 2 * WindowRadius
    ensures idx < |text| ==> w != []
    ensures var lo := if idx >= WindowRadius then idx - WindowRadius else 0;
            var hi := if idx + WindowRadius <= |text| then idx + WindowRadius else |text|;
            lo <= hi && w == text[lo..hi]
  {
    var lo := if idx >= WindowRadius then idx - WindowRadius else 0;
    var hi := if idx + WindowRadius <= |text| then idx + WindowRadius else |text|;
    text[lo..hi]
  }

  /** A match of at most 200 characters at idx lies wholly inside the window around idx. */
  lemma WindowHoldsMatch(text: string, idx: nat, n: nat)
    requires idx + n <= |text| && n <= WindowRadius
    ensures OccursAt(Window(text, idx), text[idx..idx + n], if idx >= WindowRadius then WindowRadius else idx)
  {
    var lo := if idx >= WindowRadius then idx - WindowRadius else 0;
    var hi := if idx + WindowRadius <= |text| then idx + WindowRadius else |text|;
    var w := Window(text, idx);
    assert w == text[lo..hi] && idx + n <= hi;
    var u, m := w[idx - lo..idx - lo + n], text[idx..idx + n];
    forall k | 0 <= k < n ensures u[k] == m[k] {
      assert u[k] == w[idx - lo + k] == text[lo..hi][idx - lo + k];
    }
    assert u == m;
  }

  /**
   * The label a context window is filed under: the keyword tests are an
   * if/elif chain, so Player wins over Banker, and Banker over Tie.
   */
  function WindowLabel(w: string): (r: Option<Label>)
    ensures r == Some(Player) <==> Mentions(w, Player)
    ensures r == Some(Banker) <==> !Mentions(w, Player) && Mentions(w, Banker)
    ensures r == Some(Tie) <==> !Mentions(w, Player) && !Mentions(w, Banker) && Mentions(w, Tie)
    ensures r == None <==> !Mentions(w, Player) && !Mentions(w, Banker) && !Mentions(w, Tie)
  {
    if Mentions(w, Player) then Some(Player)
    else if Mentions(w, Banker) then Some(Banker)
    else if Mentions(w, Tie) then Some(Tie)
    else None
  }

  /** One optional percentage per label: the locals player_percent, banker_percent, tie_percent. */
  datatype Readings = Readings(player: Option<int>, banker: Option<int>, tie: Option<int>) {
    function Get(l: Label): Option<int> {
      match l
      case Player => player
      case Banker => banker
      case Tie => tie
    }

    predicate Complete() {
      player.Some? && banker.Some? && tie.Some?
    }

    function Set(l: Label, v: Option<int>): (r: Readings)
      ensures r.Get(l) == v
      ensures forall m :: m != l ==> r.Get(m) == Get(m)
    {
      match l
      case Player => this.(player := v)
      case Banker => this.(banker := v)
      case Tie => this.(tie := v)
    }
  }

  const NoReadings := Readings(None, None, None)

  /**
   * The statistics dictionary: player_percent, banker_percent, tie_percent,
   * player_winning, timestamp, and whether it came from the screenshot reader
   * (the 'extraction_method': 'ocr' entry).
   */
  datatype Stats = Stats(player: real, banker: real, tie: real, playerWinning: bool, timestamp: real, viaOcr: bool)
}
