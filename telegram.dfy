/**
 * The Telegram side of the bot: the scoreboard counters the notifier keeps
 * across win/loss notifications, the assertiveness rate derived from them,
 * and the colour an entry alert tells the reader to bet on. Sending is a
 * boolean outcome supplied by the caller.
 */
module Telegram {
  import opened Domain

  /** What `last_result` records: 'win', or 'loss' for any other result. */
  datatype Outcome = Win | Loss

  /** The colour an entry alert names: red for the player, blue for the banker. */
  datatype Colour = Red | Blue

  const RedCircle: char := '\U{1F534}'
  const BlueCircle: char := '\U{1F535}'
  const GreenCircle: char := '\U{1F7E2}'

  // ---------------------------------------------------------------- colours

  /** ASCII lower-casing, as `str.lower()` acts on the colour names. */
  function LowerChar(c: char): char {
    if 'A' <= c <= 'Z' then (c as int + 32) as char else c
  }

  /** a.lower() == b, for a lower-case b. */
  predicate LowerEq(a: string, b: string)
    decreases |a|
  {
    |a| == |b| && (a == [] || (LowerChar(a[0]) == b[0] && LowerEq(a[1..], b[1..])))
  }

  /** `'red' if player_percent > 50 else 'blue'` */
  function EntryColour(player: real): Colour {
    if player > 50.0 then Red else Blue
  }

  function ColourName(c: Colour): string {
    match c
    case Red => "red"
    case Blue => "blue"
  }

  /** The emoji of an entry message: red for 'red' in any case, blue for anything else. */
  function EntryEmoji(colour: string): (e: char)
    ensures e == RedCircle <==> LowerEq(colour, "red")
    ensures e == BlueCircle <==> !LowerEq(colour, "red")
  {
    if LowerEq(colour, "red") then RedCircle else BlueCircle
  }

  /** The emoji of a win message: green for 'green' in any case, red for anything else. */
  function WinEmoji(winningColour: string): (e: char)
    ensures e == GreenCircle <==> LowerEq(winningColour, "green")
    ensures e == RedCircle <==> !LowerEq(winningColour, "green")
  {
    if LowerEq(winningColour, "green") then GreenCircle else RedCircle
  }

  /** An entry alert shows the red circle exactly when the player is above 50%. */
  lemma EntryEmojiFollowsPlayer(player: real)
    ensures EntryEmoji(ColourName(EntryColour(player))) == RedCircle <==> player > 50.0
    ensures EntryEmoji(ColourName(EntryColour(player))) == BlueCircle <==> player <= 50.0
  {
    if player > 50.0 {
      assert LowerEq("d", "d");
      assert LowerEq("ed", "ed");
      assert LowerEq("red", "red");
    } else {
      assert !LowerEq("blue", "red");
    }
  }

  /** The upper-case spelling of the colour name selects the red circle too. */
  lemma EntryEmojiIgnoresCase()
    ensures EntryEmoji("RED") == RedCircle && EntryEmoji("Red") == RedCircle
  {
    assert LowerEq("D", "d") && LowerEq("ED", "ed") && LowerEq("RED", "red");
    assert LowerEq("d", "d") && LowerEq("ed", "ed") && LowerEq("Red", "red");
  }

  // ---------------------------------------------------------------- the rate

  /** A real whose product with a positive number is not negative is not negative. */
  lemma NonNegFactor(x: real, y: real)
    requires y > 0.0 && x * y >= 0.0
    ensures x >= 0.0
  {
  }

  /** A real whose product with a positive number is zero is zero. */
  lemma ZeroFactor(x: real, y: real)
    requires y > 0.0 && x * y == 0.0
    ensures x == 0.0
  {
  }

  /** The share w / t of a positive total t lies in 0..1, at 1 exactly when w == t and at 0 exactly when w == 0. */
  lemma ShareBounds(w: nat, t: nat)
    requires 0 < t && w <= t
    ensures var q := w as real / t as real;
      && 0.0 <= q <= 1.0
      && (q == 1.0 <==> w == t)
      && (q == 0.0 <==> w == 0)
  {
    var q := w as real / t as real;
    assert q * t as real == w as real;
    assert (1.0 - q) * t as real == (t - w) as real;
    NonNegFactor(1.0 - q, t as real);
    NonNegFactor(q, t as real);
    if w == t {
      ZeroFactor(q - 1.0, t as real);
    }
    if w == 0 {
      ZeroFactor(q, t as real);
    }
  }

  /** `_calculate_assertiveness_rate`: 100 before any result, else the share of wins in percent. */
  function Rate(wins: nat, losses: nat): (r: real)
    ensures 0.0 <= r <= 100.0
    ensures r == 100.0 <==> losses == 0
    ensures r == 0.0 <==> wins == 0 && losses > 0
  {
    var total := wins + losses;
    if total == 0 then 100.0
    else
      ShareBounds(wins, total);
      wins as real / total as real * 100.0
  }

  /** One more win never lowers the rate. */
  lemma WinNeverLowersRate(wins: nat, losses: nat)
    ensures Rate(wins + 1, losses) >= Rate(wins, losses)
  {
    var t := wins + losses;
    if t > 0 && losses > 0 {
      var q, q' := wins as real / t as real, (wins + 1) as real / (t + 1) as real;
      assert q * t as real == wins as real;
      assert q' * (t + 1) as real == (wins + 1) as real;
      assert (q' - q) * (t as real * (t + 1) as real) == losses as real;
      NonNegFactor(q' - q, t as real * (t + 1) as real);
    }
  }

  /** One more loss never raises the rate. */
  lemma LossNeverRaisesRate(wins: nat, losses: nat)
    ensures Rate(wins, losses + 1) <= Rate(wins, losses)
  {
    var t := wins + losses;
    if t > 0 {
      var q, q' := wins as real / t as real, wins as real / (t + 1) as real;
      assert q * t as real == wins as real;
      assert q' * (t + 1) as real == wins as real;
      assert (q - q') * (t as real * (t + 1) as real) == wins as real;
      NonNegFactor(q - q', t as real * (t + 1) as real);
    }
  }

  // ---------------------------------------------------------------- the notifier

  /** `BacBoTelegramBot`: its Telegram client, if a token was given, and the scoreboard counters. */
  class Notifier {
    const hasBot: bool
    var wins: nat
    var losses: nat
    var ties: nat
    var consecutiveWins: nat
    var lastResult: Option<Outcome>

    /**
     * What the counters keep from their zero start: ties are never counted,
     * the streak never exceeds the wins and is zero right after a loss.
     */
    predicate Valid()
      reads this
    {
      && ties == 0
      && consecutiveWins <= wins
      && (lastResult.None? ==> wins == 0 && losses == 0)
      && (lastResult == Some(Loss) ==> consecutiveWins == 0)
      && (lastResult == Some(Win) ==> consecutiveWins > 0)
    }

    /** A client exists only for a non-empty token; every counter starts at zero. */
    constructor(token: string)
      ensures hasBot == (token != [])
      ensures wins == 0 && losses == 0 && ties == 0 && consecutiveWins == 0 && lastResult.None?
      ensures Valid()
    {
      hasBot := token != [];
      wins, losses, ties, consecutiveWins := 0, 0, 0, 0;
      lastResult := None;
    }

    function AssertivenessRate(): (r: real)
      reads this
      ensures 0.0 <= r <= 100.0
    {
      Rate(wins, losses)
    }

    /**
     * `send_win_notification`: without a client nothing changes and the
     * answer is False; otherwise the counters are updated first ('win' counts
     * a win and extends the streak, anything else counts a loss and ends it),
     * and the answer is whether both messages went out.
     */
    method SendWinNotification(result: string, winningColour: string, messageSent: bool, scoreboardSent: bool)
      returns (ok: bool)
      requires Valid()
      modifies this
      ensures Valid()
      ensures ok <==> hasBot && messageSent && scoreboardSent
      ensures !hasBot ==> unchanged(this)
      ensures hasBot && result == "win" ==>
        && wins == old(wins) + 1 && consecutiveWins == old(consecutiveWins) + 1
        && losses == old(losses) && ties == old(ties) && lastResult == Some(Win)
      ensures hasBot && result != "win" ==>
        && losses == old(losses) + 1 && consecutiveWins == 0
        && wins == old(wins) && ties == old(ties) && lastResult == Some(Loss)
    {
      if !hasBot {
        return false;
      }
      if result == "win" {
        wins := wins + 1;
        consecutiveWins := consecutiveWins + 1;
        lastResult := Some(Win);
      } else {
        losses := losses + 1;
        consecutiveWins := 0;
        lastResult := Some(Loss);
      }
      ok := messageSent && scoreboardSent;
    }

    /**
     * `send_entry_alert`: False without a client; otherwise the message names
     * red when the player is above 50% and blue otherwise, and the answer is
     * whether it went out.
     */
    method SendEntryAlert(player: real, banker: real, delivered: bool) returns (ok: bool, colour: Option<Colour>)
      ensures ok <==> hasBot && delivered
      ensures colour == if hasBot then Some(EntryColour(player)) else None
      ensures colour.Some? ==> (colour.value == Red <==> player > 50.0)
    {
      if !hasBot {
        return false, None;
      }
      var c := if player > 50.0 then Red else Blue;
      colour := Some(c);
      ok := delivered;
    }

    /** `send_status_update`: False without a client, else whether the message went out. */
    method SendStatusUpdate(stats: Option<Stats>, delivered: bool) returns (ok: bool)
      ensures ok <==> hasBot && delivered
    {
      ok := hasBot && delivered;
    }
  }
}
