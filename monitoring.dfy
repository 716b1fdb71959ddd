/**
 * One monitoring cycle of the bot: given the statistics the scraper
 * produced (or none), decide whether to send a status update and whether to
 * send an entry alert, and keep the bookkeeping fields that drive those
 * decisions. The clock readings and the outcome of every send are inputs.
 */
module Monitoring {
  import opened Domain
  import opened Telegram

  /** `PLAYER_WIN_THRESHOLD`: an alert needs the player strictly above this. */
  const PlayerWinThreshold: real := 98.0
  /** `SCRAPE_INTERVAL`, in seconds; reported by `status`. */
  const ScrapeInterval: nat := 5
  /** The initial `alert_cooldown`, in seconds. */
  const DefaultAlertCooldown: real := 30.0
  /** A status update is re-sent once the player moved by more than this. */
  const StatusChange: real := 3.0

  /** A message the cycle hands to the notifier. */
  datatype Outgoing =
    | StatusUpdate(stats: Option<Stats>)
    | EntryAlert(player: real, banker: real)

  /** The snapshot `status()` returns; a missing `last_stats` shows as None (`{}` in the source). */
  datatype Status = Status(running: bool, lastStats: Option<Stats>, alertThreshold: real, scrapeInterval: nat)

  function Abs(x: real): (r: real)
    ensures r >= 0.0 && (r == x || r == -x)
  {
    if x < 0.0 then -x else x
  }

  /** A status update goes out for the first statistics and whenever the player moved by more than 3. */
  predicate ShouldUpdateStatus(lastSent: Option<Stats>, stats: Stats) {
    lastSent.None? || Abs(stats.player - lastSent.value.player) > StatusChange
  }

  /** `_detect_result`: a placeholder that never reports a result. */
  function DetectResult(current: Option<Stats>, previous: Option<Stats>): (r: Option<Outcome>)
    ensures r.None?
  {
    None
  }

  /** `BacBoBot`, without the scraper: the notifier and the fields one cycle reads and writes. */
  class Monitor {
    const telegram: Notifier
    const alertCooldown: real
    var lastStats: Option<Stats>
    var lastAlertTime: real
    var lastStatsSent: Option<Stats>
    var stopped: bool

    /**
     * `token or TELEGRAM_BOT_TOKEN`: the given token, or the configured one
     * when none is given; `configToken` is that setting's value.
     */
    constructor(token: string, configToken: string)
      ensures fresh(telegram) && telegram.Valid()
      ensures telegram.hasBot == ((if token != [] then token else configToken) != [])
      ensures telegram.hasBot <==> token != [] || configToken != []
      ensures alertCooldown == DefaultAlertCooldown
      ensures lastStats.None? && lastAlertTime == 0.0 && lastStatsSent.None? && !stopped
    {
      var botToken := if token != [] then token else configToken;
      telegram := new Notifier(botToken);
      alertCooldown := DefaultAlertCooldown;
      lastStats := None;
      lastAlertTime := 0.0;
      lastStatsSent := None;
      stopped := false;
    }

    /**
     * `_should_send_alert` with the clock reading `now`: statistics present,
     * the player strictly above 98, and strictly more than the cooldown since
     * the last alert that went out.
     */
    predicate ShouldSendAlert(stats: Option<Stats>, now: real)
      reads this
    {
      stats.Some? && stats.value.player > PlayerWinThreshold && now - lastAlertTime > alertCooldown
    }

    /**
     * `run_once` with the scraper's result as input. `now` is the clock as
     * the alert gate reads it and `sentAt` the clock read after a delivered
     * alert; `statusDelivered` and `alertDelivered` are the outcomes of the sends.
     */
    method RunOnce(stats: Option<Stats>, now: real, sentAt: real, statusDelivered: bool, alertDelivered: bool)
      returns (ok: bool, sent: seq<Outgoing>)
      modifies this
      ensures stats.None? ==> !ok && sent == [StatusUpdate(None)] && unchanged(this)
      ensures stats.Some? ==> ok && lastStats == stats && stopped == old(stopped)
      ensures stats.Some? ==>
        var update := ShouldUpdateStatus(old(lastStatsSent), stats.value);
        var alert := old(ShouldSendAlert(stats, now));
        && lastStatsSent == (if update then stats else old(lastStatsSent))
        && sent == (if update then [StatusUpdate(stats)] else []) +
                   (if alert then [EntryAlert(stats.value.player, stats.value.banker)] else [])
        && lastAlertTime == (if alert && telegram.hasBot && alertDelivered then sentAt else old(lastAlertTime))
    {
      if stats.None? {
        var _ := telegram.SendStatusUpdate(None, statusDelivered);
        return false, [StatusUpdate(None)];
      }
      var s := stats.value;
      sent := [];
      var shouldSendUpdate := false;
      if lastStatsSent.None? {
        shouldSendUpdate := true;
      } else if Abs(s.player - lastStatsSent.value.player) > StatusChange {
        shouldSendUpdate := true;
      }
      if shouldSendUpdate {
        var _ := telegram.SendStatusUpdate(stats, statusDelivered);
        sent := sent + [StatusUpdate(stats)];
        lastStatsSent := stats;
      }
      if ShouldSendAlert(stats, now) {
        sent := sent + [EntryAlert(s.player, s.banker)];
        var success, _ := telegram.SendEntryAlert(s.player, s.banker, alertDelivered);
        if success {
          lastAlertTime := sentAt;
          lastStats := stats;
          return true, sent;
        }
      }
      lastStats := stats;
      ok := true;
    }

    /** `stop`: only the stop flag changes. */
    method Stop()
      modifies this
      ensures stopped
      ensures lastStats == old(lastStats) && lastAlertTime == old(lastAlertTime) && lastStatsSent == old(lastStatsSent)
    {
      stopped := true;
    }

    /** `status`: running until stopped, the last statistics, and the two configured constants. */
    function CurrentStatus(): (s: Status)
      reads this
      ensures s.running <==> !stopped
      ensures s.lastStats == lastStats
      ensures s.alertThreshold == PlayerWinThreshold && s.scrapeInterval == ScrapeInterval
    {
      Status(!stopped, lastStats, PlayerWinThreshold, ScrapeInterval)
    }
  }

  /**
   * Within the cooldown after an alert went out, no alert fires, whatever
   * the statistics: the gate needs strictly more than the cooldown.
   */
  lemma CooldownSilencesAlerts(m: Monitor, stats: Option<Stats>, now: real)
    requires now - m.lastAlertTime <= m.alertCooldown
    ensures !m.ShouldSendAlert(stats, now)
  {
  }

  /** Every alert the gate lets through names red: the player is above 98, so above 50. */
  lemma AlertsAreRed(m: Monitor, stats: Option<Stats>, now: real)
    requires m.ShouldSendAlert(stats, now)
    ensures EntryColour(stats.value.player) == Red
    ensures EntryEmoji(ColourName(EntryColour(stats.value.player))) == RedCircle
  {
    EntryEmojiFollowsPlayer(stats.value.player);
  }
}
