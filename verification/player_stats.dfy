/**
 * A player's statistics: matches played, matches won and the win rate, a
 * percentage rounded to one decimal place. The rate is kept in tenths of a
 * percent, so 66.7 % is 667.
 */
module PlayerStats {
  import opened Wrappers
  import opened Text

  /**
   * `Math.round(won / played * 100 * 10)`: the nearest whole number of tenths,
   * halves rounded up; 0 when nothing was played.
   */
  function WinRateTenths(won: int, played: int): (r: int)
    ensures played <= 0 ==> r == 0
    ensures played > 0 ==> 2 * played * r - played <= 2000 * won < 2 * played * r + played
  {
    if played > 0 then (2000 * won + played) / (2 * played) else 0
  }

  /** `played * x < played * y` with `played > 0` gives `x < y`. */
  lemma CancelPositiveFactor(p: int, x: int, y: int)
    requires p > 0 && p * x < p * y
    ensures x < y
  {
  }

  /** A rate computed from counts lies between 0 % and 100 %. */
  lemma WinRateBounds(won: int, played: int)
    requires 0 <= won <= played
    ensures 0 <= WinRateTenths(won, played) <= 1000
  {
    if played > 0 {
      var r := WinRateTenths(won, played);
      // 2·played·r < 2000·won + played <= 2·played·1000 + played < 2·played·1001
      assert 2 * played * r < 2 * played * 1001 by {
        assert 2000 * won <= 2000 * played;
      }
      CancelPositiveFactor(2 * played, r, 1001);
      // 2·played·(-1) < 2·played·r since 2·played·r + played > 2000·won >= 0
      assert 2 * played * (-1) < 2 * played * r;
      CancelPositiveFactor(2 * played, -1, r);
    }
  }

  /** Winning every match played is exactly 100 %. */
  lemma WinRateAllWon(played: int)
    requires played > 0
    ensures WinRateTenths(played, played) == 1000
  {
    var r := WinRateTenths(played, played);
    assert 2 * played * r < 2 * played * 1001;
    CancelPositiveFactor(2 * played, r, 1001);
    assert 2 * played * 999 < 2 * played * r;
    CancelPositiveFactor(2 * played, 999, r);
  }

  /** For a fixed number of matches, more wins never lower the rate. */
  lemma WinRateMonotonic(w1: int, w2: int, played: int)
    requires w1 <= w2
    ensures WinRateTenths(w1, played) <= WinRateTenths(w2, played)
  {
    if played > 0 {
      var r1 := WinRateTenths(w1, played);
      var r2 := WinRateTenths(w2, played);
      // 2·played·r1 - played <= 2000·w1 <= 2000·w2 < 2·played·r2 + played
      assert 2 * played * r1 < 2 * played * (r2 + 1);
      CancelPositiveFactor(2 * played, r1, r2 + 1);
    }
  }

  /** The player row the hook reads. */
  datatype PlayerRow = PlayerRow(matchesPlayed: int, matchesWon: int)

  datatype Stats = Stats(matchesPlayed: int, matchesWon: int, winRateTenths: int)

  /** No statistics without a player id or without a stored player. */
  function PlayerStatsOf(playerId: Option<string>, row: Option<PlayerRow>): (r: Option<Stats>)
    ensures r.None? <==> !Present(playerId) || row.None?
    ensures r.Some? ==> r.value.matchesPlayed == row.value.matchesPlayed && r.value.matchesWon == row.value.matchesWon
    ensures r.Some? ==> r.value.winRateTenths == WinRateTenths(row.value.matchesWon, row.value.matchesPlayed)
    ensures r.Some? && 0 <= row.value.matchesWon <= row.value.matchesPlayed ==> 0 <= r.value.winRateTenths <= 1000
  {
    if !Present(playerId) then None
    else match row
      case None => None
      case Some(p) =>
        WinRateBoundsWhenCounted(p.matchesWon, p.matchesPlayed);
        Some(Stats(p.matchesPlayed, p.matchesWon, WinRateTenths(p.matchesWon, p.matchesPlayed)))
  }

  lemma WinRateBoundsWhenCounted(won: int, played: int)
    ensures 0 <= won <= played ==> 0 <= WinRateTenths(won, played) <= 1000
  {
    if 0 <= won <= played {
      WinRateBounds(won, played);
    }
  }
}
