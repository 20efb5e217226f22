/**
 * Play-time statistics. Dates are day numbers (a DateTime's Date part); an entry's game is
 * identified by number. The per-window lists keep input order; the per-game totals come out in
 * the order each game first qualifies, which is the enumeration order of the dictionary the
 * source fills.
 */
module GameStatistic {
  import opened Wrappers

  type Day = int
  type GameId = nat

  datatype GameStatistic = GameStatistic(game: GameId, playTimeMinutes: int, starsCount: int, date: Day)

  datatype GameTotal = GameTotal(playTime: int, game: GameId)

  /** The minutes of the entries dated on or after `from`, in input order. */
  function PlayTimesSince(s: seq<GameStatistic>, from: Day): (r: seq<int>)
    ensures |r| <= |s|
  {
    if s == [] then []
    else PlayTimesSince(s[..|s| - 1], from) + (if s[|s| - 1].date >= from then [s[|s| - 1].playTimeMinutes] else [])
  }

  /** The first pass: how many entries are dated on or after `from`. */
  function CountSince(s: seq<GameStatistic>, from: Day): nat {
    if s == [] then 0 else CountSince(s[..|s| - 1], from) + (if s[|s| - 1].date >= from then 1 else 0)
  }

  /** The array the second pass fills has exactly the length the first pass counted. */
  lemma {:induction false} CountSinceIsLength(s: seq<GameStatistic>, from: Day)
    ensures |PlayTimesSince(s, from)| == CountSince(s, from)
  {
    if s != [] {
      CountSinceIsLength(s[..|s| - 1], from);
    }
  }

  /** Every reported minute count comes from an entry inside the window. */
  lemma {:induction false} PlayTimesSinceSound(s: seq<GameStatistic>, from: Day, m: int)
    requires m in PlayTimesSince(s, from)
    ensures exists k :: 0 <= k < |s| && s[k].date >= from && s[k].playTimeMinutes == m
  {
    var p := s[..|s| - 1];
    if m in PlayTimesSince(p, from) {
      PlayTimesSinceSound(p, from, m);
      var k :| 0 <= k < |p| && p[k].date >= from && p[k].playTimeMinutes == m;
      assert s[k] == p[k];
    } else {
      assert s[|s| - 1].date >= from && s[|s| - 1].playTimeMinutes == m;
    }
  }

  /** A wider window counts at least as many entries: the monthly list is never shorter than the weekly one. */
  lemma {:induction false} WiderWindowCountsMore(s: seq<GameStatistic>, early: Day, late: Day)
    requires early <= late
    ensures CountSince(s, late) <= CountSince(s, early)
  {
    if s != [] {
      WiderWindowCountsMore(s[..|s| - 1], early, late);
    }
  }

  /** The two counting and filling passes shared by the weekly and monthly lists. */
  method PlayTimeSince(statistics: array<GameStatistic>, from: Day) returns (result: array<int>)
    ensures fresh(result) && result[..] == PlayTimesSince(statistics[..], from)
    ensures result.Length == CountSince(statistics[..], from)
  {
    var count := CountPass(statistics, from);
    CountSinceIsLength(statistics[..], from);
    result := new int[count];
    FillPass(statistics, from, result);
  }

  /** The first pass: counts the entries dated on or after `from`. */
  method CountPass(statistics: array<GameStatistic>, from: Day) returns (count: nat)
    ensures count == CountSince(statistics[..], from)
  {
    count := 0;
    var i := 0;
    while i < statistics.Length
      invariant 0 <= i <= statistics.Length && count == CountSince(statistics[..i], from)
    {
      assert statistics[..i + 1][..i] == statistics[..i];
      if statistics[i].date >= from {
        count := count + 1;
      }
      i := i + 1;
    }
    assert statistics[..i] == statistics[..];
  }

  /** The second pass: copies the minutes of those entries, in order, into an array of that size. */
  method FillPass(statistics: array<GameStatistic>, from: Day, result: array<int>)
    requires result.Length == |PlayTimesSince(statistics[..], from)|
    modifies result
    ensures result[..] == PlayTimesSince(statistics[..], from)
  {
    var idx := 0;
    var i := 0;
    while i < statistics.Length
      invariant 0 <= i <= statistics.Length
      invariant idx == |PlayTimesSince(statistics[..i], from)| <= result.Length
      invariant result[..idx] == PlayTimesSince(statistics[..i], from)
    {
      assert statistics[..i + 1][..i] == statistics[..i];
      PrefixGrows(statistics[..], i + 1, from);
      if statistics[i].date >= from {
        result[idx] := statistics[i].playTimeMinutes;
        idx := idx + 1;
      }
      i := i + 1;
    }
    assert statistics[..i] == statistics[..];
    assert result[..idx] == result[..];
  }

  /** The list of a prefix is a prefix of the whole list. */
  lemma {:induction false} PrefixGrows(s: seq<GameStatistic>, n: nat, from: Day)
    requires n <= |s|
    ensures |PlayTimesSince(s[..n], from)| <= |PlayTimesSince(s, from)|
    ensures PlayTimesSince(s, from)[..|PlayTimesSince(s[..n], from)|] == PlayTimesSince(s[..n], from)
    decreases |s| - n
  {
    if n < |s| {
      PrefixGrows(s, n + 1, from);
      assert s[..n + 1][..n] == s[..n];
    } else {
      assert s[..n] == s;
    }
  }

  /** GetWeeklyPlayTime: the entries of the last 7 days and today. */
  method GetWeeklyPlayTime(statistics: array<GameStatistic>, today: Day) returns (result: array<int>)
    ensures result[..] == PlayTimesSince(statistics[..], today - 7)
  {
    result := PlayTimeSince(statistics, today - 7);
  }

  /** GetMonthlyPlayTime: the entries of the last 30 days and today. */
  method GetMonthlyPlayTime(statistics: array<GameStatistic>, today: Day) returns (result: array<int>)
    ensures result[..] == PlayTimesSince(statistics[..], today - 30)
  {
    result := PlayTimeSince(statistics, today - 30);
  }

  /** The half-open window [from, to); no upper bound when `to` is None (DateTime.MaxValue). */
  predicate InWindow(d: Day, from: Day, to: Option<Day>) {
    d >= from && (to.None? || d < to.value)
  }

  /** The minutes of game g inside the window. */
  function SumFor(s: seq<GameStatistic>, g: GameId, from: Day, to: Option<Day>): int {
    if s == [] then 0 else
      var last := s[|s| - 1];
      SumFor(s[..|s| - 1], g, from, to) + (if last.game == g && InWindow(last.date, from, to) then last.playTimeMinutes else 0)
  }

  /** All minutes inside the window. */
  function Total(s: seq<GameStatistic>, from: Day, to: Option<Day>): int {
    if s == [] then 0
    else Total(s[..|s| - 1], from, to) + (if InWindow(s[|s| - 1].date, from, to) then s[|s| - 1].playTimeMinutes else 0)
  }

  /** The games with an entry inside the window, each once, in the order they first qualify. */
  function GamesOf(s: seq<GameStatistic>, from: Day, to: Option<Day>): seq<GameId> {
    if s == [] then []
    else
      var gs := GamesOf(s[..|s| - 1], from, to);
      gs + (if InWindow(s[|s| - 1].date, from, to) && s[|s| - 1].game !in gs then [s[|s| - 1].game] else [])
  }

  predicate Distinct(gs: seq<GameId>) {
    forall i, j :: 0 <= i < j < |gs| ==> gs[i] != gs[j]
  }

  /** Each game is listed once, and exactly the games with a qualifying entry are listed. */
  lemma {:induction false} GamesOfExact(s: seq<GameStatistic>, from: Day, to: Option<Day>)
    ensures Distinct(GamesOf(s, from, to))
    ensures forall k :: 0 <= k < |s| && InWindow(s[k].date, from, to) ==> s[k].game in GamesOf(s, from, to)
    ensures forall g :: g in GamesOf(s, from, to) ==> exists k :: 0 <= k < |s| && s[k].game == g && InWindow(s[k].date, from, to)
  {
    if s != [] {
      var p := s[..|s| - 1];
      GamesOfExact(p, from, to);
      forall k | 0 <= k < |s| && InWindow(s[k].date, from, to)
        ensures s[k].game in GamesOf(s, from, to)
      {
        if k < |p| {
          assert p[k] == s[k];
        }
      }
      forall g | g in GamesOf(s, from, to)
        ensures exists k :: 0 <= k < |s| && s[k].game == g && InWindow(s[k].date, from, to)
      {
        if g in GamesOf(p, from, to) {
          var k :| 0 <= k < |p| && p[k].game == g && InWindow(p[k].date, from, to);
          assert s[k] == p[k];
        } else {
          assert s[|s| - 1].game == g && InWindow(s[|s| - 1].date, from, to);
        }
      }
    }
  }

  /** A game that never qualifies contributes nothing. */
  lemma {:induction false} SumForAbsent(s: seq<GameStatistic>, g: GameId, from: Day, to: Option<Day>)
    requires g !in GamesOf(s, from, to)
    ensures SumFor(s, g, from, to) == 0
  {
    if s != [] {
      SumForAbsent(s[..|s| - 1], g, from, to);
    }
  }

  /** The sum of the listed totals. */
  function SumTotals(gs: seq<GameId>, s: seq<GameStatistic>, from: Day, to: Option<Day>): int {
    if gs == [] then 0 else SumTotals(gs[..|gs| - 1], s, from, to) + SumFor(s, gs[|gs| - 1], from, to)
  }

  /** Adding one entry adds its minutes to the total of its game, if that game is listed. */
  lemma {:induction false} SumTotalsStep(gs: seq<GameId>, p: seq<GameStatistic>, x: GameStatistic, from: Day, to: Option<Day>)
    requires Distinct(gs)
    ensures SumTotals(gs, p + [x], from, to)
      == SumTotals(gs, p, from, to) + (if InWindow(x.date, from, to) && x.game in gs then x.playTimeMinutes else 0)
  {
    assert (p + [x])[..|p|] == p;
    if gs != [] {
      var init := gs[..|gs| - 1];
      assert Distinct(init);
      SumTotalsStep(init, p, x, from, to);
      assert x.game in gs <==> x.game in init || x.game == gs[|gs| - 1];
      assert x.game == gs[|gs| - 1] ==> x.game !in init;
    }
  }

  /** The per-game totals add up to the total of the window. */
  lemma {:induction false} GrandTotal(s: seq<GameStatistic>, from: Day, to: Option<Day>)
    ensures SumTotals(GamesOf(s, from, to), s, from, to) == Total(s, from, to)
  {
    if s != [] {
      var p := s[..|s| - 1];
      var x := s[|s| - 1];
      assert s == p + [x];
      var gs := GamesOf(p, from, to);
      GrandTotal(p, from, to);
      GamesOfExact(p, from, to);
      SumTotalsStep(gs, p, x, from, to);
      assert s[..|s| - 1] == p;
      if InWindow(x.date, from, to) && x.game !in gs {
        SumForAbsent(p, x.game, from, to);
        assert GamesOf(s, from, to) == gs + [x.game];
        assert (gs + [x.game])[..|gs|] == gs;
        assert SumFor(s, x.game, from, to) == x.playTimeMinutes;
      } else {
        assert GamesOf(s, from, to) == gs + [];
        assert gs + [] == gs;
      }
    }
  }

  /** The (total, game) pairs of the window, one per qualifying game, in the order the games first qualify. */
  function Totals(s: seq<GameStatistic>, from: Day, to: Option<Day>): seq<GameTotal> {
    var gs := GamesOf(s, from, to);
    seq(|gs|, k requires 0 <= k < |gs| => GameTotal(SumFor(s, gs[k], from, to), gs[k]))
  }

  /** The dictionary GroupByGame fills: each qualifying game mapped to its minutes inside the window. */
  method Accumulate(statistics: array<GameStatistic>, from: Day, to: Option<Day>) returns (grouped: map<GameId, int>)
    ensures forall g :: g in grouped <==> g in GamesOf(statistics[..], from, to)
    ensures forall g :: g in grouped ==> grouped[g] == SumFor(statistics[..], g, from, to)
  {
    grouped := map[];
    ghost var order: seq<GameId> := [];
    var i := 0;
    while i < statistics.Length
      invariant 0 <= i <= statistics.Length
      invariant order == GamesOf(statistics[..i], from, to)
      invariant forall g :: g in grouped <==> g in order
      invariant forall g :: g in grouped ==> grouped[g] == SumFor(statistics[..i], g, from, to)
    {
      var s := statistics[i];
      assert statistics[..i + 1][..i] == statistics[..i];
      if InWindow(s.date, from, to) {
        var existing := if s.game in grouped then grouped[s.game] else 0;
        if s.game !in grouped {
          SumForAbsent(statistics[..i], s.game, from, to);
          order := order + [s.game];
        }
        grouped := grouped[s.game := existing + s.playTimeMinutes];
      }
      i := i + 1;
    }
    assert statistics[..i] == statistics[..];
  }

  /**
   * GroupByGame: sums the minutes of each game inside [from, to) into a dictionary, then lists the
   * (total, game) pairs, each game once.
   */
  method GroupByGame(statistics: array<GameStatistic>, from: Day, to: Option<Day>) returns (result: array<GameTotal>)
    ensures fresh(result)
    ensures result[..] == Totals(statistics[..], from, to)
    ensures forall i, j :: 0 <= i < j < result.Length ==> result[i].game != result[j].game
  {
    var grouped := Accumulate(statistics, from, to);
    var keys := GamesOf(statistics[..], from, to);
    GamesOfExact(statistics[..], from, to);
    result := new GameTotal[|keys|](k => GameTotal(0, 0));
    var idx := 0;
    while idx < |keys|
      invariant 0 <= idx <= |keys|
      invariant forall k :: 0 <= k < idx ==> result[k] == GameTotal(grouped[keys[k]], keys[k])
    {
      result[idx] := GameTotal(grouped[keys[idx]], keys[idx]);
      idx := idx + 1;
    }
    assert result[..] == Totals(statistics[..], from, to);
  }

  method GetDailyPlayTimeByGame(statistics: array<GameStatistic>, today: Day) returns (result: array<GameTotal>)
    ensures result[..] == Totals(statistics[..], today, Some(today + 1))
  {
    result := GroupByGame(statistics, today, Some(today + 1));
  }

  method GetWeeklyPlayTimeByGame(statistics: array<GameStatistic>, today: Day) returns (result: array<GameTotal>)
    ensures result[..] == Totals(statistics[..], today - 7, None)
  {
    result := GroupByGame(statistics, today - 7, None);
  }

  method GetMonthlyPlayTimeByGame(statistics: array<GameStatistic>, today: Day) returns (result: array<GameTotal>)
    ensures result[..] == Totals(statistics[..], today - 30, None)
  {
    result := GroupByGame(statistics, today - 30, None);
  }
}
