/**
 * Cumulative league points per team, as computed by `process_team_points`
 * in points-tracker-app/app.py.
 *
 * A season is an ordered sequence of match rows.  The tracked teams are the
 * distinct home teams; each starts with the series [0], and every row appends
 * one entry to the home team's series and then one to the away team's series,
 * each entry being the series' previous last value plus 3 (win), 1 (draw) or
 * 0 (loss).  A team that only ever plays away has no series, and the first row
 * that names it fails with a KeyError.
 *
 * The specification is the fold `Run` over the rows (one `Step` per row); the
 * per-team reference `TeamSeries` and the closed forms `Appearances` and
 * `PointsEarned` are what the lemmas relate it to.  `ProcessTeamPoints` is the
 * loop of the source, proved equal to `Accumulate`.
 */
module MatchPoints {

  /** One row of the season: HomeTeam, AwayTeam, FTHG, FTAG. */
  datatype Match = Match(home: string, away: string, homeGoals: nat, awayGoals: nat)

  /** The dictionary lookup that fails: the missing key and the row it failed at. */
  datatype LookupError = KeyError(team: string, row: nat)

  datatype Result<T> = Ok(value: T) | Err(error: LookupError)

  /** team -> cumulative points after 0, 1, 2, ... of its matches. */
  type Table = map<string, seq<nat>>

  // ---------------------------------------------------------------------------
  // Scoring

  /** Points the home team earns from a match: win 3, draw 1, loss 0. */
  function HomeAward(m: Match): (p: nat)
    ensures IsAward(p)
    ensures p == 3 <==> m.homeGoals > m.awayGoals
    ensures p == 1 <==> m.homeGoals == m.awayGoals
  {
    if m.homeGoals > m.awayGoals then 3
    else if m.homeGoals < m.awayGoals then 0
    else 1
  }

  /** Points the away team earns from a match: win 3, draw 1, loss 0. */
  function AwayAward(m: Match): (p: nat)
    ensures IsAward(p)
    ensures p == 3 <==> m.homeGoals < m.awayGoals
    ensures p == 1 <==> m.homeGoals == m.awayGoals
  {
    if m.homeGoals > m.awayGoals then 0
    else if m.homeGoals < m.awayGoals then 3
    else 1
  }

  /** The amounts a series may grow by in one match. */
  predicate IsAward(p: int)
  {
    p == 0 || p == 1 || p == 3
  }

  /** The same match seen from the other side. */
  function Swapped(m: Match): Match
  {
    Match(m.away, m.home, m.awayGoals, m.homeGoals)
  }

  /** A decisive match hands out 3 points in all, a draw 2; each side gets 0, 1 or 3. */
  lemma AwardsTotal(m: Match)
    ensures IsAward(HomeAward(m)) && IsAward(AwayAward(m))
    ensures HomeAward(m) + AwayAward(m) == if m.homeGoals == m.awayGoals then 2 else 3
    ensures HomeAward(m) == 3 <==> m.homeGoals > m.awayGoals
    ensures AwayAward(m) == 3 <==> m.homeGoals < m.awayGoals
    ensures HomeAward(m) == 1 <==> AwayAward(m) == 1
  {
  }

  /** Scoring does not depend on which side is called home. */
  lemma AwardsSymmetric(m: Match)
    ensures HomeAward(Swapped(m)) == AwayAward(m)
    ensures AwayAward(Swapped(m)) == HomeAward(m)
  {
  }

  // ---------------------------------------------------------------------------
  // The fold

  function Last(s: seq<nat>): nat
    requires |s| > 0
  {
    s[|s| - 1]
  }

  /** Every tracked series has a last value to read with `[-1]`. */
  predicate NonEmptyLists(t: Table)
  {
    forall team :: team in t ==> |t[team]| > 0
  }

  /** `team_lists[team].append(team_lists[team][-1] + award)` */
  function Append(t: Table, team: string, award: nat): Table
    requires team in t && |t[team]| > 0
  {
    t[team := t[team] + [Last(t[team]) + award]]
  }

  /**
   * `Append` extends the named series by one entry, its old last value plus
   * the award, and leaves the keys and every other series as they were.
   */
  lemma AppendExtends(t: Table, team: string, award: nat)
    requires team in t && |t[team]| > 0
    ensures var r := Append(t, team, award);
      && r.Keys == t.Keys
      && |r[team]| == |t[team]| + 1 && r[team][..|t[team]|] == t[team]
      && Last(r[team]) == Last(t[team]) + award
      && forall x :: x in t && x != team ==> r[x] == t[x]
  {
    var r := Append(t, team, award);
    assert r[team][..|t[team]|] == t[team];
  }

  /**
   * One row of the loop: look up and extend the home series, then look up
   * and extend the away series (which, when both are the same team, reads the
   * value just appended).  A missing key is a KeyError at this row.
   */
  function Step(t: Table, m: Match, row: nat): (r: Result<Table>)
    requires NonEmptyLists(t)
    ensures r.Ok? ==> r.value.Keys == t.Keys && NonEmptyLists(r.value)
    ensures r.Err? ==> r.error.row == row
    ensures r.Ok? <==> m.home in t && m.away in t
  {
    if m.home !in t then Err(KeyError(m.home, row))
    else
      var afterHome := Append(t, m.home, HomeAward(m));
      if m.away !in afterHome then Err(KeyError(m.away, row))
      else Ok(Append(afterHome, m.away, AwayAward(m)))
  }

  /** The loop over the rows, in order; the first failing row ends it. */
  function Run(init: Table, ms: seq<Match>): (r: Result<Table>)
    requires NonEmptyLists(init)
    ensures r.Ok? ==> r.value.Keys == init.Keys && NonEmptyLists(r.value)
    ensures r.Err? ==> r.error.row < |ms|
    decreases |ms|
  {
    if ms == [] then Ok(init)
    else
      match Run(init, ms[..|ms| - 1])
      case Err(e) => Err(e)
      case Ok(t) => Step(t, ms[|ms| - 1], |ms| - 1)
  }

  /** The teams that appear as a home team somewhere in the season. */
  function HomeSet(ms: seq<Match>): set<string>
  {
    set i | 0 <= i < |ms| :: ms[i].home
  }

  /** `data['HomeTeam'].unique()`: the home teams, each once. */
  function DistinctHomeTeams(ms: seq<Match>): (teams: seq<string>)
    ensures forall i, j :: 0 <= i < j < |teams| ==> teams[i] != teams[j]
    ensures forall x :: x in teams <==> x in HomeSet(ms)
    decreases |ms|
  {
    if ms == [] then []
    else
      var prior := DistinctHomeTeams(ms[..|ms| - 1]);
      var h := ms[|ms| - 1].home;
      assert HomeSet(ms) == HomeSet(ms[..|ms| - 1]) + {h} by {
        HomeSetSnoc(ms);
      }
      if h in prior then prior else prior + [h]
  }

  lemma HomeSetSnoc(ms: seq<Match>)
    requires ms != []
    ensures HomeSet(ms) == HomeSet(ms[..|ms| - 1]) + {ms[|ms| - 1].home}
  {
    var front := ms[..|ms| - 1];
    forall x | x in HomeSet(ms)
      ensures x in HomeSet(front) + {ms[|ms| - 1].home}
    {
      var i :| 0 <= i < |ms| && ms[i].home == x;
      if i < |ms| - 1 {
        assert front[i] == ms[i];
      }
    }
    forall x | x in HomeSet(front)
      ensures x in HomeSet(ms)
    {
      var i :| 0 <= i < |front| && front[i].home == x;
      assert ms[i] == front[i];
    }
  }

  /** `{team: [0] for team in teams}` */
  function InitialLists(teams: seq<string>): (t: Table)
    ensures forall x :: x in t <==> x in teams
    ensures forall x :: x in t ==> t[x] == [0]
  {
    map x | x in teams :: [0]
  }

  /** `process_team_points(data)[0]` as a value: the series table, or the KeyError. */
  function Accumulate(ms: seq<Match>): (r: Result<Table>)
    ensures r.Ok? ==> r.value.Keys == HomeSet(ms) && NonEmptyLists(r.value)
    ensures r.Err? ==> r.error.row < |ms|
  {
    Run(InitialLists(DistinctHomeTeams(ms)), ms)
  }

  // ---------------------------------------------------------------------------
  // The source's loop

  /**
   * `process_team_points`: builds the dictionary of series and appends to it
   * row by row.  Returns the table and the distinct home teams, or the
   * KeyError of the first row whose away team has no series.
   */
  method ProcessTeamPoints(data: seq<Match>) returns (result: Result<(Table, seq<string>)>)
    ensures result.Ok? <==> Accumulate(data).Ok?
    ensures result.Ok? ==> result.value == (Accumulate(data).value, DistinctHomeTeams(data))
    ensures result.Err? ==> result.error == Accumulate(data).error
  {
    var teams := DistinctHomeTeams(data);
    var teamLists := InitialLists(teams);
    ghost var init := teamLists;
    var i := 0;
    while i < |data|
      invariant 0 <= i <= |data|
      invariant Run(init, data[..i]) == Ok(teamLists)
    {
      HomeTracked(data, i);
      RunSnoc(init, data, i);
      var next := PlayRow(teamLists, data[i], i);
      if next.Err? {
        result := Err(next.error);
        RunStopsAtError(init, data, i + 1);
        return;
      }
      teamLists := next.value;
      i := i + 1;
    }
    assert data[..i] == data;
    result := Ok((teamLists, teams));
  }

  /**
   * The body of the loop for one row: append the home team's new total, then
   * the away team's, reading `[-1]` after each append.  The home team always
   * has a series; the away team's lookup is the one that can fail.
   */
  method PlayRow(teamLists: Table, row: Match, index: nat) returns (next: Result<Table>)
    requires NonEmptyLists(teamLists) && row.home in teamLists
    ensures next == Step(teamLists, row, index)
  {
    var lists := teamLists;
    var home, away := row.home, row.away;
    if row.homeGoals > row.awayGoals {
      lists := lists[home := lists[home] + [lists[home][|lists[home]| - 1] + 3]];
      if away !in lists {
        return Err(KeyError(away, index));
      }
      lists := lists[away := lists[away] + [lists[away][|lists[away]| - 1] + 0]];
    } else if row.homeGoals < row.awayGoals {
      lists := lists[home := lists[home] + [lists[home][|lists[home]| - 1] + 0]];
      if away !in lists {
        return Err(KeyError(away, index));
      }
      lists := lists[away := lists[away] + [lists[away][|lists[away]| - 1] + 3]];
    } else {
      lists := lists[home := lists[home] + [lists[home][|lists[home]| - 1] + 1]];
      if away !in lists {
        return Err(KeyError(away, index));
      }
      lists := lists[away := lists[away] + [lists[away][|lists[away]| - 1] + 1]];
    }
    next := Ok(lists);
  }

  /** Every row's home team has a series from the start. */
  lemma HomeTracked(ms: seq<Match>, i: nat)
    requires i < |ms|
    ensures ms[i].home in InitialLists(DistinctHomeTeams(ms))
  {
    assert ms[i].home in HomeSet(ms);
  }

  /** Running one more row is one more `Step` on the table so far. */
  lemma RunSnoc(init: Table, ms: seq<Match>, i: nat)
    requires NonEmptyLists(init)
    requires i < |ms| && Run(init, ms[..i]).Ok?
    ensures Run(init, ms[..i + 1]) == Step(Run(init, ms[..i]).value, ms[i], i)
  {
    assert ms[..i + 1][..i] == ms[..i];
  }

  /** Once a prefix of the rows fails, the whole season fails with the same error. */
  lemma {:induction false} RunStopsAtError(init: Table, ms: seq<Match>, k: nat)
    requires NonEmptyLists(init)
    requires k <= |ms|
    requires Run(init, ms[..k]).Err?
    ensures Run(init, ms) == Run(init, ms[..k])
    decreases |ms| - k
  {
    if k < |ms| {
      var longer := ms[..k + 1];
      assert longer[..k] == ms[..k];
      assert Run(init, longer) == Run(init, ms[..k]);
      RunStopsAtError(init, ms, k + 1);
    } else {
      assert ms[..k] == ms;
    }
  }

  // ---------------------------------------------------------------------------
  // One row at a time

  /**
   * The scoring rule on one row whose teams are both tracked: the home series
   * gains the home award, the away series the away award (a self-match gains
   * both, home first), and no other series changes.
   */
  lemma StepScoring(t: Table, m: Match, row: nat)
    requires NonEmptyLists(t)
    requires m.home in t && m.away in t
    ensures Step(t, m, row).Ok?
    ensures var r := Step(t, m, row).value;
      && (m.home != m.away ==>
            && r[m.home] == t[m.home] + [Last(t[m.home]) + HomeAward(m)]
            && r[m.away] == t[m.away] + [Last(t[m.away]) + AwayAward(m)])
      && (m.home == m.away ==>
            r[m.home] == t[m.home] + [Last(t[m.home]) + HomeAward(m), Last(t[m.home]) + HomeAward(m) + AwayAward(m)])
      && (forall x :: x in t && x != m.home && x != m.away ==> r[x] == t[x])
  {
    var r := Step(t, m, row).value;
    if m.home == m.away {
      var h := t[m.home] + [Last(t[m.home]) + HomeAward(m)];
      assert r[m.home] == h + [Last(h) + AwayAward(m)];
    }
  }

  /** Two distinct tracked teams in one row gain 3 points between them, or 2 for a draw. */
  lemma StepPointsShared(t: Table, m: Match, row: nat)
    requires NonEmptyLists(t)
    requires m.home in t && m.away in t && m.home != m.away
    ensures Step(t, m, row).Ok?
    ensures var r := Step(t, m, row).value;
      (Last(r[m.home]) - Last(t[m.home])) + (Last(r[m.away]) - Last(t[m.away]))
        == if m.homeGoals == m.awayGoals then 2 else 3
  {
    StepScoring(t, m, row);
  }

  // ---------------------------------------------------------------------------
  // The per-team reference

  /** How many series entries a row gives `team`: one per side it plays (two for a self-match). */
  function RowAppearances(m: Match, team: string): nat
  {
    (if m.home == team then 1 else 0) + (if m.away == team then 1 else 0)
  }

  /** Points a row gives `team`, summed over the sides it plays. */
  function RowPoints(m: Match, team: string): nat
  {
    (if m.home == team then HomeAward(m) else 0) + (if m.away == team then AwayAward(m) else 0)
  }

  /** Number of (home or away) appearances of `team` in the season. */
  function Appearances(ms: seq<Match>, team: string): nat
    decreases |ms|
  {
    if ms == [] then 0 else Appearances(ms[..|ms| - 1], team) + RowAppearances(ms[|ms| - 1], team)
  }

  /** League points `team` earns over the season under win 3 / draw 1 / loss 0. */
  function PointsEarned(ms: seq<Match>, team: string): nat
    decreases |ms|
  {
    if ms == [] then 0 else PointsEarned(ms[..|ms| - 1], team) + RowPoints(ms[|ms| - 1], team)
  }

  /** What one row appends to the series of `team`: the home entry, then the away entry. */
  function Extend(prev: seq<nat>, m: Match, team: string): (s: seq<nat>)
    requires |prev| > 0
    ensures |s| >= |prev| && s[..|prev|] == prev
  {
    var afterHome := if m.home == team then prev + [Last(prev) + HomeAward(m)] else prev;
    if m.away == team then afterHome + [Last(afterHome) + AwayAward(m)] else afterHome
  }

  /**
   * The series of one team alone, built from `start` over the rows that
   * involve it, with no table and no lookups; it only ever grows at the end.
   */
  function TeamSeries(start: seq<nat>, ms: seq<Match>, team: string): (s: seq<nat>)
    requires |start| > 0
    ensures |s| >= |start| && s[..|start|] == start
    decreases |ms|
  {
    if ms == [] then start
    else Extend(TeamSeries(start, ms[..|ms| - 1], team), ms[|ms| - 1], team)
  }

  /** A successful row extends every tracked series exactly as `Extend` does. */
  lemma StepPerTeam(t: Table, m: Match, row: nat, team: string)
    requires NonEmptyLists(t)
    requires Step(t, m, row).Ok? && team in t
    ensures Step(t, m, row).value[team] == Extend(t[team], m, team)
  {
    StepScoring(t, m, row);
  }

  /** The table the fold builds holds, for every tracked team, exactly its own series. */
  lemma {:induction false} RunPerTeam(init: Table, ms: seq<Match>)
    requires NonEmptyLists(init)
    requires Run(init, ms).Ok?
    ensures forall team :: team in init ==> Run(init, ms).value[team] == TeamSeries(init[team], ms, team)
    decreases |ms|
  {
    if ms != [] {
      var front := ms[..|ms| - 1];
      var m := ms[|ms| - 1];
      RunPerTeam(init, front);
      var t := Run(init, front).value;
      forall team | team in init
        ensures Run(init, ms).value[team] == TeamSeries(init[team], ms, team)
      {
        StepPerTeam(t, m, |ms| - 1, team);
      }
    }
  }

  /** A series holds one entry more per appearance. */
  lemma {:induction false} TeamSeriesLength(start: seq<nat>, ms: seq<Match>, team: string)
    requires |start| > 0
    ensures |TeamSeries(start, ms, team)| == |start| + Appearances(ms, team)
    decreases |ms|
  {
    if ms != [] {
      TeamSeriesLength(start, ms[..|ms| - 1], team);
    }
  }

  /** The last entry of a series is its first last value plus the points earned. */
  lemma {:induction false} TeamSeriesLast(start: seq<nat>, ms: seq<Match>, team: string)
    requires |start| > 0
    ensures Last(TeamSeries(start, ms, team)) == Last(start) + PointsEarned(ms, team)
    decreases |ms|
  {
    if ms != [] {
      TeamSeriesLast(start, ms[..|ms| - 1], team);
    }
  }

  /** Consecutive entries differ by 0, 1 or 3. */
  predicate ValidSteps(s: seq<nat>)
  {
    forall i :: 0 < i < |s| ==> IsAward(s[i] as int - s[i - 1])
  }

  predicate NonDecreasing(s: seq<nat>)
  {
    forall i, j :: 0 <= i <= j < |s| ==> s[i] <= s[j]
  }

  /** Appending the home and away awards keeps every step 0, 1 or 3. */
  lemma {:induction false} TeamSeriesSteps(start: seq<nat>, ms: seq<Match>, team: string)
    requires |start| > 0
    requires ValidSteps(start)
    ensures ValidSteps(TeamSeries(start, ms, team))
    decreases |ms|
  {
    if ms != [] {
      TeamSeriesSteps(start, ms[..|ms| - 1], team);
      AwardsTotal(ms[|ms| - 1]);
    }
  }

  /** Steps of 0, 1 or 3 make a series non-decreasing. */
  lemma {:induction false} ValidStepsNonDecreasing(s: seq<nat>)
    requires ValidSteps(s)
    ensures NonDecreasing(s)
    decreases |s|
  {
    if |s| > 1 {
      var front := s[..|s| - 1];
      assert ValidSteps(front) by {
        forall i | 0 < i < |front|
          ensures IsAward(front[i] as int - front[i - 1])
        {
          assert front[i] == s[i] && front[i - 1] == s[i - 1];
        }
      }
      ValidStepsNonDecreasing(front);
      forall i, j | 0 <= i <= j < |s|
        ensures s[i] <= s[j]
      {
        if j < |s| - 1 {
          assert s[i] == front[i] && s[j] == front[j];
        } else if i < j {
          assert s[i] == front[i] && s[j - 1] == front[j - 1];
          assert front[i] <= front[j - 1];
          assert IsAward(s[j] as int - s[j - 1]);
        }
      }
    }
  }

  // ---------------------------------------------------------------------------
  // The season

  /**
   * What the successful result holds: the keys are exactly the home teams;
   * every series starts at 0, has one entry per appearance plus one, moves by
   * 0, 1 or 3, never decreases, and ends at the team's points earned.
   */
  lemma AccumulateSeries(ms: seq<Match>)
    requires Accumulate(ms).Ok?
    ensures var t := Accumulate(ms).value;
      && t.Keys == HomeSet(ms)
      && forall team :: team in t ==>
           && t[team][0] == 0
           && |t[team]| == 1 + Appearances(ms, team)
           && Last(t[team]) == PointsEarned(ms, team)
           && ValidSteps(t[team])
           && NonDecreasing(t[team])
  {
    var init := InitialLists(DistinctHomeTeams(ms));
    var t := Accumulate(ms).value;
    RunPerTeam(init, ms);
    forall team | team in t
      ensures t[team][0] == 0
      ensures |t[team]| == 1 + Appearances(ms, team)
      ensures Last(t[team]) == PointsEarned(ms, team)
      ensures ValidSteps(t[team])
      ensures NonDecreasing(t[team])
    {
      assert init[team] == [0];
      assert t[team] == TeamSeries([0], ms, team);
      TeamSeriesLength([0], ms, team);
      TeamSeriesLast([0], ms, team);
      TeamSeriesSteps([0], ms, team);
      ValidStepsNonDecreasing(t[team]);
      assert t[team][..1] == [0];
    }
  }

  /**
   * When every home team is tracked, the fold fails exactly when some row's
   * away team is not, and then at the first such row, naming that away team.
   */
  lemma {:induction false} RunFailsAtFirstUnknownAway(init: Table, ms: seq<Match>)
    requires NonEmptyLists(init)
    requires forall i :: 0 <= i < |ms| ==> ms[i].home in init
    ensures Run(init, ms).Ok? <==> forall i :: 0 <= i < |ms| ==> ms[i].away in init
    ensures Run(init, ms).Err? ==>
      var e := Run(init, ms).error;
      && e.row < |ms|
      && e.team == ms[e.row].away
      && e.team !in init
      && forall j :: 0 <= j < e.row ==> ms[j].away in init
    decreases |ms|
  {
    if ms != [] {
      var front := ms[..|ms| - 1];
      assert forall i :: 0 <= i < |front| ==> front[i] == ms[i];
      RunFailsAtFirstUnknownAway(init, front);
    }
  }

  /**
   * The season fails exactly when some row's away team never plays at home;
   * the error names the first such row and its away team, never a home team.
   */
  lemma AccumulateFails(ms: seq<Match>)
    ensures Accumulate(ms).Ok? <==> forall i :: 0 <= i < |ms| ==> ms[i].away in HomeSet(ms)
    ensures Accumulate(ms).Err? ==>
      var e := Accumulate(ms).error;
      && e.row < |ms|
      && e.team == ms[e.row].away
      && e.team !in HomeSet(ms)
      && forall j :: 0 <= j < e.row ==> ms[j].away in HomeSet(ms)
  {
    var init := InitialLists(DistinctHomeTeams(ms));
    assert forall i :: 0 <= i < |ms| ==> ms[i].home in HomeSet(ms);
    RunFailsAtFirstUnknownAway(init, ms);
  }

  /** With no rows there are no home teams: the table is empty. */
  lemma AccumulateEmpty()
    ensures DistinctHomeTeams([]) == []
    ensures Accumulate([]) == Ok(map[])
  {
  }
}
