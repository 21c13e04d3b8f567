/**
 * The figures points-tracker-app/app.py derives from the finished series:
 * the x-axis `match_day` shared by the charts, and the two-team statistics
 * (each team's total, the point difference and which team leads).
 */
module Summary {
  import opened MatchPoints

  datatype Option<T> = None | Some(value: T)

  function Max(a: nat, b: nat): nat
  {
    if a < b then b else a
  }

  /** The longest series among `teams` (each of which has one). */
  function MaxLength(teamLists: Table, teams: seq<string>): (n: nat)
    requires teams != []
    requires forall t :: t in teams ==> t in teamLists
    ensures forall t :: t in teams ==> |teamLists[t]| <= n
    ensures exists t :: t in teams && |teamLists[t]| == n
    decreases |teams|
  {
    if |teams| == 1 then |teamLists[teams[0]]|
    else
      var rest := MaxLength(teamLists, teams[1..]);
      assert forall t :: t in teams ==> t == teams[0] || t in teams[1..];
      Max(|teamLists[teams[0]]|, rest)
  }

  /**
   * `max(len(points) for points in team_lists.values()) - 1`, where `teams`
   * enumerates the keys of the table (the order its values are visited in).
   * Python's `max` of no values raises ValueError: that is `None` here.
   */
  function MaxGameweek(teamLists: Table, teams: seq<string>): (g: Option<int>)
    requires forall t :: t in teams <==> t in teamLists
    ensures g.None? <==> teamLists == map[]
    ensures g.Some? ==> forall t :: t in teamLists ==> |teamLists[t]| <= g.value + 1
    ensures g.Some? ==> exists t :: t in teamLists && |teamLists[t]| == g.value + 1
  {
    if teams == [] then
      assert teamLists == map[];
      None
    else
      assert teams[0] in teamLists;
      Some(MaxLength(teamLists, teams) - 1)
  }

  /** `list(range(0, n))` */
  function Range(n: nat): (days: seq<nat>)
    ensures |days| == n
    ensures forall i :: 0 <= i < n ==> days[i] == i
  {
    if n == 0 then [] else Range(n - 1) + [n - 1]
  }

  /** `list(range(0, max_gameweek + 1))`: the gameweeks 0, 1, ..., max_gameweek. */
  function MatchDay(maxGameweek: int): (days: seq<nat>)
    ensures |days| == if maxGameweek < 0 then 0 else maxGameweek + 1
    ensures forall i :: 0 <= i < |days| ==> days[i] == i
  {
    if maxGameweek < 0 then [] else Range(maxGameweek + 1)
  }

  /**
   * For a season that processed without error: with no rows there is no
   * maximum (ValueError); otherwise the axis has one point per entry of the
   * longest series, no series is longer than the axis, and a series fills
   * the axis exactly when its team has played the most matches.
   */
  lemma SeasonAxis(ms: seq<Match>)
    requires Accumulate(ms).Ok?
    ensures ms == [] <==> MaxGameweek(Accumulate(ms).value, DistinctHomeTeams(ms)).None?
    ensures ms != [] ==>
      var t := Accumulate(ms).value;
      var days := MatchDay(MaxGameweek(t, DistinctHomeTeams(ms)).value);
      && |days| >= 2
      && (forall team :: team in t ==> |t[team]| <= |days|)
      && (forall team :: team in t ==>
            (|t[team]| == |days| <==>
             forall other :: other in t ==> Appearances(ms, other) <= Appearances(ms, team)))
  {
    var t := Accumulate(ms).value;
    AccumulateSeries(ms);
    if ms != [] {
      assert ms[0].home in HomeSet(ms);
      assert t != map[];
      var g := MaxGameweek(t, DistinctHomeTeams(ms));
      var days := MatchDay(g.value);
      var longest :| longest in t && |t[longest]| == g.value + 1;
      assert |days| == |t[longest]|;
      AppearancesOfHomeTeam(ms, ms[0].home);
      assert |t[ms[0].home]| >= 2;
    }
  }

  /** A team that plays at home at least once has at least one appearance. */
  lemma {:induction false} AppearancesOfHomeTeam(ms: seq<Match>, team: string)
    requires team in HomeSet(ms)
    ensures Appearances(ms, team) >= 1
    decreases |ms|
  {
    var last := ms[|ms| - 1];
    if last.home != team {
      HomeSetSnoc(ms);
      AppearancesOfHomeTeam(ms[..|ms| - 1], team);
    }
  }

  /** Which of the two selected teams the delta text names. */
  datatype Leader = FirstLeads | SecondLeads

  /** What the three metrics show for two selected teams. */
  datatype PointsComparison = PointsComparison(
    points1: nat,     // `team_lists[team1][-1]`
    points2: nat,     // `team_lists[team2][-1]`
    difference: int,  // signed, team1 minus team2
    shown: nat,       // `abs(difference)`
    leader: Leader,
    delta: string)    // "<team> leads"

  /**
   * The statistics summary for two teams chosen from the table's keys.  The
   * first team is said to lead only when strictly ahead; on equal points the
   * text names the second team.
   */
  function Compare(teamLists: Table, team1: string, team2: string): (c: PointsComparison)
    requires team1 in teamLists && team2 in teamLists
    requires |teamLists[team1]| > 0 && |teamLists[team2]| > 0
    ensures c.points1 == Last(teamLists[team1]) && c.points2 == Last(teamLists[team2])
    ensures c.points1 == c.points2 + c.difference
    ensures c.shown == c.difference || c.shown == -c.difference
    ensures c.leader == FirstLeads <==> c.points1 > c.points2
    ensures c.delta == (if c.leader == FirstLeads then team1 else team2) + " leads"
  {
    var p1 := Last(teamLists[team1]);
    var p2 := Last(teamLists[team2]);
    var difference := p1 - p2;
    var shown := if difference < 0 then -difference else difference;
    if difference > 0 then PointsComparison(p1, p2, difference, shown, FirstLeads, team1 + " leads")
    else PointsComparison(p1, p2, difference, shown, SecondLeads, team2 + " leads")
  }

  /**
   * On a processed season the summary compares the points each team earned:
   * the shown difference is the gap between them, and the first team leads
   * exactly when it earned strictly more.
   */
  lemma SeasonComparison(ms: seq<Match>, team1: string, team2: string)
    requires Accumulate(ms).Ok?
    requires team1 in HomeSet(ms) && team2 in HomeSet(ms)
    ensures var t := Accumulate(ms).value;
      team1 in t && team2 in t && |t[team1]| > 0 && |t[team2]| > 0 &&
      var c := Compare(t, team1, team2);
      && c.shown == (if PointsEarned(ms, team1) >= PointsEarned(ms, team2)
                     then PointsEarned(ms, team1) - PointsEarned(ms, team2)
                     else PointsEarned(ms, team2) - PointsEarned(ms, team1))
      && (c.leader == FirstLeads <==> PointsEarned(ms, team1) > PointsEarned(ms, team2))
  {
    AccumulateSeries(ms);
  }
}
