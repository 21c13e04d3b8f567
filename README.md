# EPL cumulative points tracker: the points accumulator

This project models the one piece of domain logic in the points-tracker app:
`process_team_points` in points-tracker-app/app.py. It turns an ordered season of
match rows (`HomeTeam`, `AwayTeam`, `FTHG`, `FTAG`) into one cumulative-points
series per team, using win 3 / draw 1 / loss 0 scoring. It also models the two
figures the app derives from the finished series: the shared x-axis
(`max_gameweek`, `match_day`) and the two-team statistics summary (each team's
total, the point difference and which team leads).

- `match_points.dfy` (module `MatchPoints`)
  - Data: the `Match` row, the `KeyError` lookup failure, and the
    `map<string, seq<nat>>` table of series.
  - Scoring: `HomeAward` and `AwayAward`.
  - Specification of the loop: a fold `Run` of one `Step` per row, started
    from `InitialLists(DistinctHomeTeams(ms))`. `Accumulate` is that fold for a
    whole season.
  - The source's loop: the method `ProcessTeamPoints` and its loop body
    `PlayRow`. They are proved equal to `Accumulate` and `Step`.
  - Reference definitions the fold is proved against: `TeamSeries` (one
    team's series built alone), `Appearances` and `PointsEarned`.
- `summary.dfy` (module `Summary`): `MaxGameweek`, `MatchDay` and the
  two-team `Compare`, with lemmas that tie them to a processed season.
- `scenarios.dfy` (module `Scenarios`): small seasons worked through the
  model.

Behaviour the code has, and which the model keeps:

- The tracked teams are exactly the distinct home teams.
- A team that only ever plays away has no series. The first row that names
  it fails with a `KeyError`. The home lookup never fails.
- A row whose home and away team are the same appends twice. The away
  entry reads the home entry that was just appended.
- The series hold running totals, not per-match points, so a loss repeats
  the previous total. After a draw and then a loss, a team reads
  0, 1, 1 (not 0, 1, 0).
- On equal points the summary's delta text names the second team, because the
  condition is `difference > 0`.
- `max` over an empty table raises `ValueError`. The model returns `None`
  for this case.

## Model

| member | source | states |
|---|---|---|
| MatchPoints.HomeAward | points-tracker-app/app.py:32-40 | the points the home team gets from its branch (3 if FTHG > FTAG, 0 if FTHG < FTAG, 1 otherwise); the contract says the award is 0, 1 or 3, is 3 exactly for a home win and is 1 exactly for a draw; `AwardsTotal` and `AwardsSymmetric` relate it to `AwayAward` |
| MatchPoints.AwayAward | points-tracker-app/app.py:32-40 | the points the away team gets from its branch (0, 3, 1); the contract says the award is 0, 1 or 3, is 3 exactly for an away win and is 1 exactly for a draw |
| MatchPoints.Append | points-tracker-app/app.py:33-40 | `team_lists[team].append(team_lists[team][-1] + award)` on the table as a value; its properties are stated by `AppendExtends` |
| MatchPoints.AppendExtends | points-tracker-app/app.py:33-40 | `Append` adds exactly one entry to the named series, old last value plus the award, keeps the earlier entries and the key set, and leaves every other series unchanged |
| MatchPoints.AwardsTotal | points-tracker-app/app.py:32-40 | each side gets 0, 1 or 3; a decisive match gives 3 points in all and a draw gives 2; home gets 3 exactly when FTHG > FTAG and away gets 3 exactly when FTHG < FTAG |
| MatchPoints.AwardsSymmetric | points-tracker-app/app.py:32-40 | swapping the sides of a match swaps the two awards |
| MatchPoints.Step | points-tracker-app/app.py:29-40 | one row succeeds exactly when the home and away teams both have a series; it keeps the key set and every series non-empty; a failure names this row |
| MatchPoints.Run | points-tracker-app/app.py:28-40 | the loop over the rows never adds or removes a key and keeps every series non-empty; a failure names one of the rows |
| MatchPoints.DistinctHomeTeams | points-tracker-app/app.py:25 | `unique()` of the home column has no duplicates and holds exactly the teams that play at home somewhere |
| MatchPoints.InitialLists | points-tracker-app/app.py:26 | the starting table has exactly the given teams as keys, each mapped to [0] |
| MatchPoints.Accumulate | points-tracker-app/app.py:23-42 | `process_team_points` as a value: the loop `Run` started from `[0]` for each distinct home team; on success the keys are exactly the home teams and every series is non-empty, and a failure names one of the rows; `AccumulateSeries`, `AccumulateFails` and `ProcessTeamPoints` state the rest |
| MatchPoints.ProcessTeamPoints | points-tracker-app/app.py:23-42 | the loop returns the table of `Accumulate` and the distinct home teams, or the same KeyError as `Accumulate` |
| MatchPoints.PlayRow | points-tracker-app/app.py:29-40 | the three-branch loop body, with in-place appends and `[-1]` reads, computes exactly `Step` for the row, KeyError included |
| MatchPoints.RunStopsAtError | points-tracker-app/app.py:28-42 | once a prefix of the rows raises, the whole call raises the same error |
| MatchPoints.HomeTracked | points-tracker-app/app.py:25-26 | every row's home team has a series from the start |
| MatchPoints.StepScoring | points-tracker-app/app.py:32-40 | on a row whose teams are both tracked: home's series gains old last + home award; away's series gains old last + away award; a self-match gains both, home first; every other series is unchanged |
| MatchPoints.StepPointsShared | points-tracker-app/app.py:32-40 | two distinct teams in one row gain 3 points between them, or 2 for a draw |
| MatchPoints.Extend | points-tracker-app/app.py:32-40 | what one row appends to one team's series only extends it at the end |
| MatchPoints.TeamSeries | points-tracker-app/app.py:28-40 | one team's series, built from its start over the rows, keeps its start as a prefix |
| MatchPoints.StepPerTeam | points-tracker-app/app.py:32-40 | a successful row changes each tracked series exactly as `Extend` does |
| MatchPoints.RunPerTeam | points-tracker-app/app.py:28-40 | the table the fold builds holds, for every tracked team, exactly the series `TeamSeries` builds for it alone |
| MatchPoints.TeamSeriesLength | points-tracker-app/app.py:28-40 | a series grows by one entry per appearance (home or away, twice for a self-match) |
| MatchPoints.TeamSeriesLast | points-tracker-app/app.py:32-40 | a series' last entry is its starting last value plus the points the team earned |
| MatchPoints.TeamSeriesSteps | points-tracker-app/app.py:26-40 | if consecutive entries differ by 0, 1 or 3 at the start, they still do after any rows |
| MatchPoints.ValidStepsNonDecreasing | points-tracker-app/app.py:33-40 | steps of 0, 1 or 3 make a series non-decreasing |
| MatchPoints.AccumulateSeries | points-tracker-app/app.py:23-42 | on success the keys are exactly the home teams. Each series starts at 0 and has 1 + appearances entries. It moves by 0, 1 or 3, never decreases, and ends at the team's points earned |
| MatchPoints.RunFailsAtFirstUnknownAway | points-tracker-app/app.py:33-40 | with every home team tracked, the loop fails exactly when some row's away team is untracked, and then at the first such row, naming that away team |
| MatchPoints.AccumulateFails | points-tracker-app/app.py:25-40 | a season fails exactly when some away team never plays at home; the KeyError names the first such row and its away team, never a home team |
| MatchPoints.AccumulateEmpty | points-tracker-app/app.py:25-26 | no rows give no teams and an empty table |
| Summary.MaxLength | points-tracker-app/app.py:86 | the maximum series length is at least every listed team's length and equal to one of them |
| Summary.MaxGameweek | points-tracker-app/app.py:86 | `max_gameweek` is absent (ValueError) exactly for an empty table; otherwise every series has at most `max_gameweek + 1` entries and some series has exactly that many |
| Summary.Range | points-tracker-app/app.py:87 | `range(0, n)` as a list has n entries and entry i is i |
| Summary.MatchDay | points-tracker-app/app.py:87 | `match_day` has `max_gameweek + 1` entries (none if negative) and entry i is gameweek i |
| Summary.SeasonAxis | points-tracker-app/app.py:86-87 | on a processed season, no rows means no maximum (ValueError). Otherwise the axis has at least 2 points and no series is longer. A series fills the axis exactly when its team has the most appearances |
| Summary.AppearancesOfHomeTeam | points-tracker-app/app.py:25-40 | a team that plays at home at least once has at least one appearance |
| Summary.Compare | points-tracker-app/app.py:118-126 | the metrics show each team's last total and the signed difference; the displayed value is its absolute value; the text names team1 exactly when team1 is strictly ahead, otherwise team2 |
| Summary.SeasonComparison | points-tracker-app/app.py:118-126 | on a processed season the displayed difference is the gap between the points the two teams earned, and team1 leads exactly when it earned strictly more |
| Scenarios.AwayOnlyTeamFails | points-tracker-app/app.py:189-194 | the app's three example rows (Liverpool-Chelsea 2-1, Man City-Man United 3-1, Arsenal-Tottenham 1-1): Chelsea only plays away, so the season raises KeyError for Chelsea at the first row |
| Scenarios.HomeAndAway | points-tracker-app/app.py:23-42 | a draw at A and then A winning at B give A: 0, 1, 4 and B: 0, 1, 1 |
| Scenarios.OrderMatters | points-tracker-app/app.py:28-40 | the same two rows in the other order give A: 0, 3, 4 and B: 0, 0, 1 |
| Scenarios.ThreeDraws | points-tracker-app/app.py:23-42 | three draws between two teams that both host give 0, 1, 2, 3 to each |
| Scenarios.SelfMatchDraw | points-tracker-app/app.py:33-40 | a drawn self-match gives 0, 1, 2 |
| Scenarios.EmptySeason | points-tracker-app/app.py:25-26 | an empty season gives an empty table, and the axis then has no maximum |
| Scenarios.LevelTeamsNameTheSecond | points-tracker-app/app.py:124-126 | two teams on equal points show a difference of 0 and name the second team |

## Left out

- The Streamlit page, the file uploader, the widgets, the selectboxes, the colour pickers and the metric rendering (points-tracker-app/app.py:1-21, 89-158, 184-195) are UI and I/O. The two teams passed to `Compare` stand for the selectbox choices, which always come from the table's keys.
- `pd.read_csv` and the required-column check (points-tracker-app/app.py:72-79) are file parsing through pandas. Rows arrive as a sequence of `Match` records whose goals are naturals. Non-integer or NaN goals are not modelled.
- `create_comparison_chart` and the multi-team chart (points-tracker-app/app.py:44-67, 160-179) are matplotlib rendering. A series shorter than `match_day` makes matplotlib fail; that failure is not modelled. `Summary.SeasonAxis` states which series match the axis length.
- The catch-all `except Exception` that shows an error message (points-tracker-app/app.py:181-182) is presentation-layer recovery. The model returns the `KeyError` (and `None` for the empty `max`) to the caller.
- MatchPoints.ProcessTeamPoints: the dictionary is a local variable that no one else can see. The model therefore treats it as a map value that the loop reassigns. Appending to a shared list in place, and any aliasing, is not modelled.
- `KeyError` carries the row index as well as the missing key. Python's exception carries only the key. The index is there so the model can state at which row the failure happens.
- MatchPoints.DistinctHomeTeams: the body keeps the order of first appearance, as pandas `unique()` does, but the contract states only that there are no duplicates and which teams are present. The app uses the order only through `sorted(teams)` and `len(teams)`.
