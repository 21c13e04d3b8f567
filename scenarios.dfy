/**
 * Small seasons worked through the model: the example rows of the app's
 * expected-format table, a home-and-away pair in both orders, three draws,
 * and a team playing itself.
 */
module Scenarios {
  import opened MatchPoints
  import opened Summary

  /**
   * The three example rows of the app's expected-format table: Chelsea only
   * plays away, so the first row fails on its lookup.
   */
  lemma AwayOnlyTeamFails()
    ensures Accumulate([Match("Liverpool", "Chelsea", 2, 1), Match("Man City", "Man United", 3, 1),
                        Match("Arsenal", "Tottenham", 1, 1)])
         == Err(KeyError("Chelsea", 0))
  {
    var ms := [Match("Liverpool", "Chelsea", 2, 1), Match("Man City", "Man United", 3, 1),
               Match("Arsenal", "Tottenham", 1, 1)];
    assert "Chelsea" !in HomeSet(ms);
    assert ms[..1] == [ms[0]] && ms[..1][..0] == [];
    var init := InitialLists(DistinctHomeTeams(ms));
    assert Run(init, ms[..1]) == Err(KeyError("Chelsea", 0));
    RunStopsAtError(init, ms, 1);
  }

  /** One row between "A" and "B" on a table tracking exactly those two teams. */
  lemma PairStep(t: Table, m: Match, row: nat, a: seq<nat>, b: seq<nat>)
    requires NonEmptyLists(t) && t.Keys == {"A", "B"}
    requires m.home in t && m.away in t
    requires a == Extend(t["A"], m, "A") && b == Extend(t["B"], m, "B")
    ensures Step(t, m, row) == Ok(map["A" := a, "B" := b])
  {
    var r := Step(t, m, row).value;
    StepPerTeam(t, m, row, "A");
    StepPerTeam(t, m, row, "B");
    assert r == map["A" := a, "B" := b];
  }

  /** A two-row season is two steps. */
  lemma RunTwo(init: Table, m0: Match, m1: Match)
    requires NonEmptyLists(init) && Step(init, m0, 0).Ok?
    ensures Run(init, [m0, m1]) == Step(Step(init, m0, 0).value, m1, 1)
  {
    assert [m0, m1][..1] == [m0] && [m0][..0] == [];
    assert Run(init, [m0]) == Step(init, m0, 0);
  }

  /** A three-row season is three steps. */
  lemma RunThree(init: Table, m0: Match, m1: Match, m2: Match)
    requires NonEmptyLists(init) && Step(init, m0, 0).Ok?
    requires Step(Step(init, m0, 0).value, m1, 1).Ok?
    ensures Run(init, [m0, m1, m2]) == Step(Step(Step(init, m0, 0).value, m1, 1).value, m2, 2)
  {
    var ms := [m0, m1, m2];
    assert ms[..2] == [m0, m1];
    RunTwo(init, m0, m1);
    assert Run(init, ms) == Step(Run(init, [m0, m1]).value, m2, 2);
  }

  /** The starting table of a season whose home teams are "A" and "B". */
  lemma PairStart(ms: seq<Match>)
    requires HomeSet(ms) == {"A", "B"}
    ensures InitialLists(DistinctHomeTeams(ms)) == map["A" := [0], "B" := [0]]
  {
    var init := InitialLists(DistinctHomeTeams(ms));
    assert init.Keys == {"A", "B"};
  }

  lemma HomeSetTwo(m0: Match, m1: Match)
    ensures HomeSet([m0, m1]) == {m0.home, m1.home}
  {
    HomeSetSnoc([m0, m1]);
    assert [m0, m1][..1] == [m0];
    HomeSetSnoc([m0]);
    assert [m0][..0] == [];
  }

  /**
   * A draw at A, then A winning at B.  The series hold running totals, so
   * B's loss repeats its previous total: B reads 0, 1, 1.
   */
  lemma HomeAndAway()
    ensures Accumulate([Match("A", "B", 1, 1), Match("B", "A", 0, 2)])
         == Ok(map["A" := [0, 1, 4], "B" := [0, 1, 1]])
  {
    var m0, m1 := Match("A", "B", 1, 1), Match("B", "A", 0, 2);
    HomeSetTwo(m0, m1);
    PairStart([m0, m1]);
    var init: Table := map["A" := [0], "B" := [0]];
    assert Extend([0], m0, "A") == [0, 1];
    assert Extend([0], m0, "B") == [0, 1];
    PairStep(init, m0, 0, [0, 1], [0, 1]);
    assert Extend([0, 1], m1, "A") == [0, 1, 4];
    assert Extend([0, 1], m1, "B") == [0, 1, 1];
    PairStep(map["A" := [0, 1], "B" := [0, 1]], m1, 1, [0, 1, 4], [0, 1, 1]);
    RunTwo(init, m0, m1);
  }

  /** The same two rows in the other order give different series. */
  lemma OrderMatters()
    ensures Accumulate([Match("B", "A", 0, 2), Match("A", "B", 1, 1)])
         == Ok(map["A" := [0, 3, 4], "B" := [0, 0, 1]])
  {
    var m0, m1 := Match("B", "A", 0, 2), Match("A", "B", 1, 1);
    HomeSetTwo(m0, m1);
    PairStart([m0, m1]);
    var init: Table := map["A" := [0], "B" := [0]];
    assert Extend([0], m0, "A") == [0, 3];
    assert Extend([0], m0, "B") == [0, 0];
    PairStep(init, m0, 0, [0, 3], [0, 0]);
    assert Extend([0, 3], m1, "A") == [0, 3, 4];
    assert Extend([0, 0], m1, "B") == [0, 0, 1];
    PairStep(map["A" := [0, 3], "B" := [0, 0]], m1, 1, [0, 3, 4], [0, 0, 1]);
    RunTwo(init, m0, m1);
  }

  /** Three draws between two teams that both host: both series read 0, 1, 2, 3. */
  lemma ThreeDraws()
    ensures Accumulate([Match("A", "B", 0, 0), Match("B", "A", 2, 2), Match("A", "B", 1, 1)])
         == Ok(map["A" := [0, 1, 2, 3], "B" := [0, 1, 2, 3]])
  {
    var m0, m1, m2 := Match("A", "B", 0, 0), Match("B", "A", 2, 2), Match("A", "B", 1, 1);
    var ms := [m0, m1, m2];
    HomeSetSnoc(ms);
    assert ms[..2] == [m0, m1];
    HomeSetTwo(m0, m1);
    PairStart(ms);
    ThreeDrawsFromStart(m0, m1, m2);
  }

  lemma ThreeDrawsFromStart(m0: Match, m1: Match, m2: Match)
    requires m0 == Match("A", "B", 0, 0) && m1 == Match("B", "A", 2, 2) && m2 == Match("A", "B", 1, 1)
    ensures Run(map["A" := [0], "B" := [0]], [m0, m1, m2]) == Ok(map["A" := [0, 1, 2, 3], "B" := [0, 1, 2, 3]])
  {
    var init: Table := map["A" := [0], "B" := [0]];
    assert Extend([0], m0, "A") == [0, 1];
    assert Extend([0], m0, "B") == [0, 1];
    PairStep(init, m0, 0, [0, 1], [0, 1]);
    assert Extend([0, 1], m1, "A") == [0, 1, 2];
    assert Extend([0, 1], m1, "B") == [0, 1, 2];
    PairStep(map["A" := [0, 1], "B" := [0, 1]], m1, 1, [0, 1, 2], [0, 1, 2]);
    assert Extend([0, 1, 2], m2, "A") == [0, 1, 2, 3];
    assert Extend([0, 1, 2], m2, "B") == [0, 1, 2, 3];
    PairStep(map["A" := [0, 1, 2], "B" := [0, 1, 2]], m2, 2, [0, 1, 2, 3], [0, 1, 2, 3]);
    RunThree(init, m0, m1, m2);
  }

  /** A drawn self-match appends twice, the away entry reading the home entry. */
  lemma SelfMatchDraw()
    ensures Accumulate([Match("A", "A", 1, 1)]) == Ok(map["A" := [0, 1, 2]])
  {
    var m := Match("A", "A", 1, 1);
    HomeSetSnoc([m]);
    assert [m][..0] == [];
    var init := InitialLists(DistinctHomeTeams([m]));
    assert init.Keys == {"A"};
    var start: Table := map["A" := [0]];
    assert init == start;
    var r := Step(start, m, 0).value;
    StepPerTeam(start, m, 0, "A");
    assert Extend([0], m, "A") == [0, 1, 2];
    assert r == map["A" := [0, 1, 2]];
  }

  /** With no rows the table is empty and the axis has no maximum. */
  lemma EmptySeason()
    ensures Accumulate([]) == Ok(map[])
    ensures MaxGameweek(map[], DistinctHomeTeams([])).None?
  {
  }

  /** Two teams level on points: the difference shows 0 and the second team is named. */
  lemma LevelTeamsNameTheSecond()
    ensures Compare(map["A" := [0, 1, 4], "B" := [0, 3, 4]], "A", "B")
         == PointsComparison(4, 4, 0, 0, SecondLeads, "B leads")
  {
  }
}
