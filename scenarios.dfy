/**
 * Client code driving the round controllers through their contracts alone:
 * short sequences of clicks and ticks whose outcome the contracts determine.
 */
module Scenarios {

  import opened Options
  import opened BoardRules
  import opened Missions
  import opened Cooldowns
  import EnhancedBoard
  import EnhancedBoardFake
  import SimpleBoard

  /**
   * Growth: watering the same tree twice spends two water; the water cooldown
   * set by the first click does not block the second.
   */
  method RewateringSpendsTwice()
  {
    var r := new EnhancedBoard.Round(Growth, Zone(0.0, 0.0, 10.0, 10.0));
    var reports := r.BoardClick(50.0, 50.0);
    assert reports == [] && r.gameActive && |r.trees| == 1;
    assert r.missions[1] == Mission("2", 8, 0, false);
    r.SelectAction(Water);
    assert r.WaterApplies();
    r.TreeClick(0);
    assert r.resources.water == 9;
    assert r.missions[1] == Mission("2", 8, 1, false);
    assert !CanUse(r.actionCooldowns, "water");
    assert r.WaterApplies();
    r.TreeClick(0);
    assert r.resources.water == 8;
    assert r.missions[1] == Mission("2", 8, 2, false);
  }

  /** Growth: the tree itself grows only once; a second water click leaves it as the first one did. */
  method RewateringGrowsOnce()
  {
    var r := new EnhancedBoard.Round(Growth, Zone(0.0, 0.0, 10.0, 10.0));
    var reports := r.BoardClick(50.0, 50.0);
    assert |r.trees| == 1 && r.trees[0] == Seedling(0, 50.0, 50.0);
    r.SelectAction(Water);
    assert r.WaterApplies();
    r.TreeClick(0);
    assert |r.trees| == 1 && r.trees[0].watered && r.trees[0].growth == WaterGrowth;
    assert r.WaterApplies();
    r.TreeClick(0);
    assert |r.trees| == 1 && r.trees[0].watered && r.trees[0].growth == WaterGrowth;
  }

  /**
   * Grit: a plant outside the zone is accepted, the scheduled reset empties
   * the board, a click inside the zone then ends the round with failure, and
   * because the board is empty the next click outside starts it again.
   */
  method GritRoundRestarts()
  {
    var zone := Zone(10.0, 10.0, 80.0, 80.0);
    var r := new EnhancedBoard.Round(Grit, zone);
    var reports := r.BoardClick(5.0, 5.0);
    assert reports == [] && r.gameActive && |r.trees| == 1 && r.round == 2 && r.pendingResets == 1;
    r.GritReset(zone);
    assert r.trees == [];
    reports := r.BoardClick(50.0, 50.0);
    assert reports == [false] && !r.gameActive;
    reports := r.BoardClick(95.0, 95.0);
    assert reports == [] && r.gameActive && |r.trees| == 1 && r.round == 3;
  }

  /** Speed: with no missions, running out of time reports success. */
  method SpeedTimeoutSucceeds()
  {
    var r := new EnhancedBoard.Round(Speed, Zone(0.0, 0.0, 10.0, 10.0));
    var reports := r.BoardClick(50.0, 50.0);
    while r.timeLeft > 0
      invariant r.Valid() && r.mode == Speed && r.gameActive && r.trees != []
      decreases r.timeLeft
    {
      reports := r.ClockStep();
      assert reports == [];
    }
    reports := r.ClockStep();
    assert reports == [true] && !r.gameActive;
  }

  /** The older controller: once the clock has ended the round, clicks change nothing. */
  method EndedRoundIgnoresClicks()
  {
    var r := new EnhancedBoardFake.Round();
    r.BoardClick(20.0, 20.0);
    assert |r.trees| == 1 && r.resources.seeds == 14 && r.missions[0].current == 1;
    while r.timeLeft > 0
      invariant r.Valid() && r.gameActive
      invariant |r.trees| == 1 && r.resources.seeds == 14 && r.missions[0].current == 1
      decreases r.timeLeft
    {
      var reports := r.ClockStep();
    }
    var reports := r.ClockStep();
    assert reports == [false];
    r.BoardClick(30.0, 30.0);
    r.TreeClick(0);
    assert |r.trees| == 1 && r.resources.seeds == 14 && !r.gameActive;
  }

  /** The counting round ends on reaching its target and reports the count. */
  method CountingRoundReachesTarget()
  {
    var r := new SimpleBoard.Round(2);
    r.PlantTree(10.0, 10.0);
    var reports := r.TargetCheck();
    assert reports == [] && r.gameActive;
    r.PlantTree(20.0, 20.0);
    reports := r.TargetCheck();
    assert reports == [2] && r.Outcome() == Some(SimpleBoard.LevelComplete);
    r.PlantTree(30.0, 30.0);
    assert r.treesPlanted == 2;
  }
}
