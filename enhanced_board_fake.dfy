/**
 * The older enhanced round controller: the same tree, mission and cooldown
 * rules as the moded one, but without modes or forbidden zone, active from the
 * start, with no early completion, and a clock that simply ends at 0.
 */
module EnhancedBoardFake {

  import opened BoardRules
  import opened Missions
  import opened Cooldowns

  /** Seconds on the round clock at the start. */
  const RoundSeconds := 25

  /** The water cooldown armed by every water click. */
  const WaterCooldown := 2

  class Round {
    var trees: seq<Tree>
    var resources: Resources
    var actionCooldowns: map<string, int>
    var missions: seq<Mission>
    var timeLeft: int
    var gameActive: bool
    var selectedAction: Action
    /** The id the next planted tree gets. */
    var nextId: nat

    /** What holds in every state a round can reach. */
    ghost predicate Valid()
      reads this
    {
      && ResourcesValid(resources)
      && TreesValid(trees, nextId)
      && MissionsFollow(missions, GrowthMissions())
      && CooldownsValid(actionCooldowns)
      && 0 <= timeLeft <= RoundSeconds
    }

    /** A tree click with Water selected does something. */
    predicate WaterApplies()
      reads this
    {
      gameActive && selectedAction == Water && resources.water > 0
    }

    /** A tree click with Fertilize selected does something. */
    predicate FertilizeApplies()
      reads this
    {
      gameActive && selectedAction == Fertilize && resources.fertilizer > 0
    }

    constructor ()
      ensures Valid()
      ensures trees == [] && resources == InitialResources && actionCooldowns == map[]
      ensures missions == GrowthMissions() && timeLeft == RoundSeconds && gameActive
      ensures selectedAction == Plant && nextId == 0
    {
      trees := [];
      resources := InitialResources;
      actionCooldowns := map[];
      missions := GrowthMissions();
      timeLeft := RoundSeconds;
      gameActive := true;
      selectedAction := Plant;
      nextId := 0;
      TemplateFollows(Growth);
    }

    /**
     * An action button click. As in the moded controller, the button is
     * enabled by its cooldown alone.
     */
    method SelectAction(a: Action)
      requires Valid()
      modifies this`selectedAction
      ensures Valid()
      ensures selectedAction == if CanUse(actionCooldowns, ActionKey(a)) then a else old(selectedAction)
    {
      if CanUse(actionCooldowns, ActionKey(a)) {
        selectedAction := a;
      }
    }

    /** End the round and report whether every mission is completed. */
    method CheckGameComplete() returns (success: bool)
      modifies this`gameActive
      ensures !gameActive
      ensures success == AllCompleted(missions)
    {
      gameActive := false;
      success := AllCompleted(missions);
    }

    /**
     * One run of the clock effect, then the one-second timer it arms firing.
     * The clock runs only while active with a tree on the board; at 0 the
     * round ends and reports whether all missions are completed.
     */
    method ClockStep() returns (reports: seq<bool>)
      requires Valid()
      modifies this`gameActive, this`timeLeft
      ensures Valid()
      ensures !old(gameActive) || old(trees) == [] ==>
                reports == [] && gameActive == old(gameActive) && timeLeft == old(timeLeft)
      ensures old(gameActive) && old(trees) != [] && old(timeLeft) > 0 ==>
                reports == [] && gameActive && timeLeft == old(timeLeft) - 1
      ensures old(gameActive) && old(trees) != [] && old(timeLeft) == 0 ==>
                reports == [AllCompleted(missions)] && !gameActive && timeLeft == 0
    {
      reports := [];
      if !gameActive || |trees| == 0 {
        return;
      }
      if timeLeft > 0 {
        timeLeft := timeLeft - 1;
      } else {
        var success := CheckGameComplete();
        reports := [success];
      }
    }

    /** The once-a-second cooldown interval; it runs whether or not the round is active. */
    method TickCooldowns()
      requires Valid()
      modifies this`actionCooldowns
      ensures Valid()
      ensures actionCooldowns == Ticked(old(actionCooldowns))
    {
      TickedValid(actionCooldowns);
      actionCooldowns := Tick(actionCooldowns);
    }

    /** The water branch of a tree click: the trees are offered water, one water is spent, the cooldown armed. */
    method ApplyWater(id: nat)
      requires Valid() && resources.water > 0
      modifies this`trees, this`resources, this`actionCooldowns, this`missions
      ensures Valid()
      ensures trees == WaterTrees(old(trees), id)
      ensures resources == old(resources).(water := old(resources.water) - 1)
      ensures actionCooldowns == old(actionCooldowns)[ActionKey(Water) := WaterCooldown]
      ensures missions == UpdateMission(old(missions), "2", 1)
    {
      WaterTreesValid(trees, id, nextId);
      UpdateMissionFollows(missions, GrowthMissions(), "2", 1);
      trees, resources, actionCooldowns, missions :=
        WaterTrees(trees, id),
        resources.(water := resources.water - 1),
        actionCooldowns[ActionKey(Water) := WaterCooldown],
        UpdateMission(missions, "2", 1);
    }

    /** The fertilize branch of a tree click: the same with fertilizer and no cooldown. */
    method ApplyFertilizer(id: nat)
      requires Valid() && resources.fertilizer > 0
      modifies this`trees, this`resources, this`missions
      ensures Valid()
      ensures trees == FertilizeTrees(old(trees), id)
      ensures resources == old(resources).(fertilizer := old(resources.fertilizer) - 1)
      ensures missions == UpdateMission(old(missions), "3", 1)
    {
      FertilizeTreesValid(trees, id, nextId);
      UpdateMissionFollows(missions, GrowthMissions(), "3", 1);
      trees, resources, missions :=
        FertilizeTrees(trees, id),
        resources.(fertilizer := resources.fertilizer - 1),
        UpdateMission(missions, "3", 1);
    }

    /**
     * A click on a tree. Water and fertilizer are spent and the missions move
     * on even when the tree was already treated; no cooldown is consulted.
     */
    method TreeClick(id: nat)
      requires Valid()
      modifies this`trees, this`resources, this`actionCooldowns, this`missions
      ensures Valid()
      ensures old(WaterApplies()) ==>
                && trees == WaterTrees(old(trees), id)
                && resources == old(resources).(water := old(resources.water) - 1)
                && actionCooldowns == old(actionCooldowns)[ActionKey(Water) := WaterCooldown]
                && missions == UpdateMission(old(missions), "2", 1)
      ensures old(FertilizeApplies()) ==>
                && trees == FertilizeTrees(old(trees), id)
                && resources == old(resources).(fertilizer := old(resources.fertilizer) - 1)
                && actionCooldowns == old(actionCooldowns)
                && missions == UpdateMission(old(missions), "3", 1)
      ensures !old(WaterApplies()) && !old(FertilizeApplies()) ==> unchanged(this)
    {
      if !gameActive {
        return;
      }
      // the handler tests the two actions in separate ifs; one selected action passes at most one of them
      if selectedAction == Water && resources.water > 0 {
        ApplyWater(id);
      } else if selectedAction == Fertilize && resources.fertilizer > 0 {
        ApplyFertilizer(id);
      }
    }

    /** A click on the board at (x, y): while active, a seed, if any is left, becomes a tree. */
    method BoardClick(x: real, y: real)
      requires Valid()
      modifies this`trees, this`nextId, this`resources, this`missions, this`gameActive
      ensures Valid()
      ensures old(gameActive && resources.seeds > 0) ==>
                && trees == old(trees) + [Seedling(old(nextId), x, y)] && nextId == old(nextId) + 1
                && resources == old(resources).(seeds := old(resources.seeds) - 1)
                && missions == UpdateMission(old(missions), "1", 1)
                && gameActive
      ensures old(!gameActive || resources.seeds <= 0) ==> unchanged(this)
    {
      if !gameActive {
        return;
      }
      if resources.seeds > 0 {
        if |trees| == 0 {
          gameActive := true;
        }
        PlantValid(trees, nextId, x, y);
        UpdateMissionFollows(missions, GrowthMissions(), "1", 1);
        trees, nextId, resources, missions :=
          trees + [Seedling(nextId, x, y)],
          nextId + 1,
          resources.(seeds := resources.seeds - 1),
          UpdateMission(missions, "1", 1);
      }
    }
  }
}
