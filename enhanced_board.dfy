/**
 * The enhanced round controller with modes (Growth, Grit, Speed): a class whose
 * fields are the component's state and whose methods are its two click
 * handlers, its clock and cooldown effects, the end-of-round checks and the
 * delayed Grit board reset. Each method is one atomic step on the state.
 */
module EnhancedBoard {

  import opened Options
  import opened BoardRules
  import opened Missions
  import opened Cooldowns

  /** Seconds on the round clock at the start. */
  const RoundSeconds := 25

  /** The water cooldown armed by every water click. */
  const WaterCooldown := 2

  class Round {
    const mode: Mode
    var trees: seq<Tree>
    var resources: Resources
    var actionCooldowns: map<string, int>
    var missions: seq<Mission>
    var timeLeft: int
    var gameActive: bool
    var forbiddenZone: Option<Zone>
    /** Grit's count of successful plants, starting at 1. */
    var round: int
    var selectedAction: Action
    /** The id the next planted tree gets. */
    var nextId: nat
    /** Grit board resets scheduled by a plant and not yet run. */
    var pendingResets: nat

    /** What holds in every state a round can reach. */
    ghost predicate Valid()
      reads this
    {
      && ResourcesValid(resources)
      && TreesValid(trees, nextId)
      && MissionsFollow(missions, MissionsFor(mode))
      && CooldownsValid(actionCooldowns)
      && 0 <= timeLeft <= RoundSeconds
      && (forbiddenZone.Some? <==> mode == Grit)
      && (forbiddenZone.Some? ==> ZoneOnBoard(forbiddenZone.value))
      && round >= 1
      && (mode != Grit ==> pendingResets == 0 && round == 1)
    }

    /** A tree click with Water selected does something. */
    predicate WaterApplies()
      reads this
    {
      gameActive && selectedAction == Water && resources.water > 0
    }

    /** A tree click with Fertilize selected does something. */
    predicate FertilizeApplies()
      reads this
    {
      gameActive && selectedAction == Fertilize && resources.fertilizer > 0
    }

    /** A board click is dropped at once: the round has ended with trees on the board. */
    predicate ClickIgnored()
      reads this
    {
      !gameActive && trees != []
    }

    /** (x, y) lies in Grit's forbidden zone. */
    predicate InForbiddenZone(x: real, y: real)
      reads this
    {
      mode == Grit && forbiddenZone.Some? && InZone(forbiddenZone.value, x, y)
    }

    /** A fresh round, including the mount effect that places Grit's zone. */
    constructor (mode: Mode, zone: Zone)
      requires mode == Grit ==> ZoneOnBoard(zone)
      ensures this.mode == mode && Valid()
      ensures trees == [] && resources == InitialResources && actionCooldowns == map[]
      ensures missions == MissionsFor(mode) && timeLeft == RoundSeconds && !gameActive
      ensures forbiddenZone == (if mode == Grit then Some(zone) else None)
      ensures round == 1 && selectedAction == Plant && nextId == 0 && pendingResets == 0
    {
      this.mode := mode;
      trees := [];
      resources := InitialResources;
      actionCooldowns := map[];
      missions := MissionsFor(mode);
      timeLeft := RoundSeconds;
      gameActive := false;
      forbiddenZone := None;
      round := 1;
      selectedAction := Plant;
      nextId := 0;
      pendingResets := 0;
      new;
      if mode == Grit {
        forbiddenZone := Some(zone);
        trees := [];
      }
      TemplateFollows(mode);
    }

    /**
     * An action button click. The button is enabled by its cooldown alone, so
     * a depleted resource does not stop the selection.
     */
    method SelectAction(a: Action)
      requires Valid()
      modifies this`selectedAction
      ensures Valid()
      ensures selectedAction == if CanUse(actionCooldowns, ActionKey(a)) then a else old(selectedAction)
    {
      if CanUse(actionCooldowns, ActionKey(a)) {
        selectedAction := a;
      }
    }

    /** End the round and report whether every mission is completed. */
    method CheckGameComplete() returns (success: bool)
      modifies this`gameActive
      ensures !gameActive
      ensures success == AllCompleted(missions)
    {
      gameActive := false;
      success := AllCompleted(missions);
    }

    /** End the round with success as soon as every mission is completed. */
    method CheckEarlyGameComplete() returns (reports: seq<bool>)
      modifies this`gameActive
      ensures AllCompleted(missions) ==> !gameActive && reports == [true]
      ensures !AllCompleted(missions) ==> gameActive == old(gameActive) && reports == []
    {
      reports := [];
      if AllCompleted(missions) {
        var success := CheckGameComplete();
        reports := [success];
        gameActive := false;
      }
    }

    /**
     * One run of the clock effect, then the one-second timer it arms firing,
     * unless the same run changed `gameActive`, a dependency of the effect,
     * whose cleanup cancels that timer. `reports` lists the completion
     * callbacks made, in order.
     */
    method ClockStep() returns (reports: seq<bool>)
      requires Valid()
      modifies this`gameActive, this`timeLeft
      ensures Valid()
      ensures !old(gameActive) || old(trees) == [] ==>
                reports == [] && gameActive == old(gameActive) && timeLeft == old(timeLeft)
      ensures old(gameActive) && old(trees) != [] ==>
                var early := !IsEndless(mode) && AllCompleted(missions);
                var expired := old(timeLeft) == 0 && (!IsEndless(mode) || mode == Speed);
                && reports == (if early then [true] else []) + (if expired then [AllCompleted(missions)] else [])
                && gameActive == (!early && !expired)
                && timeLeft == if old(timeLeft) > 0 && !early then old(timeLeft) - 1 else old(timeLeft)
      ensures mode == Grit ==> reports == [] && gameActive == old(gameActive)
      ensures mode == Speed && old(gameActive) && old(trees) != [] && old(timeLeft) == 0 ==> reports == [true]
      ensures mode == Growth && old(gameActive) && old(trees) != [] && old(timeLeft) == 0 && AllCompleted(missions) ==>
                reports == [true, true]
    {
      reports := [];
      if !gameActive || |trees| == 0 {
        return;
      }
      if !IsEndless(mode) {
        reports := CheckEarlyGameComplete();
      }
      if timeLeft > 0 {
        // the effect read gameActive as true; if the early check cleared it,
        // the effect runs again and its cleanup cancels this timer
        if gameActive {
          timeLeft := timeLeft - 1;
        }
      } else if !IsEndless(mode) || mode == Speed {
        var success := CheckGameComplete();
        reports := reports + [success];
      }
    }

    /** The once-a-second cooldown interval; it runs whether or not the round is active. */
    method TickCooldowns()
      requires Valid()
      modifies this`actionCooldowns
      ensures Valid()
      ensures actionCooldowns == Ticked(old(actionCooldowns))
    {
      TickedValid(actionCooldowns);
      actionCooldowns := Tick(actionCooldowns);
    }

    /** The water branch of a tree click: the trees are offered water, one water is spent, the cooldown armed. */
    method ApplyWater(id: nat)
      requires Valid() && resources.water > 0
      modifies this`trees, this`resources, this`actionCooldowns, this`missions
      ensures Valid()
      ensures trees == WaterTrees(old(trees), id)
      ensures resources == old(resources).(water := old(resources.water) - 1)
      ensures actionCooldowns == old(actionCooldowns)[ActionKey(Water) := WaterCooldown]
      ensures missions == if IsEndless(mode) then old(missions) else UpdateMission(old(missions), "2", 1)
    {
      WaterTreesValid(trees, id, nextId);
      UpdateMissionFollows(missions, MissionsFor(mode), "2", 1);
      trees, resources, actionCooldowns, missions :=
        WaterTrees(trees, id),
        resources.(water := resources.water - 1),
        actionCooldowns[ActionKey(Water) := WaterCooldown],
        if IsEndless(mode) then missions else UpdateMission(missions, "2", 1);
    }

    /** The fertilize branch of a tree click: the same with fertilizer and no cooldown. */
    method ApplyFertilizer(id: nat)
      requires Valid() && resources.fertilizer > 0
      modifies this`trees, this`resources, this`missions
      ensures Valid()
      ensures trees == FertilizeTrees(old(trees), id)
      ensures resources == old(resources).(fertilizer := old(resources.fertilizer) - 1)
      ensures missions == if IsEndless(mode) then old(missions) else UpdateMission(old(missions), "3", 1)
    {
      FertilizeTreesValid(trees, id, nextId);
      UpdateMissionFollows(missions, MissionsFor(mode), "3", 1);
      trees, resources, missions :=
        FertilizeTrees(trees, id),
        resources.(fertilizer := resources.fertilizer - 1),
        if IsEndless(mode) then missions else UpdateMission(missions, "3", 1);
    }

    /**
     * A click on a tree. Water and fertilizer are spent and the mission moves
     * on even when the tree was already treated or no tree has the id; no
     * cooldown is consulted.
     */
    method TreeClick(id: nat)
      requires Valid()
      modifies this`trees, this`resources, this`actionCooldowns, this`missions
      ensures Valid()
      ensures old(WaterApplies()) ==>
                && trees == WaterTrees(old(trees), id)
                && resources == old(resources).(water := old(resources.water) - 1)
                && actionCooldowns == old(actionCooldowns)[ActionKey(Water) := WaterCooldown]
                && missions == if IsEndless(mode) then old(missions) else UpdateMission(old(missions), "2", 1)
      ensures old(FertilizeApplies()) ==>
                && trees == FertilizeTrees(old(trees), id)
                && resources == old(resources).(fertilizer := old(resources.fertilizer) - 1)
                && actionCooldowns == old(actionCooldowns)
                && missions == if IsEndless(mode) then old(missions) else UpdateMission(old(missions), "3", 1)
      ensures !old(WaterApplies()) && !old(FertilizeApplies()) ==> unchanged(this)
    {
      if !gameActive {
        return;
      }
      if selectedAction == Water && resources.water > 0 {
        ApplyWater(id);
      } else if selectedAction == Fertilize && resources.fertilizer > 0 {
        ApplyFertilizer(id);
      }
    }

    /**
     * The planting branch of a board click: a seedling at (x, y), one seed
     * spent, the round started if the board was empty, and in Grit the
     * round counter and a reset scheduled.
     */
    method PlantSeedling(x: real, y: real)
      requires Valid() && resources.seeds > 0 && (gameActive || trees == [])
      modifies this`trees, this`nextId, this`resources, this`gameActive, this`round, this`pendingResets, this`missions
      ensures Valid()
      ensures trees == old(trees) + [Seedling(old(nextId), x, y)] && nextId == old(nextId) + 1
      ensures resources == old(resources).(seeds := old(resources.seeds) - 1)
      ensures gameActive
      ensures round == if mode == Grit then old(round) + 1 else old(round)
      ensures pendingResets == if mode == Grit then old(pendingResets) + 1 else old(pendingResets)
      ensures missions == if IsEndless(mode) then old(missions) else UpdateMission(old(missions), "1", 1)
    {
      PlantValid(trees, nextId, x, y);
      UpdateMissionFollows(missions, MissionsFor(mode), "1", 1);
      trees, nextId, resources, gameActive, round, pendingResets, missions :=
        trees + [Seedling(nextId, x, y)],
        nextId + 1,
        resources.(seeds := resources.seeds - 1),
        if |trees| == 0 then true else gameActive,
        if mode == Grit then round + 1 else round,
        if mode == Grit then pendingResets + 1 else pendingResets,
        if IsEndless(mode) then missions else UpdateMission(missions, "1", 1);
    }

    /**
     * A click on the board at (x, y). Ignored once the round has ended with
     * trees on the board; in Grit a click in the forbidden zone ends the
     * round with failure; otherwise a seed, if any is left, becomes a tree.
     */
    method BoardClick(x: real, y: real) returns (reports: seq<bool>)
      requires Valid()
      modifies this`trees, this`nextId, this`resources, this`gameActive, this`round, this`pendingResets, this`missions
      ensures Valid()
      ensures old(ClickIgnored()) ==> reports == [] && unchanged(this)
      ensures old(!ClickIgnored() && InForbiddenZone(x, y)) ==>
                && reports == [false] && !gameActive
                && unchanged(this`trees, this`nextId, this`resources, this`round, this`pendingResets, this`missions)
      ensures old(!ClickIgnored() && !InForbiddenZone(x, y) && resources.seeds > 0) ==>
                && reports == []
                && trees == old(trees) + [Seedling(old(nextId), x, y)] && nextId == old(nextId) + 1
                && resources == old(resources).(seeds := old(resources.seeds) - 1)
                && gameActive
                && round == (if mode == Grit then old(round) + 1 else old(round))
                && pendingResets == (if mode == Grit then old(pendingResets) + 1 else old(pendingResets))
                && missions == if IsEndless(mode) then old(missions) else UpdateMission(old(missions), "1", 1)
      ensures old(!ClickIgnored() && !InForbiddenZone(x, y) && resources.seeds <= 0) ==> reports == [] && unchanged(this)
    {
      reports := [];
      if !gameActive && |trees| > 0 {
        return;
      }
      if mode == Grit && forbiddenZone.Some? {
        if InZone(forbiddenZone.value, x, y) {
          gameActive := false;
          reports := [false];
          return;
        }
      }
      if resources.seeds > 0 {
        PlantSeedling(x, y);
      }
    }

    /** The delayed Grit reset a plant scheduled: a new zone and an empty board. */
    method GritReset(zone: Zone)
      requires Valid() && pendingResets > 0 && ZoneOnBoard(zone)
      modifies this`trees, this`forbiddenZone, this`pendingResets
      ensures Valid()
      ensures trees == [] && forbiddenZone == Some(zone) && pendingResets == old(pendingResets) - 1
    {
      forbiddenZone := Some(zone);
      trees := [];
      pendingResets := pendingResets - 1;
    }
  }
}
