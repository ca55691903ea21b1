/**
 * The simple counting round: every click on the board plants a tree at that
 * point, against a 60-second clock and a target count; the round reports the
 * count when the target is reached or the time is up.
 */
module SimpleBoard {

  import opened Options

  /** Seconds on the clock at the start. */
  const RoundSeconds := 60

  datatype Position = Position(x: real, y: real)

  /** The message shown once the round is over. */
  datatype Banner = LevelComplete | TimesUp

  /** The end-of-round message: complete exactly when the target count is reached. */
  function ResultBanner(treesPlanted: int, targetTrees: int): (b: Banner)
    ensures b == LevelComplete <==> treesPlanted >= targetTrees
    ensures b == TimesUp <==> treesPlanted < targetTrees
  {
    if treesPlanted >= targetTrees then LevelComplete else TimesUp
  }

  class Round {
    const targetTrees: int
    var treesPlanted: int
    var plantedPositions: seq<Position>
    var timeLeft: int
    var gameActive: bool

    /** The counter always equals the number of planted positions, and the clock stays in range. */
    ghost predicate Valid()
      reads this
    {
      treesPlanted == |plantedPositions| && 0 <= timeLeft <= RoundSeconds
    }

    constructor (targetTrees: int)
      ensures Valid() && this.targetTrees == targetTrees
      ensures treesPlanted == 0 && plantedPositions == [] && timeLeft == RoundSeconds && gameActive
    {
      this.targetTrees := targetTrees;
      treesPlanted := 0;
      plantedPositions := [];
      timeLeft := RoundSeconds;
      gameActive := true;
    }

    /** A click on the board at (x, y): while active, one more tree there. */
    method PlantTree(x: real, y: real)
      requires Valid()
      modifies this`plantedPositions, this`treesPlanted
      ensures Valid()
      ensures old(gameActive) ==> plantedPositions == old(plantedPositions) + [Position(x, y)]
      ensures old(gameActive) ==> treesPlanted == old(treesPlanted) + 1
      ensures !old(gameActive) ==> plantedPositions == old(plantedPositions) && treesPlanted == old(treesPlanted)
    {
      if !gameActive {
        return;
      }
      plantedPositions := plantedPositions + [Position(x, y)];
      treesPlanted := treesPlanted + 1;
    }

    /**
     * One run of the clock effect, then the one-second timer it arms firing:
     * while active with time left the clock goes down by one; at 0 the round
     * ends and reports the count. Ended with time left, nothing moves.
     */
    method ClockStep() returns (reports: seq<int>)
      requires Valid()
      modifies this`timeLeft, this`gameActive
      ensures Valid()
      ensures old(timeLeft) > 0 && old(gameActive) ==>
                reports == [] && timeLeft == old(timeLeft) - 1 && gameActive
      ensures old(timeLeft) > 0 && !old(gameActive) ==>
                reports == [] && timeLeft == old(timeLeft) && !gameActive
      ensures old(timeLeft) == 0 ==> reports == [treesPlanted] && timeLeft == 0 && !gameActive
    {
      reports := [];
      if timeLeft > 0 && gameActive {
        timeLeft := timeLeft - 1;
      } else if timeLeft == 0 {
        gameActive := false;
        reports := [treesPlanted];
      }
    }

    /** The target effect: once the count reaches the target the round ends and reports it. */
    method TargetCheck() returns (reports: seq<int>)
      requires Valid()
      modifies this`gameActive
      ensures Valid()
      ensures treesPlanted >= targetTrees ==> reports == [treesPlanted] && !gameActive
      ensures treesPlanted < targetTrees ==> reports == [] && gameActive == old(gameActive)
    {
      reports := [];
      if treesPlanted >= targetTrees {
        gameActive := false;
        reports := [treesPlanted];
      }
    }

    /** The message under the board: none while the round runs. */
    function Outcome(): (b: Option<Banner>)
      reads this
      ensures gameActive <==> b == None
      ensures b == Some(LevelComplete) <==> !gameActive && treesPlanted >= targetTrees
    {
      if gameActive then None else Some(ResultBanner(treesPlanted, targetTrees))
    }
  }
}
