/**
 * The level-progress shell: a grade -> level -> completed map, the unlock and
 * completion lookups over it, the 50-level grid, and the update made when a
 * round reports its outcome.
 */
module LevelProgress {

  import opened Options

  /** grade -> level -> completed; an absent grade or level reads as not completed. */
  type Progress = map<string, map<int, bool>>

  /** The number of levels in the grid. */
  const LevelCount := 50

  /** The trees a completed level's card shows. */
  const TreesPerLevel := 10

  /** The grade selected when the game opens. */
  const FirstGrade := "kindergarten"

  /** `progress[grade]?.[level] || false`. */
  function IsLevelCompleted(p: Progress, grade: string, level: int): (r: bool)
    ensures r <==> grade in p && level in p[grade] && p[grade][level]
  {
    if grade in p && level in p[grade] then p[grade][level] else false
  }

  /** Level 1 is always open; any other level opens once the one before it is completed. */
  function IsLevelUnlocked(p: Progress, grade: string, level: int): (r: bool)
    ensures level == 1 ==> r
    ensures level != 1 ==> (r <==> IsLevelCompleted(p, grade, level - 1))
  {
    if level == 1 then true else IsLevelCompleted(p, grade, level - 1)
  }

  /** The progress entry a successful round writes: the grade's other levels are kept. */
  function MarkCompleted(p: Progress, grade: string, level: int): (r: Progress)
    ensures r.Keys == p.Keys + {grade}
    ensures IsLevelCompleted(r, grade, level)
  {
    p[grade := (if grade in p then p[grade] else map[])[level := true]]
  }

  /**
   * Marking a level completed changes no other grade and no other level of
   * the same grade, and never takes a completion back.
   */
  lemma MarkCompletedFrame(p: Progress, grade: string, level: int, g: string, l: int)
    ensures g != grade || l != level ==> IsLevelCompleted(MarkCompleted(p, grade, level), g, l) == IsLevelCompleted(p, g, l)
    ensures IsLevelCompleted(p, g, l) ==> IsLevelCompleted(MarkCompleted(p, grade, level), g, l)
  {
  }

  /** Completing a level unlocks the next one in the same grade. */
  lemma CompletionUnlocksNext(p: Progress, grade: string, level: int)
    ensures IsLevelUnlocked(MarkCompleted(p, grade, level), grade, level + 1)
  {
  }

  /** A level card of the grid. */
  datatype Card = Card(level: int, locked: bool, treesPlanted: int)

  /** The grid: levels 1 to 50, each locked unless unlocked, showing 10 trees when completed and 0 otherwise. */
  function LevelGrid(p: Progress, grade: string): (cards: seq<Card>)
    ensures |cards| == LevelCount
    ensures forall i :: 0 <= i < |cards| ==> cards[i].level == i + 1
    ensures forall i :: 0 <= i < |cards| ==> (cards[i].locked <==> !IsLevelUnlocked(p, grade, i + 1))
    ensures forall i :: 0 <= i < |cards| ==>
              cards[i].treesPlanted == if IsLevelCompleted(p, grade, i + 1) then TreesPerLevel else 0
  {
    seq(LevelCount, i requires 0 <= i < LevelCount =>
      Card(i + 1, !IsLevelUnlocked(p, grade, i + 1), if IsLevelCompleted(p, grade, i + 1) then TreesPerLevel else 0))
  }

  /** The first card is never locked, and a card is locked exactly when its predecessor shows no trees. */
  lemma GridUnlockChain(p: Progress, grade: string, i: nat)
    requires 0 < i < LevelCount
    ensures !LevelGrid(p, grade)[0].locked
    ensures LevelGrid(p, grade)[i].locked <==> LevelGrid(p, grade)[i - 1].treesPlanted == 0
  {
  }

  /** The game shell: the stored progress, the selected grade and the level being played. */
  class Shell {
    var gameProgress: Progress
    var selectedGrade: string
    var currentLevel: Option<int>

    constructor ()
      ensures gameProgress == map[] && selectedGrade == FirstGrade && currentLevel == None
    {
      gameProgress := map[];
      selectedGrade := FirstGrade;
      currentLevel := None;
    }

    method SelectGrade(grade: string)
      modifies this`selectedGrade
      ensures selectedGrade == grade
    {
      selectedGrade := grade;
    }

    /** A card's Play button, disabled while the card is locked. */
    method Play(level: int)
      requires 1 <= level <= LevelCount
      modifies this`currentLevel
      ensures currentLevel == if IsLevelUnlocked(gameProgress, selectedGrade, level) then Some(level) else old(currentLevel)
    {
      if IsLevelUnlocked(gameProgress, selectedGrade, level) {
        currentLevel := Some(level);
      }
    }

    /**
     * A round's outcome: a success while a level is being played marks that
     * level completed for the selected grade; a failure changes nothing.
     */
    method HandleLevelComplete(success: bool)
      modifies this`gameProgress
      ensures success && currentLevel.Some? && currentLevel.value != 0 ==>
                gameProgress == MarkCompleted(old(gameProgress), selectedGrade, currentLevel.value)
      ensures !success || currentLevel == None || currentLevel.value == 0 ==> gameProgress == old(gameProgress)
    {
      // a level of 0 is falsy in the handler's test, like no level at all
      if currentLevel.Some? && currentLevel.value != 0 && success {
        gameProgress := MarkCompleted(gameProgress, selectedGrade, currentLevel.value);
      }
    }

    /** Back to the grid, run by the Back button and by the timer after an outcome. */
    method LeaveLevel()
      modifies this`currentLevel
      ensures currentLevel == None
    {
      currentLevel := None;
    }
  }
}
