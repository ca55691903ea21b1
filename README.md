# Garden Growth Grit: the round state machine

This project models the rules of a tree-planting mini-game in Dafny. The player plants trees on a board, then waters and fertilizes them. A round runs against a clock and, in Growth mode, against three missions. The rules live in four React components. Each one is modelled here as a class whose fields are the component's state and whose methods are its click handlers and effects. Each method runs as one atomic step on that state, and its contract states every field it may change. Where the components compute values without changing state, the model uses pure functions.

- `BoardRules` (`board_rules.dfy`) holds the per-tree rules shared by both enhanced controllers. These are the water and fertilize updates, the growth icon, the Grit forbidden rectangle, the modes and the resource pool.
- `Missions` (`missions.dfy`) holds the mission ledger: the Growth template, `updateMission` and the all-completed test.
- `Cooldowns` (`cooldowns.dfy`) holds the per-action cooldown map, its once-a-second tick and the action-button enablement.
- `EnhancedBoard.Round` (`enhanced_board.dfy`) is the round controller with modes.
  - Growth has missions and a 25-second clock, and ends early once every mission is done.
  - Grit places a forbidden zone, and a click inside it ends the round with failure. Each accepted plant schedules a reset that clears the board and moves the zone.
  - Speed has a clock and no missions.
- `EnhancedBoardFake.Round` (`enhanced_board_fake.dfy`) is the older controller. It has no modes and no zone, is active from the start, has no early completion, and its clock simply ends the round at 0.
- `SimpleBoard.Round` (`game_board.dfy`) is the counting round. It has a 60-second clock and a target count, and reports the count.
- `LevelProgress` (`tree_planting_game.dfy`) holds the grade → level → completed map. It covers level unlocking, the 50-level grid and the update made when a round succeeds.
- `Scenarios` (`scenarios.dfy`) holds short client sequences. They show what the contracts alone determine: re-watering, a Grit restart, a Speed time-out, an ended round ignoring clicks, and a counting round reaching its target.

Every `onComplete` call a step makes is returned in its `reports` out-parameter, in order. The zone, the click coordinates and the tree id of a tree click are parameters of the methods.

## Behaviour as written

The model follows the code where a reader might expect other behaviour:

- A water or fertilize click spends the resource, and in Growth advances the mission, even when the tree was already treated or no tree has the clicked id. Only the tree itself is protected by its flag.
- The click handlers never read the cooldowns. The action buttons call the affordability callback with the cost alone, so the board's per-action test falls through to its default and answers true. A button is therefore enabled by its cooldown alone, and an action already selected stays usable while its cooldown runs. Fertilize never sets a cooldown.
- In Growth, a clock step at 0 seconds with every mission completed reports success twice: once through the early check and once through the time-out.
- Speed ends only by time, and it always reports success, because the list of its (zero) missions is all completed.
- Grit's clock still counts down while trees are on the board, but nothing happens at 0.
- After a forbidden click, Grit's board is usually empty, because of the scheduled reset. The first guard only blocks clicks on an inactive round with trees on the board, so the next click outside the zone starts the round again.
- Growth can never exceed 75 and the clamp at 100 never applies, because watering adds 25 once and fertilizing adds 50 once.

## Model

| member | source | states |
|---|---|---|
| BoardRules.IsEndless | src/components/EnhancedGameBoardUpdater.tsx:43 | exactly Grit and Speed are endless: every mode but Growth |
| BoardRules.WaterTree | src/components/EnhancedGameBoardUpdater.tsx:128-130 | only the tree with the id that is not yet watered becomes watered; any other tree is returned as it was; position, id and fertilized flag never change; consistent growth stays consistent |
| BoardRules.FertilizeTree | src/components/EnhancedGameBoardUpdater.tsx:138-140 | the same for fertilizing, with 50 growth |
| BoardRules.WaterTrees | src/components/EnhancedGameBoardUpdater.tsx:127-132 | the board after a water click: same length, and each tree is offered the watering |
| BoardRules.FertilizeTrees | src/components/EnhancedGameBoardUpdater.tsx:137-142 | the board after a fertilize click: same length, and each tree is offered the fertilizing |
| BoardRules.GrowthBands | src/components/EnhancedGameBoardUpdater.tsx:129 | a consistent tree's growth is 0, 25, 50 or 75, so neither treatment's `min(..., 100)` clamp ever applies |
| BoardRules.WaterTreesValid | src/components/EnhancedGameBoardUpdater.tsx:127-132 | watering keeps every tree's growth equal to 25·watered + 50·fertilized, and keeps ids fresh and distinct |
| BoardRules.FertilizeTreesValid | src/components/EnhancedGameBoardUpdater.tsx:137-142 | fertilizing keeps the same board invariant |
| BoardRules.PlantValid | src/components/EnhancedGameBoardUpdater.tsx:175-184 | appending a seedling (growth 0, neither flag set) with the next fresh id keeps the board invariant |
| BoardRules.WaterTreesNoEffect | src/components/EnhancedGameBoardUpdater.tsx:128 | a water click on an already-watered tree, or on an id no tree has, leaves the trees unchanged |
| BoardRules.FertilizeTreesNoEffect | src/components/EnhancedGameBoardUpdater.tsx:138 | the same for fertilize |
| BoardRules.WaterTreesIdempotent | src/components/EnhancedGameBoardUpdater.tsx:127-132 | watering twice leaves the trees as watering once does |
| BoardRules.FertilizeTreesIdempotent | src/components/EnhancedGameBoardUpdater.tsx:137-142 | fertilizing twice leaves the trees as fertilizing once does |
| BoardRules.WaterTreesAtMostOne | src/components/EnhancedGameBoardUpdater.tsx:127-132 | with distinct ids, watering changes exactly the one unwatered tree with the id, adding 25 growth |
| BoardRules.FertilizeTreesAtMostOne | src/components/EnhancedGameBoardUpdater.tsx:137-142 | with distinct ids, fertilizing changes exactly the one unfertilized tree with the id, adding 50 growth |
| BoardRules.TreeIcon | src/components/EnhancedGameBoardUpdater.tsx:217-222 | the icon has four bands on growth, each stated both ways: seed exactly below 25, sprout exactly from 25 to below 50, sapling exactly from 50 to below 75, mature exactly from 75 up |
| BoardRules.IconOfTreatments | src/components/EnhancedGameBoardUpdater.tsx:217-222 | on a consistent tree the icon is mature iff it is watered and fertilized, a sapling iff it is only fertilized, a sprout iff it is only watered, and a seed iff it is neither |
| BoardRules.InZone | src/components/EnhancedGameBoardUpdater.tsx:157-161 | a point inside a zone that lies on the board is itself on the board (0 to 100 on both axes) |
| BoardRules.ZoneIsClosed | src/components/EnhancedGameBoardUpdater.tsx:156-161 | the forbidden rectangle is closed: its corners are inside, and any point beyond an edge is outside |
| Missions.GrowthMissions | src/components/EnhancedGameBoardUpdater.tsx:51-57 | Growth's ledger starts with every mission valid at progress 0, and with distinct ids |
| Missions.MissionsFor | src/components/EnhancedGameBoardUpdater.tsx:43-59 | the mission list is empty exactly in the endless modes (Grit, Speed) |
| Missions.Advance | src/components/EnhancedGameBoardUpdater.tsx:208-211 | only an open mission with the id moves, to min(current + inc, target), and is then completed iff the target is reached; id and target never change; a valid mission stays valid and never goes back |
| Missions.UpdateMission | src/components/EnhancedGameBoardUpdater.tsx:206-214 | the ledger keeps its length, and each mission is offered the increment |
| Missions.AllCompleted | src/components/EnhancedGameBoardUpdater.tsx:81 | `missions.every(m => m.completed)`, the test also made at line 119: an empty ledger counts as all completed, and a valid ledger that is all completed has every mission at its target |
| Missions.TemplateFollows | src/components/EnhancedGameBoardUpdater.tsx:51-59 | each mode's starting ledger is valid, and Growth's does not start completed |
| Missions.UpdateMissionFollows | src/components/EnhancedGameBoardUpdater.tsx:206-214 | updateMission keeps the template's ids and targets and keeps 0 ≤ current ≤ target with completed iff current ≥ target |
| Missions.UpdateMissionMonotone | src/components/EnhancedGameBoardUpdater.tsx:208-212 | progress never decreases and stays at most the target; completed missions are frozen; missions with another id are untouched |
| Missions.UpdateUnknownIsNoop | src/components/EnhancedGameBoardUpdater.tsx:207-213 | an id no mission has leaves the ledger unchanged |
| Missions.UpdateKeepsAllCompleted | src/components/EnhancedGameBoardUpdater.tsx:208 | once all missions are completed, no update changes the ledger |
| Missions.RepeatProgress | src/components/EnhancedGameBoardUpdater.tsx:209-210 | after k unit updates the matching mission holds min(current + k, target); the others are unchanged; validity is kept |
| Missions.RepeatCompletes | src/components/EnhancedGameBoardUpdater.tsx:209-210 | k unit updates complete every matching mission that had at most k to go, and keep completed missions completed |
| Missions.UpdateMissionCommutes | src/components/EnhancedGameBoardUpdater.tsx:206-214 | updates on two different ids give the same ledger in either order |
| Missions.ReplayProgress | src/components/EnhancedGameBoardUpdater.tsx:206-214 | after any sequence of unit updates, in any order, a mission holds min(current + n, target), where n counts the updates naming it; it stays valid and keeps its id and target |
| Missions.ReplayOrderFree | src/components/EnhancedGameBoardUpdater.tsx:206-214 | two sessions with the same updates in a different order leave a valid ledger in the same state |
| Missions.GrowthMissionCompletes | src/components/EnhancedGameBoardUpdater.tsx:54-56 | each Growth mission is completed by any session, in any order, with at least 10 plant, 8 water and 5 fertilize updates |
| Missions.GrowthScenarioCompletes | src/components/EnhancedGameBoardUpdater.tsx:54-56 | any mix of at least 10 plants, 8 waterings and 5 fertilizings, in any order, completes all three Growth missions |
| Cooldowns.Ticked | src/components/EnhancedGameBoardUpdater.tsx:106-112 | a tick keeps the set of action keys |
| Cooldowns.Tick | src/components/EnhancedGameBoardUpdater.tsx:105-113 | the key-by-key loop over the copied map computes exactly the tick: each positive entry is decremented by 1 and the others are kept |
| Cooldowns.TickedValid | src/components/EnhancedGameBoardUpdater.tsx:109 | the floor is 0: a tick never makes a cooldown negative, and zero entries stay zero |
| Cooldowns.TickedNAt | src/components/EnhancedGameBoardUpdater.tsx:104-115 | after n ticks, a cooldown c ≥ 0 reads max(c − n, 0) |
| Cooldowns.Remaining | src/components/GameActions.tsx:34 | an absent key reads as 0 seconds left, a valid cooldown map never reads negative, and a positive reading comes from a stored key |
| Cooldowns.CanUse | src/components/GameActions.tsx:34-36 | an action button is enabled iff its key is absent or its cooldown is at most 0 |
| Cooldowns.ReadyAfter | src/components/EnhancedGameBoardUpdater.tsx:134 | a cooldown just set to d keeps its button disabled for exactly d ticks |
| EnhancedBoard.Round.constructor | src/components/EnhancedGameBoardUpdater.tsx:30-79 | a new round has an empty board, 10 water, 5 fertilizer and 15 seeds, no cooldowns, the mode's missions, 25 seconds, is inactive at round 1 with Plant selected, and in Grit has its zone placed |
| EnhancedBoard.Round.SelectAction | src/components/GameActions.tsx:34-45 | an action becomes selected iff its cooldown allows it; resources are not consulted |
| EnhancedBoard.Round.CheckGameComplete | src/components/EnhancedGameBoardUpdater.tsx:117-121 | ends the round and reports whether every mission is completed |
| EnhancedBoard.Round.CheckEarlyGameComplete | src/components/EnhancedGameBoardUpdater.tsx:80-89 | if every mission is completed, ends the round and reports success once; otherwise changes nothing |
| EnhancedBoard.Round.ClockStep | src/components/EnhancedGameBoardUpdater.tsx:90-102 | does nothing while inactive or on an empty board; in Growth, all missions completed ends the round with success; with time left and the round still on, the clock drops by 1; at 0, Growth and Speed end and report all-completed (always success in Speed, and a second success in Growth after an early end), while Grit never ends by time; the invariant is kept |
| EnhancedBoard.Round.TickCooldowns | src/components/EnhancedGameBoardUpdater.tsx:104-115 | the cooldowns become their tick, whatever the round's activity; nothing else changes; the invariant is kept |
| EnhancedBoard.Round.ApplyWater | src/components/EnhancedGameBoardUpdater.tsx:126-135 | the water branch: the trees are offered water, exactly one water is spent, the water cooldown becomes 2, mission 2 advances outside the endless modes, and the invariant is kept |
| EnhancedBoard.Round.ApplyFertilizer | src/components/EnhancedGameBoardUpdater.tsx:136-146 | the fertilize branch: the trees are offered fertilizer, exactly one fertilizer is spent, mission 3 advances outside the endless modes, no cooldown is set, and the invariant is kept |
| EnhancedBoard.Round.TreeClick | src/components/EnhancedGameBoardUpdater.tsx:123-147 | on an inactive round, or with Plant selected, nothing changes. Water with water > 0 waters the trees, spends exactly one water, sets the water cooldown to 2 and advances mission 2 in Growth. Fertilize with fertilizer > 0 does the same with mission 3 and sets no cooldown. Both happen even if the tree was already treated, and no cooldown is checked. The invariant (resources ≥ 0, growth consistent, missions valid) is kept |
| EnhancedBoard.Round.PlantSeedling | src/components/EnhancedGameBoardUpdater.tsx:172-201 | the planting branch: exactly one fresh seedling is appended at the click, one seed is spent and the round is active; Grit also counts a round and schedules a reset; mission 1 advances outside the endless modes; the invariant is kept |
| EnhancedBoard.Round.BoardClick | src/components/EnhancedGameBoardUpdater.tsx:148-203 | on an inactive round with trees, nothing changes. In Grit, a click inside the zone ends the round, reports failure and leaves seeds, trees and missions alone. Otherwise, with seeds > 0: exactly one seedling is appended, one seed is spent and the round becomes active; Grit also counts a round and schedules a reset; Growth advances mission 1. With no seeds, nothing changes. The invariant is kept |
| EnhancedBoard.Round.GritReset | src/components/EnhancedGameBoardUpdater.tsx:192-197 | a scheduled reset clears the board and places the new zone, changing nothing else |
| EnhancedBoardFake.Round.constructor | src/components/EnhancedGameBoardFake.tsx:43-77 | a new round has an empty board, 10 water, 5 fertilizer and 15 seeds, Growth's missions and 25 seconds, and is active from the start |
| EnhancedBoardFake.Round.SelectAction | src/components/GameActions.tsx:33-45 | an action becomes selected iff its cooldown allows it |
| EnhancedBoardFake.Round.CheckGameComplete | src/components/EnhancedGameBoardFake.tsx:125-129 | ends the round and reports whether every mission is completed |
| EnhancedBoardFake.Round.ClockStep | src/components/EnhancedGameBoardFake.tsx:83-92 | runs only while active with a tree on the board: drops by 1 while time is left, and at 0 ends the round and reports all-completed; there is no early end |
| EnhancedBoardFake.Round.TickCooldowns | src/components/EnhancedGameBoardFake.tsx:96-107 | the cooldowns become their tick, with floor 0 and the same keys; nothing else changes |
| EnhancedBoardFake.Round.ApplyWater | src/components/EnhancedGameBoardFake.tsx:138-149 | the water branch: the trees are offered water, exactly one water is spent, the water cooldown becomes 2 and mission 2 advances; the invariant is kept |
| EnhancedBoardFake.Round.ApplyFertilizer | src/components/EnhancedGameBoardFake.tsx:151-161 | the fertilize branch: the trees are offered fertilizer, exactly one fertilizer is spent and mission 3 advances; the invariant is kept |
| EnhancedBoardFake.Round.TreeClick | src/components/EnhancedGameBoardFake.tsx:135-162 | on an inactive round, nothing changes. Water or fertilize with the resource > 0 treats the trees, spends exactly one, and advances mission 2 or 3 even on an already-treated tree; water also sets its cooldown to 2. The invariant is kept |
| EnhancedBoardFake.Round.BoardClick | src/components/EnhancedGameBoardFake.tsx:168-191 | on an inactive round, nothing changes. With seeds > 0, exactly one fresh seedling is appended, one seed is spent and mission 1 advances. The invariant is kept |
| SimpleBoard.ResultBanner | src/components/GameBoard.tsx:101-108 | the end message is "Level Complete" iff the count reaches the target, and "Time's Up" otherwise |
| SimpleBoard.Round.constructor | src/components/GameBoard.tsx:13-17 | a new round has no trees, 60 seconds, is active and has the given target |
| SimpleBoard.Round.PlantTree | src/components/GameBoard.tsx:36-45 | while active, exactly one position is appended and the count goes up by 1; while inactive, nothing changes; the count always equals the number of positions |
| SimpleBoard.Round.ClockStep | src/components/GameBoard.tsx:19-27 | while active with time left, the clock drops by 1; at 0 the round ends and reports the count; ended with time left, the clock no longer moves |
| SimpleBoard.Round.TargetCheck | src/components/GameBoard.tsx:29-34 | once the count reaches the target, the round ends and reports the count; below it, nothing changes |
| SimpleBoard.Round.Outcome | src/components/GameBoard.tsx:101-108 | no message while active; "Level Complete" iff ended with the target reached |
| LevelProgress.IsLevelCompleted | src/components/TreePlantingGame.tsx:35-37 | true iff the grade and the level are both present and the entry is true; absent entries read as false |
| LevelProgress.IsLevelUnlocked | src/components/TreePlantingGame.tsx:29-33 | level 1 is unlocked whatever the map holds; any other level n is unlocked iff level n − 1 is completed |
| LevelProgress.MarkCompleted | src/components/TreePlantingGame.tsx:41-47 | a success adds the grade if it was missing and marks the level completed |
| LevelProgress.MarkCompletedFrame | src/components/TreePlantingGame.tsx:41-46 | no other grade and no other level of the grade changes, and a completion is never taken back |
| LevelProgress.CompletionUnlocksNext | src/components/TreePlantingGame.tsx:39-47 | after a success on level n, level n + 1 of that grade is unlocked |
| LevelProgress.LevelGrid | src/components/TreePlantingGame.tsx:55-76 | the grid shows exactly levels 1..50 in order. A card is locked iff its level is not unlocked. A card shows 10 trees if its level is completed and 0 otherwise |
| LevelProgress.GridUnlockChain | src/components/TreePlantingGame.tsx:60-69 | the first card is never locked, and a card is locked iff the card before it shows no trees |
| LevelProgress.Shell.constructor | src/components/TreePlantingGame.tsx:12-14 | the shell starts with empty progress, the kindergarten grade and no level in play |
| LevelProgress.Shell.SelectGrade | src/components/TreePlantingGame.tsx:105-108 | choosing a grade makes it the selected one |
| LevelProgress.Shell.Play | src/components/GameCard.tsx:44-46 | the Play button starts a level only when the level is unlocked for the selected grade |
| LevelProgress.Shell.HandleLevelComplete | src/components/TreePlantingGame.tsx:39-48 | a success while a level (other than the falsy 0) is in play marks it completed; a failure, or no level in play, leaves the progress unchanged |
| LevelProgress.Shell.LeaveLevel | src/components/TreePlantingGame.tsx:50-52 | returning to the grid clears the level in play |

## Left out

- Rendering is not modelled, because it is presentation only. This covers the JSX, styling, the cursor-preview tree, the grass icons drawn in the zone, the end-of-round captions of the enhanced boards together with `gameOverReason`, the field that a forbidden click sets and that only the caption reads, and the presentational components: MissionTracker, GradeSelector, GameCard (apart from its disabled Play button), GameModeSelector and AppLayout.
- The forbidden zone's random placement and its 80% area (`Math.random`, `Math.sqrt`) are not modelled, because they are random and floating-point. The zone is a parameter of the constructor and of `GritReset`. The model requires only that the zone lies on the board.
- Converting the pointer position to board percentages is not modelled, because it is DOM and floating-point work. Click coordinates are `real` parameters.
- Wall-clock time is not modelled. Each one-second clock timer, each cooldown interval tick and each 500 ms Grit reset is an explicit method call. Any interleaving of those calls is allowed. The model has no notion of how long a pending timer waits, or of a click that cancels and re-arms the clock timer by changing the tree count. The 2000 ms return to the grid is `LeaveLevel`.
- Tree ids come from a counter (`nextId`) instead of `Date.now()`. Two plants within one millisecond would collide in the source, and one tree click would then treat both trees. The model's ids are always distinct.
- The tree record's `stage` field is not modelled. It is always 'seed' and nothing reads it: the icon is computed from growth.
- The older board's mode-selection screen and `selectedMode` are not modelled. They only decide whether the board is shown, and no rule reads them.
- Loading and saving progress through `localStorage` and JSON is not modelled, because it is I/O.
- React's batching and stale closures are modelled only as "one handler is one atomic step on the state". The model never claims that `onComplete` fires exactly once.
- `onBack` is not modelled beyond `LeaveLevel`, because it only discards the round.
- The shell's wiring to the board component is not modelled: src/components/EnhancedGameBoard.tsx, which the shell imports, is not part of this model.
