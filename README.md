# Dice-and-tic-tac-toe party game: the rules engine in Dafny

This project models the rules engine of a party game. Each player has a 3x3
board. On their turn a player rolls three dice, each green, red or yellow, up to
three times. A green triple lets the player place a green chip on their own
board. Three green chips in a line win the round, and every other player loses a
heart. A yellow triple opens a "wild" menu with four actions: place green, place
red on the next player's board, remove a red chip, or restore a red chip. A turn
with no triple in three rolls costs the roller a heart. The game ends when a
player's opponents are all out of hearts.

The model follows the program's own structure, one module per source file:

- `Dice` (`src/utils/diceRoll.ts`): the three colours and the mapping of a random value onto a colour. It also has the triple classifier, as a specification function `Classify` and as the counting loop `CountDiceOutcome` that the original runs.
- `TicTacToe` (`src/utils/ticTacToe.ts`): boards as sequences of nine cells. It has win detection over the eight lines, a row/column/diagonal reading of a win proved equivalent to it, and the two cell queries.
- `WildMenu` (`src/components/WildMenu.tsx`): which wild actions are offered for a board, and what a button press passes on.
- `GameStore` (`src/stores/gameStore.ts`): the single mutable store, as class `Store`. Its fields are the phase, the current seat, the roll count, the dice, the roll history, six boards and the players. Each named action is a method whose `modifies` clause names exactly the fields it assigns. `Store.Valid()` is the invariant that every action keeps. It holds that:
  - the player count is between 2 and 6;
  - each player's id is their seat;
  - hearts stay between 0 and 4;
  - every board has nine cells;
  - the current seat is in range;
  - no player ever has a win recorded, because no action ever increments `wins`.
- `App` (`src/App.tsx`): the turn resolution that the game screen performs on top of the store, as class `GameUI`:
  - the roll guard;
  - the cell press that places a chip, runs the win test, takes hearts and decides between round-end and game-over;
  - the wild-card flow;
  - the continue button.

  `GameUI.Valid()` adds to the store's invariant that the roll count never exceeds three.

Randomness enters as parameters. `Store.StartGame` takes the first seat, and
`GameUI.HandleRoll` and `Dice.RollThreeDice` take three reals, one per die.
The source draws them in [0, 1] (`diceRoll.ts:3-7`); only `Dice.RollDieIsBucket`
relies on that range.

The model keeps several behaviours of the original as written, and states each
one:

- In the placing phase, only a green triple places a chip. A red triple (`App.tsx:68`) makes a cell press do nothing, and the phase stays placing (`GameUI.HandleCellPress`).
- The win test after a placement reads the boards the screen was drawn from, before the chip landed (`App.tsx:26`, `App.tsx:72`). The press that completes a line therefore does not win the round; the win is recorded one green press later, when the snapshot already shows the line. See "Findings". The client methods `App.CompletingPressAsWritten` and `App.PressAfterCompletingWins` replay both presses.
- Choosing a wild action sets the phase back to playing (`App.tsx:119`), and a cell press in that phase does nothing. So the wild branch of the cell press is never reached through the screen (`GameUI.ChooseWildThenPress`).
- A round that ends without a win shows no win modal. The modal's continue button is the only caller of `nextTurn` in the screen. A round only ends after three rolls or on a triple, and the roll button is hidden in both cases (`RollControls.tsx:91`). So such a round has no way forward in the original screen.
- A wild place-green does not run the win test, and wild place-red always targets the next seat (`GameUI.ApplyWildAction`).

Two more client methods replay short games. In `App.ThreeMissesCostAHeart`, three rolls without a triple cost the roller a heart and end the round, and a fourth roll is refused. In `App.YellowTripleOnEmptyBoard`, a yellow triple opens the wild menu, where remove-red is disabled on an empty board and pressing it selects nothing.

## Model

| member | source | states |
|---|---|---|
| `Dice.RollDie` | src/utils/diceRoll.ts:11-16 | a value below 1/3 gives green, one in [1/3, 2/3) gives red, and 2/3 or more gives yellow, the value 1 included |
| `Dice.RollDieIsBucket` | src/utils/diceRoll.ts:11-16 | on [0, 1] the die shows the colour of bucket floor(3·rand), and the value 1 falls in the yellow bucket |
| `Dice.RollThreeDice` | src/utils/diceRoll.ts:18-20 | a roll is exactly three dice, die k drawn from the k-th random value |
| `Dice.CountDiceOutcome` | src/utils/diceRoll.ts:22-33 | the counting loop returns the classification: the first of green, red, yellow that occurs exactly three times, otherwise no match |
| `Dice.OccurrencesIsMultiplicity` | src/utils/diceRoll.ts:25-26 | the counter the loop fills for a colour is that colour's multiplicity among the dice |
| `Dice.OccurrencesTotal` | src/utils/diceRoll.ts:25-26 | the three counters together count every die exactly once |
| `Dice.Classify` | src/utils/diceRoll.ts:28-32 | a triple names a colour that occurs exactly three times; no match iff no colour occurs three times; green wins over the other colours, and yellow only when neither green nor red occurs three times |
| `Dice.ClassifyPermutationInvariant` | src/utils/diceRoll.ts:22-33 | reordering the dice never changes the outcome |
| `Dice.TripleIffCountThree` | src/utils/diceRoll.ts:28-32 | with fewer than six dice the test order is irrelevant: a triple of c iff c occurs three times, and no match iff no colour occurs three times |
| `Dice.SixDiceFavourGreen` | src/utils/diceRoll.ts:28-29 | with six dice the order does decide: three red and three green dice classify as a green triple |
| `Dice.ClassifyThree` | src/utils/diceRoll.ts:22-33 | for three dice, a triple of c iff all three show c, and no match iff they do not all agree |
| `TicTacToe.CheckWin` | src/utils/ticTacToe.ts:6-21 | a board wins iff one of the eight listed lines (three rows, three columns, two diagonals) is green in every cell |
| `TicTacToe.SomeLineGreenIsExists` | src/utils/ticTacToe.ts:18-20 | the `some`/`every` scan finds a win iff some listed line is green in all its cells |
| `TicTacToe.CheckWinIsGridWin` | src/utils/ticTacToe.ts:6-21 | checkWin holds iff a row, a column or one of the two diagonals of the 3x3 grid is all green |
| `TicTacToe.FewGreensNeverWin` | src/utils/ticTacToe.ts:18-20 | a board with fewer than three green cells never wins |
| `TicTacToe.OnlyGreensMatter` | src/utils/ticTacToe.ts:18-20 | red and empty cells never contribute: boards with green in the same places both win or both do not |
| `TicTacToe.GreenKeepsWin` | src/utils/ticTacToe.ts:18-20 | turning a cell green never turns a winning board into a losing one |
| `TicTacToe.DropMinusOneKeepsIndices` | src/utils/ticTacToe.ts:23-33 | filtering out the -1 marks keeps exactly the marked indices, in strictly increasing order |
| `TicTacToe.GetEmptyCells` | src/utils/ticTacToe.ts:23-27 | returns exactly the indices of the empty cells, strictly increasing |
| `TicTacToe.GetAvailableOpponentCells` | src/utils/ticTacToe.ts:29-33 | returns exactly the indices of the cells that are not red, strictly increasing |
| `TicTacToe.EmptyCellsAreAvailable` | src/utils/ticTacToe.ts:23-33 | every index of an empty cell is also an index open to an opponent |
| `TicTacToe.CountPositive` | src/components/WildMenu.tsx:19-20 | the `filter(...).length` count of a cell value is positive iff some cell holds it |
| `TicTacToe.CountsPartitionBoard` | src/components/WildMenu.tsx:21-24 | the counts of empty, green and red cells add up to the board length |
| `WildMenu.CanRemoveRed` | src/components/WildMenu.tsx:19-20 | remove-red is available iff some cell of the board is red |
| `WildMenu.CanRestoreRed` | src/components/WildMenu.tsx:21-24 | restore-red is available iff some cell is empty, because an empty cell already keeps the red count below the board length |
| `WildMenu.Actions` | src/components/WildMenu.tsx:26-55 | four buttons in order: place-green and place-red always available, remove-red iff a red cell exists, restore-red iff an empty cell exists |
| `WildMenu.Click` | src/components/WildMenu.tsx:82-87 | a press passes an action on iff its button is available, and then passes that button's action |
| `WildMenu.ClickOnlySelectsOffered` | src/components/WildMenu.tsx:82-87 | no press on the menu ever selects an unavailable action; a press selects nothing exactly for remove-red with no red cell or restore-red with no empty cell |
| `GameStore.CreateEmptyBoards` | src/stores/gameStore.ts:61-65 | six boards of nine cells, every cell empty |
| `GameStore.CreateEmptyPlayers` | src/stores/gameStore.ts:67-85 | n players, seat i with id i, name "Player i+1", colour i, 4 hearts and 0 wins |
| `GameStore.DecimalRoundTrip` | src/stores/gameStore.ts:80 | the number printed into a default name reads back as that number |
| `GameStore.DefaultNamesDistinct` | src/stores/gameStore.ts:80 | two different seats never get the same default name |
| `GameStore.ClampPlayers` | src/stores/gameStore.ts:102 | the count is in [2, 6], unchanged when already in range, 2 below it and 6 above it |
| `GameStore.GreenPlaced` | src/stores/gameStore.ts:194-196 | only the target cell can change; it is green afterwards iff it was not red, and a red cell stays red |
| `GameStore.RedPlaced` | src/stores/gameStore.ts:204-206 | only the target cell can change, and it is red afterwards, including a cell that was green |
| `GameStore.RedRemoved` | src/stores/gameStore.ts:214-216 | only the target cell can change; a red cell becomes empty, and a cell that was not red is untouched |
| `GameStore.RedRestored` | src/stores/gameStore.ts:224-226 | only the target cell can change; an empty cell becomes red, and a cell that was not empty is untouched |
| `GameStore.PlacementsIdempotent` | src/stores/gameStore.ts:191-229 | each of the four placement rules applied twice to a cell acts as applied once |
| `GameStore.RemoveRestoreInverse` | src/stores/gameStore.ts:211-229 | removing a red chip and restoring it, or restoring on an empty cell and removing it, gives back the board |
| `GameStore.GreenPlacedKeepsWin` | src/stores/gameStore.ts:191-198 | a green placement never undoes a win already on the board |
| `GameStore.FreshDice` | src/stores/gameStore.ts:135-138 | one die per colour, showing that colour, none kept |
| `GameStore.FreshDiceColors` | src/stores/gameStore.ts:135-138 | reading the colours back off freshly rolled dice gives the colours rolled |
| `GameStore.DiceColors` | src/App.tsx:66 | the colours read off the dice, one per die, in order |
| `GameStore.KeptToggled` | src/stores/gameStore.ts:174-180 | only die `index` changes, only its kept mark flips, and an index outside the dice changes nothing |
| `GameStore.ToggleTwiceIsIdentity` | src/stores/gameStore.ts:174-180 | toggling the same die twice restores the dice |
| `GameStore.LoseHeart` | src/stores/gameStore.ts:146-149 | one heart less, with a floor of 0 |
| `GameStore.AliveCount` | src/stores/gameStore.ts:151 | the number of living players is at most the number of players, and zero iff every player is at zero hearts |
| `GameStore.AliveCountIsSeats` | src/stores/gameStore.ts:151 | the count of living players is the number of seats with hearts above 0 |
| `GameStore.SoleSurvivor` | src/stores/gameStore.ts:150-154 | when the roller is out and exactly one player is alive, that living player is another seat and everybody else is out |
| `GameStore.NextIndex` | src/stores/gameStore.ts:238 | the next seat stays in [0, n): it is seat i+1, or 0 after the last seat |
| `GameStore.AdvanceWithinRound` | src/stores/gameStore.ts:236-244 | k ≤ n turns from seat i reach seat i+k, wrapping past the last seat |
| `GameStore.FullRoundReturns` | src/stores/gameStore.ts:236-244 | n turns at a table of n players return to the starting seat |
| `GameStore.Replenished` | src/stores/gameStore.ts:265-269 | every player keeps their id, name and colour, with 4 hearts and 0 wins |
| `GameStore.Renamed` | src/stores/gameStore.ts:109-115 | only the named seat changes, and only its name; an index outside the seats changes nothing |
| `GameStore.Store.constructor` | src/stores/gameStore.ts:87-99 | the initial store: two default players, empty boards, seat 0, no rolls, setup phase, no wild colour |
| `GameStore.Store.SetNumPlayers` | src/stores/gameStore.ts:101-107 | the count becomes the clamped request, with exactly that many fresh players |
| `GameStore.Store.SetPlayerName` | src/stores/gameStore.ts:109-115 | the players become the renamed players; no other field changes |
| `GameStore.Store.StartGame` | src/stores/gameStore.ts:117-130 | the given first seat, playing phase, empty boards, no rolls, dice or history |
| `GameStore.Store.RollDice` | src/stores/gameStore.ts:132-172 | roll count +1, dice unkept, history appended; yellow triple to wild menu, other triples to placing with the triple's colour remembered; a miss before the third roll keeps the phase and clears the colour; a miss on the third roll or later costs only the roller a heart and ends in game-over iff the roller is now out and exactly one player is alive, else round-end, keeping the colour |
| `GameStore.Store.ToggleKeptDice` | src/stores/gameStore.ts:174-180 | the dice become the toggled dice; nothing else changes |
| `GameStore.Store.ResetRoll` | src/stores/gameStore.ts:182-189 | no rolls, no dice, no selection, playing phase |
| `GameStore.Store.PlaceGreen` | src/stores/gameStore.ts:191-199 | only the given board changes, by the green rule; the phase becomes checking-win |
| `GameStore.Store.PlaceRed` | src/stores/gameStore.ts:201-209 | only the given board changes, by the red rule; the phase becomes round-end |
| `GameStore.Store.RemoveRed` | src/stores/gameStore.ts:211-219 | only the given board changes, by the remove rule; the phase becomes round-end |
| `GameStore.Store.RestoreRed` | src/stores/gameStore.ts:221-229 | only the given board changes, by the restore rule; the phase becomes round-end |
| `GameStore.Store.CheckWinCondition` | src/stores/gameStore.ts:231-234 | true iff a row, column or diagonal of the current player's board is all green |
| `GameStore.Store.NextTurn` | src/stores/gameStore.ts:236-244 | the next seat, no rolls, no dice, playing phase |
| `GameStore.Store.EndTurn` | src/stores/gameStore.ts:246-253 | no rolls, no dice, no selection, round-end phase |
| `GameStore.Store.ResetBoard` | src/stores/gameStore.ts:255-271 | setup phase, seat 0, empty boards, no rolls or history, players replenished with names kept |
| `App.OthersLoseHeart` | src/App.tsx:76-81 | the winner is untouched; every other player loses one heart with a floor of 0 and nothing else |
| `App.WinEndsGameIffOthersOnLastHeart` | src/App.tsx:83-91 | after a win every other player is out iff each of them had at most one heart before |
| `App.WildTarget` | src/App.tsx:103-105 | place-red targets seat (current+1) mod n; every other wild action targets the current seat |
| `App.WildBoards` | src/App.tsx:98-110 | after a yellow triple with an action selected, only the target board changes, by that action's rule; otherwise no board changes |
| `App.CompletingPressUnseenBySnapshot` | src/App.tsx:69-72 | a board with green on cells 0 and 1 does not win, but the same board after a green press on cell 2 does |
| `App.GameUI.constructor` | src/App.tsx:41-44 | not rolling, no action selected, no win modal, no round winner |
| `App.GameUI.HandleRoll` | src/App.tsx:49-61 | with three rolls made or a roll under way nothing changes; otherwise the store goes through one roll of the three dice drawn from the given values |
| `App.GameUI.ResolvePlacement` | src/App.tsx:72-96 | on a win: the current seat is the round winner, the others lose a heart, game-over iff all others are out, else round-end; without a win: round-end only |
| `App.GameUI.ApplyWildAction` | src/App.tsx:98-113 | the boards become the wild result for the selected action and the last wild colour; the selection is cleared and the phase is round-end |
| `App.GameUI.HandleCellPress` | src/App.tsx:64-114 | outside placing and wild-menu nothing changes; in placing, anything but a green triple changes nothing; a green triple places on the current board and decides the round by the board as it was before the press; in wild-menu the wild branch applies |
| `App.GameUI.HandleCellPressRechecked` | src/App.tsx:64-97 | as the cell press, but the round is won iff the current board after the placement shows a row, column or diagonal of green |
| `App.GameUI.HandleWildAction` | src/App.tsx:117-120 | the action is remembered and the phase becomes playing |
| `App.GameUI.PressWildButton` | src/components/WildMenu.tsx:82-87 | a disabled button changes nothing; an available one selects its action and sets the phase to playing |
| `App.GameUI.ChooseWildThenPress` | src/App.tsx:98-120 | choosing a wild action and then pressing a cell leaves every board and player, the round winner and the win modal as they were, with the phase playing |
| `App.GameUI.HandleWinContinue` | src/App.tsx:123-131 | from game-over: setup, not started, seat 0, replenished players, empty boards, and no dice, history or selection; otherwise the next seat starts playing with no dice and no selection, and boards, players, roll history and the started flag unchanged |

## Findings

| source | as written | input that shows it | evidently intended | confidence | as-written member | corrected member |
|---|---|---|---|---|---|---|
| src/App.tsx:69-72 | the win test reads `boards[currentPlayerIndex]` from the state the screen was drawn from; `placeGreen` writes a copied board, so the test sees the board before the chip | board 0 green on cells 0 and 1, a green triple, a press on cell 2: the row is complete but no winner is recorded and the round ends | the press that completes a line wins the round, as the store's own `checkWinCondition` would report after the placement | high, not executed | `App.GameUI.HandleCellPress` | `App.GameUI.HandleCellPressRechecked` |

`App.CompletingPressUnseenBySnapshot` exhibits the board. The client methods
`App.CompletingPressAsWritten` and `App.CompletingPressRechecked` replay the
press through both members: the first records no winner, the second takes
player 1 from four hearts to three.

## Left out

- Dice.RollDie: the thresholds are the exact rationals 1/3 and 2/3 on a real input. The original compares double-precision values (`1 / 3`, and `buffer[0] / 0xffffffff`), so the boundaries can differ in the last bit.
- `generateFairRandom` and `Math.random` in `startGame` are not modelled. They are foreign random sources: the random values and the first seat are parameters.
- `getPhysicsImpulse`, the audio and haptics module, the 3D dice and all rendering and animation are not modelled. They are presentation with floating-point arithmetic and no game rule.
- App.GameUI.HandleRoll: the 2.5-second `setTimeout` is collapsed into one step. The roll and the return of `isRolling` to false happen in the same call, so no interleaving with other presses is modelled.
- `toggleAlternateMode` with its `alternateMode` field, `setGamePhase` and `setLastWildColor` are not actions of the model. The phase assignments that the screen makes through `setGamePhase` are direct assignments to `store.gamePhase` in `GameUI`.
- GameStore.Store.PlaceRed: requires a seat below 6 and a cell below 9, as every caller passes. In the original, a red placement on an out-of-range cell would grow the board array. The other three placement actions have the same requirement.
- GameStore.Store.SetNumPlayers: requires the setup phase, where the setup screen is the only caller. Outside setup the original could leave the current seat beyond the new player count.
- GameStore.CreateEmptyPlayers: requires at most six players, since there are six seat colours. Every caller passes a clamped count.
- The aliasing of the `Player` objects is modelled as replacing entries of the players sequence. The original mutates shared objects in place, both in `rollDice` and in the screen's heart loop.
- `WinModal`'s standings sort (`WinModal.tsx:134-135`) is not modelled. It sorts the array it is given, and the screen passes the store's own `players` (`App.tsx:255`), so the sort reorders the store's seats in place by hearts. After that, `players[i].id == i` (part of `Store.Valid`) no longer holds, and `currentPlayerIndex`, `roundWinner` and the per-seat boards would point at different players. The screen as written never opens the modal, because every first turn ends in a state with no control left: round-end without the modal, placing after a red triple, or playing after a wild choice. So no board ever holds more than one chip. If later turns were reachable, the sort would run in the written flow too, one press after a line is completed, and also under the corrected press `GameUI.HandleCellPressRechecked`. The model does not capture the reordering that would follow.
- The roll controls (`RollControls.tsx`) are left out as a component, but two of their effects are rules. Tapping a die (`RollControls.tsx:60-65`) writes the store's `diceState` with the same update as `toggleKeptDice`, which `Store.ToggleKeptDice` models. The roll button shows only while fewer than three rolls are made and no triple is showing (`RollControls.tsx:91`). That gate, together with `GameUI.HandleRoll`'s guard, is what leaves a round without a win stuck.
- The setup, board and player-panel components and the styling configuration are presentation only.
