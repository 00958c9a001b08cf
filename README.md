# Sudoku session and persistence logic, modelled in Dafny

This project models the core of an Android Sudoku game written in Kotlin:

- the board cell `SudokuNode` and its key `getHash`, in both copies of the
  domain package;
- the `Difficulty` enum;
- the `SudokuPuzzle` record;
- the repository `GameRepositoryImpl`, which turns game storage and
  settings storage outcomes into success and error callbacks;
- `ActiveGameLogic`, which reacts to the events of one play session.

Modules:

- `Outcomes` holds `Option`, `Result` and `Exception`.
- `Numbers` holds Kotlin's `Int` and `Long` ranges, `Int` wrap-around,
  `Int.toString()` and `String.toInt()`.
- `Node` and `ExampleNode` hold the two copies of the cell.
- `Difficulties` holds the enum with its modifiers as exact reals.
- `Puzzle` holds the record and its `copy(elapsedTime = …)`.
- `Persistence` holds the repository as a class over a `Storage` class.
  `Storage` has at most one saved puzzle, at most one settings value, and a
  log of the calls made into it. Each storage call is told through a `Fault`
  parameter whether it fails.
- `ActiveGame` holds the session logic as a class:
  - `torn` means `jobTracker` has been cancelled;
  - `timerRunning` means `timeTrackerJob` is live;
  - a log records every call to the container, the view model and the
    repositories.

A coroutine `launch` is modelled as a step that runs to completion at once.
A `launch` after the scope is cancelled does nothing. The replies of the
repositories are method parameters.

Where a plain description of the behaviour and the code differ, the model
follows the code:

- The key of a cell is not `x*100 + y`. It is the text of `x*100` followed by
  the text of `y`, read back as a number, so `getHash(1, 5)` is 1005.
  Larger coordinates can collide: `(1, 0)` and `(0, 1000)` share 1000.
- Cell equality is structural over all four fields, not over the position.
- `saveGame` writes the fetched game back unchanged, so the elapsed time it
  is given is lost (see Findings).
- After a successful statistics update, `checkIfNewRecord` sets the record
  flag but does not ask the view model for the complete state. Only the
  failure path does.

## Model

| member | source | states |
|---|---|---|
| Numbers.WrapInt | app/src/main/java/com/death/sudoku/domain/SudokuNode.kt:22 | the `Int` product `x*100` reduced into 32-bit range; a value already in range is unchanged |
| Numbers.NatToDigits | app/src/main/java/com/death/sudoku/domain/SudokuNode.kt:23 | the decimal text of a number is non-empty and all digits |
| Numbers.DigitsValueOfNatToDigits | app/src/main/java/com/death/sudoku/domain/SudokuNode.kt:23 | reading back the decimal text of `n` gives `n` |
| Numbers.DigitsValueAppend | app/src/main/java/com/death/sudoku/domain/SudokuNode.kt:23 | two digit strings written one after the other have the value of the first shifted left by the length of the second, plus the second |
| Numbers.IntToStringRoundTrip | app/src/main/java/com/death/sudoku/domain/SudokuNode.kt:23 | `toInt` of `toString` of every `Int` gives that `Int` back |
| Numbers.ParseDigits | app/src/main/java/com/death/sudoku/domain/SudokuNode.kt:23 | `toInt` of an unsigned digit string is its value when that fits in `Int`, and throws otherwise |
| Numbers.DigitCountSmall | app/src/main/java/com/death/sudoku/domain/SudokuNode.kt:23 | a value below 10 has one digit, one below 100 has two |
| Node.GetHashNonNegative | app/src/main/java/com/death/sudoku/domain/SudokuNode.kt:21-24 | for `x*100` in range and `y >= 0`, the key is `x*100*10^digits(y) + y`; it exists exactly when that value fits in `Int` |
| Node.ShiftedDigits | app/src/main/java/com/death/sudoku/domain/SudokuNode.kt:23 | the text of `w` followed by the text of `y` is all digits and has value `w*10^digits(y) + y` |
| Node.GetHashNegativeY | app/src/main/java/com/death/sudoku/domain/SudokuNode.kt:22-23 | a negative `y` always makes `toInt` throw |
| Node.GetHashOneDigitY | app/src/main/java/com/death/sudoku/domain/SudokuNode.kt:21-24 | for `x >= 0` and `0 <= y <= 9`, the key is `1000*x + y` |
| Node.GetHashTwoDigitY | app/src/main/java/com/death/sudoku/domain/SudokuNode.kt:21-24 | for `x >= 0` and `10 <= y <= 99`, the key is `10000*x + y` |
| Node.GetHashOnBoard | app/src/main/java/com/death/sudoku/domain/SudokuNode.kt:21-24 | on coordinates below 100 the key never throws and equals the board key |
| Node.BoardKeysDistinct | app/src/main/java/com/death/sudoku/domain/SudokuNode.kt:21-24 | on coordinates below 100, equal board keys mean equal positions |
| Node.GetHashInjectiveOnBoards | app/src/main/java/com/death/sudoku/domain/SudokuNode.kt:16-24 | on every board up to 99x99 the key never throws, and two positions share a key if and only if they are the same position |
| Node.GetHashExamples | app/src/main/java/com/death/sudoku/domain/SudokuNode.kt:21-24 | `getHash(1, 5)` is 1005, which is not `1*100 + 5`; `(1, 0)` and `(0, 1000)` collide at 1000 |
| Node.HashCodeIgnoresContents | app/src/main/java/com/death/sudoku/domain/SudokuNode.kt:16-18 | nodes at one position hash alike whatever their color and read-only flag |
| Node.EqualNodesHashAlike | app/src/main/java/com/death/sudoku/domain/SudokuNode.kt:10-19 | the equals/hashCode contract: equal nodes have equal hash codes |
| Node.EqualityIsStructural | app/src/main/java/com/death/sudoku/domain/SudokuNode.kt:10-19 | two nodes at one position with different colors are unequal, yet hash alike |
| Node.NewNodeDefaults | app/src/main/java/com/death/sudoku/domain/SudokuNode.kt:13-14 | a node built from a position has color 0 and is read-only |
| ExampleNode.EqualityAgrees | app/src/main/java/com/example/sudoku/domain/SudokuNode.kt:8-13 | the two copies' structural equalities agree: two nodes are equal exactly when their counterparts in the other copy are |
| ExampleNode.GetHashAgrees | app/src/main/java/com/example/sudoku/domain/SudokuNode.kt:19-22 | this copy's `getHash` equals the other copy's on every input |
| ExampleNode.HashCodeAgrees | app/src/main/java/com/example/sudoku/domain/SudokuNode.kt:14-16 | this copy's `hashCode` equals the other copy's on the corresponding node |
| ExampleNode.HashCodeIgnoresContents | app/src/main/java/com/example/sudoku/domain/SudokuNode.kt:14-16 | the hash code depends on the position only |
| ExampleNode.GetHashOneDigitY | app/src/main/java/com/example/sudoku/domain/SudokuNode.kt:19-22 | for `x >= 0` and `0 <= y <= 9`, the key is `1000*x + y` |
| ExampleNode.NewNodeDefaults | app/src/main/java/com/example/sudoku/domain/SudokuNode.kt:11-12 | a node built from a position has color 0 and is read-only |
| Difficulties.Difficulty.Ordinal | app/src/main/java/com/death/sudoku/domain/Difficulty.kt:3-7 | every difficulty has an ordinal among the three values |
| Difficulties.Difficulty.Modifier | app/src/main/java/com/death/sudoku/domain/Difficulty.kt:4-6 | every modifier lies strictly between 0 and 1 |
| Difficulties.ValuesInOrdinalOrder | app/src/main/java/com/death/sudoku/domain/Difficulty.kt:3-7 | there are exactly three distinct difficulties, listed in ordinal order |
| Difficulties.ModifierDecreasesWithOrdinal | app/src/main/java/com/death/sudoku/domain/Difficulty.kt:4-6 | a higher ordinal has a strictly smaller modifier |
| Difficulties.ModifierValues | app/src/main/java/com/death/sudoku/domain/Difficulty.kt:4-6 | the modifiers are exactly 0.50, 0.44 and 0.38 |
| Puzzle.NewPuzzle | app/src/main/java/com/death/sudoku/domain/SudokuPuzzle.kt:5-10 | a puzzle built from a boundary and a difficulty keeps both, takes its graph from the generator, and has elapsed time 0 |
| Puzzle.GetValue | app/src/main/java/com/death/sudoku/domain/SudokuPuzzle.kt:11 | `getValue` returns the graph unchanged |
| Puzzle.WithElapsedTime | app/src/main/java/com/death/sudoku/domain/SudokuPuzzle.kt:5-10 | `copy(elapsedTime = t)` keeps boundary, difficulty and graph and sets the time to `t`; the copy equals the original exactly when the time was already `t` |
| Puzzle.WithElapsedTimeLastWins | app/src/main/java/com/death/sudoku/domain/SudokuPuzzle.kt:5-10 | of two time copies in a row, the last one wins |
| Puzzle.WithElapsedTimeCharacterizes | app/src/main/java/com/death/sudoku/domain/SudokuPuzzle.kt:5-10 | two puzzles that differ only in their time are time copies of each other |
| Persistence.GameRepositoryImpl.constructor | app/src/main/java/com/death/sudoku/persistence/GameRepositoryImpl.kt:11-14 | the repository works on the storage it is given |
| Persistence.GameRepositoryImpl.SaveGame | app/src/main/java/com/death/sudoku/persistence/GameRepositoryImpl.kt:15-27 | a failed fetch reports its error and writes nothing; otherwise the fetched game is written back unchanged, so the stored game becomes storage's copy of what it already held, and success is reported whatever the write returns |
| Persistence.GameRepositoryImpl.SaveGameWithElapsedTime | app/src/main/java/com/death/sudoku/persistence/GameRepositoryImpl.kt:15-27 | as `saveGame`, but the fetched game is written with the given elapsed time, and a successful write stores storage's copy of it |
| Persistence.GameRepositoryImpl.UpdateGame | app/src/main/java/com/death/sudoku/persistence/GameRepositoryImpl.kt:29-38 | one write of the given game; success exactly when the write succeeds, and then storage's copy of the game is saved |
| Persistence.GameRepositoryImpl.CreateNewGame | app/src/main/java/com/death/sudoku/persistence/GameRepositoryImpl.kt:40-55 | the settings are written first; if that fails, its error is reported and no game is written; otherwise a game built from the same settings is written and that write's outcome reported |
| Persistence.GameRepositoryImpl.CreateAndWriteNewGame | app/src/main/java/com/death/sudoku/persistence/GameRepositoryImpl.kt:57-64 | one write of a new puzzle built from the settings; the result is that write's outcome, carrying the puzzle storage answers with |
| Persistence.GameRepositoryImpl.UpdateNode | app/src/main/java/com/death/sudoku/persistence/GameRepositoryImpl.kt:66-80 | `x, y, color, elapsedTime` go to storage unchanged; a success reports `puzzleComplete` of the returned puzzle; an error is forwarded |
| Persistence.GameRepositoryImpl.GetCurrentGame | app/src/main/java/com/death/sudoku/persistence/GameRepositoryImpl.kt:86-110 | a stored game is returned with its completion flag and nothing is written; otherwise settings are read; their failure is reported without a write; else a new game from them is written, and the puzzle the write answers with is returned with its completion flag, or the write's error |
| Persistence.GameRepositoryImpl.GetSettings | app/src/main/java/com/death/sudoku/persistence/GameRepositoryImpl.kt:112-117 | the result is exactly the outcome of the settings read, and nothing is written |
| Persistence.GameRepositoryImpl.UpdateSetting | app/src/main/java/com/death/sudoku/persistence/GameRepositoryImpl.kt:119-126 | one settings write, and success reported whatever that write returns |
| Persistence.SaveGameKeepsStoredTime | app/src/main/java/com/death/sudoku/persistence/GameRepositoryImpl.kt:20-25 | on a storage that keeps the time of what it is written, a game stored with time 0 and saved at 42 is still stored with time 0 |
| Persistence.SaveGameWithElapsedTimeStoresTime | app/src/main/java/com/death/sudoku/persistence/GameRepositoryImpl.kt:15-27 | with the corrected save on the same storage, the game is stored with time 42 |
| Persistence.FirstFetchBuildsFromSettings | app/src/main/java/com/death/sudoku/persistence/GameRepositoryImpl.kt:90-103 | on empty game storage a puzzle built from the saved settings with time 0 is written; the returned puzzle is storage's reply to that write, its flag is `puzzleComplete` of it, and it is now the saved game |
| ActiveGame.TimeOffset | app/src/main/java/com/death/sudoku/ui/activegame/ActiveGameLogic.kt:40-43 | the saved time is never negative, one less than a positive shown time, and 0 otherwise |
| ActiveGame.TimeOffsetBounds | app/src/main/java/com/death/sudoku/ui/activegame/ActiveGameLogic.kt:40-43 | the saved time never exceeds `max(t, 0)` and grows with the shown time |
| ActiveGame.LastFocused | app/src/main/java/com/death/sudoku/ui/activegame/ActiveGameLogic.kt:127-130 | a found tile is on the board and has focus |
| ActiveGame.LastFocusedNone | app/src/main/java/com/death/sudoku/ui/activegame/ActiveGameLogic.kt:127-132 | no tile is found if and only if no tile has focus |
| ActiveGame.LastFocusedIsLast | app/src/main/java/com/death/sudoku/ui/activegame/ActiveGameLogic.kt:127-130 | when several tiles have focus, the last one iterated is found |
| ActiveGame.FindFocusedTile | app/src/main/java/com/death/sudoku/ui/activegame/ActiveGameLogic.kt:127-130 | the `forEach` scan ends with the last focused tile |
| ActiveGame.RecordActions | app/src/main/java/com/death/sudoku/ui/activegame/ActiveGameLogic.kt:158-171 | exactly one statistics update, with the shown time, difficulty and boundary; the complete state is asked for if and only if that update fails |
| ActiveGame.CompletionAddsOneStatistic | app/src/main/java/com/death/sudoku/ui/activegame/ActiveGameLogic.kt:137-150 | a completing input adds exactly one statistics update to a log that held none |
| ActiveGame.ActiveGameLogic.constructor | app/src/main/java/com/death/sudoku/ui/activegame/ActiveGameLogic.kt:22-38 | a new session has a live scope, no timer and no calls made |
| ActiveGame.ActiveGameLogic.OnEvent | app/src/main/java/com/death/sudoku/ui/activegame/ActiveGameLogic.kt:45-56 | each of the five events has exactly its handler's effect; `OnInput` carries the shown timer value without the offset |
| ActiveGame.ActiveGameLogic.Tick | app/src/main/java/com/death/sudoku/ui/activegame/ActiveGameLogic.kt:29-36 | only a live timer ticks, and a tick asks for one timer update |
| ActiveGame.ActiveGameLogic.OnTileFocused | app/src/main/java/com/death/sudoku/ui/activegame/ActiveGameLogic.kt:58-60 | one focus update for the given position, even after teardown |
| ActiveGame.ActiveGameLogic.OnStop | app/src/main/java/com/death/sudoku/ui/activegame/ActiveGameLogic.kt:62-74 | always ends torn down with the timer stopped; an unfinished game on a live scope is saved with the offset time first, and only a failed save shows an error; a complete game is not saved |
| ActiveGame.ActiveGameLogic.OnStart | app/src/main/java/com/death/sudoku/ui/activegame/ActiveGameLogic.kt:76-85 | on a live scope, a fetched game is shown and the timer started unless it is complete; a failed fetch asks for navigation only, with no error |
| ActiveGame.ActiveGameLogic.OnNewGameClicked | app/src/main/java/com/death/sudoku/ui/activegame/ActiveGameLogic.kt:88-102 | loading is shown first; a complete game navigates at once; otherwise the fetched puzzle is written with the offset time and navigation follows either outcome; a failed fetch shows an error and stays |
| ActiveGame.ActiveGameLogic.UpdateWithTime | app/src/main/java/com/death/sudoku/ui/activegame/ActiveGameLogic.kt:104-113 | the puzzle is written with the offset time; an error is shown on failure; the session tears down and navigates on both outcomes |
| ActiveGame.ActiveGameLogic.NavigateToNewGame | app/src/main/java/com/death/sudoku/ui/activegame/ActiveGameLogic.kt:115-118 | ends with timer and scope cancelled and exactly one navigation request added to the log |
| ActiveGame.ActiveGameLogic.CancelStuff | app/src/main/java/com/death/sudoku/ui/activegame/ActiveGameLogic.kt:120-123 | timer and scope end cancelled, and nothing is called |
| ActiveGame.ActiveGameLogic.OnInput | app/src/main/java/com/death/sudoku/ui/activegame/ActiveGameLogic.kt:126-156 | nothing happens without a live scope or a focused tile; otherwise the last focused tile's node is written with the input and the given time; success updates that tile; a completing write stops the timer and checks for a record; an error only shows an error |
| ActiveGame.ActiveGameLogic.CheckIfNewRecord | app/src/main/java/com/death/sudoku/ui/activegame/ActiveGameLogic.kt:158-171 | on a live scope, one statistics update; success sets the record flag to the reply; failure shows an error and the complete state |
| ActiveGame.CompletingInputScenario | app/src/main/java/com/death/sudoku/ui/activegame/ActiveGameLogic.kt:126-171 | starting a game and entering a completing value stops the timer and asks for exactly one statistics update |
| ActiveGame.StopThenStartScenario | app/src/main/java/com/death/sudoku/ui/activegame/ActiveGameLogic.kt:62-85 | after `onStop` the scope is cancelled, so a later `onStart` fetches nothing and starts no timer |

## Left out

- `buildNewSudoku`, the puzzle generator, is not part of this model. It is the function-valued parameter `generate`.
- `puzzleComplete` has an empty body in the source. It is the function-valued parameter `puzzleComplete`, with no definition.
- Game storage and settings storage are not part of this model. `Storage` stands in for them, and a `Fault` parameter says whether each call fails.
- Storage.UpdateGame: what storage keeps and answers with after a game write is the abstract function `writeGame`, and after a node update the abstract function `writeNode`. The model assumes that what a successful write answers with is also what storage then holds.
- The view model's methods are not part of this model. The logic's calls to them are logged, and their effect on the view model's fields is not modelled. Only `isNewRecordState`, which the logic sets itself, changes.
- Coroutines are not modelled as concurrency. Each `launch` runs to completion at once, and no cancellation races are modelled. The one-second `delay` loop is the `Tick` method.
- A second `onStart` on a live scope would start a second timer job in the source. The model keeps one `timerRunning` flag.
- `container` is nullable in the source, and `?.` skips the call when it is null. The model assumes a container is present.
- `boardState.values` iterates in the map's own order. The model takes the tiles as a sequence in that order.
- The graph is a `LinkedHashMap` of `LinkedList`s. The model uses a Dafny map of sequences, so insertion order is not modelled.
- `String.toInt()` also accepts non-ASCII Unicode digits. The model accepts `0`-`9` only; `getHash` only ever builds ASCII digits.
- Node.GetHashNonNegative: covers only an `x*100` within `Int` range, that is `0 <= x <= 21474836`. Two gaps remain, and no lemma gives the key's value in either. For a negative `x`, the `-` sign leads the text. For an `x` above 21474836, the `Int` product `x*100` wraps.
- Numbers.WrapInt: its contract covers in-range values only, not the modular behaviour of a wrapping product.
- `Double` modifiers are modelled as exact reals, with no rounding.
- The Compose screen, the activity, dependency wiring and dispatchers are outside the core and are not modelled.

## Findings

| source | as written | input that shows it | evidently intended | confidence | as-written member | corrected member |
|---|---|---|---|---|---|---|
| app/src/main/java/com/death/sudoku/persistence/GameRepositoryImpl.kt:15-27 | `saveGame` writes back the fetched game unchanged and never uses its `elapsedTime` parameter | a game stored with time 0, on a storage that keeps the time it is written, then `saveGame(42)`: the stored time stays 0 | write the fetched game with `copy(elapsedTime = elapsedTime)`, as `onStop` expects when it passes the offset time | not executed; high | Persistence.SaveGameKeepsStoredTime | Persistence.SaveGameWithElapsedTimeStoresTime |

`Persistence.GameRepositoryImpl.SaveGame` is the as-written operation, and
`Persistence.GameRepositoryImpl.SaveGameWithElapsedTime` is the corrected one.
The session logic gets repository replies as parameters, so it calls neither.
