/** `ActiveGameLogic`: the event handlers of one play session. Coroutine
    launches run to completion one after another; the replies of the
    repositories are parameters; the view model and the container are
    recorded as the actions asked of them. */
module ActiveGame {
  import opened Outcomes
  import opened Numbers
  import opened Difficulties
  import opened Puzzle

  /** A board cell as the view model holds it. */
  datatype SudokuTile = SudokuTile(x: Int32, y: Int32, value: Int32, hasFocus: bool, readOnly: bool)

  datatype ActiveGameEvent =
    | OnInput(input: Int32)
    | OnNewGameClicked
    | OnStart
    | OnStop
    | OnTileFocused(x: Int32, y: Int32)

  /** What the logic asks of its collaborators, in the order it asks. */
  datatype Action =
    // the container (the activity)
    | ShowError
    | OnNewGameClick
    // the view model
    | InitializeBoardState(puzzle: SudokuPuzzle, isComplete: bool)
    | UpdateTimerState
    | UpdateFocusState(x: Int32, y: Int32)
    | UpdateBoardState(x: Int32, y: Int32, value: Int32, hasFocus: bool)
    | ShowLoadingState
    | UpdateCompleteState
    // the game repository
    | GetCurrentGame
    | SaveGame(elapsedTime: Int64)
    | UpdateGame(game: SudokuPuzzle)
    | UpdateNode(x: Int32, y: Int32, color: Int32, elapsedTime: Int64)
    // the statistics repository
    | UpdateStatistic(time: Int64, difficulty: Difficulty, boundary: Int32)

  /** The replies the repositories give to the calls of one event. */
  datatype Replies = Replies(
    currentGame: Result<(SudokuPuzzle, bool)>,
    save: Result<()>,
    update: Result<()>,
    node: Result<bool>,
    statistic: Result<bool>)

  /** `timeOffset`: the time saved at a pause point, one tick less than the
      timer shows, and never negative. */
  function TimeOffset(t: Int64): (r: Int64)
    ensures 0 <= r
    ensures t > 0 ==> r + 1 == t
    ensures t <= 0 ==> r == 0
  {
    if t <= 0 then 0 else t - 1
  }

  /** The saved time never exceeds the shown time (nor zero) and grows with it. */
  lemma TimeOffsetBounds(s: Int64, t: Int64)
    ensures TimeOffset(t) <= if t > 0 then t else 0
    ensures s <= t ==> TimeOffset(s) <= TimeOffset(t)
  {
  }

  /** The tile the `forEach` over the board leaves in `focusedTile`: the last
      one with focus. */
  function LastFocused(tiles: seq<SudokuTile>): (r: Option<SudokuTile>)
    ensures r.Some? ==> r.value in tiles && r.value.hasFocus
  {
    if tiles == [] then None
    else if tiles[|tiles| - 1].hasFocus then Some(tiles[|tiles| - 1])
    else LastFocused(tiles[..|tiles| - 1])
  }

  /** No tile is found exactly when none has focus. */
  lemma {:induction false} LastFocusedNone(tiles: seq<SudokuTile>)
    ensures LastFocused(tiles).None? <==> forall i :: 0 <= i < |tiles| ==> !tiles[i].hasFocus
  {
    if tiles != [] {
      var n := |tiles| - 1;
      if !tiles[n].hasFocus {
        var front := tiles[..n];
        LastFocusedNone(front);
        assert forall i :: 0 <= i < n ==> front[i] == tiles[i];
      }
    }
  }

  /** A found tile is one of the board's tiles and no tile after it has focus. */
  lemma {:induction false} LastFocusedIsLast(tiles: seq<SudokuTile>)
    requires LastFocused(tiles).Some?
    ensures exists i :: 0 <= i < |tiles| && tiles[i] == LastFocused(tiles).value &&
                        forall j :: i < j < |tiles| ==> !tiles[j].hasFocus
  {
    var n := |tiles| - 1;
    if tiles[n].hasFocus {
      assert tiles[n] == LastFocused(tiles).value;
    } else {
      var front := tiles[..n];
      LastFocusedIsLast(front);
      var i :| 0 <= i < n && front[i] == LastFocused(front).value &&
               forall j :: i < j < n ==> !front[j].hasFocus;
      assert tiles[i] == front[i];
      assert forall j :: i < j < n ==> tiles[j] == front[j];
    }
  }

  /** The scan of `onInput`: every tile in turn, keeping the focused one. */
  method FindFocusedTile(tiles: seq<SudokuTile>) returns (focused: Option<SudokuTile>)
    ensures focused == LastFocused(tiles)
  {
    focused := None;
    var i := 0;
    while i < |tiles|
      invariant 0 <= i <= |tiles|
      invariant focused == LastFocused(tiles[..i])
    {
      if tiles[i].hasFocus {
        focused := Some(tiles[i]);
      }
      assert tiles[..i + 1][..i] == tiles[..i];
      i := i + 1;
    }
    assert tiles[..i] == tiles;
  }

  /** What `checkIfNewRecord` asks for: one statistics update with the shown
      time, then on a failure an error and the complete state. */
  function RecordActions(statistic: Result<bool>, time: Int64, difficulty: Difficulty, boundary: Int32): (acts: seq<Action>)
    ensures |acts| >= 1 && acts[0] == UpdateStatistic(time, difficulty, boundary)
    ensures forall i :: 1 <= i < |acts| ==> !acts[i].UpdateStatistic?
    ensures UpdateCompleteState in acts <==> statistic.Failure?
  {
    [UpdateStatistic(time, difficulty, boundary)] + (if statistic.Failure? then [ShowError, UpdateCompleteState] else [])
  }

  /** How many statistics updates a log holds. */
  function StatisticCalls(log: seq<Action>): nat
  {
    if log == [] then 0
    else StatisticCalls(log[..|log| - 1]) + if log[|log| - 1].UpdateStatistic? then 1 else 0
  }

  lemma {:induction false} StatisticCallsAppend(a: seq<Action>, b: seq<Action>)
    ensures StatisticCalls(a + b) == StatisticCalls(a) + StatisticCalls(b)
    decreases |b|
  {
    if b == [] {
      assert a + b == a;
    } else {
      assert (a + b)[..|a + b| - 1] == a + b[..|b| - 1];
      StatisticCallsAppend(a, b[..|b| - 1]);
    }
  }

  lemma {:induction false} NoStatisticCalls(log: seq<Action>)
    requires forall i :: 0 <= i < |log| ==> !log[i].UpdateStatistic?
    ensures StatisticCalls(log) == 0
  {
    if log != [] {
      NoStatisticCalls(log[..|log| - 1]);
    }
  }

  /** A completing input adds exactly one statistics update to a log that
      held none: the node write and the board update are not ones, and
      `checkIfNewRecord` asks for one. */
  lemma CompletionAddsOneStatistic(before: seq<Action>, write: Action, update: Action, record: seq<Action>)
    requires forall i :: 0 <= i < |before| ==> !before[i].UpdateStatistic?
    requires !write.UpdateStatistic? && !update.UpdateStatistic?
    requires |record| >= 1 && record[0].UpdateStatistic?
    requires forall i :: 1 <= i < |record| ==> !record[i].UpdateStatistic?
    ensures StatisticCalls(before + [write, update] + record) == 1
  {
    var head := before + [write, update];
    var tail := record[1..];
    assert record == [record[0]] + tail;
    assert before + [write, update] + record == head + [record[0]] + tail;
    NoStatisticCalls(head);
    NoStatisticCalls(tail);
    StatisticCallsAppend(head, [record[0]]);
    StatisticCallsAppend(head + [record[0]], tail);
  }

  /** The view model: the state the logic reads, and the one field it sets.
      Its own methods are not part of this model; the logic's calls to them
      are recorded as actions. */
  class ActiveGameViewModel {
    var timerState: Int64
    var isCompleteState: bool
    var boardState: seq<SudokuTile>
    var difficulty: Difficulty
    var boundary: Int32
    var isNewRecordState: bool

    constructor (timerState: Int64, isCompleteState: bool, boardState: seq<SudokuTile>, difficulty: Difficulty, boundary: Int32)
      ensures this.timerState == timerState && this.isCompleteState == isCompleteState
      ensures this.boardState == boardState && this.difficulty == difficulty && this.boundary == boundary
      ensures !isNewRecordState
    {
      this.timerState, this.isCompleteState, this.boardState := timerState, isCompleteState, boardState;
      this.difficulty, this.boundary := difficulty, boundary;
      isNewRecordState := false;
    }
  }

  class ActiveGameLogic {
    const viewModel: ActiveGameViewModel
    /** `jobTracker` has been cancelled: every later `launch` is a no-op. */
    var torn: bool
    /** `timeTrackerJob` is live. */
    var timerRunning: bool
    /** Every call to the container, the view model and the repositories. */
    var log: seq<Action>

    /** A torn-down session never has a live timer. */
    ghost predicate Valid()
      reads this
    {
      torn ==> !timerRunning
    }

    constructor (viewModel: ActiveGameViewModel)
      ensures Valid() && this.viewModel == viewModel
      ensures !torn && !timerRunning && log == []
    {
      this.viewModel := viewModel;
      torn, timerRunning, log := false, false, [];
    }

    /** The effect of `onStop`: always torn down with the timer stopped; an
        unfinished game is saved first (on a live scope) with the offset time. */
    twostate predicate StopDone(save: Result<()>)
      reads this, viewModel
    {
      && torn && !timerRunning
      && log == old(log) +
           if old(viewModel.isCompleteState) || old(torn) then []
           else [SaveGame(TimeOffset(old(viewModel.timerState)))] + (if save.Failure? then [ShowError] else [])
    }

    /** The effect of `onStart` on a live scope: fetch, then show the board and
        start the timer unless the game is complete; a failed fetch only asks
        for the new-game screen. */
    twostate predicate StartDone(current: Result<(SudokuPuzzle, bool)>)
      reads this
    {
      if old(torn) then torn && log == old(log) && timerRunning == old(timerRunning)
      else
        && !torn
        && match current
           case Success((p, complete)) =>
             log == old(log) + [GetCurrentGame, InitializeBoardState(p, complete)] &&
             timerRunning == (old(timerRunning) || !complete)
           case Failure(_) =>
             log == old(log) + [GetCurrentGame, OnNewGameClick] && timerRunning == old(timerRunning)
    }

    /** The effect of `onNewGameClicked` on a live scope: loading first; a
        complete game navigates at once; otherwise the fetched puzzle is
        written with the offset time and navigation follows either outcome;
        a failed fetch shows an error and stays. */
    twostate predicate NewGameDone(current: Result<(SudokuPuzzle, bool)>, update: Result<()>)
      reads this, viewModel
    {
      if old(torn) then torn && log == old(log) && timerRunning == old(timerRunning)
      else if old(viewModel.isCompleteState) then
        torn && !timerRunning && log == old(log) + [ShowLoadingState, OnNewGameClick]
      else
        match current
        case Failure(_) =>
          && !torn && timerRunning == old(timerRunning)
          && log == old(log) + [ShowLoadingState, GetCurrentGame, ShowError]
        case Success((p, _)) =>
          && torn && !timerRunning
          && log == old(log) + [ShowLoadingState, GetCurrentGame,
                                UpdateGame(WithElapsedTime(p, TimeOffset(old(viewModel.timerState))))] +
                    (if update.Failure? then [ShowError] else []) + [OnNewGameClick]
    }

    /** The effect of `onInput`: nothing without a live scope and a focused
        tile; otherwise the focused tile's node is written, the board updated
        on success, and a completing write stops the timer and checks for a
        record. */
    twostate predicate InputDone(input: Int32, elapsedTime: Int64, node: Result<bool>, statistic: Result<bool>)
      reads this, viewModel
    {
      var focused := LastFocused(old(viewModel.boardState));
      if old(torn) || focused.None? then
        && log == old(log) && torn == old(torn) && timerRunning == old(timerRunning)
        && viewModel.isNewRecordState == old(viewModel.isNewRecordState)
      else
        var t := focused.value;
        var written := [UpdateNode(t.x, t.y, input, elapsedTime)];
        && !torn
        && match node
           case Failure(_) =>
             && log == old(log) + written + [ShowError]
             && timerRunning == old(timerRunning)
             && viewModel.isNewRecordState == old(viewModel.isNewRecordState)
           case Success(complete) =>
             && timerRunning == (old(timerRunning) && !complete)
             && log == old(log) + written + [UpdateBoardState(t.x, t.y, input, false)] +
                       (if complete then RecordActions(statistic, old(viewModel.timerState), old(viewModel.difficulty), old(viewModel.boundary))
                        else [])
             && viewModel.isNewRecordState ==
                  if complete && statistic.Success? then statistic.value else old(viewModel.isNewRecordState)
    }

    /** `onEvent`: each event goes to its handler; `OnInput` carries the
        timer value as shown, without the offset. */
    method OnEvent(event: ActiveGameEvent, replies: Replies)
      requires Valid()
      modifies this, viewModel`isNewRecordState
      ensures Valid()
      ensures event.OnInput? ==> InputDone(event.input, old(viewModel.timerState), replies.node, replies.statistic)
      ensures event.OnNewGameClicked? ==> NewGameDone(replies.currentGame, replies.update)
      ensures event.OnStart? ==> StartDone(replies.currentGame)
      ensures event.OnStop? ==> StopDone(replies.save)
      ensures event.OnTileFocused? ==>
                log == old(log) + [UpdateFocusState(event.x, event.y)] &&
                torn == old(torn) && timerRunning == old(timerRunning)
      ensures !event.OnInput? ==> viewModel.isNewRecordState == old(viewModel.isNewRecordState)
    {
      match event
      case OnInput(input) => OnInput(input, viewModel.timerState, replies.node, replies.statistic);
      case OnNewGameClicked => OnNewGameClicked(replies.currentGame, replies.update);
      case OnStart => OnStart(replies.currentGame);
      case OnStop => OnStop(replies.save);
      case OnTileFocused(x, y) => OnTileFocused(x, y);
    }

    /** One run of the timer loop's body; only a live timer ticks. */
    method Tick()
      requires Valid() && timerRunning
      modifies this`log
      ensures log == old(log) + [UpdateTimerState]
    {
      log := log + [UpdateTimerState];
    }

    /** `onTileFocused`: not launched, so it runs even after teardown. */
    method OnTileFocused(x: Int32, y: Int32)
      modifies this`log
      ensures log == old(log) + [UpdateFocusState(x, y)]
    {
      log := log + [UpdateFocusState(x, y)];
    }

    /** `onStop`. */
    method OnStop(save: Result<()>)
      requires Valid()
      modifies this
      ensures Valid() && StopDone(save)
    {
      if !viewModel.isCompleteState {
        if !torn {
          log := log + [SaveGame(TimeOffset(viewModel.timerState))];
          match save
          case Success(_) =>
            CancelStuff();
          case Failure(_) =>
            CancelStuff();
            log := log + [ShowError];
        }
      } else {
        CancelStuff();
      }
    }

    /** `onStart`. */
    method OnStart(current: Result<(SudokuPuzzle, bool)>)
      requires Valid()
      modifies this
      ensures Valid() && StartDone(current)
    {
      if !torn {
        log := log + [GetCurrentGame];
        match current
        case Success((puzzle, isComplete)) =>
          log := log + [InitializeBoardState(puzzle, isComplete)];
          if !isComplete {
            timerRunning := true;
          }
        case Failure(_) =>
          log := log + [OnNewGameClick];
      }
    }

    /** `onNewGameClicked`. */
    method OnNewGameClicked(current: Result<(SudokuPuzzle, bool)>, update: Result<()>)
      requires Valid()
      modifies this
      ensures Valid() && NewGameDone(current, update)
    {
      if !torn {
        log := log + [ShowLoadingState];
        if !viewModel.isCompleteState {
          log := log + [GetCurrentGame];
          match current
          case Success((puzzle, _)) =>
            UpdateWithTime(puzzle, update);
          case Failure(_) =>
            log := log + [ShowError];
        } else {
          NavigateToNewGame();
        }
      }
    }

    /** `updateWithTime`: the puzzle is written with the offset time, and the
        session navigates away whatever the outcome. */
    method UpdateWithTime(puzzle: SudokuPuzzle, update: Result<()>)
      requires Valid()
      modifies this
      ensures Valid()
      ensures old(torn) ==> torn && log == old(log) && timerRunning == old(timerRunning)
      ensures !old(torn) ==>
                && torn && !timerRunning
                && log == old(log) + [UpdateGame(WithElapsedTime(puzzle, TimeOffset(viewModel.timerState)))] +
                          (if update.Failure? then [ShowError] else []) + [OnNewGameClick]
    {
      if !torn {
        log := log + [UpdateGame(WithElapsedTime(puzzle, TimeOffset(viewModel.timerState)))];
        match update
        case Success(_) =>
          NavigateToNewGame();
        case Failure(_) =>
          log := log + [ShowError];
          NavigateToNewGame();
      }
    }

    /** `navigateToNewGame`: teardown comes before the navigation request. */
    method NavigateToNewGame()
      modifies this
      ensures torn && !timerRunning
      ensures log == old(log) + [OnNewGameClick]
    {
      CancelStuff();
      log := log + [OnNewGameClick];
    }

    /** `cancelStuff`: the timer and the whole scope are cancelled. */
    method CancelStuff()
      modifies this
      ensures torn && !timerRunning && log == old(log)
    {
      if timerRunning {
        timerRunning := false;
      }
      torn := true;
    }

    /** `onInput`. */
    method OnInput(input: Int32, elapsedTime: Int64, node: Result<bool>, statistic: Result<bool>)
      requires Valid()
      modifies this, viewModel`isNewRecordState
      ensures Valid() && InputDone(input, elapsedTime, node, statistic)
    {
      if !torn {
        var focusedTile := FindFocusedTile(viewModel.boardState);
        if focusedTile.Some? {
          var tile := focusedTile.value;
          log := log + [UpdateNode(tile.x, tile.y, input, elapsedTime)];
          match node
          case Success(isComplete) =>
            log := log + [UpdateBoardState(tile.x, tile.y, input, false)];
            if isComplete {
              timerRunning := false;
              CheckIfNewRecord(statistic);
            }
          case Failure(_) =>
            log := log + [ShowError];
        }
      }
    }

    /** `checkIfNewRecord`: one statistics update with the shown time; a
        success records the flag, a failure shows an error and the complete
        state. */
    method CheckIfNewRecord(statistic: Result<bool>)
      requires Valid()
      modifies this, viewModel`isNewRecordState
      ensures Valid() && torn == old(torn) && timerRunning == old(timerRunning)
      ensures old(torn) ==> log == old(log) && viewModel.isNewRecordState == old(viewModel.isNewRecordState)
      ensures !old(torn) ==>
                && log == old(log) + RecordActions(statistic, viewModel.timerState, viewModel.difficulty, viewModel.boundary)
                && viewModel.isNewRecordState == if statistic.Success? then statistic.value else old(viewModel.isNewRecordState)
    {
      if !torn {
        log := log + [UpdateStatistic(viewModel.timerState, viewModel.difficulty, viewModel.boundary)];
        match statistic
        case Success(isRecord) =>
          viewModel.isNewRecordState := isRecord;
        case Failure(_) =>
          log := log + [ShowError, UpdateCompleteState];
      }
    }
  }

  /** Entering the value that completes the board: the timer stops and
      exactly one statistics update is asked for. */
  method CompletingInputScenario(p: SudokuPuzzle, tiles: seq<SudokuTile>, input: Int32, statistic: Result<bool>)
    returns (statisticCalls: nat, timerStopped: bool)
    requires exists i :: 0 <= i < |tiles| && tiles[i].hasFocus
    ensures statisticCalls == 1 && timerStopped
  {
    var viewModel := new ActiveGameViewModel(0, false, tiles, EASY, 9);
    var logic := new ActiveGameLogic(viewModel);
    logic.OnStart(Success((p, false)));
    assert logic.timerRunning;
    logic.Tick();
    LastFocusedNone(tiles);
    var before := logic.log;
    logic.OnInput(input, viewModel.timerState, Success(true), statistic);
    var t := LastFocused(tiles).value;
    assert before == [GetCurrentGame, InitializeBoardState(p, false), UpdateTimerState];
    assert logic.log == before + [UpdateNode(t.x, t.y, input, 0), UpdateBoardState(t.x, t.y, input, false)] +
                        RecordActions(statistic, 0, EASY, 9);
    CompletionAddsOneStatistic(before, UpdateNode(t.x, t.y, input, 0), UpdateBoardState(t.x, t.y, input, false),
                               RecordActions(statistic, 0, EASY, 9));
    statisticCalls := StatisticCalls(logic.log);
    timerStopped := !logic.timerRunning;
  }

  /** After `OnStop` the scope is cancelled, so a following `OnStart` fetches
      nothing and starts no timer. */
  method StopThenStartScenario(p: SudokuPuzzle, tiles: seq<SudokuTile>, save: Result<()>)
    returns (timerStarted: bool, fetchesAfterStop: nat)
    ensures !timerStarted && fetchesAfterStop == 0
  {
    var viewModel := new ActiveGameViewModel(5, false, tiles, MEDIUM, 4);
    var logic := new ActiveGameLogic(viewModel);
    logic.OnStart(Success((p, false)));
    logic.OnStop(save);
    var stopped := logic.log;
    logic.OnStart(Success((p, false)));
    timerStarted := logic.timerRunning;
    fetchesAfterStop := |logic.log| - |stopped|;
  }
}
