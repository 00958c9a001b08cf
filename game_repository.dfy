/** `GameRepositoryImpl`: turns the outcomes of the game and settings
    storages into the callbacks the session logic sees. */
module Persistence {
  import opened Outcomes
  import opened Numbers
  import opened Difficulties
  import opened Puzzle

  /** `Settings`: what a new game is built from. */
  datatype Settings = Settings(boundary: Int32, difficulty: Difficulty)

  /** A call into game or settings storage, with its arguments. */
  datatype StorageCall =
    | GetCurrentGame
    | UpdateGame(game: SudokuPuzzle)
    | UpdateNode(x: Int32, y: Int32, color: Int32, elapsedTime: Int64)
    | GetSettings
    | UpdateSettings(settings: Settings)

  /** Why a storage call fails (an I/O error, say), or `None` when it does
      not: the model cannot see storage failing, so each call is told. */
  type Fault = Option<Exception>

  /** The failure of a read when nothing has been stored. */
  const NoSavedGame := Exception("no saved game")
  const NoSettings := Exception("no settings")

  /** How game storage rewrites its puzzle for a node update. */
  type NodeWriter = (SudokuPuzzle, Int32, Int32, Int32, Int64) -> SudokuPuzzle

  /** How game storage keeps a puzzle it is asked to write: what it then
      holds and answers with. */
  type GameWriter = SudokuPuzzle -> SudokuPuzzle

  /** Game storage and settings storage: at most one saved puzzle and one
      settings value, and the log of every call made into them. */
  class Storage {
    var game: Option<SudokuPuzzle>
    var settings: Option<Settings>
    var calls: seq<StorageCall>
    const writeGame: GameWriter
    const writeNode: NodeWriter

    constructor (game: Option<SudokuPuzzle>, settings: Option<Settings>, writeGame: GameWriter, writeNode: NodeWriter)
      ensures this.game == game && this.settings == settings
      ensures this.writeGame == writeGame && this.writeNode == writeNode
      ensures calls == []
    {
      this.game, this.settings := game, settings;
      this.writeGame, this.writeNode := writeGame, writeNode;
      calls := [];
    }

    /** What reading the game returns now. */
    ghost function GameRead(fault: Fault): Result<SudokuPuzzle>
      reads this
    {
      if fault.Some? then Failure(fault.value)
      else if game.Some? then Success(game.value)
      else Failure(NoSavedGame)
    }

    /** What reading the settings returns now. */
    ghost function SettingsRead(fault: Fault): Result<Settings>
      reads this
    {
      if fault.Some? then Failure(fault.value)
      else if settings.Some? then Success(settings.value)
      else Failure(NoSettings)
    }

    /** What a node update returns now: the rewritten saved puzzle. */
    ghost function NodeWrite(x: Int32, y: Int32, color: Int32, elapsedTime: Int64, fault: Fault): Result<SudokuPuzzle>
      reads this
    {
      match GameRead(fault)
      case Success(p) => Success(writeNode(p, x, y, color, elapsedTime))
      case Failure(e) => Failure(e)
    }

    method GetCurrentGame(fault: Fault) returns (r: Result<SudokuPuzzle>)
      modifies this`calls
      ensures calls == old(calls) + [StorageCall.GetCurrentGame]
      ensures r == GameRead(fault)
    {
      calls := calls + [StorageCall.GetCurrentGame];
      if fault.Some? {
        r := Failure(fault.value);
      } else if game.Some? {
        r := Success(game.value);
      } else {
        r := Failure(NoSavedGame);
      }
    }

    /** A successful write replaces the saved puzzle with storage's copy
        of `p` and answers with that copy. */
    method UpdateGame(p: SudokuPuzzle, fault: Fault) returns (r: Result<SudokuPuzzle>)
      modifies this`calls, this`game
      ensures calls == old(calls) + [StorageCall.UpdateGame(p)]
      ensures r == if fault.Some? then Failure(fault.value) else Success(writeGame(p))
      ensures game == if fault.Some? then old(game) else Some(writeGame(p))
    {
      calls := calls + [StorageCall.UpdateGame(p)];
      if fault.Some? {
        r := Failure(fault.value);
      } else {
        var kept := writeGame(p);
        game := Some(kept);
        r := Success(kept);
      }
    }

    method UpdateNode(x: Int32, y: Int32, color: Int32, elapsedTime: Int64, fault: Fault) returns (r: Result<SudokuPuzzle>)
      modifies this`calls, this`game
      ensures calls == old(calls) + [StorageCall.UpdateNode(x, y, color, elapsedTime)]
      ensures r == old(NodeWrite(x, y, color, elapsedTime, fault))
      ensures game == if r.Success? then Some(r.value) else old(game)
    {
      calls := calls + [StorageCall.UpdateNode(x, y, color, elapsedTime)];
      if fault.Some? {
        r := Failure(fault.value);
      } else if game.Some? {
        var p := writeNode(game.value, x, y, color, elapsedTime);
        game := Some(p);
        r := Success(p);
      } else {
        r := Failure(NoSavedGame);
      }
    }

    method GetSettings(fault: Fault) returns (r: Result<Settings>)
      modifies this`calls
      ensures calls == old(calls) + [StorageCall.GetSettings]
      ensures r == SettingsRead(fault)
    {
      calls := calls + [StorageCall.GetSettings];
      if fault.Some? {
        r := Failure(fault.value);
      } else if settings.Some? {
        r := Success(settings.value);
      } else {
        r := Failure(NoSettings);
      }
    }

    method UpdateSettings(s: Settings, fault: Fault) returns (r: Result<Settings>)
      modifies this`calls, this`settings
      ensures calls == old(calls) + [StorageCall.UpdateSettings(s)]
      ensures r == if fault.Some? then Failure(fault.value) else Success(s)
      ensures settings == if fault.Some? then old(settings) else Some(s)
    {
      calls := calls + [StorageCall.UpdateSettings(s)];
      if fault.Some? {
        r := Failure(fault.value);
      } else {
        settings := Some(s);
        r := Success(s);
      }
    }
  }

  /** The repository. Each operation returns the one outcome it reports,
      so exactly one of its two callbacks runs, once. */
  class GameRepositoryImpl {
    const storage: Storage
    /** `buildNewSudoku`, not part of this model. */
    const generate: Generator
    /** `puzzleComplete`, whose body the source leaves empty. */
    const puzzleComplete: SudokuPuzzle -> bool

    constructor (storage: Storage, generate: Generator, puzzleComplete: SudokuPuzzle -> bool)
      ensures this.storage == storage && this.generate == generate && this.puzzleComplete == puzzleComplete
    {
      this.storage, this.generate, this.puzzleComplete := storage, generate, puzzleComplete;
    }

    /** `saveGame`, as written: the fetched puzzle is written back as it was,
        so `elapsedTime` is not used; the outcome of that write is ignored. */
    method SaveGame(elapsedTime: Int64, fetchFault: Fault, writeFault: Fault) returns (r: Result<()>)
      modifies storage
      ensures var fetched := old(storage.GameRead(fetchFault));
              fetched.Failure? ==>
                && r == Failure(fetched.error)
                && storage.calls == old(storage.calls) + [StorageCall.GetCurrentGame]
      ensures var fetched := old(storage.GameRead(fetchFault));
              fetched.Success? ==>
                && r == Success(())
                && storage.calls == old(storage.calls) + [StorageCall.GetCurrentGame, StorageCall.UpdateGame(fetched.value)]
                && storage.game == (if writeFault.Some? then old(storage.game) else Some(storage.writeGame(fetched.value)))
      ensures old(storage.GameRead(fetchFault)).Failure? ==> storage.game == old(storage.game)
      ensures storage.settings == old(storage.settings)
    {
      var fetched := storage.GetCurrentGame(fetchFault);
      match fetched
      case Failure(e) =>
        r := Failure(e);
      case Success(game) =>
        var _ := storage.UpdateGame(game, writeFault);
        r := Success(());
    }

    /** `saveGame` as its parameter and its caller intend: the fetched puzzle
        is written back with the elapsed time it is given. */
    method SaveGameWithElapsedTime(elapsedTime: Int64, fetchFault: Fault, writeFault: Fault) returns (r: Result<()>)
      modifies storage
      ensures var fetched := old(storage.GameRead(fetchFault));
              fetched.Failure? ==>
                && r == Failure(fetched.error)
                && storage.calls == old(storage.calls) + [StorageCall.GetCurrentGame]
                && storage.game == old(storage.game)
      ensures var fetched := old(storage.GameRead(fetchFault));
              fetched.Success? ==>
                var saved := WithElapsedTime(fetched.value, elapsedTime);
                && r == Success(())
                && storage.calls == old(storage.calls) + [StorageCall.GetCurrentGame, StorageCall.UpdateGame(saved)]
                && storage.game == (if writeFault.Some? then old(storage.game) else Some(storage.writeGame(saved)))
      ensures storage.settings == old(storage.settings)
    {
      var fetched := storage.GetCurrentGame(fetchFault);
      match fetched
      case Failure(e) =>
        r := Failure(e);
      case Success(game) =>
        var _ := storage.UpdateGame(WithElapsedTime(game, elapsedTime), writeFault);
        r := Success(());
    }

    /** `updateGame`: succeeds exactly when the storage write does. */
    method UpdateGame(game: SudokuPuzzle, fault: Fault) returns (r: Result<()>)
      modifies storage
      ensures r == if fault.Some? then Failure(fault.value) else Success(())
      ensures storage.calls == old(storage.calls) + [StorageCall.UpdateGame(game)]
      ensures storage.game == (if fault.Some? then old(storage.game) else Some(storage.writeGame(game)))
      ensures storage.settings == old(storage.settings)
    {
      var written := storage.UpdateGame(game, fault);
      match written
      case Failure(e) => r := Failure(e);
      case Success(_) => r := Success(());
    }

    /** `createAndWriteNewGame`: writes a new puzzle built from the settings
        and answers with storage's reply. */
    method CreateAndWriteNewGame(settings: Settings, fault: Fault) returns (r: Result<SudokuPuzzle>)
      modifies storage
      ensures var built := NewPuzzle(settings.boundary, settings.difficulty, generate);
              && storage.calls == old(storage.calls) + [StorageCall.UpdateGame(built)]
              && r == (if fault.Some? then Failure(fault.value) else Success(storage.writeGame(built)))
              && storage.game == (if fault.Some? then old(storage.game) else Some(storage.writeGame(built)))
      ensures storage.settings == old(storage.settings)
    {
      r := storage.UpdateGame(NewPuzzle(settings.boundary, settings.difficulty, generate), fault);
    }

    /** `createNewGame`: the settings are written first; only if that works
        is a new game built from those same settings written. */
    method CreateNewGame(settings: Settings, settingsFault: Fault, gameFault: Fault) returns (r: Result<()>)
      modifies storage
      ensures settingsFault.Some? ==>
                && r == Failure(settingsFault.value)
                && storage.calls == old(storage.calls) + [StorageCall.UpdateSettings(settings)]
                && storage.game == old(storage.game) && storage.settings == old(storage.settings)
      ensures settingsFault.None? ==>
                var built := NewPuzzle(settings.boundary, settings.difficulty, generate);
                && storage.settings == Some(settings)
                && storage.calls == old(storage.calls) + [StorageCall.UpdateSettings(settings), StorageCall.UpdateGame(built)]
                && r == (if gameFault.Some? then Failure(gameFault.value) else Success(()))
                && storage.game == (if gameFault.Some? then old(storage.game) else Some(storage.writeGame(built)))
    {
      var written := storage.UpdateSettings(settings, settingsFault);
      match written
      case Failure(e) =>
        r := Failure(e);
      case Success(_) =>
        var created := CreateAndWriteNewGame(settings, gameFault);
        match created
        case Failure(e) => r := Failure(e);
        case Success(_) => r := Success(());
    }

    /** `updateNode`: the arguments go to storage unchanged; a success reports
        whether the puzzle storage returns is complete. */
    method UpdateNode(x: Int32, y: Int32, color: Int32, elapsedTime: Int64, fault: Fault) returns (r: Result<bool>)
      modifies storage
      ensures storage.calls == old(storage.calls) + [StorageCall.UpdateNode(x, y, color, elapsedTime)]
      ensures var written := old(storage.NodeWrite(x, y, color, elapsedTime, fault));
              && r == (if written.Success? then Success(puzzleComplete(written.value)) else Failure(written.error))
              && storage.game == (if written.Success? then Some(written.value) else old(storage.game))
      ensures storage.settings == old(storage.settings)
    {
      var written := storage.UpdateNode(x, y, color, elapsedTime, fault);
      match written
      case Failure(e) => r := Failure(e);
      case Success(p) => r := Success(puzzleComplete(p));
    }

    /** `getCurrentGame`: the saved puzzle if there is one; otherwise a new
        one built from the saved settings, written, and returned as the
        write answers with it. */
    method GetCurrentGame(gameFault: Fault, settingsFault: Fault, writeFault: Fault) returns (r: Result<(SudokuPuzzle, bool)>)
      modifies storage
      ensures var fetched := old(storage.GameRead(gameFault));
              fetched.Success? ==>
                && r == Success((fetched.value, puzzleComplete(fetched.value)))
                && storage.calls == old(storage.calls) + [StorageCall.GetCurrentGame]
                && storage.game == old(storage.game)
      ensures var fetched, read := old(storage.GameRead(gameFault)), old(storage.SettingsRead(settingsFault));
              fetched.Failure? && read.Failure? ==>
                && r == Failure(read.error)
                && storage.calls == old(storage.calls) + [StorageCall.GetCurrentGame, StorageCall.GetSettings]
                && storage.game == old(storage.game)
      ensures var fetched, read := old(storage.GameRead(gameFault)), old(storage.SettingsRead(settingsFault));
              fetched.Failure? && read.Success? ==>
                var built := NewPuzzle(read.value.boundary, read.value.difficulty, generate);
                var kept := storage.writeGame(built);
                && storage.calls == old(storage.calls) + [StorageCall.GetCurrentGame, StorageCall.GetSettings, StorageCall.UpdateGame(built)]
                && r == (if writeFault.Some? then Failure(writeFault.value) else Success((kept, puzzleComplete(kept))))
                && storage.game == (if writeFault.Some? then old(storage.game) else Some(kept))
      ensures storage.settings == old(storage.settings)
    {
      var fetched := storage.GetCurrentGame(gameFault);
      match fetched
      case Success(game) =>
        r := Success((game, puzzleComplete(game)));
      case Failure(_) =>
        var read := storage.GetSettings(settingsFault);
        match read
        case Failure(e) =>
          r := Failure(e);
        case Success(settings) =>
          var created := CreateAndWriteNewGame(settings, writeFault);
          match created
          case Failure(e) => r := Failure(e);
          case Success(game) => r := Success((game, puzzleComplete(game)));
    }

    /** `getSettings`: succeeds exactly when the storage read does. */
    method GetSettings(fault: Fault) returns (r: Result<Settings>)
      modifies storage
      ensures r == old(storage.SettingsRead(fault))
      ensures storage.calls == old(storage.calls) + [StorageCall.GetSettings]
      ensures storage.game == old(storage.game) && storage.settings == old(storage.settings)
    {
      r := storage.GetSettings(fault);
    }

    /** `updateSetting`: reports success whatever the write returns. */
    method UpdateSetting(settings: Settings, fault: Fault) returns (r: Result<()>)
      modifies storage
      ensures r == Success(())
      ensures storage.calls == old(storage.calls) + [StorageCall.UpdateSettings(settings)]
      ensures storage.settings == (if fault.Some? then old(storage.settings) else Some(settings))
      ensures storage.game == old(storage.game)
    {
      var _ := storage.UpdateSettings(settings, fault);
      r := Success(());
    }
  }

  /** The as-written `saveGame` drops the time: on a storage that keeps the
      time of what it is written, a puzzle saved at 0 and saved again at 42
      is still stored with 0. */
  method SaveGameKeepsStoredTime(p: SudokuPuzzle, generate: Generator, complete: SudokuPuzzle -> bool,
                                 writeGame: GameWriter, writeNode: NodeWriter)
    returns (stored: Int64)
    requires p.elapsedTime == 0
    requires forall q :: writeGame(q).elapsedTime == q.elapsedTime
    ensures stored == 0
  {
    var storage := new Storage(Some(p), None, writeGame, writeNode);
    var repo := new GameRepositoryImpl(storage, generate, complete);
    var r := repo.SaveGame(42, None, None);
    stored := storage.game.value.elapsedTime;
  }

  /** The corrected `saveGame` stores the time it is given on the same storage. */
  method SaveGameWithElapsedTimeStoresTime(p: SudokuPuzzle, generate: Generator, complete: SudokuPuzzle -> bool,
                                           writeGame: GameWriter, writeNode: NodeWriter)
    returns (stored: Int64)
    requires p.elapsedTime == 0
    requires forall q :: writeGame(q).elapsedTime == q.elapsedTime
    ensures stored == 42
  {
    var storage := new Storage(Some(p), None, writeGame, writeNode);
    var repo := new GameRepositoryImpl(storage, generate, complete);
    var r := repo.SaveGameWithElapsedTime(42, None, None);
    stored := storage.game.value.elapsedTime;
  }

  /** On empty game storage, `getCurrentGame` writes a puzzle built from the
      saved settings, returns storage's reply to that write, and that reply
      is now the saved game. */
  method FirstFetchBuildsFromSettings(s: Settings, generate: Generator, complete: SudokuPuzzle -> bool,
                                      writeGame: GameWriter, writeNode: NodeWriter)
    returns (returned: SudokuPuzzle, isComplete: bool, saved: Option<SudokuPuzzle>)
    ensures returned == writeGame(SudokuPuzzle(s.boundary, s.difficulty, generate(s.boundary, s.difficulty), 0))
    ensures isComplete == complete(returned)
    ensures saved == Some(returned)
  {
    var storage := new Storage(None, Some(s), writeGame, writeNode);
    var repo := new GameRepositoryImpl(storage, generate, complete);
    var r := repo.GetCurrentGame(None, None, None);
    returned, isComplete := r.value.0, r.value.1;
    saved := storage.game;
  }
}
