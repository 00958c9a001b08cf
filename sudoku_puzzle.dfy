/** `SudokuPuzzle`: the board size, its difficulty, the constraint graph
    (group id to the nodes of that group) and the time played so far. */
module Puzzle {
  import opened Numbers
  import opened Node
  import opened Difficulties

  /** `LinkedHashMap<Int, LinkedList<SudokuNode>>`. Map equality ignores key
      order, as `AbstractMap.equals` does. */
  type Graph = map<Int32, seq<SudokuNode>>

  /** `buildNewSudoku(boundary, difficulty).graph`; the generator is not part
      of this model, so every operation that builds a puzzle takes it. */
  type Generator = (Int32, Difficulty) -> Graph

  /** A data class: equality is structural over the four fields. */
  datatype SudokuPuzzle = SudokuPuzzle(boundary: Int32, difficulty: Difficulty, graph: Graph, elapsedTime: Int64 := 0)

  /** `SudokuPuzzle(boundary, difficulty)`: the graph comes from the
      generator and no time has been played. */
  function NewPuzzle(boundary: Int32, difficulty: Difficulty, generate: Generator): (p: SudokuPuzzle)
    ensures p.boundary == boundary && p.difficulty == difficulty
    ensures p.graph == generate(boundary, difficulty)
    ensures p.elapsedTime == 0
  {
    SudokuPuzzle(boundary, difficulty, generate(boundary, difficulty))
  }

  /** `getValue()`. */
  function GetValue(p: SudokuPuzzle): (g: Graph)
    ensures g == p.graph
  {
    p.graph
  }

  /** `copy(elapsedTime = t)`: only the time changes. */
  function WithElapsedTime(p: SudokuPuzzle, t: Int64): (q: SudokuPuzzle)
    ensures q.boundary == p.boundary && q.difficulty == p.difficulty && q.graph == p.graph
    ensures q.elapsedTime == t
    ensures q == p <==> p.elapsedTime == t
  {
    p.(elapsedTime := t)
  }

  /** Two copies with new times: the last one wins. */
  lemma WithElapsedTimeLastWins(p: SudokuPuzzle, s: Int64, t: Int64)
    ensures WithElapsedTime(WithElapsedTime(p, s), t) == WithElapsedTime(p, t)
  {
  }

  /** Two puzzles that differ only in their time are copies of each other. */
  lemma WithElapsedTimeCharacterizes(p: SudokuPuzzle, q: SudokuPuzzle)
    requires p.boundary == q.boundary && p.difficulty == q.difficulty && p.graph == q.graph
    ensures WithElapsedTime(p, q.elapsedTime) == q
  {
  }
}
