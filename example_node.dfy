/** The second copy of the cell type (`com.example.sudoku.domain.SudokuNode`),
    the same data class without `Serializable`, with its own `getHash`. */
module ExampleNode {
  import opened Outcomes
  import opened Numbers
  import Node

  datatype SudokuNode = SudokuNode(x: Int32, y: Int32, color: Int32 := 0, readOnly: bool := true)

  /** This copy's `getHash`, written out as in its file. */
  function GetHash(x: Int32, y: Int32): Option<Int32>
  {
    ParseInt(IntToString(WrapInt(x * 100)) + IntToString(y))
  }

  function HashCode(n: SudokuNode): Option<Int32>
  {
    GetHash(n.x, n.y)
  }

  /** The cell of the other package with the same four fields. */
  function ToDeathNode(n: SudokuNode): Node.SudokuNode
  {
    Node.SudokuNode(n.x, n.y, n.color, n.readOnly)
  }

  /** The two copies' structural equalities agree: two nodes of this copy are
      equal exactly when their counterparts in the other copy are. */
  lemma EqualityAgrees(a: SudokuNode, b: SudokuNode)
    ensures ToDeathNode(a) == ToDeathNode(b) <==> a == b
  {
  }

  /** Both copies of `getHash` agree on every input. */
  lemma GetHashAgrees(x: Int32, y: Int32)
    ensures GetHash(x, y) == Node.GetHash(x, y)
  {
  }

  /** Both copies of `hashCode` agree on corresponding nodes. */
  lemma HashCodeAgrees(n: SudokuNode)
    ensures HashCode(n) == Node.HashCode(ToDeathNode(n))
  {
  }

  /** `hashCode` reads the position only. */
  lemma HashCodeIgnoresContents(a: SudokuNode, b: SudokuNode)
    requires a.x == b.x && a.y == b.y
    ensures HashCode(a) == HashCode(b)
  {
  }

  /** Single-digit `y`: `1000*x + y`, as in the other copy. */
  lemma GetHashOneDigitY(x: Int32, y: Int32)
    requires 0 <= x && 0 <= y <= 9 && 1000 * x + y <= INT_MAX
    ensures GetHash(x, y) == Some(1000 * x + y)
  {
    Node.GetHashOneDigitY(x, y);
  }

  /** A node built from a position has color 0 and is read-only. */
  lemma NewNodeDefaults(x: Int32, y: Int32)
    ensures SudokuNode(x, y).color == 0 && SudokuNode(x, y).readOnly
  {
  }
}
