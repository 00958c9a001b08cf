/** One cell of the board (`com.death.sudoku.domain.SudokuNode`) and the
    key it is filed under, `getHash`. */
module Node {
  import opened Outcomes
  import opened Numbers

  /** A data class: `equals` compares all four fields (Dafny's `==` on a
      datatype). Only the hash code is overridden. A node built from a
      position alone is empty (`color` 0) and read-only. */
  datatype SudokuNode = SudokuNode(x: Int32, y: Int32, color: Int32 := 0, readOnly: bool := true)

  /** `getHash`: the decimal text of `x*100` (an `Int` product, so it wraps)
      followed by the decimal text of `y`, parsed back with `toInt`.
      `None` stands for the `NumberFormatException` that `toInt` throws. */
  function GetHash(x: Int32, y: Int32): Option<Int32>
  {
    ParseInt(IntToString(WrapInt(x * 100)) + IntToString(y))
  }

  /** `hashCode`: the hash of the position only. */
  function HashCode(n: SudokuNode): Option<Int32>
  {
    GetHash(n.x, n.y)
  }

  /** For a non-negative `x` whose product `x*100` does not wrap and a
      non-negative `y`, the key is `x*100` shifted left by the number of
      decimal digits of `y`, plus `y`; it throws when that leaves `Int` range. */
  lemma GetHashNonNegative(x: Int32, y: Int32)
    requires 0 <= x * 100 <= INT_MAX && 0 <= y
    ensures var v := x * 100 * Pow10(|NatToDigits(y)|) + y;
            (GetHash(x, y).Some? <==> v <= INT_MAX) && (GetHash(x, y).Some? ==> GetHash(x, y).value == v)
  {
    var w: nat := x * 100;
    var digits := NatToDigits(w) + NatToDigits(y);
    assert IntToString(WrapInt(x * 100)) + IntToString(y) == digits;
    ShiftedDigits(w, y);
    ParseDigits(digits);
  }

  /** The digits of `w` followed by those of `y` spell `w` shifted past `y`. */
  lemma ShiftedDigits(w: nat, y: nat)
    ensures AllDigits(NatToDigits(w) + NatToDigits(y)) && |NatToDigits(w) + NatToDigits(y)| > 0
    ensures DigitsValue(NatToDigits(w) + NatToDigits(y)) == w * Pow10(|NatToDigits(y)|) + y
  {
    DigitsValueAppend(NatToDigits(w), NatToDigits(y));
    DigitsValueOfNatToDigits(w);
    DigitsValueOfNatToDigits(y);
  }

  /** A negative `y` puts a `-` in the middle of the text: `toInt` always throws. */
  lemma GetHashNegativeY(x: Int32, y: Int32)
    requires y < 0
    ensures GetHash(x, y) == None
  {
    var a := IntToString(WrapInt(x * 100));
    var s := a + IntToString(y);
    assert s[|a|] == '-';
    if |s| > 0 && (s[0] == '-' || s[0] == '+') && |s| > 1 {
      assert s[1..][|a| - 1] == '-';
    }
  }

  /** Single-digit `y` (every coordinate of a 4x4 or 9x9 board): `1000*x + y`. */
  lemma GetHashOneDigitY(x: Int32, y: Int32)
    requires 0 <= x && 0 <= y <= 9 && 1000 * x + y <= INT_MAX
    ensures GetHash(x, y) == Some(1000 * x + y)
  {
    GetHashNonNegative(x, y);
  }

  /** Two-digit `y`: `10000*x + y`. */
  lemma GetHashTwoDigitY(x: Int32, y: Int32)
    requires 0 <= x && 10 <= y <= 99 && 10000 * x + y <= INT_MAX
    ensures GetHash(x, y) == Some(10000 * x + y)
  {
    DigitCountSmall(y);
    GetHashNonNegative(x, y);
  }

  /** The key never throws on a position of a board up to 99x99 and two
      positions there share a key only if they are the same position. */
  lemma GetHashInjectiveOnBoards(x1: Int32, y1: Int32, x2: Int32, y2: Int32)
    requires 0 <= x1 <= 99 && 0 <= y1 <= 99 && 0 <= x2 <= 99 && 0 <= y2 <= 99
    ensures GetHash(x1, y1).Some? && GetHash(x2, y2).Some?
    ensures GetHash(x1, y1) == GetHash(x2, y2) <==> x1 == x2 && y1 == y2
  {
    GetHashOnBoard(x1, y1);
    GetHashOnBoard(x2, y2);
    BoardKeysDistinct(x1, y1, x2, y2);
  }

  /** The key of a position with coordinates below 100, as a number. */
  function BoardKey(x: int, y: int): int
  {
    if y <= 9 then 1000 * x + y else 10000 * x + y
  }

  lemma GetHashOnBoard(x: Int32, y: Int32)
    requires 0 <= x <= 99 && 0 <= y <= 99
    ensures GetHash(x, y) == Some(BoardKey(x, y))
  {
    if y <= 9 { GetHashOneDigitY(x, y); } else { GetHashTwoDigitY(x, y); }
  }

  lemma BoardKeysDistinct(x1: int, y1: int, x2: int, y2: int)
    requires 0 <= x1 <= 99 && 0 <= y1 <= 99 && 0 <= x2 <= 99 && 0 <= y2 <= 99
    ensures BoardKey(x1, y1) == BoardKey(x2, y2) ==> x1 == x2 && y1 == y2
  {
    var k1, k2 := BoardKey(x1, y1), BoardKey(x2, y2);
    if y1 <= 9 && 10 <= y2 {
      assert k1 != k2 by { var d := x1 - 10 * x2; assert k1 - k2 == 1000 * d + (y1 - y2); }
    } else if 10 <= y1 && y2 <= 9 {
      assert k1 != k2 by { var d := x2 - 10 * x1; assert k2 - k1 == 1000 * d + (y2 - y1); }
    }
  }

  /** The key is not `x*100 + y`: `getHash(1, 5)` is 1005. Beyond two-digit
      coordinates it also collides: `(1, 0)` and `(0, 1000)` both give 1000. */
  lemma GetHashExamples()
    ensures GetHash(1, 5) == Some(1005) && 1 * 100 + 5 != 1005
    ensures GetHash(1, 0) == GetHash(0, 1000) == Some(1000)
  {
    GetHashOneDigitY(1, 5);
    GetHashOneDigitY(1, 0);
    GetHashNonNegative(0, 1000);
  }

  /** `hashCode` reads the position only: nodes that differ in `color` or
      `readOnly` hash alike. */
  lemma HashCodeIgnoresContents(a: SudokuNode, b: SudokuNode)
    requires a.x == b.x && a.y == b.y
    ensures HashCode(a) == HashCode(b)
  {
  }

  /** The equals/hashCode contract: equal nodes have equal hash codes. */
  lemma EqualNodesHashAlike(a: SudokuNode, b: SudokuNode)
    requires a == b
    ensures HashCode(a) == HashCode(b)
  {
  }

  /** Equality is structural, not positional: two nodes at one position with
      different colors are unequal although their hash codes agree. */
  lemma EqualityIsStructural(x: Int32, y: Int32, c: Int32)
    requires c != 0
    ensures SudokuNode(x, y) != SudokuNode(x, y, c)
    ensures HashCode(SudokuNode(x, y)) == HashCode(SudokuNode(x, y, c))
  {
  }

  /** A node built from a position has color 0 and is read-only. */
  lemma NewNodeDefaults(x: Int32, y: Int32)
    ensures SudokuNode(x, y).color == 0 && SudokuNode(x, y).readOnly
  {
  }
}
