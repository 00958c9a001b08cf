/** `Difficulty`: three levels, each with the fraction of cells kept as
    clues. The `Double` modifiers are exact decimals here. */
module Difficulties {

  datatype Difficulty = EASY | MEDIUM | HARD
  {
    /** Declaration order, as Kotlin's `ordinal`. */
    function Ordinal(): (o: nat)
      ensures o < |Values|
    {
      match this
      case EASY => 0
      case MEDIUM => 1
      case HARD => 2
    }

    /** The retention modifier: a proper fraction of the board. */
    function Modifier(): (m: real)
      ensures 0.0 < m < 1.0
    {
      match this
      case EASY => 0.50
      case MEDIUM => 0.44
      case HARD => 0.38
    }
  }

  /** `Difficulty.values()`, in declaration order. */
  const Values: seq<Difficulty> := [EASY, MEDIUM, HARD]

  /** Every difficulty is listed once, at the position of its ordinal. */
  lemma ValuesInOrdinalOrder()
    ensures |Values| == 3
    ensures forall d: Difficulty :: Values[d.Ordinal()] == d
    ensures forall i, j :: 0 <= i < j < |Values| ==> Values[i] != Values[j]
  {
  }

  /** The later the level, the fewer clues it keeps. */
  lemma ModifierDecreasesWithOrdinal(a: Difficulty, b: Difficulty)
    requires a.Ordinal() < b.Ordinal()
    ensures a.Modifier() > b.Modifier()
  {
  }

  /** The three modifiers, and with them the order of the levels. */
  lemma ModifierValues()
    ensures EASY.Modifier() == 0.50 && MEDIUM.Modifier() == 0.44 && HARD.Modifier() == 0.38
  {
  }
}
