/**
  The six proficiency levels of the Common European Framework of Reference
  for Languages, ordered A1 < A2 < B1 < B2 < C1 < C2 by declaration.
 */
module Cefr {

  datatype CEFRLevel = A1 | A2 | B1 | B2 | C1 | C2

  /** The members in declaration order (`tuple(CEFRLevel)`). */
  const Ordered: seq<CEFRLevel> := [A1, A2, B1, B2, C1, C2]

  /** One plus the position of the level in declaration order. */
  function Rank(l: CEFRLevel): (r: int)
    ensures 1 <= r <= |Ordered| && Ordered[r - 1] == l
  {
    match l
    case A1 => 1
    case A2 => 2
    case B1 => 3
    case B2 => 4
    case C1 => 5
    case C2 => 6
  }

  /** The rank identifies the level. */
  lemma RankInjective(x: CEFRLevel, y: CEFRLevel)
    ensures Rank(x) == Rank(y) <==> x == y
  {
  }

  predicate IsBeginner(l: CEFRLevel) { l == A1 || l == A2 }

  predicate IsIntermediate(l: CEFRLevel) { l == B1 || l == B2 }

  predicate IsAdvanced(l: CEFRLevel) { l == C1 || l == C2 }

  /** Each level belongs to exactly one of the three bands, and the bands
      follow the ranks: 1-2, 3-4, 5-6. */
  lemma ExactlyOneBand(l: CEFRLevel)
    ensures (if IsBeginner(l) then 1 else 0) + (if IsIntermediate(l) then 1 else 0)
            + (if IsAdvanced(l) then 1 else 0) == 1
    ensures IsBeginner(l) <==> Rank(l) <= 2
    ensures IsIntermediate(l) <==> 3 <= Rank(l) <= 4
    ensures IsAdvanced(l) <==> 5 <= Rank(l)
  {
  }

  function Abs(n: int): int { if n < 0 then -n else n }

  /** `is_adjacent_to`: the ranks differ by exactly one. */
  predicate IsAdjacentTo(x: CEFRLevel, y: CEFRLevel) {
    Abs(Rank(x) - Rank(y)) == 1
  }

  /** Adjacency is symmetric and irreflexive, and a level's neighbours are
      exactly the levels one step up or down in declaration order. */
  lemma AdjacencyProperties(x: CEFRLevel, y: CEFRLevel)
    ensures IsAdjacentTo(x, y) <==> IsAdjacentTo(y, x)
    ensures !IsAdjacentTo(x, x)
    ensures IsAdjacentTo(x, y) <==> (Rank(y) == Rank(x) + 1 || Rank(y) == Rank(x) - 1)
  {
  }

  /** `__lt__` between two levels. */
  predicate Less(x: CEFRLevel, y: CEFRLevel) {
    Rank(x) < Rank(y)
  }

  /** `<` is a strict total order that follows declaration order. */
  lemma LessIsStrictTotalOrder(x: CEFRLevel, y: CEFRLevel, z: CEFRLevel)
    ensures !Less(x, x)
    ensures Less(x, y) && Less(y, z) ==> Less(x, z)
    ensures x == y || Less(x, y) || Less(y, x)
    ensures Less(x, y) ==> !Less(y, x)
  {
    RankInjective(x, y);
  }

  /** Declaration order is the order: earlier members are smaller. */
  lemma OrderedIsIncreasing(i: int, j: int)
    requires 0 <= i < j < |Ordered|
    ensures Less(Ordered[i], Ordered[j])
  {
  }

  /** The right operand of a comparison: a level, or a value of another type. */
  datatype Operand = Level(level: CEFRLevel) | Foreign

  /** The outcome of `x < other` once Python has consulted both operands:
      a boolean, or a `TypeError` when `__lt__` returned `NotImplemented`. */
  datatype Comparison = Answer(less: bool) | TypeError

  function CompareLess(x: CEFRLevel, other: Operand): (r: Comparison)
    ensures other.Foreign? <==> r == TypeError
    ensures other.Level? ==> r == Answer(Rank(x) < Rank(other.level))
  {
    match other
    case Level(y) => Answer(Less(x, y))
    case Foreign => TypeError
  }

  /** `x == other`: enumeration identity; never raises, false for other types. */
  function EqualsOperand(x: CEFRLevel, other: Operand): (r: bool)
    ensures r <==> other == Level(x)
  {
    other.Level? && other.level == x
  }
}
