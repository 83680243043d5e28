/**
 * A bingo card: its 1-based number, the label the player gives it, and 25
 * optional numbers stored column-major (`position = col * 5 + row`, columns
 * B, I, N, G, O). Position 12 is the free centre.
 */
module Cards {
  import opened Wrappers

  datatype Card = Card(cardNumber: int, cardId: string, numbers: seq<Option<int>>)

  const FreeCell := 12

  /** The card position of grid cell (row, col). */
  function Slot(row: int, col: int): int
  {
    col * 5 + row
  }

  /** The order in which a row-outer, column-inner scan visits a position. */
  function Rank(position: int): int
  {
    (position % 5) * 5 + position / 5
  }

  /** A grid cell's position lies on the card, and the scan visits it at step row * 5 + col. */
  lemma SlotCoordinates(row: int, col: int)
    requires 0 <= row < 5 && 0 <= col < 5
    ensures 0 <= Slot(row, col) < 25
    ensures Slot(row, col) % 5 == row && Slot(row, col) / 5 == col
    ensures Rank(Slot(row, col)) == row * 5 + col
    ensures Slot(row, col) == FreeCell <==> row == 2 && col == 2
  {
  }

  /** Every position on the card is the slot of exactly one grid cell. */
  lemma PositionCoordinates(position: int)
    requires 0 <= position < 25
    ensures 0 <= position % 5 < 5 && 0 <= position / 5 < 5
    ensures Slot(position % 5, position / 5) == position
  {
  }

  /** Two grid cells share a position only if they are the same cell. */
  lemma SlotInjective(r1: int, c1: int, r2: int, c2: int)
    requires 0 <= r1 < 5 && 0 <= c1 < 5 && 0 <= r2 < 5 && 0 <= c2 < 5
    ensures Slot(r1, c1) == Slot(r2, c2) <==> r1 == r2 && c1 == c2
  {
  }

  /** The 25 empty slots a new card starts with. */
  function EmptyNumbers(): (s: seq<Option<int>>)
    ensures |s| == 25
    ensures forall i :: 0 <= i < |s| ==> s[i] == None
  {
    seq(25, _ => None)
  }

  /** A card as created when the card count grows: numbered, unlabelled, empty. */
  function NewCard(cardNumber: int): (c: Card)
    ensures c.cardNumber == cardNumber && c.cardId == "" && c.numbers == EmptyNumbers()
  {
    Card(cardNumber, "", EmptyNumbers())
  }
}
