/**
 * The win matcher: whether a card covers a mode's mask under the set of
 * called numbers, and the filter that lists every winning card.
 */
module Validator {
  import opened Wrappers
  import opened GameMode
  import opened Cards

  /** A card that satisfies a mode. */
  datatype Winner = Winner(card: Card, gameMode: Mode)

  /** Position `position` holds a number, and that number has been called. */
  predicate Marked(numbers: seq<Option<int>>, selected: set<int>, position: int)
    requires 0 <= position < |numbers|
  {
    numbers[position].Some? && numbers[position].value in selected
  }

  /** Grid cell (row, col) does not stop a win: the mask does not need it, it is the free centre, or it is marked. */
  predicate CellSatisfied(numbers: seq<Option<int>>, selected: set<int>, p: seq<seq<int>>, row: int, col: int)
    requires WellFormed(p) && |numbers| >= 25
    requires 0 <= row < 5 && 0 <= col < 5
  {
    p[row][col] == 1 && Slot(row, col) != FreeCell ==> Marked(numbers, selected, Slot(row, col))
  }

  /** Every cell of the mask is satisfied. */
  predicate Covers(numbers: seq<Option<int>>, selected: set<int>, p: seq<seq<int>>)
    requires WellFormed(p) && |numbers| >= 25
  {
    forall row, col :: 0 <= row < 5 && 0 <= col < 5 ==> CellSatisfied(numbers, selected, p, row, col)
  }

  /**
   * The scan of `validateWin` from cell (row, col) on, rows outer and
   * columns inner, answering false at the first required cell that is
   * empty or not called.
   */
  function ScanFrom(numbers: seq<Option<int>>, selected: set<int>, p: seq<seq<int>>, row: nat, col: nat): (r: bool)
    requires WellFormed(p) && |numbers| >= 25
    requires row <= 5 && col <= 5
    ensures r <==>
      && (row < 5 ==> forall c :: col <= c < 5 ==> CellSatisfied(numbers, selected, p, row, c))
      && (forall rr, c :: row < rr < 5 && 0 <= c < 5 ==> CellSatisfied(numbers, selected, p, rr, c))
    decreases 5 - row, 5 - col
  {
    if row == 5 then true
    else if col == 5 then ScanFrom(numbers, selected, p, row + 1, 0)
    else if p[row][col] == 1 then
      var position := Slot(row, col);
      var current := numbers[position];
      if position == FreeCell then ScanFrom(numbers, selected, p, row, col + 1)
      else if current.None? || current.value !in selected then
        assert !CellSatisfied(numbers, selected, p, row, col);
        false
      else ScanFrom(numbers, selected, p, row, col + 1)
    else ScanFrom(numbers, selected, p, row, col + 1)
  }

  /** `validateWin`: the card wins `mode` exactly when it covers the mode's mask. */
  function ValidateWin(card: Card, selected: set<int>, mode: Mode): (r: bool)
    requires |card.numbers| >= 25
    ensures r <==> Covers(card.numbers, selected, Pattern(mode))
  {
    ScanFrom(card.numbers, selected, Pattern(mode), 0, 0)
  }

  /** Every card has the 25 slots the matcher reads. */
  predicate AllFullSize(cards: seq<Card>)
  {
    forall i :: 0 <= i < |cards| ==> |cards[i].numbers| >= 25
  }

  /** The verdict `checkAllCards` filters on, for a fixed call set and mode. */
  function WinsWith(selected: set<int>, mode: Mode): Card -> bool
  {
    (c: Card) => |c.numbers| >= 25 && ValidateWin(c, selected, mode)
  }

  /** `filter { keep(it) }.map { BingoWinner(it, mode) }`. */
  function Tagged(cards: seq<Card>, keep: Card -> bool, mode: Mode): (r: seq<Winner>)
    ensures |r| <= |cards|
  {
    if cards == [] then []
    else (if keep(cards[0]) then [Winner(cards[0], mode)] else []) + Tagged(cards[1..], keep, mode)
  }

  /** `checkAllCards`: the winning cards, in input order, each tagged with `mode`. */
  function CheckAllCards(cards: seq<Card>, selected: set<int>, mode: Mode): (r: seq<Winner>)
    requires AllFullSize(cards)
    ensures |r| <= |cards|
  {
    Tagged(cards, WinsWith(selected, mode), mode)
  }

  /** The tagged list holds exactly the kept cards, each tagged with `mode`. */
  lemma {:induction false} TaggedMembers(cards: seq<Card>, keep: Card -> bool, mode: Mode)
    ensures forall w :: w in Tagged(cards, keep, mode) ==> w.gameMode == mode && w.card in cards && keep(w.card)
    ensures forall c :: c in cards && keep(c) ==> Winner(c, mode) in Tagged(cards, keep, mode)
  {
    if cards != [] {
      assert forall c :: c in cards[1..] ==> c in cards;
      TaggedMembers(cards[1..], keep, mode);
      assert forall c :: c in cards ==> c == cards[0] || c in cards[1..];
    }
  }

  /** Tagging keeps input order: it distributes over concatenation. */
  lemma {:induction false} TaggedAppend(a: seq<Card>, b: seq<Card>, keep: Card -> bool, mode: Mode)
    ensures Tagged(a + b, keep, mode) == Tagged(a, keep, mode) + Tagged(b, keep, mode)
  {
    if a == [] {
      assert a + b == b;
    } else {
      var head := if keep(a[0]) then [Winner(a[0], mode)] else [];
      assert (a + b)[0] == a[0] && (a + b)[1..] == a[1..] + b;
      TaggedAppend(a[1..], b, keep, mode);
      calc {
        Tagged(a + b, keep, mode);
        head + Tagged(a[1..] + b, keep, mode);
        head + (Tagged(a[1..], keep, mode) + Tagged(b, keep, mode));
        (head + Tagged(a[1..], keep, mode)) + Tagged(b, keep, mode);
      }
    }
  }

  /** The winner list holds exactly the winning cards of `cards`, each tagged with `mode`. */
  lemma CheckAllCardsMembers(cards: seq<Card>, selected: set<int>, mode: Mode)
    requires AllFullSize(cards)
    ensures forall w :: w in CheckAllCards(cards, selected, mode) ==>
      w.gameMode == mode && w.card in cards && |w.card.numbers| >= 25 && ValidateWin(w.card, selected, mode)
    ensures forall c :: c in cards && |c.numbers| >= 25 && ValidateWin(c, selected, mode) ==>
      Winner(c, mode) in CheckAllCards(cards, selected, mode)
  {
    TaggedMembers(cards, WinsWith(selected, mode), mode);
  }

  /** `checkAllCards` keeps input order: checking a + b is checking a, then b. */
  lemma CheckAllCardsAppend(a: seq<Card>, b: seq<Card>, selected: set<int>, mode: Mode)
    requires AllFullSize(a) && AllFullSize(b)
    ensures AllFullSize(a + b)
    ensures CheckAllCards(a + b, selected, mode) == CheckAllCards(a, selected, mode) + CheckAllCards(b, selected, mode)
  {
    TaggedAppend(a, b, WinsWith(selected, mode), mode);
  }

  /** Whatever slot 12 holds (empty, 0 or anything else) never changes the verdict. */
  lemma FreeCellExemption(card: Card, selected: set<int>, mode: Mode, x: Option<int>)
    requires |card.numbers| >= 25
    ensures |card.numbers[FreeCell := x]| >= 25
    ensures ValidateWin(card.(numbers := card.numbers[FreeCell := x]), selected, mode)
        == ValidateWin(card, selected, mode)
  {
    var numbers' := card.numbers[FreeCell := x];
    forall row, col | 0 <= row < 5 && 0 <= col < 5
      ensures CellSatisfied(numbers', selected, Pattern(mode), row, col)
          == CellSatisfied(card.numbers, selected, Pattern(mode), row, col)
    {
      SlotCoordinates(row, col);
    }
  }

  /** Calling more numbers never takes a win away. */
  lemma WinIsMonotonic(card: Card, s: set<int>, t: set<int>, mode: Mode)
    requires |card.numbers| >= 25
    requires s <= t && ValidateWin(card, s, mode)
    ensures ValidateWin(card, t, mode)
  {
    forall row, col | 0 <= row < 5 && 0 <= col < 5
      ensures CellSatisfied(card.numbers, t, Pattern(mode), row, col)
    {
      assert CellSatisfied(card.numbers, s, Pattern(mode), row, col);
    }
  }

  /** BLACKOUT is won exactly when all 24 playable slots hold called numbers. */
  lemma BlackoutWinIff(card: Card, selected: set<int>)
    requires |card.numbers| >= 25
    ensures ValidateWin(card, selected, BLACKOUT) <==>
      forall position :: 0 <= position < 25 && position != FreeCell ==> Marked(card.numbers, selected, position)
  {
    var p := Pattern(BLACKOUT);
    if ValidateWin(card, selected, BLACKOUT) {
      forall position | 0 <= position < 25 && position != FreeCell
        ensures Marked(card.numbers, selected, position)
      {
        PositionCoordinates(position);
        assert CellSatisfied(card.numbers, selected, p, position % 5, position / 5);
      }
    } else {
      var row, col :| 0 <= row < 5 && 0 <= col < 5 && !CellSatisfied(card.numbers, selected, p, row, col);
      SlotCoordinates(row, col);
    }
  }

  /** A card with an empty playable slot never wins BLACKOUT, whatever has been called. */
  lemma BlackoutNeedsFullCard(card: Card, selected: set<int>, position: int)
    requires |card.numbers| >= 25
    requires 0 <= position < 25 && position != FreeCell && card.numbers[position].None?
    ensures !ValidateWin(card, selected, BLACKOUT)
  {
    assert !Marked(card.numbers, selected, position);
    BlackoutWinIff(card, selected);
  }

  /** Before any number is called, no card wins any mode. */
  lemma NoWinBeforeCalls(card: Card, mode: Mode)
    requires |card.numbers| >= 25
    ensures !ValidateWin(card, {}, mode)
  {
    var p := Pattern(mode);
    EveryModeRequiresOffCentreCell(mode);
    var row, col :| 0 <= row < 5 && 0 <= col < 5 && p[row][col] == 1 && Slot(row, col) != FreeCell;
    SlotCoordinates(row, col);
    assert !CellSatisfied(card.numbers, {}, p, row, col);
  }

  /** Before any number is called, the winner list is empty. */
  lemma NoWinnersBeforeCalls(cards: seq<Card>, mode: Mode)
    requires AllFullSize(cards)
    ensures CheckAllCards(cards, {}, mode) == []
  {
    if CheckAllCards(cards, {}, mode) != [] {
      var w := CheckAllCards(cards, {}, mode)[0];
      CheckAllCardsMembers(cards, {}, mode);
      NoWinBeforeCalls(w.card, mode);
    }
  }
}
