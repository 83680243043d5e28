/**
 * The session state manager: the view model that owns the card list, the
 * edit buffer of the selected card, the called numbers, the active mode and
 * the winner lists, and writes a snapshot to storage after most changes.
 */
module Session {
  import opened Wrappers
  import opened GameMode
  import opened Cards
  import opened Validator
  import opened CardValidation
  import opened WinnerLists

  /** What `saveState` writes under its five keys. The mode is stored by name. */
  datatype Snapshot = Snapshot(
    numberCards: int,
    bingoCards: seq<Card>,
    selectedNumbers: set<int>,
    gameMode: string,
    selectedCardIndex: int)

  /** Every card has exactly 25 slots. */
  predicate CardsWellSized(cards: seq<Card>)
  {
    forall i :: 0 <= i < |cards| ==> |cards[i].numbers| == 25
  }

  /** Card i (0-based) is card number i + 1. */
  predicate NumberedInOrder(cards: seq<Card>)
  {
    forall i :: 0 <= i < |cards| ==> cards[i].cardNumber == i + 1
  }

  /** The fresh cards numbered from + 1 .. to. */
  function NewCards(from: nat, to: nat): (r: seq<Card>)
    requires from <= to
    ensures |r| == to - from
    ensures forall i :: 0 <= i < |r| ==> r[i] == NewCard(from + i + 1)
  {
    seq(to - from, i requires 0 <= i < to - from => NewCard(from + i + 1))
  }

  /**
   * The card list once the count becomes `n`: the first n cards are kept
   * unchanged, and any cards beyond the old end are new, empty and numbered
   * by position.
   */
  function Resize(cards: seq<Card>, n: nat): (r: seq<Card>)
    ensures |r| == n
    ensures forall i :: 0 <= i < n && i < |cards| ==> r[i] == cards[i]
    ensures forall i :: |cards| <= i < n ==> r[i] == NewCard(i + 1)
  {
    if n > |cards| then cards + NewCards(|cards|, n)
    else if n < |cards| then cards[..n]
    else cards
  }

  /** Resizing keeps cards well sized. */
  lemma ResizeWellSized(cards: seq<Card>, n: nat)
    requires CardsWellSized(cards)
    ensures CardsWellSized(Resize(cards, n))
  {
  }

  /** Resizing keeps the numbering 1, 2, 3, ... */
  lemma ResizeKeepsNumbering(cards: seq<Card>, n: nat)
    requires NumberedInOrder(cards)
    ensures NumberedInOrder(Resize(cards, n))
  {
  }

  /**
   * Two resizes in a row act as the second alone, unless the first dropped
   * cards that the second would bring back (which return empty). So growing
   * to 3 and shrinking to 1 leaves card 1 exactly as it was.
   */
  lemma ResizeTwice(cards: seq<Card>, a: nat, b: nat)
    requires a >= |cards| || b <= a
    ensures Resize(Resize(cards, a), b) == Resize(cards, b)
  {
    var once, twice, direct := Resize(cards, a), Resize(Resize(cards, a), b), Resize(cards, b);
    forall i | 0 <= i < b ensures twice[i] == direct[i] {
      if i < a && i < |cards| {
        assert twice[i] == once[i] == cards[i];
      }
    }
  }

  /** The card list after relabelling: only cards numbered `cardNumber` change, and only their label. */
  function WithCardId(cards: seq<Card>, cardNumber: int, newId: string): (r: seq<Card>)
    ensures |r| == |cards|
    ensures forall i :: 0 <= i < |r| ==>
      && r[i].cardNumber == cards[i].cardNumber
      && r[i].numbers == cards[i].numbers
      && r[i].cardId == (if cards[i].cardNumber == cardNumber then newId else cards[i].cardId)
  {
    if cards == [] then []
    else
      [if cards[0].cardNumber == cardNumber then cards[0].(cardId := newId) else cards[0]]
      + WithCardId(cards[1..], cardNumber, newId)
  }

  /** Setting slot 12 (as a commit does) keeps a valid buffer valid. */
  lemma CentreFillKeepsValid(numbers: seq<Option<int>>, x: Option<int>)
    requires |numbers| == 25 && ValidCardNumbers(numbers)
    ensures ValidCardNumbers(numbers[FreeCell := x])
  {
    var n' := numbers[FreeCell := x];
    forall p | Playable(p) ensures n'[p] == numbers[p] {
    }
  }

  class SettingsViewModel {
    var numberCards: int
    /** The card-count field, as the number it parses to (None: not a number). */
    var displayNumber: Option<int>
    var isSynced: bool
    var bingoCards: seq<Card>
    var selectedCardIndex: int
    /** The edit buffer of the selected card. */
    var tempCardNumbers: seq<Option<int>>
    var hasUnsavedChanges: bool
    /** The called numbers. */
    var selectedNumbers: set<int>
    var gameMode: Mode
    var gameModeLabel: string
    var winningCards: seq<Winner>
    var currentModeWinners: seq<Winner>
    var blackoutWinners: seq<Winner>
    /** The snapshot storage holds: the state at the last `saveState`. */
    ghost var persisted: Snapshot

    ghost predicate Valid()
      reads this
    {
      && numberCards >= 0
      && (displayNumber.Some? ==> displayNumber.value >= 0)
      && selectedCardIndex >= 0
      && |tempCardNumbers| == 25
      && CardsWellSized(bingoCards)
      && gameModeLabel == Label(gameMode)
    }

    /** The state `saveState` writes. */
    ghost function Snap(): Snapshot
      reads this
    {
      Snapshot(numberCards, bingoCards, selectedNumbers, Name(gameMode), selectedCardIndex)
    }

    /**
     * The winner lists are what `checkWinningCards` computes when the
     * current-mode list before it was `previous`: BLACKOUT winners always
     * recomputed, current-mode winners recomputed unless the mode is
     * BLACKOUT, and the combined list made distinct by key.
     */
    ghost predicate RecomputedFrom(previous: seq<Winner>)
      reads this
      requires Valid()
    {
      && (gameMode == BLACKOUT ==> currentModeWinners == previous)
      && (gameMode != BLACKOUT ==> currentModeWinners == CheckAllCards(bingoCards, selectedNumbers, gameMode))
      && blackoutWinners == CheckAllCards(bingoCards, selectedNumbers, BLACKOUT)
      && winningCards == DistinctByKey(currentModeWinners + blackoutWinners)
    }

    /** A recomputation now would change nothing. */
    ghost predicate WinnersUpToDate()
      reads this
    {
      Valid() && RecomputedFrom(currentModeWinners)
    }

    /** The tail of `loadSavedState`, given the values it decoded from storage. */
    constructor (numberCards: int, cards: seq<Card>, selectedNumbers: set<int>, gameModeName: string, selectedCardIndex: int)
      requires numberCards >= 0 && selectedCardIndex >= 0 && CardsWellSized(cards)
      requires ValueOf(gameModeName).Some?
      ensures Valid() && WinnersUpToDate()
      ensures this.numberCards == numberCards && displayNumber == Some(numberCards) && isSynced
      ensures bingoCards == cards && this.selectedNumbers == selectedNumbers
      ensures this.selectedCardIndex == selectedCardIndex
      ensures gameMode == ValueOf(gameModeName).value && Name(gameMode) == gameModeName
      ensures tempCardNumbers == if selectedCardIndex < |cards| then cards[selectedCardIndex].numbers else EmptyNumbers()
      ensures !hasUnsavedChanges
      ensures gameMode == BLACKOUT ==> currentModeWinners == []
      ensures persisted == Snap()
    {
      this.numberCards := numberCards;
      displayNumber := Some(numberCards);
      isSynced := true;
      bingoCards := cards;
      this.selectedNumbers := selectedNumbers;
      var savedGameMode := ValueOf(gameModeName).value;
      gameMode := savedGameMode;
      gameModeLabel := Label(savedGameMode);
      this.selectedCardIndex := selectedCardIndex;
      tempCardNumbers := EmptyNumbers();
      hasUnsavedChanges := false;
      winningCards, currentModeWinners, blackoutWinners := [], [], [];
      if |cards| > 0 && selectedCardIndex < |cards| {
        tempCardNumbers := cards[selectedCardIndex].numbers;
      }
      persisted := Snapshot(numberCards, cards, selectedNumbers, Name(savedGameMode), selectedCardIndex);
      new;
      ghost var loaded := Snap();
      CheckWinningCards();
      assert Snap() == loaded;
    }

    /** `saveState`: storage now holds the current state. */
    method SaveState()
      modifies this`persisted
      ensures persisted == Snap()
    {
      persisted := Snap();
    }

    method UpdateDisplayNumber(number: Option<int>)
      requires Valid()
      requires number.Some? ==> number.value >= 0
      modifies this`displayNumber, this`isSynced
      ensures Valid()
      ensures displayNumber == number
      ensures isSynced <==> number == Some(numberCards)
    {
      displayNumber := number;
      isSynced := number == Some(numberCards);
    }

    /**
     * `syncNumbers`: make the card count what the field says. The winner
     * lists are left as they were.
     */
    method SyncNumbers()
      requires Valid()
      modifies this`bingoCards, this`numberCards, this`isSynced, this`selectedCardIndex, this`tempCardNumbers, this`persisted
      ensures Valid()
      ensures old(displayNumber).None? ==>
        && bingoCards == old(bingoCards) && numberCards == old(numberCards) && isSynced == old(isSynced)
        && selectedCardIndex == old(selectedCardIndex) && tempCardNumbers == old(tempCardNumbers)
        && persisted == old(persisted)
      ensures old(displayNumber).Some? ==>
        && bingoCards == Resize(old(bingoCards), old(displayNumber).value)
        && numberCards == old(displayNumber).value && isSynced
        && (bingoCards != [] ==> selectedCardIndex == 0 && tempCardNumbers == bingoCards[0].numbers)
        && (bingoCards == [] ==> selectedCardIndex == old(selectedCardIndex) && tempCardNumbers == old(tempCardNumbers))
        && persisted == Snap()
    {
      if displayNumber.None? {
        return;
      }
      var newValue := displayNumber.value;
      var currentCards := bingoCards;
      if newValue > |currentCards| {
        bingoCards := currentCards + NewCards(|currentCards|, newValue);
      } else if newValue < |currentCards| {
        bingoCards := currentCards[..newValue];
      }
      ResizeWellSized(currentCards, newValue);
      numberCards := newValue;
      isSynced := true;
      if |bingoCards| > 0 {
        selectedCardIndex := 0;
        tempCardNumbers := bingoCards[0].numbers;
      }
      SaveState();
    }

    /** `updateCardId`: relabel the cards numbered `cardNumber`; this counts as an unsaved change. */
    method UpdateCardId(cardNumber: int, newId: string)
      requires Valid()
      modifies this`hasUnsavedChanges, this`bingoCards, this`persisted
      ensures Valid()
      ensures hasUnsavedChanges
      ensures bingoCards == WithCardId(old(bingoCards), cardNumber, newId)
      ensures persisted == Snap()
    {
      hasUnsavedChanges := true;
      bingoCards := WithCardId(bingoCards, cardNumber, newId);
      SaveState();
    }

    /** `updateCardNumber`: edit one slot of the buffer; the free centre cannot be edited. */
    method UpdateCardNumber(position: int, number: Option<int>)
      requires Valid()
      requires 0 <= position < 25
      modifies this`hasUnsavedChanges, this`tempCardNumbers
      ensures Valid()
      ensures position == FreeCell ==> hasUnsavedChanges == old(hasUnsavedChanges) && tempCardNumbers == old(tempCardNumbers)
      ensures position != FreeCell ==> hasUnsavedChanges && tempCardNumbers == old(tempCardNumbers)[position := number]
    {
      if position != FreeCell {
        hasUnsavedChanges := true;
        tempCardNumbers := tempCardNumbers[position := number];
      }
    }

    /** `setSelectedCard`: select a card and load its numbers into the buffer, dropping buffered edits. */
    method SetSelectedCard(index: int)
      requires Valid()
      modifies this`selectedCardIndex, this`tempCardNumbers
      ensures Valid()
      ensures 0 <= index < |bingoCards| ==> selectedCardIndex == index && tempCardNumbers == bingoCards[index].numbers
      ensures !(0 <= index < |bingoCards|) ==>
        selectedCardIndex == old(selectedCardIndex) && tempCardNumbers == old(tempCardNumbers)
    {
      if 0 <= index < |bingoCards| {
        selectedCardIndex := index;
        tempCardNumbers := bingoCards[index].numbers;
      }
    }

    /** `selectNumber`: call a number. Calling it again changes nothing. */
    method SelectNumber(number: int)
      requires Valid()
      modifies this`selectedNumbers, this`currentModeWinners, this`blackoutWinners, this`winningCards, this`persisted
      ensures Valid() && WinnersUpToDate()
      ensures selectedNumbers == old(selectedNumbers) + {number}
      ensures RecomputedFrom(old(currentModeWinners))
      ensures old(number in selectedNumbers && WinnersUpToDate()) ==>
        currentModeWinners == old(currentModeWinners) && blackoutWinners == old(blackoutWinners) && winningCards == old(winningCards)
      ensures persisted == Snap()
    {
      selectedNumbers := selectedNumbers + {number};
      if number in old(selectedNumbers) {
        assert selectedNumbers == old(selectedNumbers);
      }
      CheckWinningCards();
      SaveState();
    }

    /** `deselectNumber`: uncall a number. Uncalling it again changes nothing. */
    method DeselectNumber(number: int)
      requires Valid()
      modifies this`selectedNumbers, this`currentModeWinners, this`blackoutWinners, this`winningCards, this`persisted
      ensures Valid() && WinnersUpToDate()
      ensures selectedNumbers == old(selectedNumbers) - {number}
      ensures RecomputedFrom(old(currentModeWinners))
      ensures old(number !in selectedNumbers && WinnersUpToDate()) ==>
        currentModeWinners == old(currentModeWinners) && blackoutWinners == old(blackoutWinners) && winningCards == old(winningCards)
      ensures persisted == Snap()
    {
      selectedNumbers := selectedNumbers - {number};
      if number !in old(selectedNumbers) {
        assert selectedNumbers == old(selectedNumbers);
      }
      CheckWinningCards();
      SaveState();
    }

    /**
     * `checkWinningCards`: recompute the BLACKOUT winners, the current-mode
     * winners unless the mode is BLACKOUT, and their combination.
     */
    method CheckWinningCards()
      requires Valid()
      modifies this`currentModeWinners, this`blackoutWinners, this`winningCards
      ensures Valid() && WinnersUpToDate()
      ensures RecomputedFrom(old(currentModeWinners))
    {
      if gameMode != BLACKOUT {
        var newCurrentWinners := CheckAllCards(bingoCards, selectedNumbers, gameMode);
        currentModeWinners := newCurrentWinners;
      }
      var newBlackoutWinners := CheckAllCards(bingoCards, selectedNumbers, BLACKOUT);
      blackoutWinners := newBlackoutWinners;
      winningCards := DistinctByKey(currentModeWinners + blackoutWinners);
    }

    /** `hasWonInCurrentMode`: some current-mode winner carries this label. */
    function HasWonInCurrentMode(cardId: string): (r: bool)
      reads this
      requires Valid()
      ensures WinnersUpToDate() && gameMode != BLACKOUT ==>
        (r <==> exists c :: c in bingoCards && c.cardId == cardId && ValidateWin(c, selectedNumbers, gameMode))
    {
      CheckAllCardsMembers(bingoCards, selectedNumbers, gameMode);
      exists w :: w in currentModeWinners && w.card.cardId == cardId
    }

    /** `hasWonBlackout`: some BLACKOUT winner carries this label. */
    function HasWonBlackout(cardId: string): (r: bool)
      reads this
      requires Valid()
      ensures WinnersUpToDate() ==>
        (r <==> exists c :: c in bingoCards && c.cardId == cardId && ValidateWin(c, selectedNumbers, BLACKOUT))
    {
      CheckAllCardsMembers(bingoCards, selectedNumbers, BLACKOUT);
      exists w :: w in blackoutWinners && w.card.cardId == cardId
    }

    /** `resetSelectedNumbers`: uncall everything; afterwards nobody has won. */
    method ResetSelectedNumbers()
      requires Valid()
      modifies this`selectedNumbers, this`currentModeWinners, this`blackoutWinners, this`winningCards, this`persisted
      ensures Valid() && WinnersUpToDate()
      ensures selectedNumbers == {}
      ensures RecomputedFrom(old(currentModeWinners))
      ensures blackoutWinners == [] && (gameMode != BLACKOUT ==> currentModeWinners == [])
      ensures old(selectedNumbers == {} && WinnersUpToDate()) ==>
        currentModeWinners == old(currentModeWinners) && blackoutWinners == old(blackoutWinners) && winningCards == old(winningCards)
      ensures persisted == Snap()
    {
      selectedNumbers := {};
      NoWinnersBeforeCalls(bingoCards, BLACKOUT);
      NoWinnersBeforeCalls(bingoCards, gameMode);
      CheckWinningCards();
      SaveState();
    }

    /**
     * `saveCardNumbers`: commit the buffer, with slot 12 set to 0, to the
     * selected card, when the index is in range. Storage is written either way.
     */
    method SaveCardNumbers()
      requires Valid()
      modifies this`bingoCards, this`hasUnsavedChanges, this`persisted
      ensures Valid()
      ensures old(selectedCardIndex < |bingoCards|) ==>
        && bingoCards == old(bingoCards)[selectedCardIndex :=
             old(bingoCards)[selectedCardIndex].(numbers := tempCardNumbers[FreeCell := Some(0)])]
        && !hasUnsavedChanges
      ensures old(selectedCardIndex >= |bingoCards|) ==>
        bingoCards == old(bingoCards) && hasUnsavedChanges == old(hasUnsavedChanges)
      ensures persisted == Snap()
    {
      var currentIndex := selectedCardIndex;
      var currentCards := bingoCards;
      if currentIndex >= 0 && currentIndex < |currentCards| {
        var newNumbers := tempCardNumbers[FreeCell := Some(0)];
        currentCards := currentCards[currentIndex := currentCards[currentIndex].(numbers := newNumbers)];
        bingoCards := currentCards;
        hasUnsavedChanges := false;
      }
      SaveState();
    }

    /**
     * `tryToSaveCardNumbers`: validate the buffer; commit it only when there
     * is nothing to report. A committed card is a valid card.
     */
    method TryToSaveCardNumbers() returns (errors: seq<ValidationError>)
      requires Valid()
      modifies this`bingoCards, this`hasUnsavedChanges, this`persisted
      ensures Valid()
      ensures errors == ValidationErrors(tempCardNumbers)
      ensures errors != [] ==>
        bingoCards == old(bingoCards) && hasUnsavedChanges == old(hasUnsavedChanges) && persisted == old(persisted)
      ensures errors == [] && old(selectedCardIndex < |bingoCards|) ==>
        && bingoCards == old(bingoCards)[selectedCardIndex :=
             old(bingoCards)[selectedCardIndex].(numbers := tempCardNumbers[FreeCell := Some(0)])]
        && !hasUnsavedChanges
        && ValidCardNumbers(bingoCards[selectedCardIndex].numbers)
        && bingoCards[selectedCardIndex].numbers[FreeCell] == Some(0)
      ensures errors == [] && old(selectedCardIndex >= |bingoCards|) ==>
        bingoCards == old(bingoCards) && hasUnsavedChanges == old(hasUnsavedChanges)
      ensures errors == [] ==> persisted == Snap()
    {
      errors := ValidateCardNumbers(tempCardNumbers);
      if errors == [] {
        NoErrorsIffValid(tempCardNumbers);
        CentreFillKeepsValid(tempCardNumbers, Some(0));
        SaveCardNumbers();
      }
    }

    /** `setGameMode`: change the mode and its label. The winner lists are left as they were. */
    method SetGameMode(mode: Mode)
      requires Valid()
      modifies this`gameMode, this`gameModeLabel, this`persisted
      ensures Valid()
      ensures gameMode == mode && gameModeLabel == Label(mode)
      ensures persisted == Snap() && ValueOf(persisted.gameMode) == Some(mode)
    {
      gameMode := mode;
      gameModeLabel := Label(mode);
      SaveState();
      ValueOfName(mode);
    }
  }
}
