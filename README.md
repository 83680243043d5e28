# Bingo session model

A Dafny model of the logic of a bingo companion app for Android. The model covers three parts:

- **The pattern catalog** (`BingoGameMode`): eight named 5×5 win masks, each with a display label.
- **The win matcher** (`BingoValidator`): it decides whether a card covers a mask under the set of called numbers. It also filters a list of cards down to the winners.
- **The session state manager** (`SettingsViewModel`): the card list, the selected card and its edit buffer, the called numbers, the active mode, and three winner lists. These are the current-mode winners, the BLACKOUT winners and their combination. The manager also validates a card's 25 numbers before committing them.

A card stores 25 optional numbers column-major. Grid cell (row, col) is position `col * 5 + row`, and position 12 is the free centre.

Files:

- `wrappers.dfy`: `Option`.
- `game_mode.dfy`: modes, names, labels, masks and name lookup.
- `cards.dfy`: the card record and grid/position arithmetic.
- `validator.dfy`: `validateWin` and `checkAllCards`.
- `card_validation.dfy`: the error type and `validateCardNumbers`. It is an imperative method with nested loops, proved equal to a specification function. The lemmas then characterise that function error kind by error kind, and prove its output order.
- `winner_lists.dfy`: the key the combined winner list is made distinct by, and `distinctBy`.
- `session.dfy`: the `SettingsViewModel` class. Its fields are reassigned by methods with field-level `modifies` frames. A ghost field `persisted` records what the last `saveState` wrote.

## Model

| member | source | states |
|---|---|---|
| GameMode.Entries | app/src/main/java/com/alekey/bingo/BingoGameMode.kt:3-60 | exactly eight modes, pairwise distinct, in declaration order |
| GameMode.EntriesComplete | app/src/main/java/com/alekey/bingo/BingoGameMode.kt:3-60 | every mode is among the enumerated entries |
| GameMode.Name | app/src/main/java/com/alekey/bingo/BingoGameMode.kt:3-60 | a mode's name is its constant identifier (TREE, O, CHESS, C, M, DIAMOND, DIAGONALS, BLACKOUT), never empty; it is what storage holds (SettingsViewModel.kt:123) |
| GameMode.Label | app/src/main/java/com/alekey/bingo/BingoGameMode.kt:4-53 | a mode's label is the display string given with its constant, never empty |
| GameMode.Pattern | app/src/main/java/com/alekey/bingo/BingoGameMode.kt:4-59 | every mask has exactly 5 rows of exactly 5 entries, each 0 or 1 |
| GameMode.OnlyBlackoutIsFull | app/src/main/java/com/alekey/bingo/BingoGameMode.kt:4-59 | a mask is all ones if and only if its mode is BLACKOUT |
| GameMode.EveryModeRequiresOffCentreCell | app/src/main/java/com/alekey/bingo/BingoGameMode.kt:4-59 | every mask asks for some cell whose card position is not the free position 12 |
| GameMode.LabelsDistinct | app/src/main/java/com/alekey/bingo/BingoGameMode.kt:4-53 | two modes share a label only if they are the same mode |
| GameMode.NamesDistinct | app/src/main/java/com/alekey/bingo/BingoGameMode.kt:3-60 | two modes share a name only if they are the same mode |
| GameMode.ValueOf | app/src/main/java/com/alekey/bingo/SettingsViewModel.kt:94-95 | a mode is found only for a string that is its name; no mode is found for a string that no mode has as its name (Kotlin throws here) |
| GameMode.ValueOfName | app/src/main/java/com/alekey/bingo/SettingsViewModel.kt:94-97 | looking up a mode's own name gives that mode back, so a stored mode restores as itself |
| GameMode.NameHasNoDash | app/src/main/java/com/alekey/bingo/BingoGameMode.kt:3-60 | no mode name contains '-'; what makes the winner key split uniquely |
| Cards.SlotCoordinates | app/src/main/java/com/alekey/bingo/BingoValidator.kt:23 | a grid cell's position is on the card, determines row and column, and is 12 exactly at the centre |
| Cards.PositionCoordinates | app/src/main/java/com/alekey/bingo/SettingsViewModel.kt:286 | every card position is the position of some grid cell |
| Cards.SlotInjective | app/src/main/java/com/alekey/bingo/SettingsViewModel.kt:286 | distinct grid cells have distinct positions |
| Cards.EmptyNumbers | app/src/main/java/com/alekey/bingo/SettingsViewModel.kt:16 | a new card's numbers are 25 empty slots |
| Cards.NewCard | app/src/main/java/com/alekey/bingo/SettingsViewModel.kt:145-149 | a card created by a count increase has the given number, an empty label and empty slots |
| Validator.ScanFrom | app/src/main/java/com/alekey/bingo/BingoValidator.kt:18-37 | the scan from cell (row, col) onward succeeds if and only if every remaining mask cell is satisfied |
| Validator.ValidateWin | app/src/main/java/com/alekey/bingo/BingoValidator.kt:9-38 | a card wins if and only if every mask cell with a 1, other than position 12, holds a number that has been called |
| Validator.Tagged | app/src/main/java/com/alekey/bingo/BingoValidator.kt:45-49 | filtering and tagging never yields more entries than cards |
| Validator.CheckAllCards | app/src/main/java/com/alekey/bingo/BingoValidator.kt:40-50 | the winner list is never longer than the card list |
| Validator.TaggedMembers | app/src/main/java/com/alekey/bingo/BingoValidator.kt:45-49 | the tagged list holds exactly the kept cards, each tagged with the mode |
| Validator.TaggedAppend | app/src/main/java/com/alekey/bingo/BingoValidator.kt:45-49 | filtering distributes over concatenation, so input order is kept |
| Validator.CheckAllCardsMembers | app/src/main/java/com/alekey/bingo/BingoValidator.kt:40-50 | every entry is a card of the input that wins, tagged with the mode, and every winning card is present |
| Validator.CheckAllCardsAppend | app/src/main/java/com/alekey/bingo/BingoValidator.kt:40-50 | checking a + b gives the winners of a followed by the winners of b |
| Validator.FreeCellExemption | app/src/main/java/com/alekey/bingo/BingoValidator.kt:26-27 | whatever position 12 holds (empty, 0 or another number), the verdict is the same |
| Validator.WinIsMonotonic | app/src/main/java/com/alekey/bingo/BingoValidator.kt:30-32 | a card that wins with called set S also wins with any superset of S |
| Validator.BlackoutWinIff | app/src/main/java/com/alekey/bingo/BingoValidator.kt:18-37 | a card wins BLACKOUT if and only if all 24 non-centre positions hold called numbers |
| Validator.BlackoutNeedsFullCard | app/src/main/java/com/alekey/bingo/BingoValidator.kt:30-31 | a card with an empty non-centre position never wins BLACKOUT |
| Validator.NoWinBeforeCalls | app/src/main/java/com/alekey/bingo/BingoValidator.kt:30-31 | with nothing called, no card wins any mode |
| Validator.NoWinnersBeforeCalls | app/src/main/java/com/alekey/bingo/BingoValidator.kt:40-50 | with nothing called, the winner list is empty |
| CardValidation.ColumnRangeFormula | app/src/main/java/com/alekey/bingo/SettingsViewModel.kt:275-281 | column c accepts exactly 15c+1 .. 15c+15 |
| CardValidation.OtherValuesInColumn | app/src/main/java/com/alekey/bingo/SettingsViewModel.kt:306-310 | the column's values other than at position 12 and the current position, in row order, so at most one per row scanned |
| CardValidation.HasDuplicateInColumn | app/src/main/java/com/alekey/bingo/SettingsViewModel.kt:306-311 | the `contains(value)` test over those values; no contract of its own, characterised by DuplicateMeansColumnMate below |
| CardValidation.OtherValuesMembership | app/src/main/java/com/alekey/bingo/SettingsViewModel.kt:306-311 | the duplicate pipeline yields exactly the values at the non-centre positions of the column other than the current one |
| CardValidation.PositionErrors | app/src/main/java/com/alekey/bingo/SettingsViewModel.kt:289-315 | what one visit of a position reports: nothing at position 12, at most two errors, all carrying that position |
| CardValidation.AddCellErrors | app/src/main/java/com/alekey/bingo/SettingsViewModel.kt:286-315 | one inner-loop step only appends: it keeps the list and adds nothing at position 12 and at most two errors elsewhere |
| CardValidation.AddRowErrors | app/src/main/java/com/alekey/bingo/SettingsViewModel.kt:285-316 | the inner loop over the first columns of a row only appends, at most two errors per column visited, minus the centre in row 2 |
| CardValidation.GridErrors | app/src/main/java/com/alekey/bingo/SettingsViewModel.kt:284-317 | the outer loop over the first rows reports at most two errors per playable cell visited |
| CardValidation.ValidationErrors | app/src/main/java/com/alekey/bingo/SettingsViewModel.kt:270-320 | the whole error list of a buffer: at most 48 errors, two for each of the 24 playable positions |
| CardValidation.ValidateCardNumbers | app/src/main/java/com/alekey/bingo/SettingsViewModel.kt:270-320 | the nested row/column loops produce exactly the specified error list |
| CardValidation.ErrorsAt | app/src/main/java/com/alekey/bingo/SettingsViewModel.kt:270-320 | the errors at one position are exactly the members of the list at that position |
| CardValidation.AddCellErrorsAppends | app/src/main/java/com/alekey/bingo/SettingsViewModel.kt:286-315 | one loop step appends exactly the errors of its own position |
| CardValidation.AddRowErrorsAt | app/src/main/java/com/alekey/bingo/SettingsViewModel.kt:285-316 | after a row's inner loop, each position holds the errors of that position if the loop has visited it, and no errors otherwise |
| CardValidation.PositionErrorsAt | app/src/main/java/com/alekey/bingo/SettingsViewModel.kt:289-315 | a position's errors all carry that position |
| CardValidation.GridErrorsAt | app/src/main/java/com/alekey/bingo/SettingsViewModel.kt:284-317 | after the outer loop's first rows, each position holds the errors of that position if its row has been scanned, and no errors otherwise |
| CardValidation.ErrorsAtPosition | app/src/main/java/com/alekey/bingo/SettingsViewModel.kt:270-320 | the errors reported at a position are exactly that position's own errors |
| CardValidation.PositionErrorsPlaced | app/src/main/java/com/alekey/bingo/SettingsViewModel.kt:289 | no error is ever reported for position 12 or off the card |
| CardValidation.AddCellErrorsInOrder | app/src/main/java/com/alekey/bingo/SettingsViewModel.kt:284-286 | one loop step keeps the list in scan order |
| CardValidation.AddRowErrorsInOrder | app/src/main/java/com/alekey/bingo/SettingsViewModel.kt:285-316 | the inner loop keeps the list in scan order |
| CardValidation.GridErrorsInOrder | app/src/main/java/com/alekey/bingo/SettingsViewModel.kt:284-317 | the outer loop keeps the list in scan order |
| CardValidation.ErrorsInTraversalOrder | app/src/main/java/com/alekey/bingo/SettingsViewModel.kt:284-289 | errors come in row-outer, column-inner order (0, 5, 10, 15, 20, 1, 6, …), and none is at position 12 |
| CardValidation.ErrorMembership | app/src/main/java/com/alekey/bingo/SettingsViewModel.kt:284-317 | an error is reported if and only if its position is playable and it is among that position's own errors |
| CardValidation.DuplicateMeansColumnMate | app/src/main/java/com/alekey/bingo/SettingsViewModel.kt:306-311 | the duplicate test holds if and only if another non-centre position in the same column holds the value |
| CardValidation.EmptyCellIff | app/src/main/java/com/alekey/bingo/SettingsViewModel.kt:293-297 | EmptyCell(p) is reported if and only if p is playable and empty |
| CardValidation.EmptySlotReportedOnce | app/src/main/java/com/alekey/bingo/SettingsViewModel.kt:293-297 | an empty playable position gets exactly one error, EmptyCell |
| CardValidation.InvalidRangeIff | app/src/main/java/com/alekey/bingo/SettingsViewModel.kt:299-303 | InvalidRange(p, v) is reported if and only if playable p holds v outside its column's range |
| CardValidation.DuplicateValueIff | app/src/main/java/com/alekey/bingo/SettingsViewModel.kt:305-315 | DuplicateValue(p, v) is reported if and only if playable p holds v and a column mate holds v too, whatever the range verdict |
| CardValidation.DuplicatePairBothReported | app/src/main/java/com/alekey/bingo/SettingsViewModel.kt:305-315 | both members of an equal pair in a column are reported |
| CardValidation.NoErrorsIffValid | app/src/main/java/com/alekey/bingo/SettingsViewModel.kt:270-320 | no error is reported if and only if every playable position holds a number in its column's range and no two positions in a column hold the same number |
| WinnerLists.Key | app/src/main/java/com/alekey/bingo/SettingsViewModel.kt:228 | the key is the card's label, then '-', then the mode's name |
| WinnerLists.KeyInjective | app/src/main/java/com/alekey/bingo/SettingsViewModel.kt:227-229 | two winners share the key if and only if they share label and mode |
| WinnerLists.DistinctFrom | app/src/main/java/com/alekey/bingo/SettingsViewModel.kt:227-229 | the scan keeps no more entries than it reads, none whose key was already seen, and no two with the same key |
| WinnerLists.DistinctFromKeepsFirst | app/src/main/java/com/alekey/bingo/SettingsViewModel.kt:227-229 | each entry the scan keeps comes from the input with an unseen key, and is the first of its key there |
| WinnerLists.DistinctFromCovers | app/src/main/java/com/alekey/bingo/SettingsViewModel.kt:227-229 | every unseen key of the input is represented in the result |
| WinnerLists.DistinctFromInOrder | app/src/main/java/com/alekey/bingo/SettingsViewModel.kt:227-229 | the scan only drops entries, so what it keeps is a subsequence of its input, in input order |
| WinnerLists.DistinctByKey | app/src/main/java/com/alekey/bingo/SettingsViewModel.kt:227-229 | the combined list is no longer than its input and has no repeated key |
| WinnerLists.DistinctByKeyKeepsFirst | app/src/main/java/com/alekey/bingo/SettingsViewModel.kt:227-229 | the combined list keeps exactly the first winner of each key |
| WinnerLists.DistinctByKeyInOrder | app/src/main/java/com/alekey/bingo/SettingsViewModel.kt:227-229 | the combined list is a subsequence of current-mode winners followed by BLACKOUT winners: kept winners stay in that order |
| WinnerLists.DistinctByKeyNoRepeatedPair | app/src/main/java/com/alekey/bingo/SettingsViewModel.kt:227-229 | no two entries of the combined list share both label and mode |
| WinnerLists.SharedLabelCollapses | app/src/main/java/com/alekey/bingo/SettingsViewModel.kt:227-229 | two different winning cards with the same label in the same mode appear once |
| Session.NewCards | app/src/main/java/com/alekey/bingo/SettingsViewModel.kt:144-150 | the appended cards are new cards numbered size+1 .. n |
| Session.Resize | app/src/main/java/com/alekey/bingo/SettingsViewModel.kt:142-156 | the list gets n cards: the old ones up to n unchanged, then new empty cards numbered by position |
| Session.ResizeWellSized | app/src/main/java/com/alekey/bingo/SettingsViewModel.kt:142-156 | resizing keeps every card at 25 slots |
| Session.ResizeKeepsNumbering | app/src/main/java/com/alekey/bingo/SettingsViewModel.kt:142-156 | resizing keeps the numbering 1, 2, 3, … |
| Session.ResizeTwice | app/src/main/java/com/alekey/bingo/SettingsViewModel.kt:142-156 | a second resize acts as one resize of the original list, unless it brings back cards the first dropped |
| Session.WithCardId | app/src/main/java/com/alekey/bingo/SettingsViewModel.kt:171-174 | only the label of cards with the given number changes; numbers and order are kept |
| Session.CentreFillKeepsValid | app/src/main/java/com/alekey/bingo/SettingsViewModel.kt:252-253 | writing position 12 keeps a valid buffer valid |
| Session.SettingsViewModel.constructor | app/src/main/java/com/alekey/bingo/SettingsViewModel.kt:94-108 | restored fields as given; the buffer holds the selected card's numbers when the index is in range and 25 empty slots otherwise; winners are up to date |
| Session.SettingsViewModel.SaveState | app/src/main/java/com/alekey/bingo/SettingsViewModel.kt:111-130 | storage then holds the count, cards, called set, mode name and selected index |
| Session.SettingsViewModel.UpdateDisplayNumber | app/src/main/java/com/alekey/bingo/SettingsViewModel.kt:132-136 | the field is set; it is in sync if and only if it parses to the current count |
| Session.SettingsViewModel.SyncNumbers | app/src/main/java/com/alekey/bingo/SettingsViewModel.kt:138-167 | an unparsable field changes nothing; otherwise the list is resized to n, the count becomes n, it is in sync, card 0 is selected and loaded when there is one, and storage is written; the winner lists are untouched |
| Session.SettingsViewModel.UpdateCardId | app/src/main/java/com/alekey/bingo/SettingsViewModel.kt:169-176 | only the matching cards' labels change, the unsaved flag is set and storage is written |
| Session.SettingsViewModel.UpdateCardNumber | app/src/main/java/com/alekey/bingo/SettingsViewModel.kt:178-185 | position 12 changes nothing; any other position changes just that buffer slot and sets the unsaved flag |
| Session.SettingsViewModel.SetSelectedCard | app/src/main/java/com/alekey/bingo/SettingsViewModel.kt:187-193 | an out-of-range index changes nothing; otherwise the index is set and the buffer reloaded from that card, and the unsaved flag is untouched |
| Session.SettingsViewModel.SelectNumber | app/src/main/java/com/alekey/bingo/SettingsViewModel.kt:195-199 | the number joins the called set, winners are recomputed, storage is written; calling it again leaves the winner lists as they were |
| Session.SettingsViewModel.DeselectNumber | app/src/main/java/com/alekey/bingo/SettingsViewModel.kt:201-205 | the number leaves the called set, winners are recomputed, storage is written; repeating it leaves the winner lists as they were |
| Session.SettingsViewModel.CheckWinningCards | app/src/main/java/com/alekey/bingo/SettingsViewModel.kt:207-230 | BLACKOUT winners are recomputed; current-mode winners are recomputed unless the mode is BLACKOUT, when they are kept; the combined list is the two made distinct by key |
| Session.SettingsViewModel.HasWonInCurrentMode | app/src/main/java/com/alekey/bingo/SettingsViewModel.kt:232-234 | with winners up to date and a mode other than BLACKOUT: true if and only if some card with this label wins the mode |
| Session.SettingsViewModel.HasWonBlackout | app/src/main/java/com/alekey/bingo/SettingsViewModel.kt:236-238 | with winners up to date: true if and only if some card with this label wins BLACKOUT |
| Session.SettingsViewModel.ResetSelectedNumbers | app/src/main/java/com/alekey/bingo/SettingsViewModel.kt:240-244 | the called set is emptied, winners are recomputed (so no BLACKOUT winner, and no current-mode winner unless the mode is BLACKOUT), storage is written; repeating it changes nothing |
| Session.SettingsViewModel.SaveCardNumbers | app/src/main/java/com/alekey/bingo/SettingsViewModel.kt:246-262 | with the index in range, the selected card's numbers become the buffer with position 12 set to 0, all else kept, and the flag is cleared; storage is written either way |
| Session.SettingsViewModel.TryToSaveCardNumbers | app/src/main/java/com/alekey/bingo/SettingsViewModel.kt:322-328 | returns the validation errors of the buffer; with errors, cards, flag and storage are untouched; without errors, the commit happens and the committed card is valid |
| Session.SettingsViewModel.SetGameMode | app/src/main/java/com/alekey/bingo/SettingsViewModel.kt:264-268 | mode and label change and storage is written under a name that restores to this mode; the winner lists are untouched |

Proof helpers, which model no source line of their own:

- `CardValidation.ErrorsAtAppend`: selecting errors by position distributes over concatenation.
- `CardValidation.AppendInOrder`: appending errors from a later position keeps a list in scan order.
- `WinnerLists.IsSubseq`: one sequence is another with some entries dropped.
- `WinnerLists.FirstOfKeyCons`: an entry first of its key in a tail, behind a head with another key, is first of its key in the whole.

## Left out

- Storage I/O: the SharedPreferences reads and writes and the Gson JSON encoding (SettingsViewModel.kt:74-100 and 111-130) are foreign code. `saveState` becomes the ghost snapshot `persisted`. The constructor receives already-decoded values, and the defaults the reads fall back to (count 0, mode C, index 0) are the caller's choice.
- Session.SettingsViewModel.constructor: it requires a stored count and index that are not negative, every stored card with 25 slots, and a stored mode name that exists. Values written by `saveState` always meet these. A corrupt store would make the app throw or misbehave, and that is not modelled.
- `StateFlow` observation and the `Log.d` call: reactive plumbing and logging, with no effect on state. Each flow is a plain field.
- String parsing in `updateDisplayNumber` and `syncNumbers`: the display field is modelled as the result of `toIntOrNull`, as `Option<int>`. The UI admits only digit strings, so a parsed value is never negative. Digit strings too large for a 32-bit `Int` parse to `None` in the app, and the model takes the parse result as given.
- Session.SettingsViewModel.UpdateCardNumber: requires 0 <= position < 25. The app would throw an index exception otherwise, and that is not modelled.
- Session.SettingsViewModel.HasWonInCurrentMode: the contract speaks only of states whose winners are up to date and whose mode is not BLACKOUT. After `setGameMode` or `syncNumbers` the lists can be stale. In BLACKOUT mode the current-mode list is the one left from the previous mode, so the function answers from stale data.
- `onCleared`: an Android lifecycle hook that only calls `saveState`.
- Cards as values: `BingoCard` is a mutable record, but the core only ever copies it or replaces it in the list. The model therefore treats cards as values and does not capture aliasing.
- Integer width: card numbers, positions and called numbers are `Int` in the app. They are unbounded integers here, and every value the logic handles is far from overflow.
- Compose UI, navigation and build configuration are not part of this model.

## Behaviour worth knowing

- The combined winner list is made distinct by label and mode, not by card. `WinnerLists.SharedLabelCollapses` shows that two different winning cards with the same label in one mode appear only once. Cards start unlabelled, so two unlabelled cards that win together collapse to a single entry. The per-mode lists are unaffected.
- `SyncNumbers` reloads the edit buffer from card 0 without clearing the unsaved flag. `setGameMode` and `syncNumbers` leave the winner lists as they were, until the next called-number operation recomputes them.
