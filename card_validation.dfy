/**
 * The card validator: the errors reported for a 25-slot edit buffer before
 * it may be committed to a card. Cells are visited rows outer, columns
 * inner, so positions come in the order 0, 5, 10, 15, 20, 1, 6, ...
 */
module CardValidation {
  import opened Wrappers
  import opened Cards

  datatype ValidationError =
    | EmptyCell(position: int)
    | InvalidRange(position: int, value: int)
    | DuplicateValue(position: int, value: int)

  /** The valid numbers of each column: B 1-15, I 16-30, N 31-45, G 46-60, O 61-75. */
  const ColumnRanges: map<int, (int, int)> :=
    map[0 := (1, 15), 1 := (16, 30), 2 := (31, 45), 3 := (46, 60), 4 := (61, 75)]

  predicate InColumnRange(col: int, value: int)
    requires 0 <= col < 5
  {
    ColumnRanges[col].0 <= value <= ColumnRanges[col].1
  }

  /** Column `col` accepts exactly 15 * col + 1 .. 15 * col + 15. */
  lemma ColumnRangeFormula(col: int, value: int)
    requires 0 <= col < 5
    ensures InColumnRange(col, value) <==> 15 * col + 1 <= value <= 15 * col + 15
  {
  }

  /**
   * The numbers in the first `rows` rows of column `col`, skipping the free
   * centre and `position` itself, in row order.
   */
  function OtherValuesInColumn(numbers: seq<Option<int>>, col: int, position: int, rows: nat): (r: seq<int>)
    requires |numbers| == 25 && 0 <= col < 5 && rows <= 5
    ensures |r| <= rows
  {
    if rows == 0 then []
    else
      var pos := Slot(rows - 1, col);
      OtherValuesInColumn(numbers, col, position, rows - 1)
      + (if pos != FreeCell && pos != position && numbers[pos].Some? then [numbers[pos].value] else [])
  }

  /** The pipeline collects exactly the values of the other non-centre slots of the column. */
  lemma {:induction false} OtherValuesMembership(numbers: seq<Option<int>>, col: int, position: int, rows: nat, v: int)
    requires |numbers| == 25 && 0 <= col < 5 && rows <= 5
    ensures v in OtherValuesInColumn(numbers, col, position, rows) <==>
      exists r :: 0 <= r < rows && Slot(r, col) != FreeCell && Slot(r, col) != position && numbers[Slot(r, col)] == Some(v)
  {
    if rows > 0 {
      OtherValuesMembership(numbers, col, position, rows - 1, v);
    }
  }

  /** Another non-centre slot of the same column holds `value`. */
  predicate HasDuplicateInColumn(numbers: seq<Option<int>>, col: int, position: int, value: int)
    requires |numbers| == 25 && 0 <= col < 5
  {
    value in OtherValuesInColumn(numbers, col, position, 5)
  }

  /** A playable position: on the card and not the free centre. */
  predicate Playable(position: int)
  {
    0 <= position < 25 && position != FreeCell
  }

  /**
   * The errors a position deserves, independently of the scan: none for the
   * free centre; `EmptyCell` alone for an empty slot; otherwise
   * `InvalidRange` when the number is outside its column's range, then
   * `DuplicateValue` when another slot of the column holds it too.
   */
  function PositionErrors(numbers: seq<Option<int>>, position: int): (r: seq<ValidationError>)
    requires |numbers| == 25 && 0 <= position < 25
    ensures |r| <= 2
    ensures forall e :: e in r ==> e.position == position
  {
    if position == FreeCell then []
    else
      match numbers[position]
      case None => [EmptyCell(position)]
      case Some(v) =>
        (if !InColumnRange(position / 5, v) then [InvalidRange(position, v)] else [])
        + (if HasDuplicateInColumn(numbers, position / 5, position, v) then [DuplicateValue(position, v)] else [])
  }

  /** `errs` followed by the errors of grid cell (row, col), appended one at a time as the scan does. */
  function AddCellErrors(errs: seq<ValidationError>, numbers: seq<Option<int>>, row: int, col: int): (r: seq<ValidationError>)
    requires |numbers| == 25 && 0 <= row < 5 && 0 <= col < 5
    ensures |errs| <= |r| <= |errs| + (if Slot(row, col) == FreeCell then 0 else 2)
  {
    var position := Slot(row, col);
    if position == FreeCell then errs
    else if numbers[position].None? then errs + [EmptyCell(position)]
    else
      var v := numbers[position].value;
      var afterRange := if !InColumnRange(col, v) then errs + [InvalidRange(position, v)] else errs;
      if HasDuplicateInColumn(numbers, col, position, v) then afterRange + [DuplicateValue(position, v)] else afterRange
  }

  /** `errs` followed by the errors of the first `cols` cells of row `row`. */
  function AddRowErrors(errs: seq<ValidationError>, numbers: seq<Option<int>>, row: int, cols: nat): (r: seq<ValidationError>)
    requires |numbers| == 25 && 0 <= row < 5 && cols <= 5
    ensures |errs| <= |r| <= |errs| + 2 * cols - (if row == 2 && cols > 2 then 2 else 0)
  {
    if cols == 0 then errs else AddCellErrors(AddRowErrors(errs, numbers, row, cols - 1), numbers, row, cols - 1)
  }

  /** The errors of the first `rows` rows, in visiting order. */
  function GridErrors(numbers: seq<Option<int>>, rows: nat): (r: seq<ValidationError>)
    requires |numbers| == 25 && rows <= 5
    ensures |r| <= 10 * rows - (if rows > 2 then 2 else 0)
  {
    if rows == 0 then [] else AddRowErrors(GridErrors(numbers, rows - 1), numbers, rows - 1, 5)
  }

  /** Everything the validator reports for a buffer, in order: at most two per playable slot. */
  function ValidationErrors(numbers: seq<Option<int>>): (r: seq<ValidationError>)
    requires |numbers| == 25
    ensures |r| <= 48
  {
    GridErrors(numbers, 5)
  }

  /** `validateCardNumbers`, over the edit buffer it reads. */
  method ValidateCardNumbers(numbers: seq<Option<int>>) returns (errors: seq<ValidationError>)
    requires |numbers| == 25
    ensures errors == ValidationErrors(numbers)
  {
    errors := [];
    var row := 0;
    while row < 5
      invariant 0 <= row <= 5
      invariant errors == GridErrors(numbers, row)
    {
      ghost var done := GridErrors(numbers, row);
      var col := 0;
      while col < 5
        invariant 0 <= col <= 5
        invariant errors == AddRowErrors(done, numbers, row, col)
      {
        ghost var before := errors;
        var position := col * 5 + row;
        if position != FreeCell {
          var value := numbers[position];
          if value.None? {
            errors := errors + [EmptyCell(position)];
          } else {
            var v := value.value;
            var validRange := ColumnRanges[col];
            if !(validRange.0 <= v <= validRange.1) {
              errors := errors + [InvalidRange(position, v)];
            }
            if HasDuplicateInColumn(numbers, col, position, v) {
              errors := errors + [DuplicateValue(position, v)];
            }
          }
        }
        assert errors == AddCellErrors(before, numbers, row, col) == AddRowErrors(done, numbers, row, col + 1);
        col := col + 1;
      }
      row := row + 1;
    }
  }

  /** The errors of `errs` about position `p`, in order. */
  function ErrorsAt(errs: seq<ValidationError>, p: int): (r: seq<ValidationError>)
    ensures forall e :: e in r <==> e in errs && e.position == p
  {
    if errs == [] then []
    else (if errs[0].position == p then [errs[0]] else []) + ErrorsAt(errs[1..], p)
  }

  lemma {:induction false} ErrorsAtAppend(a: seq<ValidationError>, b: seq<ValidationError>, p: int)
    ensures ErrorsAt(a + b, p) == ErrorsAt(a, p) + ErrorsAt(b, p)
  {
    if a == [] {
      assert a + b == b;
    } else {
      assert (a + b)[0] == a[0] && (a + b)[1..] == a[1..] + b;
      ErrorsAtAppend(a[1..], b, p);
    }
  }

  /** Visiting a cell appends exactly that position's errors. */
  lemma AddCellErrorsAppends(errs: seq<ValidationError>, numbers: seq<Option<int>>, row: int, col: int)
    requires |numbers| == 25 && 0 <= row < 5 && 0 <= col < 5
    ensures 0 <= Slot(row, col) < 25
    ensures AddCellErrors(errs, numbers, row, col) == errs + PositionErrors(numbers, Slot(row, col))
  {
    SlotCoordinates(row, col);
    var position := Slot(row, col);
    if position != FreeCell && numbers[position].Some? {
      var v := numbers[position].value;
      var rangeErrors := if !InColumnRange(col, v) then [InvalidRange(position, v)] else [];
      var dupErrors := if HasDuplicateInColumn(numbers, col, position, v) then [DuplicateValue(position, v)] else [];
      assert PositionErrors(numbers, position) == rangeErrors + dupErrors;
      assert AddCellErrors(errs, numbers, row, col) == (errs + rangeErrors) + dupErrors;
    }
  }

  /** Row `row`'s cells contribute, at position Slot(r, c), the errors of that position once. */
  lemma {:induction false} AddRowErrorsAt(errs: seq<ValidationError>, numbers: seq<Option<int>>, row: int, cols: nat, r: int, c: int)
    requires |numbers| == 25 && 0 <= row < 5 && cols <= 5 && 0 <= r < 5 && 0 <= c < 5
    ensures 0 <= Slot(r, c) < 25
    ensures ErrorsAt(AddRowErrors(errs, numbers, row, cols), Slot(r, c))
         == ErrorsAt(errs, Slot(r, c)) + if r == row && c < cols then PositionErrors(numbers, Slot(r, c)) else []
  {
    SlotCoordinates(r, c);
    if cols > 0 {
      var before := AddRowErrors(errs, numbers, row, cols - 1);
      var p := Slot(r, c);
      AddRowErrorsAt(errs, numbers, row, cols - 1, r, c);
      AddCellErrorsAppends(before, numbers, row, cols - 1);
      ErrorsAtAppend(before, PositionErrors(numbers, Slot(row, cols - 1)), p);
      SlotInjective(row, cols - 1, r, c);
      PositionErrorsAt(numbers, Slot(row, cols - 1), p);
      var earlier := ErrorsAt(errs, p);
      var q := Slot(row, cols - 1);
      assert AddRowErrors(errs, numbers, row, cols) == before + PositionErrors(numbers, q);
      assert ErrorsAt(AddRowErrors(errs, numbers, row, cols), p) == ErrorsAt(before, p) + ErrorsAt(PositionErrors(numbers, q), p);
      if r == row && c == cols - 1 {
        calc {
          ErrorsAt(AddRowErrors(errs, numbers, row, cols), p);
          ErrorsAt(before, p) + PositionErrors(numbers, p);
          (earlier + []) + PositionErrors(numbers, p);
          { assert earlier + [] == earlier; }
          earlier + PositionErrors(numbers, p);
        }
      } else {
        var mine := if r == row && c < cols - 1 then PositionErrors(numbers, p) else [];
        calc {
          ErrorsAt(AddRowErrors(errs, numbers, row, cols), p);
          ErrorsAt(before, p) + [];
          { assert ErrorsAt(before, p) + [] == ErrorsAt(before, p); }
          earlier + mine;
        }
      }
    }
  }

  /** All errors of a position carry that position. */
  lemma PositionErrorsAt(numbers: seq<Option<int>>, position: int, p: int)
    requires |numbers| == 25 && 0 <= position < 25
    ensures ErrorsAt(PositionErrors(numbers, position), p) == if p == position then PositionErrors(numbers, position) else []
  {
    var pe := PositionErrors(numbers, position);
    if pe != [] {
      if |pe| == 1 {
        assert ErrorsAt(pe, p) == (if pe[0].position == p then [pe[0]] else []) + ErrorsAt([], p);
      } else {
        assert pe[1..] == [pe[1]];
        assert ErrorsAt(pe, p) == (if pe[0].position == p then [pe[0]] else []) + ErrorsAt(pe[1..], p);
        assert ErrorsAt(pe[1..], p) == (if pe[1].position == p then [pe[1]] else []) + ErrorsAt([], p);
      }
    }
  }

  lemma {:induction false} GridErrorsAt(numbers: seq<Option<int>>, rows: nat, r: int, c: int)
    requires |numbers| == 25 && rows <= 5 && 0 <= r < 5 && 0 <= c < 5
    ensures 0 <= Slot(r, c) < 25
    ensures ErrorsAt(GridErrors(numbers, rows), Slot(r, c)) == if r < rows then PositionErrors(numbers, Slot(r, c)) else []
  {
    SlotCoordinates(r, c);
    if rows > 0 {
      GridErrorsAt(numbers, rows - 1, r, c);
      AddRowErrorsAt(GridErrors(numbers, rows - 1), numbers, rows - 1, 5, r, c);
    }
  }

  /** Each position is reported exactly with the errors it deserves, and nowhere else. */
  lemma ErrorsAtPosition(numbers: seq<Option<int>>, position: int)
    requires |numbers| == 25 && 0 <= position < 25
    ensures ErrorsAt(ValidationErrors(numbers), position) == PositionErrors(numbers, position)
  {
    PositionCoordinates(position);
    GridErrorsAt(numbers, 5, position % 5, position / 5);
  }

  /** Every error is about a playable position that the scan reaches before step `k`. */
  ghost predicate WellPlaced(errs: seq<ValidationError>, k: int)
  {
    forall e :: e in errs ==> Playable(e.position) && Rank(e.position) < k
  }

  /** Errors come in scan order: rows outer, columns inner. */
  predicate InTraversalOrder(errs: seq<ValidationError>)
  {
    forall i, j :: 0 <= i < j < |errs| ==> Rank(errs[i].position) <= Rank(errs[j].position)
  }

  lemma PositionErrorsPlaced(numbers: seq<Option<int>>, position: int)
    requires |numbers| == 25 && 0 <= position < 25
    ensures forall e :: e in PositionErrors(numbers, position) ==> e.position == position && Playable(position)
  {
  }

  lemma AppendInOrder(a: seq<ValidationError>, b: seq<ValidationError>, k: int)
    requires InTraversalOrder(a) && WellPlaced(a, k)
    requires forall e :: e in b ==> Playable(e.position) && Rank(e.position) == k
    ensures InTraversalOrder(a + b) && WellPlaced(a + b, k + 1)
  {
    var ab := a + b;
    forall i, j | 0 <= i < j < |ab|
      ensures Rank(ab[i].position) <= Rank(ab[j].position)
    {
      if j < |a| {
        assert ab[i] == a[i] && ab[j] == a[j];
      } else if i < |a| {
        assert ab[i] in a && ab[j] in b;
      } else {
        assert ab[i] in b && ab[j] in b;
      }
    }
  }

  lemma AddCellErrorsInOrder(errs: seq<ValidationError>, numbers: seq<Option<int>>, row: int, col: int)
    requires |numbers| == 25 && 0 <= row < 5 && 0 <= col < 5
    requires InTraversalOrder(errs) && WellPlaced(errs, row * 5 + col)
    ensures InTraversalOrder(AddCellErrors(errs, numbers, row, col))
    ensures WellPlaced(AddCellErrors(errs, numbers, row, col), row * 5 + col + 1)
  {
    SlotCoordinates(row, col);
    AddCellErrorsAppends(errs, numbers, row, col);
    PositionErrorsPlaced(numbers, Slot(row, col));
    AppendInOrder(errs, PositionErrors(numbers, Slot(row, col)), row * 5 + col);
  }

  lemma {:induction false} AddRowErrorsInOrder(errs: seq<ValidationError>, numbers: seq<Option<int>>, row: int, cols: nat)
    requires |numbers| == 25 && 0 <= row < 5 && cols <= 5
    requires InTraversalOrder(errs) && WellPlaced(errs, row * 5)
    ensures InTraversalOrder(AddRowErrors(errs, numbers, row, cols))
    ensures WellPlaced(AddRowErrors(errs, numbers, row, cols), row * 5 + cols)
  {
    if cols > 0 {
      AddRowErrorsInOrder(errs, numbers, row, cols - 1);
      AddCellErrorsInOrder(AddRowErrors(errs, numbers, row, cols - 1), numbers, row, cols - 1);
    }
  }

  lemma {:induction false} GridErrorsInOrder(numbers: seq<Option<int>>, rows: nat)
    requires |numbers| == 25 && rows <= 5
    ensures InTraversalOrder(GridErrors(numbers, rows)) && WellPlaced(GridErrors(numbers, rows), rows * 5)
  {
    if rows > 0 {
      GridErrorsInOrder(numbers, rows - 1);
      AddRowErrorsInOrder(GridErrors(numbers, rows - 1), numbers, rows - 1, 5);
    }
  }

  /**
   * Errors are reported in scan order (positions 0, 5, 10, 15, 20, 1, 6, ...),
   * and only about playable positions: never about the free centre.
   */
  lemma ErrorsInTraversalOrder(numbers: seq<Option<int>>)
    requires |numbers| == 25
    ensures InTraversalOrder(ValidationErrors(numbers))
    ensures forall e :: e in ValidationErrors(numbers) ==> Playable(e.position)
  {
    GridErrorsInOrder(numbers, 5);
  }

  /** An error is reported exactly when its position is playable and deserves it. */
  lemma ErrorMembership(numbers: seq<Option<int>>, e: ValidationError)
    requires |numbers| == 25
    ensures e in ValidationErrors(numbers) <==> Playable(e.position) && e in PositionErrors(numbers, e.position)
  {
    ErrorsInTraversalOrder(numbers);
    if Playable(e.position) {
      ErrorsAtPosition(numbers, e.position);
    }
  }

  /** Another playable slot of the same column holds `value`. */
  ghost predicate ColumnMateHolds(numbers: seq<Option<int>>, position: int, value: int)
    requires |numbers| == 25
  {
    exists q :: Playable(q) && q != position && q / 5 == position / 5 && numbers[q] == Some(value)
  }

  /** The duplicate pipeline finds exactly the column mates. */
  lemma DuplicateMeansColumnMate(numbers: seq<Option<int>>, position: int, value: int)
    requires |numbers| == 25 && 0 <= position < 25
    ensures HasDuplicateInColumn(numbers, position / 5, position, value) <==> ColumnMateHolds(numbers, position, value)
  {
    var col := position / 5;
    OtherValuesMembership(numbers, col, position, 5, value);
    if HasDuplicateInColumn(numbers, col, position, value) {
      var r :| 0 <= r < 5 && Slot(r, col) != FreeCell && Slot(r, col) != position && numbers[Slot(r, col)] == Some(value);
      SlotCoordinates(r, col);
    }
    if ColumnMateHolds(numbers, position, value) {
      var q :| Playable(q) && q != position && q / 5 == col && numbers[q] == Some(value);
      PositionCoordinates(q);
    }
  }

  /** `EmptyCell(p)` is reported exactly for the empty playable slots. */
  lemma EmptyCellIff(numbers: seq<Option<int>>, position: int)
    requires |numbers| == 25
    ensures EmptyCell(position) in ValidationErrors(numbers) <==> Playable(position) && numbers[position].None?
  {
    ErrorMembership(numbers, EmptyCell(position));
  }

  /** An empty playable slot draws one `EmptyCell` and no other error. */
  lemma EmptySlotReportedOnce(numbers: seq<Option<int>>, position: int)
    requires |numbers| == 25 && Playable(position) && numbers[position].None?
    ensures ErrorsAt(ValidationErrors(numbers), position) == [EmptyCell(position)]
  {
    ErrorsAtPosition(numbers, position);
  }

  /** `InvalidRange(p, v)` is reported exactly when playable slot p holds v outside its column's range. */
  lemma InvalidRangeIff(numbers: seq<Option<int>>, position: int, value: int)
    requires |numbers| == 25
    ensures InvalidRange(position, value) in ValidationErrors(numbers) <==>
      Playable(position) && numbers[position] == Some(value) && !InColumnRange(position / 5, value)
  {
    ErrorMembership(numbers, InvalidRange(position, value));
  }

  /**
   * `DuplicateValue(p, v)` is reported exactly when playable slot p holds v
   * and another playable slot of its column holds v too, whether or not v is
   * in range.
   */
  lemma DuplicateValueIff(numbers: seq<Option<int>>, position: int, value: int)
    requires |numbers| == 25
    ensures DuplicateValue(position, value) in ValidationErrors(numbers) <==>
      Playable(position) && numbers[position] == Some(value) && ColumnMateHolds(numbers, position, value)
  {
    ErrorMembership(numbers, DuplicateValue(position, value));
    if Playable(position) {
      DuplicateMeansColumnMate(numbers, position, value);
    }
  }

  /** Both members of an equal pair in a column are reported. */
  lemma DuplicatePairBothReported(numbers: seq<Option<int>>, p: int, q: int, value: int)
    requires |numbers| == 25 && Playable(p) && Playable(q) && p != q && p / 5 == q / 5
    requires numbers[p] == Some(value) && numbers[q] == Some(value)
    ensures DuplicateValue(p, value) in ValidationErrors(numbers)
    ensures DuplicateValue(q, value) in ValidationErrors(numbers)
  {
    DuplicateValueIff(numbers, p, value);
    DuplicateValueIff(numbers, q, value);
  }

  /**
   * A committed card's numbers: every playable slot filled, within its
   * column's range, and different from the other playable slots of its column.
   */
  ghost predicate ValidCardNumbers(numbers: seq<Option<int>>)
    requires |numbers| == 25
  {
    && (forall p :: Playable(p) ==> numbers[p].Some? && InColumnRange(p / 5, numbers[p].value))
    && (forall p, q :: Playable(p) && Playable(q) && p != q && p / 5 == q / 5 ==> numbers[p] != numbers[q])
  }

  /** The validator reports nothing exactly for the buffers that make a valid card. */
  lemma NoErrorsIffValid(numbers: seq<Option<int>>)
    requires |numbers| == 25
    ensures ValidationErrors(numbers) == [] <==> ValidCardNumbers(numbers)
  {
    var errs := ValidationErrors(numbers);
    if errs == [] {
      forall p | Playable(p)
        ensures numbers[p].Some? && InColumnRange(p / 5, numbers[p].value)
      {
        EmptyCellIff(numbers, p);
        if numbers[p].Some? {
          InvalidRangeIff(numbers, p, numbers[p].value);
        }
      }
      forall p, q | Playable(p) && Playable(q) && p != q && p / 5 == q / 5
        ensures numbers[p] != numbers[q]
      {
        EmptyCellIff(numbers, p);
        DuplicateValueIff(numbers, p, numbers[p].value);
      }
    } else {
      var e := errs[0];
      ErrorMembership(numbers, e);
      var p := e.position;
      if numbers[p].Some? {
        DuplicateMeansColumnMate(numbers, p, numbers[p].value);
      }
    }
  }
}
