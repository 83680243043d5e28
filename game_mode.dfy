/**
 * The catalog of win patterns: a closed enumeration of eight named 5x5
 * masks, indexed `pattern[row][col]`, where 1 means "this cell must be
 * marked to win".
 */
module GameMode {
  import opened Wrappers
  import opened Cards

  datatype Mode = TREE | O | CHESS | C | M | DIAMOND | DIAGONALS | BLACKOUT

  /** The modes in declaration order, as `values()` enumerates them. */
  function Entries(): (r: seq<Mode>)
    ensures |r| == 8
    ensures forall i, j :: 0 <= i < j < |r| ==> r[i] != r[j]
  {
    [TREE, O, CHESS, C, M, DIAMOND, DIAGONALS, BLACKOUT]
  }

  /** Every mode is enumerated, so the selection list offers all eight. */
  lemma EntriesComplete(m: Mode)
    ensures m in Entries()
  {
    var e := Entries();
    match m
    case TREE => assert e[0] == m;
    case O => assert e[1] == m;
    case CHESS => assert e[2] == m;
    case C => assert e[3] == m;
    case M => assert e[4] == m;
    case DIAMOND => assert e[5] == m;
    case DIAGONALS => assert e[6] == m;
    case BLACKOUT => assert e[7] == m;
  }

  /**
   * The constant's identifier, what `name` and `toString()` give; it is
   * never empty.
   */
  function Name(m: Mode): (r: string)
    ensures |r| > 0
  {
    match m
    case TREE => "TREE"
    case O => "O"
    case CHESS => "CHESS"
    case C => "C"
    case M => "M"
    case DIAMOND => "DIAMOND"
    case DIAGONALS => "DIAGONALS"
    case BLACKOUT => "BLACKOUT"
  }

  /** The label shown to the player; every mode has a non-empty one. */
  function Label(m: Mode): (r: string)
    ensures |r| > 0
  {
    match m
    case TREE => "Árbol"
    case O => "Letra O"
    case CHESS => "Ajedrez"
    case C => "Letra C"
    case M => "Letra M"
    case DIAMOND => "Diamante"
    case DIAGONALS => "Diagonales"
    case BLACKOUT => "Apagón"
  }

  /**
   * `valueOf`: the mode whose name is `s`; None stands for the
   * IllegalArgumentException thrown for any other string.
   */
  function ValueOf(s: string): (r: Option<Mode>)
    ensures r.Some? ==> Name(r.value) == s
    ensures r.None? ==> forall m: Mode :: Name(m) != s
  {
    if s == "TREE" then Some(TREE)
    else if s == "O" then Some(O)
    else if s == "CHESS" then Some(CHESS)
    else if s == "C" then Some(C)
    else if s == "M" then Some(M)
    else if s == "DIAMOND" then Some(DIAMOND)
    else if s == "DIAGONALS" then Some(DIAGONALS)
    else if s == "BLACKOUT" then Some(BLACKOUT)
    else None
  }

  /** The masks, as `BingoGameMode` declares them. */
  const TreeMask: seq<seq<int>> :=
    [[0, 0, 1, 0, 0],
     [0, 1, 1, 1, 0],
     [1, 1, 1, 1, 1],
     [0, 0, 1, 0, 0],
     [0, 0, 1, 0, 0]]
  const OMask: seq<seq<int>> :=
    [[0, 1, 1, 1, 0],
     [1, 0, 0, 0, 1],
     [1, 0, 0, 0, 1],
     [1, 0, 0, 0, 1],
     [0, 1, 1, 1, 0]]
  const ChessMask: seq<seq<int>> :=
    [[1, 0, 1, 0, 1],
     [0, 1, 0, 1, 0],
     [1, 0, 1, 0, 1],
     [0, 1, 0, 1, 0],
     [1, 0, 1, 0, 1]]
  const CMask: seq<seq<int>> :=
    [[1, 1, 1, 1, 1],
     [1, 0, 0, 0, 0],
     [1, 0, 0, 0, 0],
     [1, 0, 0, 0, 0],
     [1, 1, 1, 1, 1]]
  const MMask: seq<seq<int>> :=
    [[1, 1, 1, 1, 1],
     [0, 1, 0, 0, 0],
     [0, 0, 1, 0, 0],
     [0, 1, 0, 0, 0],
     [1, 1, 1, 1, 1]]
  const DiamondMask: seq<seq<int>> :=
    [[0, 0, 1, 0, 0],
     [0, 1, 0, 1, 0],
     [1, 0, 1, 0, 1],
     [0, 1, 0, 1, 0],
     [0, 0, 1, 0, 0]]
  const DiagonalsMask: seq<seq<int>> :=
    [[1, 0, 0, 0, 1],
     [0, 1, 0, 1, 0],
     [0, 0, 1, 0, 0],
     [0, 1, 0, 1, 0],
     [1, 0, 0, 0, 1]]
  const BlackoutMask: seq<seq<int>> :=
    [[1, 1, 1, 1, 1],
     [1, 1, 1, 1, 1],
     [1, 1, 1, 1, 1],
     [1, 1, 1, 1, 1],
     [1, 1, 1, 1, 1]]

  /** The 5x5 mask of a mode, rows first. */
  function Pattern(m: Mode): (p: seq<seq<int>>)
    ensures WellFormed(p)
  {
    match m
    case TREE => TreeMask
    case O => OMask
    case CHESS => ChessMask
    case C => CMask
    case M => MMask
    case DIAMOND => DiamondMask
    case DIAGONALS => DiagonalsMask
    case BLACKOUT => BlackoutMask
  }

  /** Exactly 5 rows of exactly 5 entries, every entry 0 or 1. */
  predicate WellFormed(p: seq<seq<int>>)
  {
    && |p| == 5
    && (forall row :: 0 <= row < 5 ==> |p[row]| == 5)
    && (forall row, col :: 0 <= row < 5 && 0 <= col < 5 ==> p[row][col] == 0 || p[row][col] == 1)
  }

  /** Every cell of the mask is 1. */
  predicate AllOnes(p: seq<seq<int>>)
    requires WellFormed(p)
  {
    forall row, col :: 0 <= row < 5 && 0 <= col < 5 ==> p[row][col] == 1
  }

  /** The mask requires some cell whose card position is not the free centre. */
  predicate RequiresOffCentreCell(p: seq<seq<int>>)
    requires WellFormed(p)
  {
    exists row, col :: 0 <= row < 5 && 0 <= col < 5 && p[row][col] == 1 && Slot(row, col) != FreeCell
  }

  /** BLACKOUT's mask is all ones, and no other mode's mask is. */
  lemma OnlyBlackoutIsFull(m: Mode)
    ensures AllOnes(Pattern(m)) <==> m == BLACKOUT
  {
    var p := Pattern(m);
    match m
    case TREE => assert p[0][0] == 0;
    case O => assert p[0][0] == 0;
    case CHESS => assert p[0][1] == 0;
    case C => assert p[1][1] == 0;
    case M => assert p[1][0] == 0;
    case DIAMOND => assert p[0][0] == 0;
    case DIAGONALS => assert p[0][1] == 0;
    case BLACKOUT =>
  }

  /** Every built-in mask asks for at least one cell besides the centre. */
  lemma EveryModeRequiresOffCentreCell(m: Mode)
    ensures RequiresOffCentreCell(Pattern(m))
  {
    var p := Pattern(m);
    match m
    case TREE => assert p[0][2] == 1;
    case O => assert p[0][1] == 1;
    case CHESS => assert p[0][0] == 1;
    case C => assert p[0][0] == 1;
    case M => assert p[0][0] == 1;
    case DIAMOND => assert p[0][2] == 1;
    case DIAGONALS => assert p[0][0] == 1;
    case BLACKOUT => assert p[0][0] == 1;
  }

  /** No two modes share a label. */
  lemma LabelsDistinct(m1: Mode, m2: Mode)
    ensures Label(m1) == Label(m2) <==> m1 == m2
  {
  }

  /** No two modes share a name. */
  lemma NamesDistinct(m1: Mode, m2: Mode)
    ensures Name(m1) == Name(m2) <==> m1 == m2
  {
  }

  /** A name is an identifier, so it never contains '-'. */
  lemma NameHasNoDash(m: Mode)
    ensures '-' !in Name(m)
  {
  }

  /** Looking a mode up by its own name gives it back: what restoring a saved mode relies on. */
  lemma ValueOfName(m: Mode)
    ensures ValueOf(Name(m)) == Some(m)
  {
  }
}
