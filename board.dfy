/** Board representation and move model of the 8-tile slider puzzle.

    A state is the row-major string of the 3x3 board, nine characters long, in
    which 'E' marks the empty cell.  Cells are numbered 1..9 (the source's tile
    positions `one` .. `nine`); index k of the string is cell k + 1. */
module Board {

  type State = seq<char>

  /** GOALSTATE */
  const Goal: State := "12345678E"

  const Blank: char := 'E'

  /** The characters of the goal: the tiles '1' .. '8' and the blank. */
  predicate GoalChar(c: char) {
    c == Blank || '1' <= c <= '8'
  }

  /** No character occurs twice. */
  predicate Distinct<T(==)>(s: seq<T>) {
    forall i, j :: 0 <= i < j < |s| ==> s[i] != s[j]
  }

  /** A board: nine distinct characters of the goal, that is, the goal's
      characters in some order. */
  predicate ValidState(s: State) {
    |s| == 9 && (forall k :: 0 <= k < |s| ==> GoalChar(s[k])) && Distinct(s)
  }

  /** Every character of a valid state is one of the goal's characters. */
  lemma ValidChars(s: State, k: int)
    requires ValidState(s) && 0 <= k < 9
    ensures s[k] in Goal
  {
    var c := s[k];
    assert GoalChar(c);
    if c != Blank {
      var d := (c as int) - ('1' as int);
      assert 0 <= d < 8 && Goal[d] == c;
    } else {
      assert Goal[8] == c;
    }
  }

  /** A valid state holds exactly one blank: every other cell is a tile. */
  lemma OneBlank(s: State, b: int)
    requires ValidState(s) && 0 <= b < 9 && s[b] == Blank
    ensures forall k :: 0 <= k < 9 && k != b ==> s[k] != Blank
  {
    forall k | 0 <= k < 9 && k != b ensures s[k] != Blank {
      if k < b {
        assert s[k] != s[b];
      } else {
        assert s[b] != s[k];
      }
    }
  }

  /** A valid state holds a blank: nine distinct characters cannot all be
      among the eight tiles. */
  lemma BlankExists(s: State)
    requires ValidState(s)
    ensures exists k :: 0 <= k < 9 && s[k] == Blank
  {
    if forall k :: 0 <= k < 9 ==> s[k] != Blank {
      var v := seq(9, k requires 0 <= k < 9 => s[k] as int);
      Pigeonhole(v, '1' as int, '9' as int);
      assert false;
    }
  }

  /** n distinct integers drawn from [lo, hi) number at most hi - lo: drop
      the last one and close the gap it leaves in the range. */
  lemma {:induction false} Pigeonhole(v: seq<int>, lo: int, hi: int)
    requires lo <= hi
    requires forall k :: 0 <= k < |v| ==> lo <= v[k] < hi
    requires Distinct(v)
    ensures |v| <= hi - lo
    decreases |v|
  {
    if |v| > 0 {
      var n := |v| - 1;
      var x := v[n];
      var w := seq(n, k requires 0 <= k < n => if v[k] > x then v[k] - 1 else v[k]);
      forall k | 0 <= k < n ensures lo <= w[k] < hi - 1 {
        assert v[k] != v[n];
      }
      forall a, b | 0 <= a < b < n ensures w[a] != w[b] {
        assert v[a] != v[b];
      }
      Pigeonhole(w, lo, hi - 1);
    }
  }

  // ---------------------------------------------------------------------------
  // Cell coordinates

  /** The source's `Point`: x is the row, y the column of the 3x3 grid. */
  datatype Point = Point(x: int, y: int)

  /** Row-major string index of a grid point. */
  function Index(pt: Point): int {
    3 * pt.x + pt.y
  }

  function Row(cell: int): int { (cell - 1) / 3 }
  function Col(cell: int): int { (cell - 1) % 3 }

  function Abs(n: int): nat { if n < 0 then -n else n }

  /** Cells p and q (1..9) share an edge of the board. */
  predicate Adjacent(p: int, q: int) {
    1 <= p <= 9 && 1 <= q <= 9 && Abs(Row(p) - Row(q)) + Abs(Col(p) - Col(q)) == 1
  }

  /** Adjacency in terms of cell numbers: left/right neighbours in one row, or
      up/down neighbours three cells apart. */
  lemma AdjacentIff(p: int, q: int)
    requires 1 <= p <= 9 && 1 <= q <= 9
    ensures Adjacent(p, q) <==>
      (q == p + 1 && p % 3 != 0) || (p == q + 1 && q % 3 != 0) || q == p + 3 || p == q + 3
  {
  }

  /** The constant points one = {0, 0}, two = {0, 1} .. nine = {2, 2} through
      which the swap functions address cells, row by row. */
  function CellPoint(cell: int): (pt: Point)
    requires 1 <= cell <= 9
    ensures 0 <= pt.x < 3 && 0 <= pt.y < 3 && Index(pt) == cell - 1
  {
    if cell <= 3 then Point(0, cell - 1)
    else if cell <= 6 then Point(1, cell - 4)
    else Point(2, cell - 7)
  }

  /** A grid point inside the board is read at exactly one string index. */
  lemma SameCell(k: int, pt: Point)
    requires 0 <= k < 9 && 0 <= pt.x < 3 && 0 <= pt.y < 3
    ensures (k / 3 == pt.x && k % 3 == pt.y) <==> k == Index(pt)
  {
  }

  /** A grid point is read at the string index whose row and column it is. */
  lemma PointIndex(pt: Point)
    requires 0 <= pt.x < 3 && 0 <= pt.y < 3
    ensures 0 <= Index(pt) < 9 && Index(pt) / 3 == pt.x && Index(pt) % 3 == pt.y
  {
  }

  // ---------------------------------------------------------------------------
  // Swaps

  /** `s` with the characters at indices i and j exchanged. */
  function Exchange(s: State, i: int, j: int): (r: State)
    requires 0 <= i < |s| && 0 <= j < |s|
    ensures |r| == |s|
  {
    s[i := s[j]][j := s[i]]
  }

  /** The twelve cell-swap functions oneTwo .. eightNine; each exchanges the
      cells Lo() and Hi(). */
  datatype SwapFn =
    | OneTwo | OneFour | TwoThree | TwoFive | ThreeSix | FourSeven
    | FourFive | FiveEight | FiveSix | SixNine | SevenEight | EightNine
  {
    /** The cell whose character is saved in `temp`. */
    function Lo(): (r: int)
      ensures 1 <= r <= 8
    {
      match this
      case OneTwo => 1 case OneFour => 1 case TwoThree => 2 case TwoFive => 2
      case ThreeSix => 3 case FourSeven => 4 case FourFive => 4 case FiveEight => 5
      case FiveSix => 5 case SixNine => 6 case SevenEight => 7 case EightNine => 8
    }

    /** The cell it is exchanged with. */
    function Hi(): (r: int)
      ensures Lo() < r <= 9
    {
      match this
      case OneTwo => 2 case OneFour => 4 case TwoThree => 3 case TwoFive => 5
      case ThreeSix => 6 case FourSeven => 7 case FourFive => 5 case FiveEight => 8
      case FiveSix => 6 case SixNine => 9 case SevenEight => 8 case EightNine => 9
    }
  }

  /** Every swap function exchanges two distinct, adjacent cells of the board. */
  lemma SwapCellsAdjacent(sw: SwapFn)
    ensures 1 <= sw.Lo() < sw.Hi() <= 9 && Adjacent(sw.Lo(), sw.Hi())
  {
    AdjacentIff(sw.Lo(), sw.Hi());
  }

  /** A swap exchanges exactly its two cells and leaves the other seven alone. */
  lemma ExchangeCells(s: State, i: int, j: int)
    requires 0 <= i < |s| && 0 <= j < |s|
    ensures Exchange(s, i, j)[i] == s[j] && Exchange(s, i, j)[j] == s[i]
    ensures forall k :: 0 <= k < |s| && k != i && k != j ==> Exchange(s, i, j)[k] == s[k]
  {
  }

  /** A swap keeps the multiset of characters. */
  lemma ExchangePermutes(s: State, i: int, j: int)
    requires 0 <= i < |s| && 0 <= j < |s|
    ensures multiset(Exchange(s, i, j)) == multiset(s)
  {
    var t := s[i := s[j]];
    assert multiset(t) == multiset(s) - multiset{s[i]} + multiset{s[j]};
    assert multiset(t[j := s[i]]) == multiset(t) - multiset{t[j]} + multiset{s[i]};
  }

  /** A swap of a valid state is a valid state. */
  lemma ExchangeKeepsValid(s: State, i: int, j: int)
    requires ValidState(s) && 0 <= i < 9 && 0 <= j < 9
    ensures ValidState(Exchange(s, i, j))
  {
    var r := Exchange(s, i, j);
    ExchangeCells(s, i, j);
    forall a, b | 0 <= a < b < |r| ensures r[a] != r[b] {
      var a' := if a == i then j else if a == j then i else a;
      var b' := if b == i then j else if b == j then i else b;
      assert r[a] == s[a'] && r[b] == s[b'];
      if a' < b' {
        assert s[a'] != s[b'];
      } else {
        assert s[b'] != s[a'];
      }
    }
  }

  /** Applying the same swap twice restores the board. */
  lemma ExchangeInvolution(s: State, i: int, j: int)
    requires 0 <= i < |s| && 0 <= j < |s|
    ensures Exchange(Exchange(s, i, j), i, j) == s
  {
  }

  // ---------------------------------------------------------------------------
  // The 3x3 character grid

  /** s is the row-major reading of the 3x3 grid g: index k holds the cell at
      row k / 3, column k % 3. */
  ghost predicate Flattens<T>(s: seq<T>, g: array2<T>)
    reads g
  {
    && g.Length0 == 3 && g.Length1 == 3 && |s| == 9
    && forall k :: 0 <= k < 9 ==> s[k] == g[k / 3, k % 3]
  }

  /** A grid has only one row-major reading. */
  lemma FlattensUnique<T>(s: seq<T>, t: seq<T>, g: array2<T>)
    requires Flattens(s, g) && Flattens(t, g)
    ensures s == t
  {
  }

  /** populatePuzzle / populateIntPuzzle: copy a nine-element row-major
      sequence into the grid, row by row. */
  method Populate<T>(src: seq<T>, grid: array2<T>)
    requires |src| == 9 && grid.Length0 == 3 && grid.Length1 == 3
    modifies grid
    ensures Flattens(src, grid)
  {
    var count := 0;
    for i := 0 to 3
      invariant count == 3 * i
      invariant forall a, b :: 0 <= a < i && 0 <= b < 3 ==> grid[a, b] == src[3 * a + b]
    {
      for j := 0 to 3
        invariant count == 3 * i + j
        invariant forall a, b :: 0 <= a < i && 0 <= b < 3 ==> grid[a, b] == src[3 * a + b]
        invariant forall b :: 0 <= b < j ==> grid[i, b] == src[3 * i + b]
      {
        grid[i, j] := src[count];
        count := count + 1;
      }
    }
    forall k | 0 <= k < 9 ensures src[k] == grid[k / 3, k % 3] {
      assert k == 3 * (k / 3) + k % 3;
    }
  }

  /** puzzleState (and the row-major reading of the grid that isSolvable's cast
      performs): the grid's cells concatenated row by row. */
  method PuzzleState<T>(puzzle: array2<T>) returns (state: seq<T>)
    requires puzzle.Length0 == 3 && puzzle.Length1 == 3
    ensures Flattens(state, puzzle)
  {
    state := [];
    for i := 0 to 3
      invariant |state| == 3 * i
      invariant forall a, b :: 0 <= a < i && 0 <= b < 3 ==> state[3 * a + b] == puzzle[a, b]
    {
      for j := 0 to 3
        invariant |state| == 3 * i + j
        invariant forall a, b :: 0 <= a < i && 0 <= b < 3 ==> state[3 * a + b] == puzzle[a, b]
        invariant forall b :: 0 <= b < j ==> state[3 * i + b] == puzzle[i, b]
      {
        state := state + [puzzle[i, j]];
      }
    }
    forall k | 0 <= k < 9 ensures state[k] == puzzle[k / 3, k % 3] {
      assert k == 3 * (k / 3) + k % 3;
    }
  }

  /** The temp / first / second exchange every swap function performs on
      cells lo and hi, addressed through their constant points. */
  method ExchangeInGrid(puzzle: array2<char>, lo: int, hi: int, ghost before: State)
    requires Flattens(before, puzzle) && 1 <= lo <= 9 && 1 <= hi <= 9
    modifies puzzle
    ensures Flattens(Exchange(before, lo - 1, hi - 1), puzzle)
  {
    var first, second := CellPoint(lo), CellPoint(hi);
    PointIndex(first);
    PointIndex(second);
    var temp := puzzle[first.x, first.y];
    puzzle[first.x, first.y] := puzzle[second.x, second.y];
    puzzle[second.x, second.y] := temp;
    ghost var after := Exchange(before, lo - 1, hi - 1);
    forall k | 0 <= k < 9 ensures after[k] == puzzle[k / 3, k % 3] {
      SameCell(k, first);
      SameCell(k, second);
    }
  }

  /** One of the twelve swap functions: exchange its two cells of the grid in
      place and return the resulting state.  `before` is the grid's reading
      on entry. */
  method ApplySwap(puzzle: array2<char>, sw: SwapFn, ghost before: State) returns (tempState: State)
    requires Flattens(before, puzzle)
    modifies puzzle
    ensures Flattens(tempState, puzzle)
    ensures tempState == Exchange(before, sw.Lo() - 1, sw.Hi() - 1)
  {
    SwapCellsAdjacent(sw);
    ExchangeInGrid(puzzle, sw.Lo(), sw.Hi(), before);
    tempState := PuzzleState(puzzle);
    FlattensUnique(tempState, Exchange(before, sw.Lo() - 1, sw.Hi() - 1), puzzle);
  }

  /** The first two steps of each move a tileX routine tries: lay the state
      out on a fresh grid with populatePuzzle and call the swap function. */
  method SwapOnGrid(workingState: State, sw: SwapFn) returns (tempState: State)
    requires |workingState| == 9
    ensures tempState == Exchange(workingState, sw.Lo() - 1, sw.Hi() - 1)
  {
    var tempPuzzle := new char[3, 3];
    Populate(workingState, tempPuzzle);
    tempState := ApplySwap(tempPuzzle, sw, workingState);
  }

  /** populatePuzzle followed by puzzleState gives back the string it started
      from. */
  method FlattenRoundTrip(s: State) returns (t: State)
    requires |s| == 9
    ensures t == s
  {
    var grid := new char[3, 3];
    Populate(s, grid);
    t := PuzzleState(grid);
    FlattensUnique(s, t, grid);
  }

  // ---------------------------------------------------------------------------
  // Moves of the blank

  /** One expansion step of a tileX routine: the swap it calls, the cell the
      blank moves to and the path descriptor it records. */
  datatype Move = Move(swap: SwapFn, target: int, descriptor: string)

  /** The moves tried by tileOne .. tileNine for a blank at cell p, in the
      order the routines try them. */
  function MoveTable(p: int): (ms: seq<Move>)
    requires 1 <= p <= 9
    ensures |ms| == NeighbourCount(p)
    ensures forall a, b :: 0 <= a < b < |ms| ==> ms[a].target != ms[b].target
  {
    match p
    case 1 => [Move(OneTwo, 2, "1 to 2,"), Move(OneFour, 4, "1 to 4,")]
    case 2 => [Move(TwoThree, 3, "2 to 3,"), Move(TwoFive, 5, "2 to 5,"), Move(OneTwo, 1, "2 to 1,")]
    case 3 => [Move(ThreeSix, 6, "3 to 6,"), Move(TwoThree, 2, "3 to 2,")]
    case 4 => [Move(FourFive, 5, "4 to 5,"), Move(FourSeven, 7, "4 to 7,"), Move(OneFour, 1, "4 to 1,")]
    case 5 => [Move(FiveSix, 6, "5 to 6,"), Move(FiveEight, 8, "5 to 8,"),
               Move(FourFive, 4, "5 to 4,"), Move(TwoFive, 2, "5 to 2,")]
    case 6 => [Move(SixNine, 9, "6 to 9,"), Move(FiveSix, 5, "6 to 5,"), Move(ThreeSix, 3, "6 to 3,")]
    case 7 => [Move(SevenEight, 8, "7 to 8,"), Move(FourSeven, 4, "7 to 4,")]
    case 8 => [Move(EightNine, 9, "8 to 9,"), Move(SevenEight, 7, "8 to 7,"), Move(FiveEight, 5, "8 to 5,")]
    case 9 => [Move(EightNine, 8, "9 to 8,"), Move(SixNine, 6, "9 to 6,")]
  }

  function DigitChar(d: int): char
    requires 0 <= d <= 9
  {
    (('0' as int) + d) as char
  }

  /** The descriptor "p to q," of a move of the blank from cell p to cell q. */
  function Descriptor(p: int, q: int): string
    requires 1 <= p <= 9 && 1 <= q <= 9
  {
    [DigitChar(p), ' ', 't', 'o', ' ', DigitChar(q), ',']
  }

  /** A move that is legal for a blank at p: the swap connects p with its
      target, the target is an orthogonal neighbour and the descriptor names both. */
  predicate MoveFrom(p: int, m: Move)
    requires 1 <= p <= 9
  {
    && Adjacent(p, m.target)
    && ((m.swap.Lo() == p && m.swap.Hi() == m.target) || (m.swap.Lo() == m.target && m.swap.Hi() == p))
    && m.descriptor == Descriptor(p, m.target)
  }

  /** The number of orthogonal neighbours of a cell: 2 at a corner, 3 on an
      edge, 4 at the centre. */
  function NeighbourCount(p: int): nat {
    if p in {1, 3, 7, 9} then 2 else if p == 5 then 4 else 3
  }

  /** The move table of tileOne .. tileNine covers the cell's neighbourhood
      exactly: every move is a legal swap with an orthogonal neighbour,
      labelled "p to q,", and every neighbour of p is tried. */
  lemma MoveTableSound(p: int)
    requires 1 <= p <= 9
    ensures forall m :: m in MoveTable(p) ==> MoveFrom(p, m)
    ensures forall q :: Adjacent(p, q) ==> exists m :: m in MoveTable(p) && m.target == q
  {
    TableLegal(p);
    forall q | Adjacent(p, q) ensures exists m :: m in MoveTable(p) && m.target == q {
      NeighbourInTable(p, q);
    }
  }

  lemma MoveLegal(p: int, i: int)
    requires 1 <= p <= 9 && 0 <= i < |MoveTable(p)|
    ensures MoveFrom(p, MoveTable(p)[i])
  {
    TableTargetAdjacent(p, i);
    TableSwapConnects(p, i);
    TableDescriptor(p, i);
  }

  /** Every move of a routine is legal for its cell. */
  lemma TableLegal(p: int)
    requires 1 <= p <= 9
    ensures forall m :: m in MoveTable(p) ==> MoveFrom(p, m)
  {
    forall m | m in MoveTable(p) ensures MoveFrom(p, m) {
      var i :| 0 <= i < |MoveTable(p)| && MoveTable(p)[i] == m;
      MoveLegal(p, i);
    }
  }

  lemma TableTargetAdjacent(p: int, i: int)
    requires 1 <= p <= 9 && 0 <= i < |MoveTable(p)|
    ensures Adjacent(p, MoveTable(p)[i].target)
  {
    var m := MoveTable(p)[i];
    assert 1 <= m.target <= 9;
    AdjacentIff(p, m.target);
  }

  lemma TableSwapConnects(p: int, i: int)
    requires 1 <= p <= 9 && 0 <= i < |MoveTable(p)|
    ensures var m := MoveTable(p)[i];
      (m.swap.Lo() == p && m.swap.Hi() == m.target) || (m.swap.Lo() == m.target && m.swap.Hi() == p)
  {
  }

  lemma TableDescriptor(p: int, i: int)
    requires 1 <= p <= 9 && 0 <= i < |MoveTable(p)|
    ensures 1 <= MoveTable(p)[i].target <= 9
    ensures MoveTable(p)[i].descriptor == Descriptor(p, MoveTable(p)[i].target)
  {
  }

  lemma NeighbourInTable(p: int, q: int)
    requires Adjacent(p, q)
    ensures exists m :: m in MoveTable(p) && m.target == q
  {
    AdjacentIff(p, q);
    var t := MoveTable(p);
    if p == 1 { assert t[0].target == 2 && t[1].target == 4; }
    else if p == 2 { assert t[0].target == 3 && t[1].target == 5 && t[2].target == 1; }
    else if p == 3 { assert t[0].target == 6 && t[1].target == 2; }
    else if p == 4 { assert t[0].target == 5 && t[1].target == 7 && t[2].target == 1; }
    else if p == 5 { assert t[0].target == 6 && t[1].target == 8 && t[2].target == 4 && t[3].target == 2; }
    else if p == 6 { assert t[0].target == 9 && t[1].target == 5 && t[2].target == 3; }
    else if p == 7 { assert t[0].target == 8 && t[1].target == 4; }
    else if p == 8 { assert t[0].target == 9 && t[1].target == 7 && t[2].target == 5; }
    else { assert t[0].target == 8 && t[1].target == 6; }
  }

  /** The state a move produces from state s. */
  function Child(s: State, m: Move): (r: State)
    requires |s| == 9
  {
    Exchange(s, m.swap.Lo() - 1, m.swap.Hi() - 1)
  }

  /** Moving the blank from p along a legal move (every entry of the table is
      one) yields a valid state whose blank sits at the move's target and whose
      tile from the target now sits at p; nothing else moves. */
  lemma ChildMovesBlank(s: State, p: int, m: Move)
    requires ValidState(s) && 1 <= p <= 9 && s[p - 1] == Blank && MoveFrom(p, m)
    ensures ValidState(Child(s, m))
    ensures Child(s, m)[m.target - 1] == Blank && Child(s, m)[p - 1] == s[m.target - 1]
    ensures forall k :: 0 <= k < 9 && k != p - 1 && k != m.target - 1 ==> Child(s, m)[k] == s[k]
  {
    var lo, hi := m.swap.Lo() - 1, m.swap.Hi() - 1;
    SwapCellsAdjacent(m.swap);
    ExchangeCells(s, lo, hi);
    ExchangeKeepsValid(s, lo, hi);
  }
}
