/** The two A* heuristics: the number of misplaced tiles and the sum of the
    tiles' Manhattan distances from their goal cells. */
module Heuristics {
  import opened Board
  import opened Solvability

  // ---------------------------------------------------------------------------
  // Facts about valid boards

  /** Every tile of a valid board is a digit 1..8, and it is in its goal cell
      exactly when its value is one more than the cell's index. */
  lemma TileDigit(s: State, k: int)
    requires ValidState(s) && 0 <= k < 9 && s[k] != Blank
    ensures 1 <= TileValue(s[k]) <= 8
    ensures s[k] == Goal[k] <==> TileValue(s[k]) == k + 1
  {
    ValidChars(s, k);
  }

  /** A valid board whose tiles are all in their goal cells is the goal: the
      blank has nowhere left to be but the last cell. */
  lemma TilesHomeIsGoal(s: State)
    requires ValidState(s)
    requires forall k :: 0 <= k < 9 && s[k] != Blank ==> s[k] == Goal[k]
    ensures s == Goal
  {
    assert s[8] == Blank;
    OneBlank(s, 8);
  }

  // ---------------------------------------------------------------------------
  // Misplaced tiles

  /** How many of the first n cells differ from the goal, blank included. */
  function Mismatches(s: State, n: int): nat
    requires 0 <= n <= |s| && n <= 9
  {
    if n == 0 then 0 else Mismatches(s, n - 1) + (if s[n - 1] != Goal[n - 1] then 1 else 0)
  }

  /** How many of the first n cells hold a tile that is not in its goal cell. */
  function OutOfPlace(s: State, n: int): nat
    requires 0 <= n <= |s| && n <= 9
  {
    if n == 0 then 0
    else OutOfPlace(s, n - 1) + (if s[n - 1] != Blank && s[n - 1] != Goal[n - 1] then 1 else 0)
  }

  /** The misplaced-tiles heuristic: how many of the first length - 1 = 8
      cells differ from the goal. */
  function Misplaced(s: State): nat
    requires |s| == 9
  {
    Mismatches(s, |s| - 1)
  }

  /** misplacedTiles: the loop over the first length - 1 cells. */
  method MisplacedTiles(state: State) returns (tiles: int)
    requires |state| == 9
    ensures tiles == Misplaced(state)
  {
    tiles := 0;
    for i := 0 to |state| - 1
      invariant tiles == Mismatches(state, i)
    {
      if state[i] != Goal[i] {
        tiles := tiles + 1;
      }
    }
  }

  /** Skipping the last cell makes misplacedTiles count exactly the tiles out
      of place: a blank in cells 1..8 is miscounted as misplaced, but then the
      unread ninth cell holds a misplaced tile, and the two cancel. */
  lemma MisplacedCountsTiles(s: State)
    requires ValidState(s)
    ensures Misplaced(s) == OutOfPlace(s, |s|)
  {
    BlankExists(s);
    var b :| 0 <= b < 9 && s[b] == Blank;
    OneBlank(s, b);
    MismatchesSplit(s, 8, b);
  }

  lemma {:induction false} MismatchesSplit(s: State, n: int, b: int)
    requires ValidState(s) && 0 <= n <= 8 && 0 <= b < 9 && s[b] == Blank
    requires forall k :: 0 <= k < 9 && k != b ==> s[k] != Blank
    ensures Mismatches(s, n) == OutOfPlace(s, n) + (if b < n then 1 else 0)
  {
    if n > 0 {
      MismatchesSplit(s, n - 1, b);
    }
  }

  /** Mismatches vanish exactly when the compared cells all agree with the goal. */
  lemma {:induction false} MismatchesZero(s: State, n: int)
    requires 0 <= n <= |s| && n <= 9
    ensures Mismatches(s, n) == 0 <==> forall k :: 0 <= k < n ==> s[k] == Goal[k]
  {
    if n > 0 {
      MismatchesZero(s, n - 1);
    }
  }

  /** The misplaced-tiles heuristic is zero on the goal and only there. */
  lemma MisplacedZeroIffGoal(s: State)
    requires ValidState(s)
    ensures Misplaced(s) == 0 <==> s == Goal
  {
    MismatchesZero(s, |s| - 1);
    if Misplaced(s) == 0 {
      BlankExists(s);
      var b :| 0 <= b < 9 && s[b] == Blank;
      assert b == 8;
      assert forall k :: 0 <= k < 9 ==> s[k] == Goal[k];
    }
  }

  // ---------------------------------------------------------------------------
  // Manhattan distance

  /** The Manhattan distance of tile v, found at string index k, from its goal
      cell at row (v - 1) / 3, column (v - 1) % 3. */
  function TileDistance(k: int, v: int): nat {
    Abs(k / 3 - (v - 1) / 3) + Abs(k % 3 - (v - 1) % 3)
  }

  /** The summed distance of the tiles (non-zero values) in the first n cells. */
  function ManhattanSum(v: seq<int>, n: int): nat
    requires 0 <= n <= |v|
  {
    if n == 0 then 0
    else ManhattanSum(v, n - 1) + (if v[n - 1] != 0 then TileDistance(n - 1, v[n - 1]) else 0)
  }

  /** The Manhattan heuristic of a board. */
  function Manhattan(s: State): nat
    requires |s| == 9
  {
    ManhattanSum(TileValues(s), |s|)
  }

  /** manhattanDistance: the board is turned into digits by stringToInt, laid
      out on an integer grid and every non-zero cell adds its tile's distance. */
  method ManhattanDistance(state: State) returns (mDis: int)
    requires ValidState(state)
    ensures mDis == Manhattan(state)
  {
    forall k | 0 <= k < 9 ensures IsTileChar(state[k]) {
      ValidChars(state, k);
    }
    var intArray := new int[9];
    StringToInt(state, intArray);
    var intPuzzle := new int[3, 3];
    Populate(intArray[..], intPuzzle);
    forall i, j | 0 <= i < 3 && 0 <= j < 3 ensures intPuzzle[i, j] == TileValues(state)[3 * i + j] {
      GridCell(TileValues(state), intPuzzle, i, j);
    }
    mDis := GridDistance(intPuzzle, TileValues(state));
  }

  /** The double loop of manhattanDistance over the integer grid, whose cell
      (i, j) holds entry 3 * i + j of v.  The entries are digits, never
      negative, so the division and remainder here agree with the
      truncating ones of the source. */
  method GridDistance(intPuzzle: array2<int>, ghost v: seq<int>) returns (mDis: int)
    requires intPuzzle.Length0 == 3 && intPuzzle.Length1 == 3 && |v| == 9
    requires forall i, j :: 0 <= i < 3 && 0 <= j < 3 ==> intPuzzle[i, j] == v[3 * i + j]
    requires forall k :: 0 <= k < 9 ==> 0 <= v[k]
    ensures mDis == ManhattanSum(v, |v|)
  {
    mDis := 0;
    for i := 0 to 3
      invariant mDis == ManhattanSum(v, 3 * i)
    {
      for j := 0 to 3
        invariant mDis == ManhattanSum(v, 3 * i + j)
      {
        var value := intPuzzle[i, j];
        CellTerm(v, i, j);
        if value != 0 {
          var temp, goal := Point(i, j), Point((value - 1) / 3, (value - 1) % 3);
          mDis := mDis + Abs(temp.x - goal.x) + Abs(temp.y - goal.y);
        }
        assert mDis == ManhattanSum(v, 3 * i + j + 1);
      }
    }
  }

  /** Grid cell (i, j) holds entry 3 * i + j of the row-major reading. */
  lemma GridCell(v: seq<int>, g: array2<int>, i: int, j: int)
    requires Flattens(v, g) && 0 <= i < 3 && 0 <= j < 3
    ensures g[i, j] == v[3 * i + j]
  {
    var k := 3 * i + j;
    assert k / 3 == i && k % 3 == j;
  }

  /** Grid cell (i, j) is the sum's term number 3 * i + j. */
  lemma CellTerm(v: seq<int>, i: int, j: int)
    requires |v| == 9 && 0 <= i < 3 && 0 <= j < 3
    ensures ManhattanSum(v, 3 * i + j + 1) == ManhattanSum(v, 3 * i + j)
      + (if v[3 * i + j] != 0
         then Abs(i - (v[3 * i + j] - 1) / 3) + Abs(j - (v[3 * i + j] - 1) % 3)
         else 0)
  {
    assert (3 * i + j) / 3 == i && (3 * i + j) % 3 == j;
  }

  /** A tile contributes nothing exactly when it sits in its own goal cell. */
  lemma TileDistanceZero(k: int, v: int)
    requires 0 <= k < 9 && 1 <= v <= 9
    ensures TileDistance(k, v) == 0 <==> v == k + 1
  {
    SameCell(k, Point((v - 1) / 3, (v - 1) % 3));
  }

  /** Each tile out of place is at least one step from home, so the Manhattan
      heuristic is never below the number of tiles out of place. */
  lemma {:induction false} OutOfPlaceBelowManhattan(s: State, n: int)
    requires ValidState(s) && 0 <= n <= 9
    ensures OutOfPlace(s, n) <= ManhattanSum(TileValues(s), n)
  {
    if n > 0 {
      OutOfPlaceBelowManhattan(s, n - 1);
      var k := n - 1;
      if s[k] != Blank {
        TileDigit(s, k);
        TileDistanceZero(k, TileValue(s[k]));
      }
    }
  }

  /** The two heuristics are ordered: misplacedTiles <= manhattanDistance. */
  lemma MisplacedBelowManhattan(s: State)
    requires ValidState(s)
    ensures Misplaced(s) <= Manhattan(s)
  {
    MisplacedCountsTiles(s);
    OutOfPlaceBelowManhattan(s, |s|);
  }

  /** When the Manhattan sum of the first n cells is zero, each of their tiles
      is home. */
  lemma {:induction false} ManhattanZeroHome(s: State, n: int)
    requires ValidState(s) && 0 <= n <= 9 && ManhattanSum(TileValues(s), n) == 0
    ensures forall k :: 0 <= k < n && s[k] != Blank ==> s[k] == Goal[k]
  {
    if n > 0 {
      ManhattanZeroHome(s, n - 1);
      var k := n - 1;
      if s[k] != Blank {
        TileDigit(s, k);
        TileDistanceZero(k, TileValue(s[k]));
      }
    }
  }

  /** The Manhattan heuristic is zero on the goal and only there. */
  lemma ManhattanZeroIffGoal(s: State)
    requires ValidState(s)
    ensures Manhattan(s) == 0 <==> s == Goal
  {
    if Manhattan(s) == 0 {
      ManhattanZeroHome(s, |s|);
      TilesHomeIsGoal(s);
    } else if s == Goal {
      GoalManhattanZero(|s|);
    }
  }

  lemma {:induction false} GoalManhattanZero(n: int)
    requires 0 <= n <= 9
    ensures ManhattanSum(TileValues(Goal), n) == 0
  {
    if n > 0 {
      GoalManhattanZero(n - 1);
      var k := n - 1;
      if k < 8 {
        GoalTile(k);
        TileDistanceZero(k, k + 1);
      }
    }
  }

  /** Goal cell k (k < 8) holds tile k + 1. */
  lemma GoalTile(k: int)
    requires 0 <= k < 8
    ensures TileValues(Goal)[k] == k + 1
  {
    assert Goal[k] == ('1' as int + k) as char;
  }
}
