/** The solvability test applied to generated start states: the state is read
    as a nine-digit number (blank = 0), split back into digits, laid out on a
    3x3 integer grid, and judged solvable when the number of inverted tile
    pairs of the row-major reading is even. */
module Solvability {
  import opened Board

  // ---------------------------------------------------------------------------
  // Digits

  /** The digit a character stands for once 'E' has been replaced by '0'. */
  function TileValue(c: char): int {
    if c == Blank then 0 else (c as int) - ('0' as int)
  }

  /** The characters stringToInt accepts: decimal digits and the blank. */
  predicate IsTileChar(c: char) {
    c == Blank || '0' <= c <= '9'
  }

  /** The digit sequence stringToInt stores in its output array. */
  function TileValues(s: State): (v: seq<int>)
    ensures |v| == |s|
    ensures forall k :: 0 <= k < |s| ==> v[k] == TileValue(s[k])
  {
    seq(|s|, k requires 0 <= k < |s| => TileValue(s[k]))
  }

  /** The number a string of decimal digits spells, most significant first
      (what extracting an int from a stringstream yields). */
  function DecimalValue(d: seq<int>): int {
    if |d| == 0 then 0 else DecimalValue(d[..|d| - 1]) * 10 + d[|d| - 1]
  }

  /** A number spelt by digits is non-negative and below 10^|d|. */
  lemma {:induction false} DecimalValueBounds(d: seq<int>)
    requires forall k :: 0 <= k < |d| ==> 0 <= d[k] <= 9
    ensures 0 <= DecimalValue(d) < Pow10(|d|)
  {
    if |d| > 0 {
      DecimalValueBounds(d[..|d| - 1]);
    }
  }

  function Pow10(n: nat): (r: nat)
    ensures r >= 1
  {
    if n == 0 then 1 else 10 * Pow10(n - 1)
  }

  /** The nine-digit value of a board never exceeds 999999999, so it fits the
      32-bit `int` the source parses it into. */
  lemma BoardValueFits(s: State)
    requires |s| == 9 && forall k :: 0 <= k < 9 ==> IsTileChar(s[k])
    ensures 0 <= DecimalValue(TileValues(s)) < 0x8000_0000
  {
    DecimalValueBounds(TileValues(s));
  }

  /** stringToInt: replace the blank by '0', read the string as one integer and
      take it apart again into its nine decimal digits, the last digit first.
      The digits that come back are exactly the characters' values. */
  method StringToInt(stringState: State, testArray: array<int>)
    requires |stringState| == 9 && testArray.Length == 9
    requires forall k :: 0 <= k < 9 ==> IsTileChar(stringState[k])
    modifies testArray
    ensures testArray[..] == TileValues(stringState)
  {
    var digits := stringState;
    for i := 0 to |digits|
      invariant |digits| == 9
      invariant forall k :: 0 <= k < i ==> digits[k] == (if stringState[k] == Blank then '0' else stringState[k])
      invariant forall k :: i <= k < 9 ==> digits[k] == stringState[k]
    {
      if digits[i] == Blank {
        digits := digits[i := '0'];
      }
    }
    // convert >> intState: the digit string read as one decimal number
    var d := seq(9, k requires 0 <= k < 9 => (digits[k] as int) - ('0' as int));
    assert d == TileValues(stringState);
    var intState := DecimalValue(d);
    BoardValueFits(stringState);
    var i := 8;
    assert d[..9] == d;
    while i >= 0
      invariant -1 <= i <= 8
      invariant intState == DecimalValue(d[..i + 1])
      invariant forall k :: i < k < 9 ==> testArray[k] == d[k]
    {
      assert d[..i + 1][..i] == d[..i];
      testArray[i] := intState % 10;
      intState := intState / 10;
      i := i - 1;
    }
    assert testArray[..] == d;
  }

  // ---------------------------------------------------------------------------
  // Inversions

  /** A pair of cells, earlier cell holding x and later cell holding y, counts
      as an inversion when both hold tiles and x is the larger. */
  predicate Inverted(x: int, y: int) {
    y != 0 && x != 0 && x > y
  }

  /** The number of entries of t that form an inversion with an earlier x. */
  function CountInverted(x: int, t: seq<int>): nat {
    if |t| == 0 then 0
    else CountInverted(x, t[..|t| - 1]) + (if Inverted(x, t[|t| - 1]) then 1 else 0)
  }

  /** The inversion count: every entry paired with all entries after it. */
  function Inversions(a: seq<int>): nat {
    if |a| == 0 then 0 else CountInverted(a[0], a[1..]) + Inversions(a[1..])
  }

  /** getInvCount: the inversion count of a nine-entry array, by the double
      loop over i < 8 and i < j < 9. */
  method GetInvCount(arr: seq<int>) returns (invCount: int)
    requires |arr| == 9
    ensures invCount == Inversions(arr)
  {
    invCount := 0;
    for i := 0 to 9 - 1
      invariant invCount + Inversions(arr[i..]) == Inversions(arr)
    {
      assert arr[i..][1..] == arr[i + 1..];
      ghost var before := invCount;
      for j := i + 1 to 9
        invariant invCount == before + CountInverted(arr[i], arr[i + 1..j])
      {
        assert arr[i + 1..j + 1][..j - i - 1] == arr[i + 1..j];
        if arr[j] != 0 && arr[i] != 0 && arr[i] > arr[j] {
          invCount := invCount + 1;
        }
      }
      assert arr[i + 1..9] == arr[i + 1..];
    }
    assert Inversions(arr[8..]) == 0 by {
      assert arr[8..][1..] == [];
    }
  }

  /** A board in the form isSolvable judges: its row-major reading has an even
      number of inversions. */
  ghost predicate Solvable(s: State) {
    Inversions(TileValues(s)) % 2 == 0
  }

  /** isSolvable: the inversion count of the grid read row by row (the source
      reads the 3x3 array through a cast to a flat pointer) is even. */
  method IsSolvable(puzzle: array2<int>) returns (solvable: bool)
    requires puzzle.Length0 == 3 && puzzle.Length1 == 3
    ensures forall flat :: Flattens(flat, puzzle) ==> (solvable <==> Inversions(flat) % 2 == 0)
  {
    var flat := PuzzleState(puzzle);
    var invCount := GetInvCount(flat);
    solvable := invCount % 2 == 0;
    forall other | Flattens(other, puzzle) ensures other == flat {
      FlattensUnique(other, flat, puzzle);
    }
  }

  /** The solvability test of generateState: stringToInt, populateIntPuzzle and
      isSolvable applied to one board. */
  method CheckSolvable(generatedState: State) returns (solvable: bool)
    requires ValidState(generatedState)
    ensures solvable <==> Solvable(generatedState)
  {
    forall k | 0 <= k < 9 ensures IsTileChar(generatedState[k]) {
      ValidChars(generatedState, k);
    }
    var testArray := new int[9];
    StringToInt(generatedState, testArray);
    var intPuzzle := new int[3, 3];
    Populate(testArray[..], intPuzzle);
    solvable := IsSolvable(intPuzzle);
  }

  /** The goal itself passes the test: its tiles are in increasing order, so it
      has no inversion at all. */
  lemma GoalHasNoInversions()
    ensures Inversions(TileValues(Goal)) == 0
    ensures Solvable(Goal)
  {
    var v := TileValues(Goal);
    assert v == [1, 2, 3, 4, 5, 6, 7, 8, 0];
    SortedNoInversions(v[..8]);
    NoInversionsWithBlank(v[..8]);
    assert v == v[..8] + [0];
  }

  /** A strictly increasing sequence has no inversions. */
  lemma {:induction false} SortedNoInversions(a: seq<int>)
    requires forall i, j :: 0 <= i < j < |a| ==> a[i] < a[j]
    ensures Inversions(a) == 0
  {
    if |a| > 0 {
      NoneBelow(a[0], a[1..]);
      SortedNoInversions(a[1..]);
    }
  }

  lemma {:induction false} NoneBelow(x: int, t: seq<int>)
    requires forall k :: 0 <= k < |t| ==> x < t[k]
    ensures CountInverted(x, t) == 0
  {
    if |t| > 0 {
      NoneBelow(x, t[..|t| - 1]);
    }
  }

  /** Appending the blank (0) adds no inversion. */
  lemma {:induction false} NoInversionsWithBlank(a: seq<int>)
    ensures Inversions(a + [0]) == Inversions(a)
  {
    if |a| > 0 {
      assert (a + [0])[1..] == a[1..] + [0];
      assert (a + [0])[1..][..|a| - 1] == a[1..];
      NoInversionsWithBlank(a[1..]);
    }
  }
}
