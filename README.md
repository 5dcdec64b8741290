# 8-puzzle search engine, modelled in Dafny

This project models the core of a console program that solves the 8-tile
slider puzzle by state-space search. A board is the nine-character
row-major string of the 3x3 grid, with `'E'` for the empty cell; the goal
is `"12345678E"`. The core has five parts:

- the board and its moves: twelve fixed cell-swap functions working in
  place on a `char[3][3]` grid, nine expansion routines `tileOne` ..
  `tileNine` (one per position of the blank), `findEmpty` and
  `searchPattern`;
- the parity solvability test (`stringToInt`, `getInvCount`,
  `isSolvable`);
- the two A* heuristics (`misplacedTiles`, `manhattanDistance`);
- the generic search loop over global state: a node counter, a
  first-generation-wins visited map, and four containers (FIFO queue,
  LIFO stack, two min-priority queues on `cheapest`) chosen by the
  `dataStructure` flag;
- the four drivers `bfs`, `dfs`, `oopl` and `mhttn`, and `clear`.

Files:

- `board.dfy` (module `Board`): states, the twelve swaps as a `SwapFn`
  datatype applied in place to an `array2<char>`, flattening and
  populating the grid, and the move table of the nine expansion routines.
- `solvability.dfy` (module `Solvability`): `stringToInt` on an
  `array<int>`, the inversion count and the solvability test.
- `heuristics.dfy` (module `Heuristics`): both heuristics as loops proved
  equal to specification functions, and lemmas relating the heuristics
  to the goal and to each other.
- `engine.dfy` (module `Engine`): the class `Engine` holding the source's
  globals (`counter`, `visited`, the four containers, `curr`,
  `neighbor`), its methods for every routine of the search, and the run
  invariant `Running`. That invariant is stated over a value
  (`Globals`) of the changed globals. The methods of one step (`InsertMap`,
  `BuildNode`, `Push`, `PushNeighbor`, `InsertDataStructure`, `TryMove`,
  `SearchPattern`, `ExpandCurr`, `Pop`, `PopAndExpand`, `Advance`, `PushRoot`, `Clear`)
  state the globals they change outright, in terms of the old ones:
  `AdmitMove` for one move, `Expand` for a whole routine, one container
  entry appended or removed for a push or a pop, the changed field for
  `InsertMap` and `BuildNode`, and the fixed values `clear()` and the
  root push leave. Lemmas on those functions prove that each step keeps
  the invariant. The loop
  `Explore` and the drivers (`Search`, `Bfs`, `Dfs`, `Oopl`, `Mhttn`)
  ensure the invariant, what their outcome means, and the order of the
  whole run: they return a ghost `trace` of the globals before each
  turn, starting from the root alone in the container, in which every
  turn pops the node the container's discipline names (`PopIndex`: the
  queue's front, the stack's top, a node of least `cheapest`) and
  expands it (`Turns`). They do not give the final globals as a function
  of the start.

The run invariant says:

- every state in `visited` is a board numbered `1..counter`, and
  `counter` is the number of states in the map;
- every node in the running container is numbered by its state's entry
  in the map, so no state is in the container twice;
- the container is in strictly increasing order of generation;
- every node has the shape its driver gives it: root or generated, its
  depth and `cheapest` value, and a path that replays from the start to
  the node's state (outside depth-first search);
- every board of the map that has left the container has been expanded:
  all the states its routine generates are in the map; and the goal,
  once in the map, is still in the container (`Explored`).

When the container runs empty, the map is therefore closed under moves
and does not hold the goal, so no sequence of moves leads from the start
to the goal.

## Model

| member | source | states |
|---|---|---|
| Board.OneBlank | main.cpp:45 | a board has exactly one blank: every cell other than a blank cell holds a tile |
| Board.BlankExists | main.cpp:45 | every board (nine distinct goal characters) contains the blank |
| Board.CellPoint | main.cpp:121-129 | the constant points `one` .. `nine` put cell c at row (c-1)/3, column (c-1)%3, the grid cell that string index c-1 reads |
| Board.PointIndex | main.cpp:121-129 | a point of the grid names the string index 3x + y, which reads back as row x and column y |
| Board.SwapFn.Lo | main.cpp:576-693 | the cell each swap function saves in `temp` is one of cells 1..8 |
| Board.SwapFn.Hi | main.cpp:576-693 | the cell it is exchanged with comes after it and is at most 9 |
| Board.SwapCellsAdjacent | main.cpp:576-693 | each of the twelve swap functions exchanges two distinct cells that share an edge |
| Board.ExchangeCells | main.cpp:576-693 | a swap exchanges exactly its two named cells and leaves the other seven unchanged |
| Board.ExchangePermutes | main.cpp:576-693 | a swap keeps the multiset of characters |
| Board.ExchangeKeepsValid | main.cpp:576-693 | a swap of a board is a board (still a permutation of the goal's characters) |
| Board.ExchangeInvolution | main.cpp:576-693 | applying the same swap twice restores the state |
| Board.ExchangeInGrid | main.cpp:576-583 | the temp/first/second exchange on the grid, addressed through the points of the two cells, turns its row-major reading into the reading with the two cells exchanged |
| Board.ApplySwap | main.cpp:576-693 | a swap function changes the grid in place, and the string it returns is the grid's new reading: the old reading with its two cells exchanged |
| Board.Populate | main.cpp:542-561 | populateIntPuzzle / populatePuzzle leave a grid whose row-major reading is the input |
| Board.PuzzleState | main.cpp:1261-1275 | puzzleState returns the grid's row-major reading |
| Board.FlattensUnique | main.cpp:1261-1275 | a grid has exactly one row-major reading |
| Board.FlattenRoundTrip | main.cpp:553-561 | populatePuzzle followed by puzzleState gives back the original string |
| Board.SwapOnGrid | main.cpp:710-713 | laying a state out on a fresh grid and calling a swap function yields the state with the swap's two cells exchanged |
| Board.MoveTableSound | main.cpp:696-1258 | every move of the routine for blank cell p is a legal swap with an orthogonal neighbour and carries the descriptor "p to q,", and every neighbour of p is tried |
| Board.MoveTable | main.cpp:696-1258 | routine p tries as many moves as p has orthogonal neighbours (2 at a corner, 3 on an edge, 4 at the centre), and no two of its moves have the same target |
| Board.TableLegal | main.cpp:696-1258 | every move of every routine is legal for its cell |
| Board.MoveLegal | main.cpp:696-1258 | move i of routine p swaps p with an adjacent target and is labelled "p to q," |
| Board.NeighbourInTable | main.cpp:696-1258 | every orthogonal neighbour of p is the target of some move of routine p |
| Board.ChildMovesBlank | main.cpp:696-1258 | a legal move from a board is a board whose blank sits at the target, whose cell p holds the target's former tile, and whose other cells are unchanged |
| Solvability.StringToInt | main.cpp:468-491 | the array holds, at each position, the digit of that character, with 'E' as 0 |
| Solvability.BoardValueFits | main.cpp:480-483 | the nine-digit number a board spells is below 2^31, so it fits the `int` it is read into |
| Solvability.GetInvCount | main.cpp:493-503 | the double loop counts exactly the pairs i < j with both entries non-zero and the earlier entry larger |
| Solvability.IsSolvable | main.cpp:505-512 | true exactly when the inversion count of the grid's row-major reading is even |
| Solvability.CheckSolvable | main.cpp:443-458 | stringToInt, populateIntPuzzle and isSolvable together judge a board solvable exactly when its digits have an even number of inversions |
| Solvability.GoalHasNoInversions | main.cpp:45 | the goal has no inversion, so it passes the test |
| Solvability.SortedNoInversions | main.cpp:493-503 | a strictly increasing sequence has no inversions |
| Solvability.NoInversionsWithBlank | main.cpp:493-503 | a trailing blank (0) adds no inversion |
| Heuristics.MisplacedTiles | main.cpp:1306-1316 | the loop counts the cells among the first length - 1 = 8 that differ from the goal |
| Heuristics.MisplacedCountsTiles | main.cpp:1306-1316 | although the loop skips the last cell, on a board it counts exactly the tiles (not the blank) that are outside their goal cell |
| Heuristics.MisplacedZeroIffGoal | main.cpp:1306-1316 | on a board, misplacedTiles is 0 if and only if the board is the goal |
| Heuristics.ManhattanDistance | main.cpp:1319-1351 | the result is the sum over non-blank tiles v at cell (i, j) of abs(i - (v-1)/3) + abs(j - (v-1)%3) |
| Heuristics.GridDistance | main.cpp:1339-1349 | on a grid of non-negative digits, the double loop adds each non-zero cell's distance to its goal cell |
| Heuristics.GridCell | main.cpp:542-550 | grid cell (i, j) holds entry 3i + j of the array it was populated from |
| Heuristics.TileDistanceZero | main.cpp:1319-1351 | a tile contributes 0 exactly when it is at its goal cell |
| Heuristics.ManhattanZeroIffGoal | main.cpp:1319-1351 | on a board, manhattanDistance is 0 if and only if the board is the goal |
| Heuristics.MisplacedBelowManhattan | main.cpp:1306-1351 | on a board, misplacedTiles never exceeds manhattanDistance |
| Heuristics.TilesHomeIsGoal | main.cpp:45 | a board whose tiles are all at their goal cells is the goal |
| Engine.StepTakesMove | main.cpp:696-744 | the descriptor a routine records, read back as "p to q,", names exactly the move taken |
| Engine.ReplayAppend | main.cpp:1369-1371 | appending a descriptor to a path replays one more step |
| Engine.AdmitMoveNew | main.cpp:716-723 | admitting a new state increments the counter by one, maps the state to the new counter, appends exactly one node to the running container, and clears `neighbor`'s path |
| Engine.NumberedExtend | main.cpp:1277-1280 | recording a new board under counter + 1 keeps the map numbered 1..counter |
| Engine.AdmitNumbered | main.cpp:716-723 | an admission keeps every state of the map a board numbered 1..counter, with the counter equal to the map's size |
| Engine.AdmitFields | main.cpp:1354-1413 | an admitted node has `neighbor`'s point, depth = parent depth + 1, count = counter; its path is the parent's plus the descriptor, or empty in depth-first search; under A*, cheapest = depth + heuristic |
| Engine.AdmittedShape | main.cpp:1363-1413 | the node admitted for a child of a well-formed node is well formed; outside depth-first search its path has depth + 1 entries and replays from the start to its state |
| Engine.FrontierAppend | main.cpp:1363-1413 | pushing a well-formed node for a new state with a number above all in use keeps the container in order |
| Engine.AdmitFrontier | main.cpp:716-723 | an admission keeps every container node numbered by its state and the container in increasing order of generation |
| Engine.AdmitNew | main.cpp:716-723 | admitting a state the map does not hold keeps the run invariant |
| Engine.AdmitStep | main.cpp:710-723 | one move keeps the run invariant; afterwards the child is in the map, no state has left the map, and the counter grew by exactly the number of nodes pushed |
| Engine.ExpandKeeps | main.cpp:696-1258 | a whole expansion routine keeps the run consistent, and the counter grows by exactly the number of nodes pushed |
| Engine.ExpandAppends | main.cpp:696-1258 | a whole expansion routine maps every child it tries, keeps every mapped state, only appends to the container, and every state it maps is the state of a node it pushed |
| Engine.FrontierDistinct | main.cpp:1283-1293 | no state is in the running container twice |
| Engine.TurnsAppend | main.cpp:1507-1527 | a run of the loop followed by one more turn is again a run |
| Engine.FrontierBoards | main.cpp:1509-1511 | every node the loop can take from the container holds a board |
| Engine.FrontierReplays | main.cpp:1369-1371 | outside depth-first search, every container node's path has depth + 1 entries and replays from the start to its state |
| Engine.RootConsistent | main.cpp:1490-1502 | after the start is mapped to 1 and the root (blank cell, depth 0, count 1, path ["Start, "], cheapest 0) is pushed on cleared containers, the run invariant (consistency and exploration) holds and the container is that root alone |
| Engine.RemoveKeeps | main.cpp:1521 | popping any one node keeps the run invariant |
| Engine.RemovedQueued | main.cpp:1521 | after a pop (and any pushes), every state of the container other than the popped node's is still in it |
| Engine.PopExpandExplores | main.cpp:1521-1526 | popping a node that is not the goal and expanding it keeps the exploration invariant: every board that left the container has all its children mapped, and a mapped goal is still in the container |
| Engine.PopExpandKeeps | main.cpp:1521-1526 | popping a node that is not the goal and expanding it keeps the run invariant, loses no state, and grows the counter by the number of nodes pushed |
| Engine.ClosedReachable | main.cpp:1507-1527 | every state that a sequence of moves leads to from a state of a closed map is in the map |
| Engine.Unreachable | main.cpp:1507-1527 | from a start in a closed map without the goal, no sequence of moves reaches the goal |
| Engine.ExhaustedClosed | main.cpp:1507-1527 | when the container of a running search is empty, the goal was never mapped, the map is closed under moves, and no sequence of moves leads from the start to the goal |
| Engine.MinIndex | main.cpp:81-85 | a non-empty priority queue has a node of least `cheapest` |
| Engine.PriorityTop | main.cpp:81-85 | `top()` of a priority queue returns a node whose `cheapest` is no greater than any other's |
| Engine.Boards | main.cpp:45 | all boards lie in one finite set; this bounds the counter and so ends the loop |
| Engine.CheckGoal | main.cpp:1296-1303 | only a board whose blank is in the last cell passes the goal test |
| Engine.CheckGoalHeuristics | main.cpp:1296-1303 | on a board, the goal test holds exactly when misplacedTiles is 0, and exactly when manhattanDistance is 0 |
| Engine.Engine.constructor | main.cpp:100-118 | the globals at program start: counter 1, empty map and containers |
| Engine.Engine.InsertMap | main.cpp:1277-1280 | `std::map::insert`: an existing key keeps its number, a new key gets the given one |
| Engine.Engine.CheckMap | main.cpp:1283-1293 | the scan over the map's entries finds the state exactly when it is a key of the map |
| Engine.Engine.Push | main.cpp:1371 | the node is appended to the container the flag selects; all other globals are unchanged |
| Engine.Engine.PushNeighbor | main.cpp:1371-1374 | `neighbor` is appended to the selected container, then loses its state and path; nothing else changes |
| Engine.Engine.BuildNode | main.cpp:1354-1360 | `neighbor` gets the state, depth curr.depth + 1 and count; the path argument is ignored |
| Engine.Engine.InsertDataStructure | main.cpp:1363-1413 | the container the flag selects gets `neighbor` with the parent's path plus the descriptor (not in depth-first search) and, under A*, cheapest = depth + heuristic; then `neighbor` loses its state and path |
| Engine.Engine.TryMove | main.cpp:710-723 | one move of a routine changes the globals exactly as `AdmitMove` does: nothing if the child is already mapped, otherwise it counts, maps and pushes the child |
| Engine.Engine.SearchPattern | main.cpp:1455-1478 | the routine of the blank's cell changes the globals exactly as `Expand` over that cell's moves, in the routine's order; a tile outside 1..9 (the `default:` branch) changes nothing |
| Engine.Engine.FindEmpty | main.cpp:1416-1452 | the result is the 1-based cell of the board's only blank |
| Engine.Engine.Top | main.cpp:1509 | the index is the one the discipline names (`PopIndex`): `front()` of the queue is index 0, `top()` of the stack is its last entry, and `top()` of a priority queue is a node of least `cheapest` |
| Engine.Engine.Pop | main.cpp:1521 | removes exactly the node that `Top` chose and changes nothing else |
| Engine.Engine.PushRoot | main.cpp:1488-1502 | the start is mapped to counter 1 and the root is the only node of the container the flag selects, with the run invariant established |
| Engine.Engine.ExpandCurr | main.cpp:1523-1526 | findEmpty then searchPattern on the popped state change the globals exactly as `Expand` by the routine of that state's blank cell |
| Engine.Engine.PopAndExpand | main.cpp:1521-1526 | run after the goal test failed on the node in `curr`, entry k as the discipline names it: the change is one turn of the run (`TurnAt`), so the new globals are exactly `Expand` of the old ones with entry k removed, by the routine of that node's blank cell; the run invariant is kept, no state leaves the map, and the counter grows by the number of nodes pushed and never past the number of boards |
| Engine.Engine.Advance | main.cpp:1508-1526 | `curr` becomes the entry the discipline names: the front of the queue, the top of the stack, or a node of least `cheapest`; the turn stops exactly when that node is the goal, leaving the globals and the run as they were (outside depth-first search its path replays from the start to the goal); otherwise the globals change by one turn that pops and expands that entry, and the run grows by the new globals and stays a run; the invariant is kept, and if the counter does not grow the container shrinks |
| Engine.Engine.Explore | main.cpp:1507-1527 | the returned run leads from the globals before the loop to the final ones, every turn popping the node the discipline names and expanding it; the loop ends either on the goal, with `curr` the goal node the discipline names in the container (outside depth-first search its path replays from the start to the goal), or with an empty container, a map closed under moves without the goal, and no sequence of moves from the start to the goal; the run invariant holds |
| Engine.Engine.Search | main.cpp:1480-1528 | a goal start gives "error" and touches nothing; otherwise the returned run starts from the start mapped to 1 and the root alone in the container ds selects and reaches the final globals by turns that each pop the node ds's discipline names; the result is the goal, with `curr` the goal node the discipline names in the container and, outside depth-first search, a path replaying from the start to the goal in depth moves; or the container is empty, every board mapped has all its children mapped, the goal was never mapped, and no sequence of moves leads from the start to the goal; the run invariant holds |
| Engine.Engine.Bfs | main.cpp:1480-1528 | bfs as Search with the FIFO queue: a goal start gives "error" and touches nothing; every turn of the returned run dequeues the queue's front, from the root alone; a found goal is `curr`, the queue's front, with a path replaying from the start; an exhausted search ends with the queue empty, the map closed under moves without the goal, and no sequence of moves from the start to the goal |
| Engine.Engine.Dfs | main.cpp:1530-1577 | dfs as Search with the LIFO stack: a goal start gives "error" and touches nothing; every turn of the returned run pops the stack's top, from the root alone; a found goal is `curr`, the stack's top; an exhausted search ends with the stack empty, the map closed under moves without the goal, and no sequence of moves from the start to the goal |
| Engine.Engine.Oopl | main.cpp:1579-1627 | oopl as Search with the misplaced-tiles priority queue: a goal start gives "error" and touches nothing; every turn of the returned run pops a node of least `cheapest` (depth + misplaced tiles), from the root alone; a found goal is `curr`, such a node, with a path replaying from the start; an exhausted search ends with the queue empty, the map closed under moves without the goal, and no sequence of moves from the start to the goal |
| Engine.Engine.Mhttn | main.cpp:1629-1677 | mhttn as Search with the Manhattan priority queue: a goal start gives "error" and touches nothing; every turn of the returned run pops a node of least `cheapest` (depth + Manhattan distance), from the root alone; a found goal is `curr`, such a node, with a path replaying from the start; an exhausted search ends with the queue empty, the map closed under moves without the goal, and no sequence of moves from the start to the goal |
| Engine.Engine.Clear | main.cpp:521-539 | counter back to 1, the map empty and every container drained |

## Left out

- The interactive menu in `main`, `generateState` (random shuffle and console output), `initializeState`, `printPuzzle` and `results`. These are console and file I/O and randomness. The solvability test inside `generateState` is kept as `CheckSolvable`.
- The `stringstream` mechanics of `stringToInt`. Only their effect is modelled: the digit string is read as one decimal number. The by-value `intState` parameter is not an output.
- The `default:` branch of `findEmpty`, which prints "not a tile". `FindEmpty` requires a board (a permutation of the goal's characters, so exactly one 'E'), which rules this branch out.
- The message "not a function" of `searchPattern`'s `default:` branch. The branch itself is modelled: `SearchPattern` with a tile outside 1..9 changes nothing.
- `checkMap` walks the map in key order. The model walks the keys in an unspecified order, which gives the same answer.
- The heap layout and tie-breaking of `std::priority_queue`. A pop from a priority queue removes some node of least `cheapest`; which one among equals is left open.
- The `puzzle` parameter of the four drivers is never read and is not modelled.
- In the source, `bfs` and the other drivers fall off the end of the function without a `return` when the container empties, which is undefined behaviour for the returned value. The model returns an explicit `Exhausted` outcome, after the same search.
- Engine.Engine.Search: requires the globals as `clear()` or program start leaves them (`Cleared`). Every call in the program's menu follows a `clear()` or program start.
- Engine.Engine.Search: the Found case does not restate the node's full shape (depth, count, `cheapest`). Those facts are part of the run invariant `Valid()` that Search ensures.
- Engine.Engine.Dfs: states no path property, because depth-first nodes other than the root carry an empty path.
- Engine.RootConsistent: the root built by `bfs` and `dfs` never sets `cheapest` (an indeterminate `int`). The model gives it 0, as `oopl` and `mhttn` do.
- Engine.Engine.constructor: the global `dataStructure` starts at 0, which selects no container. The model starts it at `BfsQueue`, and every driver sets it before pushing anything.
- Integers are unbounded. The counter and path lengths never come near 2^31, because there are at most 9! boards. `BoardValueFits` proves that the number `stringToInt` parses fits a 32-bit `int`.
- The tileX routines and the twelve swap functions are not copied one by one. They are modelled as one move table (`MoveTable`) listing each routine's moves in order, and one loop (`SearchPattern`) running `TryMove` (the block every routine repeats) over it.
- The containers are `seq<Node>` fields. Index 0 is a queue's front and a stack's bottom.
- The `Node::clear()` member is modelled inside `InsertDataStructure` as emptying `neighbor`'s state and path.
