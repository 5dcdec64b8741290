/** The search engine: the global node counter, the first-generation-wins
    visited map, the four containers selected by `dataStructure`, the
    expansion routines and the four search drivers. */
module Engine {
  import opened Board
  import opened Heuristics

  datatype Option<T> = None | Some(value: T)

  /** Which container the running search uses (the source's `dataStructure`
      flag 1..4). */
  datatype DataStructure = BfsQueue | DfsStack | AStarOutOfPlace | AStarManhattan

  predicate IsAStar(ds: DataStructure) {
    ds == AStarOutOfPlace || ds == AStarManhattan
  }

  /** A search node: blank position, state, depth, move descriptors, its
      generation number and the A* value f(n) = g(n) + h(n). */
  datatype Node = Node(point: int, state: State, depth: int, path: seq<string>, count: int, cheapest: int)

  /** What a search driver returns: "error" when the start already is the
      goal, the goal state when it is reached, or nothing at all when the
      container runs empty. */
  datatype Outcome = Error | Found(endState: State) | Exhausted

  /** The entry the root node's path starts with. */
  const StartPath: string := "Start, "

  /** checkGoal: is the state the goal?  Only a board, with its blank in
      the last cell, passes. */
  predicate CheckGoal(state: State): (b: bool)
    ensures b ==> ValidState(state) && state[8] == Blank
  {
    state == Goal
  }

  /** On a board, the goal test agrees with either heuristic being zero. */
  lemma CheckGoalHeuristics(s: State)
    requires ValidState(s)
    ensures CheckGoal(s) <==> Misplaced(s) == 0
    ensures CheckGoal(s) <==> Manhattan(s) == 0
  {
    MisplacedZeroIffGoal(s);
    ManhattanZeroIffGoal(s);
  }

  /** The heuristic the A* containers add to the depth. */
  function Heuristic(ds: DataStructure, s: State): int
    requires |s| == 9
  {
    match ds
    case AStarOutOfPlace => Misplaced(s)
    case AStarManhattan => Manhattan(s)
    case _ => 0
  }

  // ---------------------------------------------------------------------------
  // Paths of move descriptors

  /** The 1-based cell of the blank of a valid state. */
  ghost function BlankCell(s: State): (p: int)
    requires ValidState(s)
    ensures 1 <= p <= 9 && s[p - 1] == Blank
  {
    BlankExists(s);
    var k :| 0 <= k < 9 && s[k] == Blank; k + 1
  }

  /** The cell a digit character names (0 for any other character). */
  function CellOf(c: char): int {
    if '1' <= c <= '9' then (c as int) - ('0' as int) else 0
  }

  /** The state a move descriptor leads to from s, read off the descriptor
      alone: d must read "p to q," where p is the blank's cell of s and q an
      orthogonal neighbour of p, and the move exchanges the two cells. */
  ghost function Step(s: State, d: string): Option<State> {
    if |d| == 7 && ValidState(s) then
      var p, q := CellOf(d[0]), CellOf(d[5]);
      if Adjacent(p, q) && d == Descriptor(p, q) && s[p - 1] == Blank
      then Some(Exchange(s, p - 1, q - 1))
      else None
    else None
  }

  /** Replaying a sequence of move descriptors from s. */
  ghost function Replay(s: State, moves: seq<string>): Option<State>
    decreases |moves|
  {
    if |moves| == 0 then Some(s)
    else match Replay(s, moves[..|moves| - 1])
      case None => None
      case Some(t) => Step(t, moves[|moves| - 1])
  }

  /** A descriptor names its two cells at positions 0 and 5. */
  lemma DescriptorCells(p: int, q: int)
    requires 1 <= p <= 9 && 1 <= q <= 9
    ensures |Descriptor(p, q)| == 7
    ensures CellOf(Descriptor(p, q)[0]) == p && CellOf(Descriptor(p, q)[5]) == q
  {
    DigitCell(p);
    DigitCell(q);
  }

  lemma DigitCell(d: int)
    requires 1 <= d <= 9
    ensures CellOf(DigitChar(d)) == d
  {
  }

  /** Taking a legal move of the blank is the step its descriptor describes. */
  lemma StepTakesMove(s: State, p: int, m: Move)
    requires ValidState(s) && 1 <= p <= 9 && s[p - 1] == Blank && MoveFrom(p, m)
    ensures Step(s, m.descriptor) == Some(Child(s, m))
  {
    DescriptorCells(p, m.target);
    ExchangeSymmetric(s, m.swap.Lo() - 1, m.swap.Hi() - 1);
  }

  /** Which of the two cells is named first does not matter to a swap. */
  lemma ExchangeSymmetric(s: State, i: int, j: int)
    requires 0 <= i < |s| && 0 <= j < |s|
    ensures Exchange(s, i, j) == Exchange(s, j, i)
  {
    ExchangeCells(s, i, j);
    ExchangeCells(s, j, i);
  }

  /** Appending one descriptor to a path replays one more step. */
  lemma ReplayAppend(s: State, moves: seq<string>, d: string)
    ensures Replay(s, moves + [d]) ==
      match Replay(s, moves) case None => None case Some(t) => Step(t, d)
  {
    assert (moves + [d])[..|moves|] == moves;
  }


  // ---------------------------------------------------------------------------
  // The globals a search changes, as a value

  /** The values of the globals a search changes: counter, visited, the four
      containers and neighbor.  A queue's front and a stack's bottom are
      index 0 of their sequences. */
  datatype Globals = Globals(counter: int, visited: map<State, int>,
                             bfsQueue: seq<Node>, dfsStack: seq<Node>,
                             aStarOutofPlace: seq<Node>, aStarManhattan: seq<Node>,
                             neighbor: Node)
  {
    /** The container a flag selects. */
    function Container(ds: DataStructure): seq<Node> {
      match ds
      case BfsQueue => bfsQueue
      case DfsStack => dfsStack
      case AStarOutOfPlace => aStarOutofPlace
      case AStarManhattan => aStarManhattan
    }

    /** The globals with the container ds selects replaced by q. */
    function WithContainer(ds: DataStructure, q: seq<Node>): (g: Globals)
      ensures g.Container(ds) == q
      ensures forall d :: d != ds ==> g.Container(d) == Container(d)
      ensures g.counter == counter && g.visited == visited && g.neighbor == neighbor
    {
      match ds
      case BfsQueue => this.(bfsQueue := q)
      case DfsStack => this.(dfsStack := q)
      case AStarOutOfPlace => this.(aStarOutofPlace := q)
      case AStarManhattan => this.(aStarManhattan := q)
    }

    /** The globals after entry k of the container ds selects is removed. */
    function Removed(ds: DataStructure, k: int): Globals
      requires 0 <= k < |Container(ds)|
    {
      WithContainer(ds, Container(ds)[..k] + Container(ds)[k + 1..])
    }

    /** Only the container ds selects holds nodes. */
    predicate OthersEmpty(ds: DataStructure) {
      forall d :: d != ds ==> Container(d) == []
    }
  }

  /** The node a push of `neighbor` puts into the container: the path is the
      parent's path plus the descriptor except in depth-first search, and the
      A* containers first set cheapest = depth + heuristic. */
  function Pushed(ds: DataStructure, nb: Node, parent: Node, tempPath: string): Node
    requires |nb.state| == 9
  {
    match ds
    case BfsQueue => nb.(path := parent.path + [tempPath])
    case DfsStack => nb
    case AStarOutOfPlace =>
      nb.(cheapest := nb.depth + Misplaced(nb.state), path := parent.path + [tempPath])
    case AStarManhattan =>
      nb.(cheapest := nb.depth + Manhattan(nb.state), path := parent.path + [tempPath])
  }

  /** The node admitted for state s with generation number c, built by
      buildNode from `neighbor` and pushed by insertDataStructure. */
  function Admit(ds: DataStructure, nb: Node, parent: Node, s: State, c: int, tempPath: string): Node
    requires |s| == 9
  {
    Pushed(ds, nb.(state := s, depth := parent.depth + 1, count := c), parent, tempPath)
  }

  /** One move of an expansion routine on the values of the globals: the
      state m leads to from the parent is admitted when the map does not hold
      it yet, which increments the counter, records the state under the new
      count, pushes the node built for it and clears `neighbor`; otherwise
      nothing changes. */
  function AdmitMove(ds: DataStructure, g: Globals, parent: Node, m: Move): Globals
    requires |parent.state| == 9
  {
    var s := Child(parent.state, m);
    if s in g.visited then g
    else
      var n := Admit(ds, g.neighbor, parent, s, g.counter + 1, m.descriptor);
      g.(counter := g.counter + 1, visited := g.visited[s := g.counter + 1],
         neighbor := n.(state := [], path := [])).WithContainer(ds, g.Container(ds) + [n])
  }

  /** An expansion routine: its moves tried one after the other. */
  function Expand(ds: DataStructure, g: Globals, parent: Node, moves: seq<Move>): Globals
    requires |parent.state| == 9
    decreases |moves|
  {
    if |moves| == 0 then g
    else AdmitMove(ds, Expand(ds, g, parent, moves[..|moves| - 1]), parent, moves[|moves| - 1])
  }

  // ---------------------------------------------------------------------------
  // The run invariant, on values

  /** A node as a running search holds it.  The root (depth 0) is the one
      every driver builds: the start state, its blank cell, count 1, path
      ["Start, "] and, under A*, cheapest 0.  A generated node (depth >= 1)
      has a point that was never set and, under A*, f(n) = depth + h; in
      depth-first search its path is empty.  Outside depth-first search
      every node's path has depth + 1 entries, starts with "Start, " and
      replays from the start to the node's state. */
  ghost predicate Shaped(ds: DataStructure, start: State, n: Node) {
    && ValidState(start) && ValidState(n.state) && n.depth >= 0
    && (n.depth == 0 ==>
          && n.state == start && n.point == BlankCell(start) && n.count == 1
          && n.path == [StartPath] && (IsAStar(ds) ==> n.cheapest == 0))
    && (n.depth >= 1 ==>
          && n.point == 0
          && (ds == DfsStack ==> n.path == [])
          && (IsAStar(ds) ==> n.cheapest == n.depth + Heuristic(ds, n.state)))
    && (ds != DfsStack ==>
          |n.path| == n.depth + 1 && n.path[0] == StartPath && Replay(start, n.path[1..]) == Some(n.state))
  }

  /** The map of a running search: the start is numbered 1, every state is a
      board numbered 1..counter, and the counter is the number of states. */
  ghost predicate Numbered(start: State, visited: map<State, int>, counter: int) {
    && ValidState(start) && start in visited && visited[start] == 1
    && counter == |visited|
    && (forall s :: s in visited ==> ValidState(s) && 1 <= visited[s] <= counter)
  }

  /** The container of a running search: every entry is shaped and is the
      node its state's number names, and the entries are in strictly
      increasing order of generation. */
  ghost predicate FrontierOk(ds: DataStructure, start: State, visited: map<State, int>, frontier: seq<Node>) {
    && (forall j :: 0 <= j < |frontier| ==>
          Shaped(ds, start, frontier[j]) && frontier[j].state in visited
          && visited[frontier[j].state] == frontier[j].count)
    && (forall j, k :: 0 <= j < k < |frontier| ==> frontier[j].count < frontier[k].count)
  }

  /** The invariant of a running search: the map is numbered, the running
      container is in order, the other containers are empty, and `neighbor`
      has an empty path and a point that was never set. */
  ghost predicate Consistent(ds: DataStructure, start: State, g: Globals) {
    && Numbered(start, g.visited, g.counter)
    && FrontierOk(ds, start, g.visited, g.Container(ds))
    && g.OthersEmpty(ds)
    && g.neighbor.path == [] && g.neighbor.point == 0
  }

  /** No state sits in the container twice. */
  lemma FrontierDistinct(ds: DataStructure, start: State, g: Globals, j: int, k: int)
    requires Consistent(ds, start, g)
    requires 0 <= j < k < |g.Container(ds)|
    ensures g.Container(ds)[j].state != g.Container(ds)[k].state
  {
  }

  /** Every node of the container holds a board. */
  lemma FrontierBoards(ds: DataStructure, start: State, g: Globals, k: int)
    requires Consistent(ds, start, g) && 0 <= k < |g.Container(ds)|
    ensures ValidState(g.Container(ds)[k].state)
  {
  }

  /** Outside depth-first search, every node of the container replays from
      the start to its own state in depth moves. */
  lemma FrontierReplays(ds: DataStructure, start: State, g: Globals, k: int)
    requires Consistent(ds, start, g) && 0 <= k < |g.Container(ds)|
    ensures ds != DfsStack ==>
      var n := g.Container(ds)[k];
      |n.path| == n.depth + 1 && Replay(start, n.path[1..]) == Some(n.state)
  {
  }

  /** The fields of an admitted node, case by case. */
  lemma AdmitFields(ds: DataStructure, nb: Node, parent: Node, s: State, c: int, tempPath: string)
    requires |s| == 9
    ensures var n := Admit(ds, nb, parent, s, c, tempPath);
      && n.point == nb.point && n.state == s && n.depth == parent.depth + 1 && n.count == c
      && n.path == (if ds == DfsStack then nb.path else parent.path + [tempPath])
      && (IsAStar(ds) ==> n.cheapest == n.depth + Heuristic(ds, s))
  {
  }

  /** The node admitted for a child of a shaped node is shaped: one level
      deeper, and outside depth-first search its path replays one more move. */
  lemma AdmittedShape(ds: DataStructure, start: State, parent: Node, m: Move, nb: Node, c: int)
    requires Shaped(ds, start, parent) && MoveFrom(BlankCell(parent.state), m)
    requires nb.path == [] && nb.point == 0
    ensures var n := Admit(ds, nb, parent, Child(parent.state, m), c, m.descriptor);
      Shaped(ds, start, n) && n.state == Child(parent.state, m) && n.count == c
  {
    var p := BlankCell(parent.state);
    var s := Child(parent.state, m);
    ChildMovesBlank(parent.state, p, m);
    AdmitFields(ds, nb, parent, s, c, m.descriptor);
    if ds != DfsStack {
      TailAppend(parent.path, m.descriptor);
      ReplayAppend(start, parent.path[1..], m.descriptor);
      StepTakesMove(parent.state, p, m);
    }
  }

  lemma TailAppend<T>(a: seq<T>, x: T)
    requires |a| >= 1
    ensures (a + [x])[1..] == a[1..] + [x]
  {
  }

  /** Recording a new board under the next number keeps the map numbered. */
  lemma NumberedExtend(start: State, visited: map<State, int>, counter: int, s: State)
    requires Numbered(start, visited, counter) && ValidState(s) && s !in visited
    ensures Numbered(start, visited[s := counter + 1], counter + 1)
  {
  }

  /** The globals after a new state is admitted, field by field. */
  lemma AdmitMoveNew(ds: DataStructure, g: Globals, parent: Node, m: Move)
    requires |parent.state| == 9 && Child(parent.state, m) !in g.visited
    ensures var g', s := AdmitMove(ds, g, parent, m), Child(parent.state, m);
      && g'.counter == g.counter + 1 && g'.visited == g.visited[s := g.counter + 1]
      && g'.Container(ds) == g.Container(ds) + [Admit(ds, g.neighbor, parent, s, g.counter + 1, m.descriptor)]
      && (g.OthersEmpty(ds) ==> g'.OthersEmpty(ds))
      && g'.neighbor.path == [] && g'.neighbor.point == g.neighbor.point
  {
    var s, c := Child(parent.state, m), g.counter + 1;
    var n := Admit(ds, g.neighbor, parent, s, c, m.descriptor);
    var g1 := g.(counter := c, visited := g.visited[s := c], neighbor := n.(state := [], path := []));
    assert forall d :: g1.Container(d) == g.Container(d);
  }

  /** Admitting a new state keeps the map numbered. */
  lemma AdmitNumbered(ds: DataStructure, start: State, g: Globals, parent: Node, m: Move)
    requires Numbered(start, g.visited, g.counter) && Shaped(ds, start, parent)
    requires MoveFrom(BlankCell(parent.state), m) && Child(parent.state, m) !in g.visited
    ensures var g' := AdmitMove(ds, g, parent, m); Numbered(start, g'.visited, g'.counter)
  {
    ChildMovesBlank(parent.state, BlankCell(parent.state), m);
    AdmitMoveNew(ds, g, parent, m);
    NumberedExtend(start, g.visited, g.counter, Child(parent.state, m));
  }

  /** Appending a shaped node for a new state, numbered above every number
      in use, keeps a container in order. */
  lemma FrontierAppend(ds: DataStructure, start: State, visited: map<State, int>, q: seq<Node>, n: Node)
    requires FrontierOk(ds, start, visited, q)
    requires Shaped(ds, start, n) && n.state !in visited
    requires forall s :: s in visited ==> visited[s] < n.count
    ensures FrontierOk(ds, start, visited[n.state := n.count], q + [n])
  {
    var visited', q' := visited[n.state := n.count], q + [n];
    forall j | 0 <= j < |q'|
      ensures Shaped(ds, start, q'[j]) && q'[j].state in visited' && visited'[q'[j].state] == q'[j].count
    {
      if j < |q| {
        assert q'[j] == q[j];
      }
    }
  }

  /** Admitting a new state keeps the container in order: the new node is
      shaped, is numbered by its state and carries the next number, above
      every number in use. */
  lemma AdmitFrontier(ds: DataStructure, start: State, g: Globals, parent: Node, m: Move)
    requires Numbered(start, g.visited, g.counter) && FrontierOk(ds, start, g.visited, g.Container(ds))
    requires Shaped(ds, start, parent) && g.neighbor.path == [] && g.neighbor.point == 0
    requires MoveFrom(BlankCell(parent.state), m) && Child(parent.state, m) !in g.visited
    ensures var g' := AdmitMove(ds, g, parent, m); FrontierOk(ds, start, g'.visited, g'.Container(ds))
  {
    var c := g.counter + 1;
    AdmitMoveNew(ds, g, parent, m);
    AdmittedShape(ds, start, parent, m, g.neighbor, c);
    FrontierAppend(ds, start, g.visited, g.Container(ds),
                   Admit(ds, g.neighbor, parent, Child(parent.state, m), c, m.descriptor));
  }

  /** Admitting a new state keeps the run consistent. */
  lemma AdmitNew(ds: DataStructure, start: State, g: Globals, parent: Node, m: Move)
    requires Consistent(ds, start, g) && Shaped(ds, start, parent)
    requires MoveFrom(BlankCell(parent.state), m) && Child(parent.state, m) !in g.visited
    ensures Consistent(ds, start, AdmitMove(ds, g, parent, m))
  {
    AdmitMoveNew(ds, g, parent, m);
    AdmitNumbered(ds, start, g, parent, m);
    AdmitFrontier(ds, start, g, parent, m);
  }

  /** One move keeps the run consistent; afterwards the move's state is in
      the map, the map has not lost a state, and the counter grew by exactly
      the number of nodes pushed. */
  lemma AdmitStep(ds: DataStructure, start: State, g: Globals, parent: Node, m: Move)
    requires Consistent(ds, start, g) && Shaped(ds, start, parent)
    requires MoveFrom(BlankCell(parent.state), m)
    ensures var g' := AdmitMove(ds, g, parent, m);
      && Consistent(ds, start, g')
      && Child(parent.state, m) in g'.visited
      && g.visited.Keys <= g'.visited.Keys && g.counter <= g'.counter
      && g'.counter - g.counter == |g'.Container(ds)| - |g.Container(ds)|
  {
    if Child(parent.state, m) !in g.visited {
      AdmitNew(ds, start, g, parent, m);
    }
  }

  /** A whole expansion keeps the run consistent, and the counter grows by
      exactly the number of nodes pushed (what it maps is `ExpandAppends`). */
  lemma {:induction false} ExpandKeeps(ds: DataStructure, start: State, g: Globals, parent: Node, moves: seq<Move>)
    requires Consistent(ds, start, g) && Shaped(ds, start, parent)
    requires forall m :: m in moves ==> MoveFrom(BlankCell(parent.state), m)
    ensures var g' := Expand(ds, g, parent, moves);
      && Consistent(ds, start, g') && g.counter <= g'.counter
      && g'.counter - g.counter == |g'.Container(ds)| - |g.Container(ds)|
    decreases |moves|
  {
    if |moves| > 0 {
      var init, last := moves[..|moves| - 1], moves[|moves| - 1];
      assert moves == init + [last];
      ExpandKeeps(ds, start, g, parent, init);
      AdmitStep(ds, start, Expand(ds, g, parent, init), parent, last);
    }
  }

  /** Pushing the root on cleared containers, with only the start recorded
      under 1, gives consistent globals whose container is the root alone. */
  lemma RootConsistent(ds: DataStructure, start: State, g0: Globals, g: Globals)
    requires ValidState(start) && g0.visited == map[start := 1] && g0.counter == 1
    requires g0.bfsQueue == [] && g0.dfsStack == [] && g0.aStarOutofPlace == [] && g0.aStarManhattan == []
    requires g0.neighbor.path == [] && g0.neighbor.point == 0
    requires g == g0.WithContainer(ds, g0.Container(ds) + [Node(BlankCell(start), start, 0, [StartPath], 1, 0)])
    ensures Running(ds, start, g)
    ensures g.Container(ds) == [Node(BlankCell(start), start, 0, [StartPath], 1, 0)]
  {
    var root := Node(BlankCell(start), start, 0, [StartPath], 1, 0);
    assert Replay(start, []) == Some(start);
    assert Shaped(ds, start, root);
    assert g.Container(ds)[0].state == start;
  }

  /** Removing one entry keeps the run consistent. */
  lemma RemoveKeeps(ds: DataStructure, start: State, g: Globals, k: int)
    requires Consistent(ds, start, g) && 0 <= k < |g.Container(ds)|
    ensures Consistent(ds, start, g.Removed(ds, k))
  {
    var q := g.Container(ds);
    var f := q[..k] + q[k + 1..];
    forall j | 0 <= j < |f| ensures f[j] == q[if j < k then j else j + 1] {
    }
  }

  // ---------------------------------------------------------------------------
  // What a search has covered

  /** Some node of the container holds state s. */
  predicate Queued(q: seq<Node>, s: State) {
    exists j :: 0 <= j < |q| && q[j].state == s
  }

  /** Every state the routine of s's blank cell generates from s is mapped. */
  ghost predicate ChildrenMapped(visited: map<State, int>, s: State)
    requires ValidState(s)
  {
    forall m :: m in MoveTable(BlankCell(s)) ==> Child(s, m) in visited
  }

  /** A closed map: every board in it has all its children in it. */
  ghost predicate Closed(visited: map<State, int>) {
    forall s {:trigger ChildrenMapped(visited, s)} :: s in visited && ValidState(s) ==> ChildrenMapped(visited, s)
  }

  /** What a running search has covered: every board of the map that has
      left the container has been expanded, and the goal, once mapped, is
      still in the container (the goal test stops the search before the goal
      node is popped). */
  ghost predicate Explored(ds: DataStructure, g: Globals) {
    && (forall s {:trigger Queued(g.Container(ds), s)} ::
          s in g.visited && ValidState(s) && !Queued(g.Container(ds), s) ==> ChildrenMapped(g.visited, s))
    && (Goal in g.visited ==> Queued(g.Container(ds), Goal))
  }

  /** An expansion maps every child it tries and keeps every mapped state;
      it only appends to the container, and every state it adds to the map
      is the state of a node it pushed. */
  lemma {:induction false} ExpandAppends(ds: DataStructure, g: Globals, parent: Node, moves: seq<Move>)
    requires |parent.state| == 9
    ensures var g' := Expand(ds, g, parent, moves);
      && (forall m :: m in moves ==> Child(parent.state, m) in g'.visited)
      && g.visited.Keys <= g'.visited.Keys
      && |g.Container(ds)| <= |g'.Container(ds)| && g'.Container(ds)[..|g.Container(ds)|] == g.Container(ds)
      && (forall s :: s in g'.visited && s !in g.visited ==> Queued(g'.Container(ds), s))
    decreases |moves|
  {
    if |moves| > 0 {
      var init, last := moves[..|moves| - 1], moves[|moves| - 1];
      assert moves == init + [last];
      ExpandAppends(ds, g, parent, init);
      var h := Expand(ds, g, parent, init);
      var child := Child(parent.state, last);
      if child !in h.visited {
        AdmitMoveNew(ds, h, parent, last);
        var g' := AdmitMove(ds, h, parent, last);
        var q, q' := h.Container(ds), g'.Container(ds);
        assert q'[..|g.Container(ds)|] == q[..|g.Container(ds)|];
        assert q'[|q|].state == child;
        forall s | s in g'.visited && s !in g.visited ensures Queued(q', s) {
          if s != child {
            var j :| 0 <= j < |q| && q[j].state == s;
            assert q'[j] == q[j];
          }
        }
      }
    }
  }

  /** A container that starts with q minus entry k still holds every state of
      q other than that entry's. */
  lemma RemovedQueued(q: seq<Node>, k: int, q': seq<Node>, s: State)
    requires 0 <= k < |q| && |q| - 1 <= |q'| && q'[..|q| - 1] == q[..k] + q[k + 1..]
    requires Queued(q, s) && s != q[k].state
    ensures Queued(q', s)
  {
    var j :| 0 <= j < |q| && q[j].state == s;
    var i := if j < k then j else j - 1;
    assert q'[i] == q'[..|q| - 1][i] == q[j];
  }

  /** A round of a driver's loop keeps what the search has covered: the
      popped node, which is not the goal, has all its children mapped
      afterwards, every other node stays in the container, and every state
      the expansion maps is pushed. */
  lemma PopExpandExplores(ds: DataStructure, g: Globals, k: int, parent: Node, g': Globals)
    requires Explored(ds, g) && 0 <= k < |g.Container(ds)|
    requires parent == g.Container(ds)[k] && parent.state != Goal && ValidState(parent.state)
    requires g' == Expand(ds, g.Removed(ds, k), parent, MoveTable(BlankCell(parent.state)))
    ensures Explored(ds, g')
  {
    var q, q' := g.Container(ds), g'.Container(ds);
    var g1 := g.Removed(ds, k);
    ExpandAppends(ds, g1, parent, MoveTable(BlankCell(parent.state)));
    forall s | s in g'.visited && ValidState(s) && !Queued(q', s) ensures ChildrenMapped(g'.visited, s) {
      if s != parent.state {
        if Queued(q, s) {
          RemovedQueued(q, k, q', s);
        }
        assert ChildrenMapped(g.visited, s);
      }
    }
    if Goal in g.visited {
      RemovedQueued(q, k, q', Goal);
    }
  }


  /** Every state that a sequence of moves leads to from a state of a closed
      map is in the map. */
  lemma {:induction false} ClosedReachable(start: State, visited: map<State, int>, moves: seq<string>)
    requires Closed(visited) && start in visited
    ensures Replay(start, moves).Some? ==> Replay(start, moves).value in visited
    decreases |moves|
  {
    if |moves| > 0 {
      var init, d := moves[..|moves| - 1], moves[|moves| - 1];
      ClosedReachable(start, visited, init);
      if Replay(start, init).Some? && Step(Replay(start, init).value, d).Some? {
        var u := Replay(start, init).value;
        var p, q := CellOf(d[0]), CellOf(d[5]);
        OneBlank(u, p - 1);
        NeighbourInTable(p, q);
        var m :| m in MoveTable(p) && m.target == q;
        TableLegal(p);
        StepTakesMove(u, p, m);
        assert ChildrenMapped(visited, u);
      }
    }
  }

  /** From a start in a closed map without the goal, no sequence of moves
      reaches the goal. */
  lemma Unreachable(start: State, visited: map<State, int>, moves: seq<string>)
    requires Closed(visited) && start in visited && Goal !in visited
    ensures Replay(start, moves) != Some(Goal)
  {
    ClosedReachable(start, visited, moves);
  }

  /** The invariant of a running search: its globals are consistent, and
      every board that left the container has been expanded. */
  ghost predicate Running(ds: DataStructure, start: State, g: Globals) {
    Consistent(ds, start, g) && Explored(ds, g)
  }

  /** A round of a driver's loop on the values of the globals: removing
      entry k of the container, which is not the goal, and expanding it by
      the routine of its blank's cell keeps the search running, loses no
      state, and grows the counter by the number of nodes pushed. */
  lemma PopExpandKeeps(ds: DataStructure, start: State, g: Globals, k: int, parent: Node, g': Globals)
    requires Running(ds, start, g) && 0 <= k < |g.Container(ds)|
    requires parent == g.Container(ds)[k] && parent.state != Goal
    requires g' == Expand(ds, g.Removed(ds, k), parent, MoveTable(BlankCell(parent.state)))
    ensures && Running(ds, start, g')
      && g.visited.Keys <= g'.visited.Keys && g.counter <= g'.counter
      && g'.counter - g.counter == |g'.Container(ds)| - (|g.Container(ds)| - 1)
  {
    var tile := BlankCell(parent.state);
    RemoveKeeps(ds, start, g, k);
    TableLegal(tile);
    ExpandKeeps(ds, start, g.Removed(ds, k), parent, MoveTable(tile));
    ExpandAppends(ds, g.Removed(ds, k), parent, MoveTable(tile));
    PopExpandExplores(ds, g, k, parent, g');
  }

  /** A search whose container ran empty never mapped the goal and its map
      is closed, so no sequence of moves leads from its start to the goal. */
  lemma ExhaustedClosed(ds: DataStructure, start: State, g: Globals)
    requires Running(ds, start, g) && g.Container(ds) == []
    ensures Goal !in g.visited && Closed(g.visited)
    ensures forall moves :: Replay(start, moves) != Some(Goal)
  {
    forall s | s in g.visited && ValidState(s) ensures ChildrenMapped(g.visited, s) {
      assert !Queued(g.Container(ds), s);
    }
    forall moves ensures Replay(start, moves) != Some(Goal) {
      Unreachable(start, g.visited, moves);
    }
  }

  /** Entry k of q has the least cheapest value of all entries. */
  predicate IsMinimal(q: seq<Node>, k: int) {
    0 <= k < |q| && forall j :: 0 <= j < |q| ==> q[k].cheapest <= q[j].cheapest
  }

  /** A node of least cheapest value: a non-empty priority queue always has
      one for top() to return. */
  function MinIndex(q: seq<Node>): (k: int)
    requires q != []
    ensures IsMinimal(q, k)
  {
    if |q| == 1 then 0
    else
      var k := MinIndex(q[..|q| - 1]);
      assert forall j :: 0 <= j < |q| - 1 ==> q[..|q| - 1][j] == q[j];
      if q[|q| - 1].cheapest < q[k].cheapest then |q| - 1 else k
  }

  // ---------------------------------------------------------------------------
  // The order of a run

  /** Entry k is the one the container's top() names: the front of the
      queue, the top of the stack, or a node of least cheapest value. */
  predicate PopIndex(ds: DataStructure, q: seq<Node>, k: int) {
    && 0 <= k < |q|
    && (ds == BfsQueue ==> k == 0)
    && (ds == DfsStack ==> k == |q| - 1)
    && (IsAStar(ds) ==> IsMinimal(q, k))
  }

  /** One turn of a driver's loop that did not stop: the node top() names
      holds a board other than the goal, and g' is g with that node popped
      and expanded by the routine of its blank's cell. */
  ghost predicate TurnAt(ds: DataStructure, g: Globals, k: int, g': Globals) {
    && PopIndex(ds, g.Container(ds), k)
    && ValidState(g.Container(ds)[k].state) && g.Container(ds)[k].state != Goal
    && g' == Expand(ds, g.Removed(ds, k), g.Container(ds)[k], MoveTable(BlankCell(g.Container(ds)[k].state)))
  }

  ghost predicate Turn(ds: DataStructure, g: Globals, g': Globals) {
    exists k :: TurnAt(ds, g, k, g')
  }

  /** Entry i + 1 of the trace is reached from entry i by one turn. */
  ghost predicate TurnFrom(ds: DataStructure, trace: seq<Globals>, i: int)
    requires 0 <= i < |trace| - 1
  {
    Turn(ds, trace[i], trace[i + 1])
  }

  /** A run: the globals before each turn, every one reached from the one
      before it by a turn of the loop. */
  ghost predicate Turns(ds: DataStructure, trace: seq<Globals>) {
    forall i {:trigger TurnFrom(ds, trace, i)} :: 0 <= i < |trace| - 1 ==> TurnFrom(ds, trace, i)
  }

  /** The globals right after a driver pushed the root: the start alone in
      the map under 1, and the root node alone in the container. */
  ghost predicate Rooted(ds: DataStructure, start: State, g: Globals) {
    && ValidState(start) && g.counter == 1 && g.visited == map[start := 1]
    && g.Container(ds) == [Node(BlankCell(start), start, 0, [StartPath], 1, 0)]
    && g.OthersEmpty(ds)
  }

  /** A run followed by one more turn is a run. */
  lemma TurnsAppend(ds: DataStructure, trace: seq<Globals>, g: Globals)
    requires trace != [] && Turns(ds, trace) && Turn(ds, trace[|trace| - 1], g)
    ensures Turns(ds, trace + [g])
  {
    var t := trace + [g];
    forall i | 0 <= i < |t| - 1 ensures TurnFrom(ds, t, i) {
      if i < |trace| - 1 {
        assert TurnFrom(ds, trace, i);
        assert t[i] == trace[i] && t[i + 1] == trace[i + 1];
      }
    }
  }

  // ---------------------------------------------------------------------------
  // Termination universe

  /** All strings of length n over the goal's nine characters. */
  ghost function Strings(n: nat): set<State> {
    if n == 0 then {[]}
    else set s, c | s in Strings(n - 1) && c in Goal :: s + [c]
  }

  lemma {:induction false} InStrings(s: State)
    requires forall k :: 0 <= k < |s| ==> s[k] in Goal
    ensures s in Strings(|s|)
  {
    if |s| > 0 {
      var t, c := s[..|s| - 1], s[|s| - 1];
      InStrings(t);
      assert s == t + [c];
    }
  }

  lemma ValidInUniverse(s: State)
    requires ValidState(s)
    ensures s in Strings(|s|)
  {
    forall k | 0 <= k < |s| ensures s[k] in Goal {
      ValidChars(s, k);
    }
    InStrings(s);
  }

  lemma SubsetCard<T>(a: set<T>, b: set<T>)
    requires a <= b
    ensures |a| <= |b|
    decreases a
  {
    if a != {} {
      var x :| x in a;
      SubsetCard(a - {x}, b - {x});
    }
  }

  /** There are finitely many boards: all of them lie in one set. */
  lemma Boards() returns (universe: set<State>)
    ensures forall s :: ValidState(s) ==> s in universe
  {
    universe := Strings(|Goal|);
    forall s | ValidState(s) ensures s in universe {
      ValidInUniverse(s);
    }
  }

  // ---------------------------------------------------------------------------
  // The engine

  /** The program's globals: counter, dataStructure, visited, the four
      containers and the nodes curr and neighbor.  `start`, the running
      search's start state, is bookkeeping. */
  class Engine {
    var counter: int
    var dataStructure: DataStructure
    var visited: map<State, int>
    var bfsQueue: seq<Node>
    var dfsStack: seq<Node>
    var aStarOutofPlace: seq<Node>
    var aStarManhattan: seq<Node>
    var curr: Node
    var neighbor: Node
    ghost var start: State

    /** The values of the globals a search changes. */
    function Snapshot(): Globals
      reads this`counter, this`visited, this`bfsQueue, this`dfsStack,
            this`aStarOutofPlace, this`aStarManhattan, this`neighbor
    {
      Globals(counter, visited, bfsQueue, dfsStack, aStarOutofPlace, aStarManhattan, neighbor)
    }

    /** The container of the running search. */
    function Frontier(): seq<Node>
      reads this`dataStructure, this`counter, this`visited, this`bfsQueue, this`dfsStack,
            this`aStarOutofPlace, this`aStarManhattan, this`neighbor
    {
      Snapshot().Container(dataStructure)
    }

    /** `neighbor` between two expansions: its path is empty and its point
        was never set. */
    ghost predicate NeighborIdle()
      reads this`neighbor
    {
      neighbor.path == [] && neighbor.point == 0
    }

    /** The state clear() leaves and the program starts in. */
    ghost predicate Cleared()
      reads this
    {
      counter == 1 && visited == map[] && bfsQueue == [] && dfsStack == []
      && aStarOutofPlace == [] && aStarManhattan == []
    }

    /** The invariant of a running search. */
    ghost predicate Valid()
      reads this`dataStructure, this`start, this`counter, this`visited, this`bfsQueue, this`dfsStack,
            this`aStarOutofPlace, this`aStarManhattan, this`neighbor
    {
      Running(dataStructure, start, Snapshot())
    }

    /** The globals at program start: counter 1, everything empty. */
    constructor ()
      ensures Cleared() && NeighborIdle()
    {
      counter := 1;
      dataStructure := BfsQueue;
      visited := map[];
      bfsQueue, dfsStack, aStarOutofPlace, aStarManhattan := [], [], [], [];
      curr := Node(0, [], 0, [], 0, 0);
      neighbor := Node(0, [], 0, [], 0, 0);
      start := Goal;
    }

    /** checkMap: scan the map's entries for one whose key is the state. */
    method CheckMap(state: State) returns (found: bool)
      ensures found <==> state in visited
    {
      var keys := visited.Keys;
      while keys != {}
        invariant keys <= visited.Keys
        invariant state !in visited.Keys - keys
        decreases |keys|
      {
        var key :| key in keys;
        if state == key {
          return true;
        }
        keys := keys - {key};
      }
      return false;
    }

    /** insertMap: std::map::insert, which keeps an existing entry. */
    method InsertMap(state: State, c: int)
      modifies this`visited
      ensures visited == if state in old(visited) then old(visited) else old(visited)[state := c]
    {
      if state !in visited {
        visited := visited[state := c];
      }
    }

    /** buildNode: fills in state, depth and count of `neighbor`; the path
        argument is not used. */
    method BuildNode(c: int, tempState: State, tempPath: string)
      modifies this`neighbor
      ensures neighbor == old(neighbor).(state := tempState, depth := curr.depth + 1, count := c)
    {
      neighbor := neighbor.(state := tempState, depth := curr.depth + 1, count := c);
    }

    /** push on the container the flag selects. */
    method Push(n: Node)
      modifies this`bfsQueue, this`dfsStack, this`aStarOutofPlace, this`aStarManhattan
      ensures Snapshot() == old(Snapshot()).WithContainer(dataStructure, old(Frontier()) + [n])
    {
      match dataStructure
      case BfsQueue => bfsQueue := bfsQueue + [n];
      case DfsStack => dfsStack := dfsStack + [n];
      case AStarOutOfPlace => aStarOutofPlace := aStarOutofPlace + [n];
      case AStarManhattan => aStarManhattan := aStarManhattan + [n];
    }

    /** Push `neighbor`, then neighbor.clear(): empty its state and path. */
    method PushNeighbor()
      modifies this`neighbor, this`bfsQueue, this`dfsStack, this`aStarOutofPlace, this`aStarManhattan
      ensures Snapshot() == old(Snapshot()).(neighbor := old(neighbor).(state := [], path := []))
                                          .WithContainer(dataStructure, old(Frontier()) + [old(neighbor)])
    {
      Push(neighbor);
      neighbor := neighbor.(state := [], path := []);
    }

    /** insertDataStructure: push `neighbor` (with its path and, under A*,
        its cheapest value set) and clear its state and path. */
    method InsertDataStructure(tempPath: string)
      requires ValidState(neighbor.state)
      modifies this`neighbor, this`bfsQueue, this`dfsStack, this`aStarOutofPlace, this`aStarManhattan
      ensures var n := Pushed(dataStructure, old(neighbor), curr, tempPath);
        Snapshot() == old(Snapshot()).(neighbor := n.(state := [], path := []))
                                      .WithContainer(dataStructure, old(Frontier()) + [n])
    {
      ghost var pushed := Pushed(dataStructure, neighbor, curr, tempPath);
      match dataStructure {
        case BfsQueue =>
          neighbor := neighbor.(path := curr.path + [tempPath]);
          assert neighbor == pushed;
          PushNeighbor();
        case DfsStack =>
          assert neighbor == pushed;
          PushNeighbor();
        case AStarOutOfPlace =>
          var h := MisplacedTiles(neighbor.state);
          neighbor := neighbor.(cheapest := neighbor.depth + h);
          neighbor := neighbor.(path := curr.path + [tempPath]);
          assert neighbor == pushed;
          PushNeighbor();
        case AStarManhattan =>
          var h := ManhattanDistance(neighbor.state);
          neighbor := neighbor.(cheapest := neighbor.depth + h);
          neighbor := neighbor.(path := curr.path + [tempPath]);
          assert neighbor == pushed;
          PushNeighbor();
      }
    }

    /** The block each tileX routine repeats for one move: swap on a fresh
        grid, and if the resulting state is new, count it, record it in the
        map, build the node and push it. */
    method TryMove(workingState: State, m: Move)
      requires ValidState(workingState)
      modifies this`counter, this`visited, this`neighbor, this`bfsQueue, this`dfsStack,
               this`aStarOutofPlace, this`aStarManhattan
      ensures Snapshot() == AdmitMove(dataStructure, old(Snapshot()), old(curr).(state := workingState), m)
    {
      ghost var g, parent := Snapshot(), curr.(state := workingState);
      var tempState := SwapOnGrid(workingState, m.swap);
      assert tempState == Child(parent.state, m);
      var seen := CheckMap(tempState);
      if !seen {
        ExchangeKeepsValid(workingState, m.swap.Lo() - 1, m.swap.Hi() - 1);
        counter := counter + 1;
        InsertMap(tempState, counter);
        var tempPath := m.descriptor;
        BuildNode(counter, tempState, tempPath);
        ghost var n := Admit(dataStructure, g.neighbor, parent, tempState, counter, tempPath);
        assert Pushed(dataStructure, neighbor, curr, tempPath) == n;
        assert Snapshot() == g.(counter := counter, visited := visited, neighbor := neighbor);
        InsertDataStructure(tempPath);
        ghost var g' := g.(counter := counter, visited := visited, neighbor := n.(state := [], path := []))
                          .WithContainer(dataStructure, g.Container(dataStructure) + [n]);
        assert AdmitMove(dataStructure, g, parent, m) == g';
        assert Snapshot() == g';
      }
    }

    /** searchPattern with tileOne .. tileNine: the moves of the blank's cell
        tried in the routine's order.  A tile outside 1..9 matches no routine
        (the `default:` branch) and changes nothing. */
    method SearchPattern(tile: int, workingState: State)
      requires ValidState(workingState) && workingState == curr.state
      modifies this`counter, this`visited, this`neighbor, this`bfsQueue, this`dfsStack,
               this`aStarOutofPlace, this`aStarManhattan
      ensures 1 <= tile <= 9 ==> Snapshot() == Expand(dataStructure, old(Snapshot()), curr, MoveTable(tile))
      ensures !(1 <= tile <= 9) ==> Snapshot() == old(Snapshot())
    {
      if !(1 <= tile <= 9) {
        return;
      }
      var moves := MoveTable(tile);
      for i := 0 to |moves|
        invariant Snapshot() == Expand(dataStructure, old(Snapshot()), curr, moves[..i])
      {
        assert moves[..i + 1][..i] == moves[..i];
        TryMove(workingState, moves[i]);
      }
      assert moves[..|moves|] == moves;
    }

    /** findEmpty: the cell number of the (last, and only) blank. */
    method FindEmpty(state: State) returns (number: int)
      requires ValidState(state)
      ensures 1 <= number <= 9 && state[number - 1] == Blank
      ensures forall k :: 0 <= k < 9 && k != number - 1 ==> state[k] != Blank
      ensures number == BlankCell(state)
    {
      number := 0;
      for i := 0 to |state|
        invariant number == 0 ==> forall k :: 0 <= k < i ==> state[k] != Blank
        invariant number != 0 ==> 1 <= number <= i && state[number - 1] == Blank
      {
        if state[i] == Blank {
          number := i + 1;
        }
      }
      BlankExists(state);
      OneBlank(state, number - 1);
    }

    /** The index of the node `front()` / `top()` returns: the front of the
        queue, the top of the stack, or a node of least cheapest value in a
        priority queue (which one among equals is left open). */
    method Top() returns (k: int)
      requires Frontier() != []
      ensures PopIndex(dataStructure, Frontier(), k)
    {
      var q := Frontier();
      if dataStructure == BfsQueue {
        k := 0;
      } else if dataStructure == DfsStack {
        k := |q| - 1;
      } else {
        k := PriorityTop(q);
      }
    }

    /** pop: remove the node Top() chose. */
    method Pop(k: int)
      requires 0 <= k < |Frontier()|
      requires dataStructure == BfsQueue ==> k == 0
      requires dataStructure == DfsStack ==> k == |Frontier()| - 1
      modifies this`bfsQueue, this`dfsStack, this`aStarOutofPlace, this`aStarManhattan
      ensures Snapshot() == old(Snapshot()).Removed(dataStructure, k)
    {
      match dataStructure
      case BfsQueue =>
        bfsQueue := bfsQueue[1..];
      case DfsStack =>
        dfsStack := dfsStack[..k];
        assert dfsStack == old(dfsStack[..k] + dfsStack[k + 1..]);
      case AStarOutOfPlace =>
        aStarOutofPlace := aStarOutofPlace[..k] + aStarOutofPlace[k + 1..];
      case AStarManhattan =>
        aStarManhattan := aStarManhattan[..k] + aStarManhattan[k + 1..];
    }

    /** The entrance node of bfs / dfs / oopl / mhttn: the start state is
        recorded under the counter (1 after clear()), and the root node is
        built and pushed on the container ds selects. */
    method PushRoot(startState: State, ds: DataStructure)
      requires Cleared() && NeighborIdle() && ValidState(startState)
      modifies this`dataStructure, this`visited, this`bfsQueue, this`dfsStack,
               this`aStarOutofPlace, this`aStarManhattan, this`start
      ensures Valid() && start == startState && dataStructure == ds
      ensures visited == map[startState := 1] && counter == 1
      ensures Frontier() == [Node(BlankCell(startState), startState, 0, [StartPath], 1, 0)]
    {
      dataStructure := ds;
      InsertMap(startState, counter);
      var startPoint := FindEmpty(startState);
      var e := Node(startPoint, startState, 0, [StartPath], counter, 0);
      ghost var g0 := Snapshot();
      Push(e);
      start := startState;
      RootConsistent(ds, startState, g0, Snapshot());
    }

    /** The tail of a driver's loop: find the blank of the popped state and
        run the routine of its cell. */
    method ExpandCurr(workingState: State)
      requires ValidState(workingState) && workingState == curr.state
      modifies this`counter, this`visited, this`neighbor, this`bfsQueue, this`dfsStack,
               this`aStarOutofPlace, this`aStarManhattan
      ensures Snapshot() == Expand(dataStructure, old(Snapshot()), curr, MoveTable(BlankCell(workingState)))
    {
      var emptyPoint := FindEmpty(workingState);
      SearchPattern(emptyPoint, workingState);
    }

    /** One round of a driver's loop after the goal test failed: pop the
        node Top() chose (already copied into curr), find its blank and
        expand it by the routine of the blank's cell. */
    method PopAndExpand(k: int, ghost universe: set<State>)
      requires Valid() && PopIndex(dataStructure, Frontier(), k) && curr == Frontier()[k]
      requires curr.state != Goal
      requires forall s :: ValidState(s) ==> s in universe
      modifies this`counter, this`visited, this`neighbor, this`bfsQueue, this`dfsStack,
               this`aStarOutofPlace, this`aStarManhattan
      ensures TurnAt(dataStructure, old(Snapshot()), k, Snapshot())
      ensures Valid()
      ensures old(visited).Keys <= visited.Keys
      ensures old(counter) <= counter && counter - old(counter) == |Frontier()| - (|old(Frontier())| - 1)
      ensures counter <= |universe|
    {
      var workingState := curr.state;
      ghost var g := Snapshot();
      FrontierBoards(dataStructure, start, g, k);
      Pop(k);
      ExpandCurr(workingState);
      PopExpandKeeps(dataStructure, start, g, k, curr, Snapshot());
      SubsetCard(visited.Keys, universe);
    }

    /** One turn of the search loop: copy the node top() names into curr
        (index k of the container); stop if it is the goal, leaving the
        globals as they were, otherwise pop it and expand it, which extends
        the run so far by the new globals. */
    method Advance(ghost universe: set<State>, ghost run: seq<Globals>) returns (found: bool, k: int, ghost run': seq<Globals>)
      requires Valid() && Frontier() != []
      requires forall s :: ValidState(s) ==> s in universe
      requires run != [] && run[|run| - 1] == Snapshot() && Turns(dataStructure, run)
      modifies this`curr, this`counter, this`visited, this`neighbor, this`bfsQueue, this`dfsStack,
               this`aStarOutofPlace, this`aStarManhattan
      ensures PopIndex(dataStructure, old(Frontier()), k) && curr == old(Frontier())[k]
      ensures found <==> curr.state == Goal
      ensures found ==> Snapshot() == old(Snapshot()) && curr in Frontier()
      ensures !found ==> TurnAt(dataStructure, old(Snapshot()), k, Snapshot())
      ensures Valid() && old(visited).Keys <= visited.Keys
      ensures found && dataStructure != DfsStack ==>
        |curr.path| == curr.depth + 1 && Replay(start, curr.path[1..]) == Some(Goal)
      ensures !found ==> old(counter) <= counter && counter <= |universe|
      ensures !found && counter == old(counter) ==> |Frontier()| < |old(Frontier())|
      ensures run' == if found then run else run + [Snapshot()]
      ensures Turns(dataStructure, run')
    {
      k := Top();
      curr := Frontier()[k];
      if CheckGoal(curr.state) {
        FrontierReplays(dataStructure, start, Snapshot(), k);
        return true, k, run;
      }
      PopAndExpand(k, universe);
      TurnsAppend(dataStructure, run, Snapshot());
      return false, k, run + [Snapshot()];
    }

    /** The `while` loop of bfs / dfs / oopl / mhttn: turns of Advance
        until the goal is at the top of the container or the container is
        empty.  The goal is returned with its node in `curr` and still in
        the container; an empty container means the goal was never generated
        and every board generated was expanded, so no sequence of moves leads
        from the start to the goal.  `trace` records the globals before each
        turn: every turn popped the node the container's discipline names. */
    method Explore(ghost universe: set<State>) returns (outcome: Outcome, ghost trace: seq<Globals>)
      requires Valid() && counter <= |universe|
      requires forall s :: ValidState(s) ==> s in universe
      modifies this`curr, this`counter, this`visited, this`neighbor, this`bfsQueue, this`dfsStack,
               this`aStarOutofPlace, this`aStarManhattan
      ensures Valid() && outcome != Error
      ensures outcome.Found? ==>
        && outcome.endState == Goal && curr.state == Goal && curr in Frontier()
        && (dataStructure != DfsStack ==> |curr.path| == curr.depth + 1 && Replay(start, curr.path[1..]) == Some(Goal))
      ensures outcome.Found? ==> exists k :: PopIndex(dataStructure, Frontier(), k) && curr == Frontier()[k]
      ensures outcome.Exhausted? ==>
        && Frontier() == [] && Goal !in visited && Closed(visited)
        && forall moves :: Replay(start, moves) != Some(Goal)
      ensures trace != [] && trace[0] == old(Snapshot()) && trace[|trace| - 1] == Snapshot()
      ensures Turns(dataStructure, trace)
    {
      trace := [Snapshot()];
      while Frontier() != []
        invariant Valid() && counter <= |universe|
        invariant trace != [] && trace[0] == old(Snapshot()) && trace[|trace| - 1] == Snapshot()
        invariant Turns(dataStructure, trace)
        decreases |universe| - counter, |Frontier()|
      {
        var found, k;
        found, k, trace := Advance(universe, trace);
        if found {
          assert PopIndex(dataStructure, Frontier(), k) && curr == Frontier()[k];
          return Found(curr.state), trace;
        }
      }
      ExhaustedClosed(dataStructure, start, Snapshot());
      return Exhausted, trace;
    }

    /** bfs / dfs / oopl / mhttn with dataStructure = ds.  A start that already
        is the goal is reported as an error before anything is touched;
        otherwise the search returns only the goal, with the goal node still
        in the container and copied into curr, and outside depth-first search
        that node's path replays from the start to the goal in depth moves.
        A search that ends with an empty container never generated the goal,
        and no sequence of moves leads from the start to it.  `trace` is the
        run from the root alone in the container to the final globals. */
    method Search(startState: State, ds: DataStructure) returns (outcome: Outcome, ghost trace: seq<Globals>)
      requires Cleared() && NeighborIdle() && ValidState(startState)
      modifies this
      ensures startState == Goal <==> outcome == Error
      ensures outcome == Error ==> unchanged(this)
      ensures outcome != Error ==> Valid() && start == startState && dataStructure == ds
      ensures outcome.Found? ==>
        && outcome.endState == Goal && curr.state == Goal && curr in Frontier()
        && (ds != DfsStack ==> |curr.path| == curr.depth + 1 && Replay(startState, curr.path[1..]) == Some(Goal))
      ensures outcome.Exhausted? ==>
        && Frontier() == [] && Goal !in visited && Closed(visited)
        && forall moves :: Replay(startState, moves) != Some(Goal)
      ensures outcome.Found? ==> exists k :: PopIndex(ds, Frontier(), k) && curr == Frontier()[k]
      ensures outcome != Error ==>
        && trace != [] && Rooted(ds, startState, trace[0]) && trace[|trace| - 1] == Snapshot()
        && Turns(ds, trace)
    {
      if startState == Goal {
        return Error, [];
      }
      PushRoot(startState, ds);
      ghost var universe := Boards();
      SubsetCard(visited.Keys, universe);
      outcome, trace := Explore(universe);
    }

    /** bfs: Search with the FIFO queue. */
    method Bfs(startState: State) returns (outcome: Outcome, ghost trace: seq<Globals>)
      requires Cleared() && NeighborIdle() && ValidState(startState)
      modifies this
      ensures startState == Goal <==> outcome == Error
      ensures outcome == Error ==> unchanged(this)
      ensures outcome != Error ==> Valid() && dataStructure == BfsQueue
      ensures outcome.Exhausted? ==>
        && Frontier() == [] && Goal !in visited && Closed(visited)
        && forall moves :: Replay(startState, moves) != Some(Goal)
      ensures outcome.Found? ==>
        && outcome.endState == Goal && curr.state == Goal && curr in Frontier()
        && |curr.path| == curr.depth + 1 && Replay(startState, curr.path[1..]) == Some(Goal)
      ensures outcome.Found? ==> exists k :: PopIndex(BfsQueue, Frontier(), k) && curr == Frontier()[k]
      ensures outcome != Error ==>
        && trace != [] && Rooted(BfsQueue, startState, trace[0]) && trace[|trace| - 1] == Snapshot()
        && Turns(BfsQueue, trace)
    {
      outcome, trace := Search(startState, BfsQueue);
    }

    /** dfs: Search with the LIFO stack; its nodes carry no path. */
    method Dfs(startState: State) returns (outcome: Outcome, ghost trace: seq<Globals>)
      requires Cleared() && NeighborIdle() && ValidState(startState)
      modifies this
      ensures startState == Goal <==> outcome == Error
      ensures outcome == Error ==> unchanged(this)
      ensures outcome != Error ==> Valid() && dataStructure == DfsStack
      ensures outcome.Exhausted? ==>
        && Frontier() == [] && Goal !in visited && Closed(visited)
        && forall moves :: Replay(startState, moves) != Some(Goal)
      ensures outcome.Found? ==> outcome.endState == Goal && curr.state == Goal && curr in Frontier()
      ensures outcome.Found? ==> exists k :: PopIndex(DfsStack, Frontier(), k) && curr == Frontier()[k]
      ensures outcome != Error ==>
        && trace != [] && Rooted(DfsStack, startState, trace[0]) && trace[|trace| - 1] == Snapshot()
        && Turns(DfsStack, trace)
    {
      outcome, trace := Search(startState, DfsStack);
    }

    /** oopl: A* search ordered by depth plus misplaced tiles. */
    method Oopl(startState: State) returns (outcome: Outcome, ghost trace: seq<Globals>)
      requires Cleared() && NeighborIdle() && ValidState(startState)
      modifies this
      ensures startState == Goal <==> outcome == Error
      ensures outcome == Error ==> unchanged(this)
      ensures outcome != Error ==> Valid() && dataStructure == AStarOutOfPlace
      ensures outcome.Exhausted? ==>
        && Frontier() == [] && Goal !in visited && Closed(visited)
        && forall moves :: Replay(startState, moves) != Some(Goal)
      ensures outcome.Found? ==>
        && outcome.endState == Goal && curr.state == Goal && curr in Frontier()
        && |curr.path| == curr.depth + 1 && Replay(startState, curr.path[1..]) == Some(Goal)
      ensures outcome.Found? ==> exists k :: PopIndex(AStarOutOfPlace, Frontier(), k) && curr == Frontier()[k]
      ensures outcome != Error ==>
        && trace != [] && Rooted(AStarOutOfPlace, startState, trace[0]) && trace[|trace| - 1] == Snapshot()
        && Turns(AStarOutOfPlace, trace)
    {
      outcome, trace := Search(startState, AStarOutOfPlace);
    }

    /** mhttn: A* search ordered by depth plus Manhattan distance. */
    method Mhttn(startState: State) returns (outcome: Outcome, ghost trace: seq<Globals>)
      requires Cleared() && NeighborIdle() && ValidState(startState)
      modifies this
      ensures startState == Goal <==> outcome == Error
      ensures outcome == Error ==> unchanged(this)
      ensures outcome != Error ==> Valid() && dataStructure == AStarManhattan
      ensures outcome.Exhausted? ==>
        && Frontier() == [] && Goal !in visited && Closed(visited)
        && forall moves :: Replay(startState, moves) != Some(Goal)
      ensures outcome.Found? ==>
        && outcome.endState == Goal && curr.state == Goal && curr in Frontier()
        && |curr.path| == curr.depth + 1 && Replay(startState, curr.path[1..]) == Some(Goal)
      ensures outcome.Found? ==> exists k :: PopIndex(AStarManhattan, Frontier(), k) && curr == Frontier()[k]
      ensures outcome != Error ==>
        && trace != [] && Rooted(AStarManhattan, startState, trace[0]) && trace[|trace| - 1] == Snapshot()
        && Turns(AStarManhattan, trace)
    {
      outcome, trace := Search(startState, AStarManhattan);
    }

    /** clear: counter back to 1, the map emptied and every container drained
        one pop at a time. */
    method Clear()
      modifies this`counter, this`visited, this`bfsQueue, this`dfsStack, this`aStarOutofPlace, this`aStarManhattan
      ensures Cleared()
    {
      counter := 1;
      visited := map[];
      while bfsQueue != []
        invariant counter == 1 && visited == map[]
        decreases |bfsQueue|
      {
        bfsQueue := bfsQueue[1..];
      }
      while dfsStack != []
        invariant counter == 1 && visited == map[] && bfsQueue == []
        decreases |dfsStack|
      {
        dfsStack := dfsStack[..|dfsStack| - 1];
      }
      while aStarOutofPlace != []
        invariant counter == 1 && visited == map[] && bfsQueue == [] && dfsStack == []
        decreases |aStarOutofPlace|
      {
        var k := PriorityTop(aStarOutofPlace);
        aStarOutofPlace := aStarOutofPlace[..k] + aStarOutofPlace[k + 1..];
      }
      while aStarManhattan != []
        invariant counter == 1 && visited == map[] && bfsQueue == [] && dfsStack == [] && aStarOutofPlace == []
        decreases |aStarManhattan|
      {
        var k := PriorityTop(aStarManhattan);
        aStarManhattan := aStarManhattan[..k] + aStarManhattan[k + 1..];
      }
    }
  }

  /** top() of a priority queue: some entry of least cheapest value. */
  method PriorityTop(q: seq<Node>) returns (k: int)
    requires q != []
    ensures IsMinimal(q, k)
  {
    assert IsMinimal(q, MinIndex(q));
    k :| IsMinimal(q, k);
  }
}
