/** The move generator of the hexagonal "coins" puzzle in
    kongregate/coins.py.  Coins of two colours (0 and 1) sit on the squares
    of a hexagonal grid given in axial coordinates; a coin may be lifted and
    put down on an empty square that touches a coin of each colour, not
    counting the coin being moved.  A state maps occupied squares to the
    colour of their coin. */
module Coins {
  import opened Exceptions

  type Square = (int, int)
  type State = map<Square, int>

  datatype Move = Move(from: Square, to: Square)

  /** The six hex directions of `NEIGHBORS`. */
  const Offsets: seq<Square> := [(1, 0), (-1, 0), (0, 1), (0, -1), (1, -1), (-1, 1)]

  /** `b` is one step from `a` in one of the six directions. */
  predicate Adjacent(a: Square, b: Square)
  {
    (b.0 - a.0, b.1 - a.1) in Offsets
  }

  // ---------------------------------------------------------------------
  // get_neighbors

  function Neighbors(sq: Square): (r: set<Square>)
    ensures forall n :: n in r <==> Adjacent(sq, n)
  {
    var (x, y) := sq;
    {(x + 1, y), (x - 1, y), (x, y + 1), (x, y - 1), (x + 1, y - 1), (x - 1, y + 1)}
  }

  /** Exactly six distinct squares surround every square. */
  lemma SixNeighbors(sq: Square)
    ensures |Neighbors(sq)| == 6
    ensures sq !in Neighbors(sq)
  {
    SixOffsetsDistinct(sq.0, sq.1);
  }

  lemma SixOffsetsDistinct(x: int, y: int)
    ensures |{(x + 1, y), (x - 1, y), (x, y + 1), (x, y - 1), (x + 1, y - 1), (x - 1, y + 1)}| == 6
  {
    var s1 := {(x + 1, y)};
    AddFresh(s1, (x - 1, y));
    var s2 := s1 + {(x - 1, y)};
    AddFresh(s2, (x, y + 1));
    var s3 := s2 + {(x, y + 1)};
    AddFresh(s3, (x, y - 1));
    var s4 := s3 + {(x, y - 1)};
    AddFresh(s4, (x + 1, y - 1));
    var s5 := s4 + {(x + 1, y - 1)};
    AddFresh(s5, (x - 1, y + 1));
    assert s5 + {(x - 1, y + 1)} == {(x + 1, y), (x - 1, y), (x, y + 1), (x, y - 1), (x + 1, y - 1), (x - 1, y + 1)};
  }

  lemma AddFresh<T>(s: set<T>, x: T)
    requires x !in s
    ensures |s + {x}| == |s| + 1
  {
  }

  /** Adjacency goes both ways. */
  lemma NeighborsSymmetric(a: Square, b: Square)
    ensures b in Neighbors(a) <==> a in Neighbors(b)
  {
  }

  // ---------------------------------------------------------------------
  // legal_moves_set

  /** `sets[color]` indexes a two-element list, so Python accepts the
      colours -2..1, the negative ones counting from the end. */
  predicate ColorIndexable(c: int)
  {
    -2 <= c <= 1
  }

  function Side(c: int): (k: int)
    requires ColorIndexable(c)
    ensures k == 0 || k == 1
  {
    if c < 0 then c + 2 else c
  }

  /** Every coin other than the one at `square` has an indexable colour. */
  predicate OthersIndexable(state: State, square: Square)
  {
    forall a :: a in state && a != square ==> ColorIndexable(state[a])
  }

  /** `sets[side]` after the loop: every neighbour of a coin of that side,
      other than the coin at `square`. */
  function Covered(state: State, square: Square, side: int): set<Square>
    requires OthersIndexable(state, square)
  {
    set a, n | a in state && a != square && Side(state[a]) == side && n in Neighbors(a) :: n
  }

  /** Some coin other than the one at `square`, of the given side, touches `n`. */
  predicate Touches(state: State, square: Square, n: Square, side: int)
    requires OthersIndexable(state, square)
  {
    exists a :: a in state && a != square && Side(state[a]) == side && Adjacent(a, n)
  }

  /** The squares `legal_moves_set` returns once its checks have passed. */
  function Targets(state: State, square: Square): (r: set<Square>)
    requires OthersIndexable(state, square)
  {
    (Covered(state, square, 0) * Covered(state, square, 1)) - state.Keys
  }

  lemma TargetsSpec(state: State, square: Square, n: Square)
    requires OthersIndexable(state, square)
    ensures n in Targets(state, square) <==>
      n !in state && Touches(state, square, n, 0) && Touches(state, square, n, 1)
  {
    if Touches(state, square, n, 0) {
      var a :| a in state && a != square && Side(state[a]) == 0 && Adjacent(a, n);
      assert n in Neighbors(a);
    }
    if Touches(state, square, n, 1) {
      var a :| a in state && a != square && Side(state[a]) == 1 && Adjacent(a, n);
      assert n in Neighbors(a);
    }
  }

  /** `legal_moves_set(state, square)`: raises `Exception` when `square` is
      empty and `IndexError` when another coin's colour cannot index
      `sets`. */
  function LegalMovesSet(state: State, square: Square): (r: Outcome<set<Square>>)
    ensures square !in state <==> r == Raises("Exception")
    ensures r.Returns? <==> square in state && OthersIndexable(state, square)
    ensures r.Raises? ==> r.error == "Exception" || r.error == "IndexError"
  {
    if square !in state then Raises("Exception")
    else if !OthersIndexable(state, square) then Raises("IndexError")
    else Returns(Targets(state, square))
  }

  /** A returned square is empty and touches a coin of each colour other
      than the moving one; and every such square is returned. */
  lemma LegalMovesSetSpec(state: State, square: Square)
    requires LegalMovesSet(state, square).Returns?
    ensures forall n :: n in LegalMovesSet(state, square).value <==>
      n !in state && Touches(state, square, n, 0) && Touches(state, square, n, 1)
  {
    forall n {
      TargetsSpec(state, square, n);
    }
  }

  /** The moving coin never supports itself: a target that only it touches
      on one side is not returned. */
  lemma MovingCoinIgnored(state: State, square: Square, n: Square)
    requires LegalMovesSet(state, square).Returns?
    requires forall a :: a in state && a != square && Adjacent(a, n) ==> Side(state[a]) == 0
    ensures n !in LegalMovesSet(state, square).value
  {
    TargetsSpec(state, square, n);
  }

  // ---------------------------------------------------------------------
  // legal_moves, GamePath

  /** `legal_moves(state, square)`, one `Move` per target; the list's order
      is the set's iteration order and is not modelled. */
  function LegalMoves(state: State, square: Square): (r: Outcome<set<Move>>)
    ensures r.Raises? <==> LegalMovesSet(state, square).Raises?
    ensures r.Raises? ==> r.error == LegalMovesSet(state, square).error
    ensures r.Returns? ==> forall m :: m in r.value <==>
      m.from == square && m.to in LegalMovesSet(state, square).value
  {
    match LegalMovesSet(state, square)
    case Raises(e) => Raises(e)
    case Returns(targets) => Returns(set n | n in targets :: Move(square, n))
  }

  /** `GamePath`: the start, the current state and the moves made so far;
      `num_moves` is `|moves|`. */
  datatype GamePath = GamePath(start: State, curr: State, moves: seq<Move>)

  /** `GamePath(start_state, curr_state, moves)`: an empty current state is
      falsy, so it falls back to the start. */
  function NewPath(start: State, curr: State, moves: seq<Move>): (p: GamePath)
    ensures p.start == start && p.moves == moves
    ensures |curr| > 0 ==> p.curr == curr
    ensures |curr| == 0 ==> p.curr == start
  {
    GamePath(start, if |curr| > 0 then curr else start, moves)
  }

  function NumMoves(p: GamePath): nat
  {
    |p.moves|
  }

  /** `is_done(goal)`. */
  predicate IsDone(p: GamePath, goal: State)
  {
    p.curr == goal
  }

  /** `make_move(move)`: copy the state, put the coin of `from` on `to`,
      delete `from`.  An empty `from` raises `KeyError`.  The original path
      is a value and so is untouched. */
  function MakeMove(p: GamePath, m: Move): (r: Outcome<GamePath>)
    ensures m.from !in p.curr <==> r == Raises("KeyError")
    ensures r.Returns? ==> r.value.start == p.start && r.value.moves == p.moves + [m]
  {
    if m.from !in p.curr then Raises("KeyError")
    else NextPath(p, m)
  }

  function NextPath(p: GamePath, m: Move): (r: Outcome<GamePath>)
    requires m.from in p.curr
    ensures r.Returns?
  {
    var s := p.curr[m.to := p.curr[m.from]];
    Returns(NewPath(p.start, s - {m.from}, p.moves + [m]))
  }

  /** Moving a coin to an empty square keeps the coin count, gives `to` the
      moved colour, empties `from` and leaves every other square alone. */
  lemma MakeMoveMovesOneCoin(p: GamePath, m: Move)
    requires m.from in p.curr && m.to !in p.curr
    ensures MakeMove(p, m).Returns?
    ensures var c := MakeMove(p, m).value.curr;
      |c| == |p.curr| && m.from !in c && m.to in c && c[m.to] == p.curr[m.from]
      && (forall sq :: sq != m.from && sq != m.to ==> (sq in c <==> sq in p.curr))
      && (forall sq :: sq in c && sq != m.to ==> c[sq] == p.curr[sq])
    ensures NumMoves(MakeMove(p, m).value) == NumMoves(p) + 1
  {
    var s := p.curr[m.to := p.curr[m.from]];
    assert |s| == |p.curr| + 1;
    assert |s - {m.from}| == |s| - 1;
  }

  /** A move whose source and target coincide deletes the coin, because
      the deletion runs after the copy. */
  lemma SelfMoveDeletes(p: GamePath, sq: Square)
    requires sq in p.curr && |p.curr| > 1
    ensures MakeMove(p, Move(sq, sq)).Returns?
    ensures MakeMove(p, Move(sq, sq)).value.curr == p.curr - {sq}
  {
    var s := p.curr[sq := p.curr[sq]];
    assert s == p.curr;
    assert |p.curr - {sq}| == |p.curr| - 1;
  }

  /** `next_moves()`: the legal moves of every coin.  Any coin whose
      colour cannot index `sets` makes the scan of another coin raise
      `IndexError`; the order of the list is not modelled. */
  function NextMoves(p: GamePath): (r: Outcome<set<Move>>)
    ensures r.Raises? ==> r.error == "IndexError"
  {
    if forall sq :: sq in p.curr ==> OthersIndexable(p.curr, sq) then
      Returns(set sq, n | sq in p.curr && n in Targets(p.curr, sq) :: Move(sq, n))
    else Raises("IndexError")
  }

  /** `next_moves()` fails exactly when some coin's `legal_moves` fails, and
      otherwise holds exactly the legal moves of every coin. */
  lemma NextMovesSpec(p: GamePath)
    ensures NextMoves(p).Raises? <==> exists sq :: sq in p.curr && LegalMoves(p.curr, sq).Raises?
    ensures NextMoves(p).Returns? ==> forall m :: m in NextMoves(p).value <==>
      m.from in p.curr && LegalMoves(p.curr, m.from).Returns? && m in LegalMoves(p.curr, m.from).value
  {
  }

  /** Every generated move is one `MakeMove` accepts and keeps the coin count. */
  lemma NextMovesKeepCount(p: GamePath, m: Move)
    requires NextMoves(p).Returns? && m in NextMoves(p).value
    ensures MakeMove(p, m).Returns? && |MakeMove(p, m).value.curr| == |p.curr|
  {
    assert m.to in Targets(p.curr, m.from);
    MakeMoveMovesOneCoin(p, m);
  }

  // ---------------------------------------------------------------------
  // dist_from_goal

  /** The goal squares whose colour in `curr` differs; a missing square
      reads as `None` and so always differs. */
  function Mismatched(curr: State, goal: State, within: set<Square>): set<Square>
  {
    set sq | sq in within && sq in goal && (sq !in curr || curr[sq] != goal[sq])
  }

  /** `dist_from_goal(curr_state, goal)`: one pass over the goal. */
  method DistFromGoal(curr: State, goal: State) returns (tot: nat)
    ensures tot == |Mismatched(curr, goal, goal.Keys)|
    ensures tot <= |goal|
    ensures tot == 0 <==> forall sq :: sq in goal ==> sq in curr && curr[sq] == goal[sq]
  {
    tot := 0;
    var rest := goal.Keys;
    while rest != {}
      invariant rest <= goal.Keys
      invariant tot == |Mismatched(curr, goal, goal.Keys - rest)|
      decreases rest
    {
      var sq :| sq in rest;
      MismatchedAdd(curr, goal, goal.Keys - rest, sq);
      if sq !in curr || curr[sq] != goal[sq] {
        tot := tot + 1;
      }
      assert goal.Keys - (rest - {sq}) == (goal.Keys - rest) + {sq};
      rest := rest - {sq};
    }
    assert goal.Keys - rest == goal.Keys;
    MismatchedWhole(curr, goal);
  }

  /** The mismatches over the whole goal are at most the goal's size, and
      there are none exactly when every goal square holds its colour. */
  lemma MismatchedWhole(curr: State, goal: State)
    ensures |Mismatched(curr, goal, goal.Keys)| <= |goal|
    ensures |Mismatched(curr, goal, goal.Keys)| == 0
      <==> forall sq :: sq in goal ==> sq in curr && curr[sq] == goal[sq]
  {
    var m := Mismatched(curr, goal, goal.Keys);
    SubsetCard(m, goal.Keys);
    if |m| == 0 {
      forall sq | sq in goal
        ensures sq in curr && curr[sq] == goal[sq]
      {
        assert sq !in m;
      }
    } else {
      var sq :| sq in m;
    }
  }

  /** Looking at one more goal square adds it to the mismatches exactly when
      its colour differs. */
  lemma MismatchedAdd(curr: State, goal: State, done: set<Square>, sq: Square)
    requires sq in goal && sq !in done
    ensures |Mismatched(curr, goal, done + {sq})|
      == |Mismatched(curr, goal, done)| + (if sq !in curr || curr[sq] != goal[sq] then 1 else 0)
  {
    if sq !in curr || curr[sq] != goal[sq] {
      assert Mismatched(curr, goal, done + {sq}) == Mismatched(curr, goal, done) + {sq};
    } else {
      assert Mismatched(curr, goal, done + {sq}) == Mismatched(curr, goal, done);
    }
  }

  lemma SubsetCard<T>(a: set<T>, b: set<T>)
    requires a <= b
    ensures |a| <= |b|
  {
    assert b == a + (b - a);
  }

  /** Reaching the goal means a distance of zero. */
  lemma DoneMeansNoDistance(p: GamePath, goal: State)
    requires IsDone(p, goal)
    ensures |Mismatched(p.curr, goal, goal.Keys)| == 0
  {
    assert Mismatched(p.curr, goal, goal.Keys) == {};
  }

  /** With as many coins as the goal, a distance of zero means done. */
  lemma NoDistanceMeansDone(p: GamePath, goal: State)
    requires |p.curr| == |goal| && |Mismatched(p.curr, goal, goal.Keys)| == 0
    ensures IsDone(p, goal)
  {
    forall sq | sq in goal
      ensures sq in p.curr && p.curr[sq] == goal[sq]
    {
      assert sq !in Mismatched(p.curr, goal, goal.Keys);
    }
    assert goal.Keys <= p.curr.Keys;
    assert p.curr.Keys == goal.Keys by {
      SubsetEqualCard(goal.Keys, p.curr.Keys);
    }
  }

  lemma SubsetEqualCard<T>(a: set<T>, b: set<T>)
    requires a <= b && |a| == |b|
    ensures a == b
  {
    assert |b - a| == |b| - |a|;
  }
}
