/**
 * The snake: its body as a head-first sequence of cells, the mirror set of
 * occupied cells used for O(1) collision tests, its direction of travel and
 * the sticky self-collision flag.
 *
 * The pure part (SnakeState and its transitions) says what each operation of
 * the class does; the class Snake holds the same fields and updates them in
 * place, each method proved against its transition.
 */
module SnakeBody {
  import opened Geometry

  /** The fields of a snake, as one value. */
  datatype SnakeState = SnakeState(
    body: seq<Coord>,
    cells: set<Coord>,
    direction: Direction,
    selfCollision: bool)

  /** The distinct cells the body covers. */
  function Segments(body: seq<Coord>): set<Coord>
  {
    set c | c in body
  }

  function Last(body: seq<Coord>): Coord
    requires body != []
  {
    body[|body| - 1]
  }

  /**
   * What the class keeps true: the body is never empty and the mirror set
   * holds exactly the cells of the body.
   */
  ghost predicate ValidBody(s: SnakeState)
  {
    |s.body| >= 1 && s.cells == Segments(s.body)
  }

  /**
   * The weaker property that the move as written keeps: the set holds only
   * cells of the body, but may miss some of them.
   */
  ghost predicate SetWithinBody(s: SnakeState)
  {
    |s.body| >= 1 && s.cells <= Segments(s.body)
  }

  /** A new snake: one segment at `start`, not collided. */
  function Init(start: Coord, dir: Direction): (s: SnakeState)
    ensures ValidBody(s)
  {
    SnakeState([start], {start}, dir, false)
  }

  /** The cells of a body are those of the body without its last segment, plus that one. */
  lemma SegmentsOfPop(body: seq<Coord>)
    requires body != []
    ensures Segments(body) == Segments(body[..|body| - 1]) + {Last(body)}
  {
    assert body == body[..|body| - 1] + [Last(body)];
  }

  /**
   * The set left after the tail is popped: the tail's cell is dropped only
   * when no remaining segment covers it. Under the mirror invariant this is
   * exactly the set of the remaining segments.
   */
  function Popped(s: SnakeState): (cells: set<Coord>)
    requires s.body != []
    ensures ValidBody(s) ==> cells == Segments(s.body[..|s.body| - 1])
    ensures cells <= s.cells
  {
    SegmentsOfPop(s.body);
    if Last(s.body) in s.body[..|s.body| - 1] then s.cells else s.cells - {Last(s.body)}
  }

  /**
   * One move: the new head is one unit from the head along the direction; the
   * tail is popped BEFORE the collision test, and its cell leaves the set
   * unless another segment still covers it; a head entering a covered cell is
   * a hit unless that cell is the popped tail's (the snake may always follow
   * its own tail); on a hit the flag is set and no head is added; otherwise
   * the new head is prepended and added to the set.
   */
  function Moved(s: SnakeState): (r: SnakeState)
    requires s.body != []
    ensures ValidBody(s) ==> ValidBody(r)
    ensures r.direction == s.direction
    ensures r.cells <= s.cells + {Step(s.body[0], s.direction)}
    ensures s.selfCollision ==> r.selfCollision
    ensures |r.body| <= |s.body|
    ensures !r.selfCollision ==> |r.body| == |s.body| && r.body[0] == Step(s.body[0], s.direction)
  {
    var newHead := Step(s.body[0], s.direction);
    var rest := s.body[..|s.body| - 1];
    var cells := Popped(s);
    assert Segments([newHead] + rest) == {newHead} + Segments(rest);
    if newHead in cells && newHead != Last(s.body) then
      s.(body := rest, cells := cells, selfCollision := true)
    else
      s.(body := [newHead] + rest, cells := cells + {newHead})
  }

  /**
   * The move as the source writes it: the popped tail's key is deleted even
   * when another segment covers the same cell (after a growth, the duplicated
   * last segment). It keeps only SetWithinBody.
   */
  function MovedAsWritten(s: SnakeState): (r: SnakeState)
    requires s.body != []
    ensures SetWithinBody(s) ==> SetWithinBody(r)
    ensures r.direction == s.direction
  {
    var newHead := Step(s.body[0], s.direction);
    var rest := s.body[..|s.body| - 1];
    var cells := s.cells - {Last(s.body)};
    SegmentsOfPop(s.body);
    assert Segments([newHead] + rest) == {newHead} + Segments(rest);
    if newHead in cells then
      s.(body := rest, cells := cells, selfCollision := true)
    else
      s.(body := [newHead] + rest, cells := cells + {newHead})
  }

  /** Growth: a duplicate of the last segment is appended to the body and the set. */
  function Grown(s: SnakeState): (r: SnakeState)
    requires s.body != []
    ensures ValidBody(s) ==> ValidBody(r)
    ensures SetWithinBody(s) ==> SetWithinBody(r)
  {
    assert Segments(s.body + [Last(s.body)]) == Segments(s.body) + {Last(s.body)};
    s.(body := s.body + [Last(s.body)], cells := s.cells + {Last(s.body)})
  }

  /** A body of L segments covers at most L distinct cells. */
  lemma {:induction false} SegmentsSize(body: seq<Coord>)
    ensures |Segments(body)| <= |body|
  {
    if body != [] {
      var front := body[..|body| - 1];
      SegmentsSize(front);
      assert body == front + [Last(body)];
      assert Segments(body) == Segments(front) + {Last(body)};
    }
  }

  /** The mirror set never holds more cells than the body has segments. */
  lemma CellsSize(s: SnakeState)
    requires SetWithinBody(s)
    ensures |s.cells| <= |s.body|
  {
    SegmentsSize(s.body);
    SubsetSize(s.cells, Segments(s.body));
  }

  /** The new snake has body [start], occupies exactly start, and has not collided. */
  lemma InitShape(start: Coord, dir: Direction, p: Coord)
    ensures Init(start, dir).body == [start]
    ensures p in Init(start, dir).cells <==> p == start
    ensures !Init(start, dir).selfCollision && Init(start, dir).direction == dir
  {
  }

  /**
   * A move raises the flag exactly when the new head enters a cell covered by
   * a segment other than the tail being vacated, and is not the tail's cell
   * (or the flag was already set).
   */
  lemma MoveCollidesIff(s: SnakeState)
    requires ValidBody(s)
    ensures Moved(s).selfCollision <==>
      s.selfCollision ||
      (Step(s.body[0], s.direction) in s.body[..|s.body| - 1] && Step(s.body[0], s.direction) != Last(s.body))
  {
    assert Step(s.body[0], s.direction) in Segments(s.body[..|s.body| - 1]) <==>
      Step(s.body[0], s.direction) in s.body[..|s.body| - 1];
  }

  /** A move without a hit: head one unit ahead, the rest is the old body minus its tail, same length. */
  lemma MoveWithoutHit(s: SnakeState)
    requires ValidBody(s)
    requires Step(s.body[0], s.direction) !in s.body[..|s.body| - 1] ||
      Step(s.body[0], s.direction) == Last(s.body)
    ensures Moved(s).body[0] == Step(s.body[0], s.direction)
    ensures Moved(s).body[1..] == s.body[..|s.body| - 1]
    ensures |Moved(s).body| == |s.body|
    ensures Moved(s).cells == Segments(s.body[..|s.body| - 1]) + {Step(s.body[0], s.direction)}
    ensures Moved(s).selfCollision == s.selfCollision
  {
  }

  /** A move with a hit: the flag is set, the tail is gone and no head was added. */
  lemma MoveWithHit(s: SnakeState)
    requires ValidBody(s)
    requires Step(s.body[0], s.direction) in s.body[..|s.body| - 1]
    requires Step(s.body[0], s.direction) != Last(s.body)
    ensures Moved(s).selfCollision
    ensures Moved(s).body == s.body[..|s.body| - 1]
    ensures Moved(s).cells == Segments(s.body[..|s.body| - 1])
  {
  }

  /**
   * Moving onto the cell of the last segment is never a collision, even when
   * a growth left a second copy there: the head enters that cell.
   */
  lemma FollowingTheTailIsSafe(s: SnakeState)
    requires ValidBody(s)
    requires Step(s.body[0], s.direction) == Last(s.body)
    ensures Moved(s).selfCollision == s.selfCollision
    ensures Moved(s).body == [Last(s.body)] + s.body[..|s.body| - 1]
  {
  }

  /** As written, too, a step onto the cell of the last segment is never a collision. */
  lemma AsWrittenTailFollowNeverCollides(s: SnakeState)
    requires s.body != [] && Step(s.body[0], s.direction) == Last(s.body)
    ensures MovedAsWritten(s).selfCollision == s.selfCollision
    ensures MovedAsWritten(s).body == [Last(s.body)] + s.body[..|s.body| - 1]
  {
  }

  /** The set of a one-segment snake is empty once its tail is popped, so it cannot collide. */
  lemma SingleSegmentNeverCollides(s: SnakeState)
    requires ValidBody(s) && |s.body| == 1
    ensures Moved(s).selfCollision == s.selfCollision
    ensures Moved(s).body == [Step(s.body[0], s.direction)]
  {
    assert s.body[..0] == [];
  }

  /** Growth adds exactly one segment, a copy of the old last one, and keeps the earlier ones and the set. */
  lemma GrowShape(s: SnakeState)
    requires ValidBody(s)
    ensures |Grown(s).body| == |s.body| + 1
    ensures Grown(s).body[..|s.body|] == s.body
    ensures Last(Grown(s).body) == Last(s.body)
    ensures Grown(s).cells == s.cells
    ensures Grown(s).selfCollision == s.selfCollision && Grown(s).direction == s.direction
  {
    assert Last(s.body) in Segments(s.body);
  }

  /** Once set, the collision flag stays set through moves, growth and turns. */
  lemma CollisionIsSticky(s: SnakeState, d: Direction)
    requires ValidBody(s) && s.selfCollision
    ensures Moved(s).selfCollision && Grown(s).selfCollision && s.(direction := d).selfCollision
  {
  }

  /**
   * As written, the mirror is lost at once: after growing and moving, the
   * duplicated tail cell is still a body segment but its key has been deleted.
   */
  lemma SetMayMissBodyCell()
    ensures var s := MovedAsWritten(Grown(Init(Coord(5, 5), Right)));
      Coord(5, 5) in s.body && Coord(5, 5) !in s.cells
    ensures var s := Moved(Grown(Init(Coord(5, 5), Right)));
      Coord(5, 5) in s.body && Coord(5, 5) in s.cells
  {
    var g := Grown(Init(Coord(5, 5), Right));
    assert g.body == [Coord(5, 5), Coord(5, 5)];
    assert MovedAsWritten(g).body == [Coord(6, 5), Coord(5, 5)];
    assert Moved(g).body == [Coord(6, 5), Coord(5, 5)];
  }

  /**
   * One tick of the snake as the source writes it, after a turn to `d`:
   * a move, then a growth when the head reached food.
   */
  function TickAsWritten(s: SnakeState, d: Direction, eats: bool): SnakeState
  {
    if s.body == [] then s
    else
      var m := MovedAsWritten(s.(direction := d));
      if eats && m.body != [] then Grown(m) else m
  }

  /*
   * The states of the trace in AsWrittenMissesCollision, tick by tick, from
   * one segment at (2, 2) heading right.
   */
  const Trace1 := SnakeState([Coord(3, 2), Coord(3, 2)], {Coord(3, 2)}, Right, false)
  const Trace2 := SnakeState([Coord(3, 3), Coord(3, 2), Coord(3, 2)],
    {Coord(3, 3), Coord(3, 2)}, Down, false)
  const Trace3 := SnakeState([Coord(2, 3), Coord(3, 3), Coord(3, 2), Coord(3, 2)],
    {Coord(2, 3), Coord(3, 3), Coord(3, 2)}, Left, false)
  const Trace4 := SnakeState([Coord(2, 2), Coord(2, 3), Coord(3, 3), Coord(3, 2), Coord(3, 2)],
    {Coord(2, 2), Coord(2, 3), Coord(3, 3), Coord(3, 2)}, Up, false)
  const Trace5 := SnakeState([Coord(3, 2), Coord(2, 2), Coord(2, 3), Coord(3, 3), Coord(3, 2)],
    {Coord(2, 2), Coord(2, 3), Coord(3, 3), Coord(3, 2)}, Right, false)
  const Trace6 := SnakeState([Coord(4, 2), Coord(3, 2), Coord(2, 2), Coord(2, 3), Coord(3, 3)],
    {Coord(2, 2), Coord(2, 3), Coord(3, 3), Coord(4, 2)}, Right, false)
  const Trace7 := SnakeState([Coord(4, 3), Coord(4, 2), Coord(3, 2), Coord(2, 2), Coord(2, 3)],
    {Coord(2, 2), Coord(2, 3), Coord(4, 2), Coord(4, 3)}, Down, false)
  const Trace8 := SnakeState([Coord(3, 3), Coord(4, 3), Coord(4, 2), Coord(3, 2), Coord(2, 2)],
    {Coord(2, 2), Coord(3, 3), Coord(4, 2), Coord(4, 3)}, Left, false)

  // Ticks 1-4 eat; tick 6 pops the duplicated (3, 2) and deletes its key,
  // though the neck still covers that cell.
  lemma TraceTick1() ensures TickAsWritten(Init(Coord(2, 2), Right), Right, true) == Trace1 {}
  lemma TraceTick2() ensures TickAsWritten(Trace1, Down, true) == Trace2 {}
  lemma TraceTick3() ensures TickAsWritten(Trace2, Left, true) == Trace3 {}
  lemma TraceTick4() ensures TickAsWritten(Trace3, Up, true) == Trace4 {}
  lemma TraceTick5() ensures TickAsWritten(Trace4, Right, false) == Trace5 {}
  lemma TraceTick6() ensures TickAsWritten(Trace5, Right, false) == Trace6 {}
  lemma TraceTick7() ensures TickAsWritten(Trace6, Down, false) == Trace7 {}
  lemma TraceTick8() ensures TickAsWritten(Trace7, Left, false) == Trace8 {}

  /** Tick 9 turns up: the head lands on (3, 2), where the fourth segment was, with no collision. */
  lemma TraceTick9()
    ensures TickAsWritten(Trace8, Up, false) == SnakeState(
      [Coord(3, 2), Coord(3, 3), Coord(4, 3), Coord(4, 2), Coord(3, 2)],
      {Coord(3, 2), Coord(3, 3), Coord(4, 2), Coord(4, 3)}, Up, false)
  {
  }

  /**
   * The corrected move on the same trace: tick 5, onto the just-grown tail
   * (3, 2) of Trace4, is still not a collision, while the step up from the
   * body of Trace8 with its full set is flagged.
   */
  lemma CorrectedMoveFlagsTrace()
    ensures !Moved(Trace4.(direction := Right)).selfCollision
    ensures Moved(Trace8.(cells := Segments(Trace8.body), direction := Up)).selfCollision
  {
    var t := Trace4.(direction := Right);
    assert t.cells == Segments(t.body) by {
      assert t.body[0] == Coord(2, 2) && t.body[1] == Coord(2, 3) && t.body[2] == Coord(3, 3);
      assert t.body[3] == Coord(3, 2) && t.body[4] == Coord(3, 2);
    }
    FollowingTheTailIsSafe(t);
    var c := Trace8.(cells := Segments(Trace8.body), direction := Up);
    assert c.body[..4][3] == Coord(3, 2);
    MoveCollidesIff(c);
  }

  /**
   * As written, a head can enter the middle of the body unnoticed. From one
   * segment at (2, 2) heading right, four ticks that eat (turning down, left,
   * up), two moves right and turns down and left reach Trace8, whose set has
   * lost the cell (3, 2) of its fourth segment. Turning up then moves the
   * head onto that segment, which is not the tail, and no collision is
   * flagged. Every turn is one the key filter lets through.
   */
  lemma AsWrittenMissesCollision()
    ensures TickAsWritten(TickAsWritten(TickAsWritten(TickAsWritten(TickAsWritten(TickAsWritten(
      TickAsWritten(TickAsWritten(Init(Coord(2, 2), Right), Right, true), Down, true), Left, true),
      Up, true), Right, false), Right, false), Down, false), Left, false) == Trace8
    ensures Trace8.body[3] == Coord(3, 2) && Coord(3, 2) !in Trace8.cells
    ensures var s := TickAsWritten(Trace8, Up, false);
      !s.selfCollision && s.body[0] == Trace8.body[3] && Trace8.body[3] != Last(Trace8.body)
  {
    TraceTick1(); TraceTick2(); TraceTick3(); TraceTick4();
    TraceTick5(); TraceTick6(); TraceTick7(); TraceTick8(); TraceTick9();
  }

  /**
   * A loop-shaped snake of five segments that turns down onto its fourth
   * segment (not the tail being vacated) collides and gains no head.
   */
  lemma LoopCollides()
    ensures var body := [Coord(1, 1), Coord(2, 1), Coord(2, 2), Coord(1, 2), Coord(0, 2)];
      var s := SnakeState(body, Segments(body), Down, false);
      Moved(s).selfCollision && Moved(s).body == body[..4]
  {
    var body := [Coord(1, 1), Coord(2, 1), Coord(2, 2), Coord(1, 2), Coord(0, 2)];
    assert body[3] == Coord(1, 2);
    MoveCollidesIff(SnakeState(body, Segments(body), Down, false));
  }

  /** k moves in a row, with no growth and no turn. */
  function MoveTimes(s: SnakeState, k: nat): (r: SnakeState)
    requires ValidBody(s)
    ensures ValidBody(r)
  {
    if k == 0 then s else Moved(MoveTimes(s, k - 1))
  }

  /** The body lies in a straight line behind the head, against the direction of travel. */
  ghost predicate Straight(s: SnakeState)
    requires s.body != []
  {
    forall i :: 0 <= i < |s.body| ==> s.body[i] == Shift(s.body[0], s.direction, -i)
  }

  /** One move of a straight snake advances its head one unit and keeps it straight and whole. */
  lemma StraightMove(s: SnakeState)
    requires ValidBody(s) && Straight(s)
    ensures Moved(s).selfCollision == s.selfCollision
    ensures |Moved(s).body| == |s.body|
    ensures Moved(s).body[0] == Shift(s.body[0], s.direction, 1)
    ensures Straight(Moved(s))
  {
    var d, h := s.direction, s.body[0];
    var newHead := Step(h, d);
    assert newHead !in s.cells by {
      forall c | c in Segments(s.body) ensures c != newHead {
        var i :| 0 <= i < |s.body| && s.body[i] == c;
        ShiftInjective(h, d, -i, 1);
      }
    }
    var r := Moved(s);
    assert r.body == [newHead] + s.body[..|s.body| - 1];
    forall i | 0 <= i < |r.body| ensures r.body[i] == Shift(newHead, d, -i) {
      if i > 0 {
        assert r.body[i] == s.body[i - 1];
        ShiftAdds(h, d, 1, -i);
      }
    }
  }

  /** k moves of a straight snake keep it straight and whole, with the head k units ahead. */
  lemma {:induction false} StraightMovesHead(s: SnakeState, k: nat)
    requires ValidBody(s) && Straight(s)
    ensures |MoveTimes(s, k).body| == |s.body|
    ensures MoveTimes(s, k).direction == s.direction
    ensures MoveTimes(s, k).selfCollision == s.selfCollision
    ensures Straight(MoveTimes(s, k))
    ensures MoveTimes(s, k).body[0] == Shift(s.body[0], s.direction, k)
  {
    if k > 0 {
      StraightMovesHead(s, k - 1);
      var r := MoveTimes(s, k - 1);
      StraightMove(r);
      assert MoveTimes(s, k) == Moved(r);
      ShiftAdds(s.body[0], s.direction, k - 1, 1);
    }
  }

  /**
   * A straight snake moved k times translates every segment k units along its
   * direction, keeps its length and never collides.
   */
  lemma StraightMovesTranslate(s: SnakeState, k: nat)
    requires ValidBody(s) && Straight(s)
    ensures |MoveTimes(s, k).body| == |s.body|
    ensures MoveTimes(s, k).selfCollision == s.selfCollision
    ensures forall i :: 0 <= i < |s.body| ==>
      MoveTimes(s, k).body[i] == Shift(s.body[i], s.direction, k)
  {
    var d, h := s.direction, s.body[0];
    StraightMovesHead(s, k);
    var r := MoveTimes(s, k);
    forall i | 0 <= i < |s.body|
      ensures r.body[i] == Shift(s.body[i], d, k)
    {
      calc {
        r.body[i];
        Shift(r.body[0], d, -i);
        { ShiftAdds(h, d, k, -i); }
        Shift(h, d, k - i);
        { ShiftAdds(h, d, -i, k); }
        Shift(s.body[i], d, k);
      }
    }
  }

  /** The snake entity, with the fields that its methods update in place. */
  class Snake {
    /** The segments, head first. */
    var body: seq<Coord>
    /** The occupied cells, for O(1) collision checks. */
    var bodySet: set<Coord>
    var direction: Direction
    var selfCollision: bool

    function State(): SnakeState
      reads this
    {
      SnakeState(body, bodySet, direction, selfCollision)
    }

    ghost predicate Valid()
      reads this
    {
      ValidBody(State())
    }

    constructor (startLocation: Coord, startDirection: Direction)
      ensures Valid()
      ensures State() == Init(startLocation, startDirection)
    {
      body := [startLocation];
      bodySet := {startLocation};
      direction := startDirection;
      selfCollision := false;
    }

    /** Whether the set marks `p` occupied; under the invariant, exactly when a segment covers `p`. */
    predicate Occupies(p: Coord)
      reads this
      ensures Occupies(p) <==> p in bodySet
      ensures Valid() ==> (Occupies(p) <==> p in body)
    {
      p in bodySet
    }

    method Move()
      requires Valid()
      modifies this
      ensures Valid()
      ensures State() == Moved(old(State()))
    {
      var head := body[0];
      var newHead := Step(head, direction);
      var tail := body[|body| - 1];
      body := body[..|body| - 1];
      if tail !in body {
        bodySet := bodySet - {tail};
      }
      if Occupies(newHead) && newHead != tail {
        selfCollision := true;
        return;
      }
      body := [newHead] + body;
      bodySet := bodySet + {newHead};
    }

    method Grow()
      requires Valid()
      modifies this
      ensures Valid()
      ensures State() == Grown(old(State()))
    {
      var tail := body[|body| - 1];
      var newTail := tail;
      body := body + [newTail];
      bodySet := bodySet + {newTail};
    }

    /** Sets the direction with no validation; only the direction changes. */
    method SetDirection(d: Direction)
      modifies this
      ensures State() == old(State()).(direction := d)
    {
      direction := d;
    }

    function GetDirection(): (d: Direction)
      reads this
      ensures d == State().direction
    {
      direction
    }

    /** The head is the first segment. */
    function GetHead(): (h: Coord)
      requires Valid()
      reads this
      ensures h == body[0] && h in body
    {
      body[0]
    }

    function IsSelfCollision(): (b: bool)
      reads this
      ensures b == State().selfCollision
    {
      selfCollision
    }

    /** A copy of the segments, head first. */
    function GetBody(): (b: seq<Coord>)
      reads this
      ensures b == State().body
    {
      body
    }

    /** The number of segments, at least one under the invariant. */
    function GetBodyLength(): (n: int)
      reads this
      ensures n == |State().body|
      ensures Valid() ==> n >= 1
    {
      |body|
    }
  }
}
