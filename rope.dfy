/** The multi-knot rope of test_day09/test_ex16.py: a list of knots whose head
    takes unit steps and whose other knots each follow the knot ahead of them. */
module Rope {
  import opened Wrappers
  import Text

  datatype Direction = Direction(deltaX: int, deltaY: int)

  const Right := Direction(1, 0)
  const Left := Direction(-1, 0)
  const Up := Direction(0, 1)
  const Down := Direction(0, -1)

  datatype Position = Position(x: int, y: int) {
    /** `Position.get_next_position`: this position moved by `d`. */
    function NextPosition(d: Direction): Position {
      Position(x + d.deltaX, y + d.deltaY)
    }
  }

  const Origin := Position(0, 0)

  /** The opposite of a direction: LEFT undoes RIGHT and DOWN undoes UP. */
  function Opposite(d: Direction): (r: Direction)
    ensures r.deltaX == -d.deltaX && r.deltaY == -d.deltaY
    ensures d == Right <==> r == Left
    ensures d == Left <==> r == Right
    ensures d == Up <==> r == Down
    ensures d == Down <==> r == Up
  {
    Direction(-d.deltaX, -d.deltaY)
  }

  /** Stepping by a direction moves by its deltas, and stepping back by the
      opposite direction undoes the step; the test's examples are RIGHT and
      LEFT from (2, 6). */
  lemma NextPositionMoves(p: Position, d: Direction)
    ensures p.NextPosition(d).x - p.x == d.deltaX && p.NextPosition(d).y - p.y == d.deltaY
    ensures p.NextPosition(d).NextPosition(Opposite(d)) == p
    ensures Position(2, 6).NextPosition(Right) == Position(3, 6)
    ensures Position(2, 6).NextPosition(Left) == Position(1, 6)
  {
  }

  function Abs(n: int): nat { if n < 0 then -n else n }

  function Max(a: int, b: int): int { if a < b then b else a }

  /** Chebyshev distance: the larger of the two coordinate differences. */
  function Distance(a: Position, b: Position): nat {
    Max(Abs(a.x - b.x), Abs(a.y - b.y))
  }

  /** `diff // abs(diff) if diff else 0`: the sign of `diff`. */
  function Sign(diff: int): int
  {
    if diff > 0 then 1 else if diff < 0 then -1 else 0
  }

  /** `_move_next_if_needed`: where `follower` ends up once `leader` has moved. */
  function Follow(leader: Position, follower: Position): Position
  {
    var dx := leader.x - follower.x;
    var dy := leader.y - follower.y;
    if Max(Abs(dx), Abs(dy)) > 1 then
      Position(follower.x + Sign(dx), follower.y + Sign(dy))
    else
      follower
  }

  /** The followers `rest`, settled one after the other behind `leader`. */
  function FollowChain(leader: Position, rest: seq<Position>): (r: seq<Position>)
    ensures |r| == |rest|
    decreases |rest|
  {
    if rest == [] then []
    else
      var f := Follow(leader, rest[0]);
      [f] + FollowChain(f, rest[1..])
  }

  /** One head step in direction `d` and the re-settling pass behind it. */
  function Step(rope: seq<Position>, d: Direction): (r: seq<Position>)
    requires rope != []
    ensures |r| == |rope|
  {
    var h := rope[0].NextPosition(d);
    [h] + FollowChain(h, rope[1..])
  }

  /** The rope after `n` head steps in direction `d`. */
  function Moved(rope: seq<Position>, d: Direction, n: nat): (r: seq<Position>)
    requires rope != []
    ensures |r| == |rope|
    decreases n
  {
    if n == 0 then rope else Moved(Step(rope, d), d, n - 1)
  }

  /** The tail positions reached after each of the `n` steps. */
  function TailTrail(rope: seq<Position>, d: Direction, n: nat): set<Position>
    requires rope != []
    decreases n
  {
    if n == 0 then {}
    else
      var next := Step(rope, d);
      {next[|next| - 1]} + TailTrail(next, d, n - 1)
  }

  /** Every knot is within Chebyshev distance 1 of the knot ahead of it. */
  predicate Connected(rope: seq<Position>) {
    forall i :: 0 <= i < |rope| - 1 ==> Distance(rope[i], rope[i + 1]) <= 1
  }

  predicate IsUnit(d: Direction) { Abs(d.deltaX) <= 1 && Abs(d.deltaY) <= 1 }

  /** The number of knots `RopeSimulator` is given when no length is passed. */
  const DefaultRopeLength: nat := 10

  class RopeSimulator {
    var rope: seq<Position>
    var tailVisitedTiles: set<Position>

    /** `RopeSimulator(rope_length)`: every knot at the origin and no tail
        position recorded yet. A non-positive length gives an empty rope. */
    constructor (ropeLength: int)
      ensures |rope| == Max(ropeLength, 0)
      ensures forall i :: 0 <= i < |rope| ==> rope[i] == Origin
      ensures tailVisitedTiles == {}
    {
      rope := seq(Max(ropeLength, 0), _ => Origin);
      tailVisitedTiles := {};
    }

    /** `RopeSimulator()` with its default `rope_length` of ten knots. */
    constructor Default()
      ensures |rope| == DefaultRopeLength
      ensures forall i :: 0 <= i < |rope| ==> rope[i] == Origin
      ensures tailVisitedTiles == {}
    {
      rope := seq(DefaultRopeLength, _ => Origin);
      tailVisitedTiles := {};
    }

    function Head(): Position
      reads this
      requires rope != []
    {
      rope[0]
    }

    function Tail(): Position
      reads this
      requires rope != []
    {
      rope[|rope| - 1]
    }

    /** `count_tail_visited_tiles`. */
    function CountTailVisitedTiles(): nat
      reads this
    {
      |tailVisitedTiles|
    }

    /** `_move_next_if_needed(iActual, iNext)`: replaces knot `iNext` by where it
        follows knot `iActual` to. */
    method MoveNextIfNeeded(iActual: nat, iNext: nat)
      requires iActual < |rope| && iNext < |rope|
      modifies this
      ensures rope == old(rope)[iNext := Follow(old(rope)[iActual], old(rope)[iNext])]
      ensures tailVisitedTiles == old(tailVisitedTiles)
    {
      var xDiff := rope[iActual].x - rope[iNext].x;
      var yDiff := rope[iActual].y - rope[iNext].y;
      if Max(Abs(xDiff), Abs(yDiff)) > 1 {
        rope := rope[iNext := Position(rope[iNext].x + Sign(xDiff), rope[iNext].y + Sign(yDiff))];
      }
    }

    /** The pairwise pass of `move`: knots 1, 2, ... each follow the knot just
        before them, using that knot's already updated position. */
    method SettleFollowers()
      requires rope != []
      modifies this
      ensures rope == [old(rope)[0]] + FollowChain(old(rope)[0], old(rope)[1..])
      ensures tailVisitedTiles == old(tailVisitedTiles)
    {
      ghost var before := rope;
      ghost var settled := [before[0]] + FollowChain(before[0], before[1..]);
      var i := 0;
      while i < |rope| - 1
        invariant 0 <= i <= |rope| - 1 && |rope| == |before|
        invariant rope[..i + 1] == settled[..i + 1]
        invariant rope[i + 1..] == before[i + 1..]
        invariant tailVisitedTiles == old(tailVisitedTiles)
      {
        FollowChainAt(before[0], before[1..], i);
        assert rope[i] == settled[i] && rope[i + 1] == before[i + 1];
        MoveNextIfNeeded(i, i + 1);
        assert rope[i + 2..] == before[i + 2..];
        i := i + 1;
      }
      assert rope == rope[..i + 1];
    }

    /** `move(direction, steps)`: `steps` head steps (none when not positive),
        each followed by the re-settling pass and the recording of the tail. */
    method Move(direction: Direction, steps: int)
      requires steps > 0 ==> rope != []
      modifies this
      ensures rope == if steps <= 0 then old(rope) else Moved(old(rope), direction, steps)
      ensures tailVisitedTiles ==
              if steps <= 0 then old(tailVisitedTiles)
              else old(tailVisitedTiles) + TailTrail(old(rope), direction, steps)
    {
      var done := 0;
      while done < steps
        invariant steps > 0 ==> 0 <= done <= steps
        invariant steps <= 0 ==> done == 0
        invariant rope != [] || steps <= 0
        invariant steps > 0 ==> Moved(old(rope), direction, steps) == Moved(rope, direction, steps - done)
        invariant steps > 0 ==>
          old(tailVisitedTiles) + TailTrail(old(rope), direction, steps)
          == tailVisitedTiles + TailTrail(rope, direction, steps - done)
        invariant steps <= 0 ==> rope == old(rope) && tailVisitedTiles == old(tailVisitedTiles)
      {
        rope := rope[0 := rope[0].NextPosition(direction)];
        SettleFollowers();
        tailVisitedTiles := tailVisitedTiles + {rope[|rope| - 1]};
        done := done + 1;
      }
    }
  }

  /** Knot `k` of a settled chain follows the knot settled just before it. */
  lemma {:induction false} FollowChainAt(leader: Position, rest: seq<Position>, k: nat)
    requires k < |rest|
    ensures FollowChain(leader, rest)[k]
         == Follow(if k == 0 then leader else FollowChain(leader, rest)[k - 1], rest[k])
    decreases k
  {
    if k > 0 {
      FollowChainAt(Follow(leader, rest[0]), rest[1..], k - 1);
    }
  }

  /** The follow rule: a knot within distance 1 of its leader stays put,
      otherwise it moves at most one cell on each axis, and a knot at most
      two cells away ends up next to its leader. */
  lemma FollowRule(leader: Position, follower: Position)
    ensures Distance(leader, follower) <= 1 ==> Follow(leader, follower) == follower
    ensures Distance(leader, follower) > 1 ==>
      Follow(leader, follower)
      == Position(follower.x + Sign(leader.x - follower.x), follower.y + Sign(leader.y - follower.y))
    ensures Distance(Follow(leader, follower), follower) <= 1
    ensures Distance(leader, follower) <= 2 ==> Distance(leader, Follow(leader, follower)) <= 1
  {
  }

  lemma DistanceTriangle(a: Position, b: Position, c: Position)
    ensures Distance(a, c) <= Distance(a, b) + Distance(b, c)
  {
  }

  /** Settling a chain behind a leader that moved by at most one cell keeps
      every pair of neighbours adjacent. */
  lemma {:induction false} ChainStaysConnected(oldLeader: Position, newLeader: Position, rest: seq<Position>)
    requires Distance(oldLeader, newLeader) <= 1
    requires Connected([oldLeader] + rest)
    ensures Connected([newLeader] + FollowChain(newLeader, rest))
    decreases |rest|
  {
    if rest != [] {
      var f := Follow(newLeader, rest[0]);
      assert Distance(oldLeader, rest[0]) <= 1 by {
        var whole := [oldLeader] + rest;
        assert whole[0] == oldLeader && whole[1] == rest[0];
        assert Distance(whole[0], whole[1]) <= 1;
      }
      DistanceTriangle(newLeader, oldLeader, rest[0]);
      FollowRule(newLeader, rest[0]);
      assert Connected([rest[0]] + rest[1..]) by {
        assert [rest[0]] + rest[1..] == ([oldLeader] + rest)[1..];
      }
      ChainStaysConnected(rest[0], f, rest[1..]);
      var tailChain := [f] + FollowChain(f, rest[1..]);
      assert FollowChain(newLeader, rest) == tailChain;
      forall i | 0 <= i < |rest|
        ensures Distance(([newLeader] + tailChain)[i], ([newLeader] + tailChain)[i + 1]) <= 1
      {
        if i > 0 {
          assert ([newLeader] + tailChain)[i] == tailChain[i - 1];
          assert ([newLeader] + tailChain)[i + 1] == tailChain[i];
        }
      }
    }
  }

  /** One unit head step preserves the adjacency of the whole rope. */
  lemma StepKeepsConnected(rope: seq<Position>, d: Direction)
    requires rope != [] && Connected(rope) && IsUnit(d)
    ensures Connected(Step(rope, d))
  {
    assert rope == [rope[0]] + rope[1..];
    ChainStaysConnected(rope[0], rope[0].NextPosition(d), rope[1..]);
  }

  /** Any number of unit head steps preserve the adjacency of the rope. */
  lemma {:induction false} MovedKeepsConnected(rope: seq<Position>, d: Direction, n: nat)
    requires rope != [] && Connected(rope) && IsUnit(d)
    ensures Connected(Moved(rope, d, n))
    decreases n
  {
    if n > 0 {
      StepKeepsConnected(rope, d);
      MovedKeepsConnected(Step(rope, d), d, n - 1);
    }
  }

  /** A fresh rope, all of whose knots share one cell, is connected. */
  lemma StackedRopeConnected(n: nat, p: Position)
    ensures Connected(seq(n, _ => p))
  {
  }

  /** After `n` steps the head has moved by exactly `n` times the direction. */
  lemma {:induction false} HeadAfterSteps(rope: seq<Position>, d: Direction, n: nat)
    requires rope != []
    ensures Moved(rope, d, n)[0] == Position(rope[0].x + n * d.deltaX, rope[0].y + n * d.deltaY)
    decreases n
  {
    if n > 0 {
      HeadAfterSteps(Step(rope, d), d, n - 1);
      assert (n - 1) * d.deltaX + d.deltaX == n * d.deltaX;
      assert (n - 1) * d.deltaY + d.deltaY == n * d.deltaY;
    }
  }

  /** Moving `a + b` steps is moving `a` steps and then `b` more. */
  lemma {:induction false} MovedSplit(rope: seq<Position>, d: Direction, a: nat, b: nat)
    requires rope != []
    ensures Moved(rope, d, a + b) == Moved(Moved(rope, d, a), d, b)
    decreases a
  {
    if a > 0 {
      MovedSplit(Step(rope, d), d, a - 1, b);
    }
  }

  /** The tail reached at the end of a non-empty move is recorded. */
  lemma {:induction false} FinalTailRecorded(rope: seq<Position>, d: Direction, n: nat)
    requires rope != [] && n > 0
    ensures var r := Moved(rope, d, n); r[|r| - 1] in TailTrail(rope, d, n)
    decreases n
  {
    if n > 1 {
      FinalTailRecorded(Step(rope, d), d, n - 1);
    }
  }

  /** The trail of a longer move contains the trail of a shorter one, so the
      visited set only grows. */
  lemma {:induction false} TrailGrows(rope: seq<Position>, d: Direction, a: nat, b: nat)
    requires rope != [] && a <= b
    ensures TailTrail(rope, d, a) <= TailTrail(rope, d, b)
    decreases a
  {
    if a > 0 {
      TrailGrows(Step(rope, d), d, a - 1, b - 1);
    }
  }

  /** The rope after each move of `moves` in turn. */
  function MovedAll(rope: seq<Position>, moves: seq<(Direction, nat)>): (r: seq<Position>)
    requires rope != []
    ensures |r| == |rope|
    decreases |moves|
  {
    if moves == [] then rope else MovedAll(Moved(rope, moves[0].0, moves[0].1), moves[1..])
  }

  /** The total displacement of a list of moves, on each axis. */
  function DisplacementX(moves: seq<(Direction, nat)>): int {
    if moves == [] then 0 else moves[0].1 * moves[0].0.deltaX + DisplacementX(moves[1..])
  }

  function DisplacementY(moves: seq<(Direction, nat)>): int {
    if moves == [] then 0 else moves[0].1 * moves[0].0.deltaY + DisplacementY(moves[1..])
  }

  /** After a list of moves the head has moved by their total displacement. */
  lemma {:induction false} HeadAfterMoves(rope: seq<Position>, moves: seq<(Direction, nat)>)
    requires rope != []
    ensures MovedAll(rope, moves)[0]
         == Position(rope[0].x + DisplacementX(moves), rope[0].y + DisplacementY(moves))
    decreases |moves|
  {
    if moves != [] {
      HeadAfterSteps(rope, moves[0].0, moves[0].1);
      HeadAfterMoves(Moved(rope, moves[0].0, moves[0].1), moves[1..]);
    }
  }

  /** One head step of a three-knot rope, knot by knot. */
  lemma StepThreeKnots(a: Position, b: Position, c: Position, d: Direction)
    ensures var h := a.NextPosition(d); var f := Follow(h, b);
            Step([a, b, c], d) == [h, f, Follow(f, c)]
  {
    var h := a.NextPosition(d);
    var f := Follow(h, b);
    assert [a, b, c][1..] == [b, c] && [b, c][1..] == [c];
    assert FollowChain(f, [c]) == [Follow(f, c)];
    assert FollowChain(h, [b, c]) == [f, Follow(f, c)];
  }

  /** The three-knot diagonal scenario: two steps left and two down leave the
      head at (-2, -2) and the tail at (-1, -1). */
  lemma ThreeKnotDiagonal()
    ensures var r := Moved(Moved([Origin, Origin, Origin], Left, 2), Down, 2);
            r[0] == Position(-2, -2) && r[2] == Position(-1, -1)
  {
    StepThreeKnots(Origin, Origin, Origin, Left);
    StepThreeKnots(Position(-1, 0), Origin, Origin, Left);
    StepThreeKnots(Position(-2, 0), Position(-1, 0), Origin, Down);
    StepThreeKnots(Position(-2, -1), Position(-1, 0), Origin, Down);
  }

  function DirectionOf(letter: char): Option<Direction> {
    match letter
    case 'R' => Some(Right)
    case 'L' => Some(Left)
    case 'U' => Some(Up)
    case 'D' => Some(Down)
    case _ => None
  }

  /** `parse_line`: "<R|L|U|D> <count>"; `None` where the tuple unpacking, the
      letter lookup or `int` raises. */
  function ParseLine(rawLine: string): Option<(Direction, int)> {
    var words := Text.Words(rawLine);
    if |words| != 2 || |words[0]| != 1 then None
    else
      match (DirectionOf(words[0][0]), Text.ParseInt(words[1]))
      case (Some(d), Some(n)) => Some((d, n))
      case _ => None
  }

  /** A well-formed move line parses back to its direction and count, and a
      letter outside R, L, U, D is refused. */
  lemma ParseLineFormat(letter: char, n: int)
    requires letter != ' '
    ensures ParseLine([letter] + " " + Text.IntToString(n))
         == match DirectionOf(letter)
            case Some(d) => Some((d, n))
            case None => None
  {
    Text.TwoWords([letter], Text.IntToString(n));
    Text.ParseIntToString(n);
  }
}
