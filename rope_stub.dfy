/** The first, head-only rope of test_day09/test_ex15.py: the head takes unit
    steps and the tail never moves. */
module RopeStub {
  import opened Rope

  class RopeSimulator {
    var head: Position
    var tail: Position

    /** `RopeSimulator(head, tail)`: the dataclass's two fields as given. */
    constructor (head0: Position, tail0: Position)
      ensures head == head0 && tail == tail0
    {
      head := head0;
      tail := tail0;
    }

    /** `RopeSimulator()`: both fields at their default, the origin. */
    constructor Default()
      ensures head == Origin && tail == Origin
    {
      head := Origin;
      tail := Origin;
    }

    /** `move(direction, steps)`: the head moves `steps` unit steps (none when
        `steps` is not positive) and the tail stays where it was. */
    method Move(direction: Direction, steps: int)
      modifies this
      ensures var n := if steps <= 0 then 0 else steps;
              head == Position(old(head).x + n * direction.deltaX, old(head).y + n * direction.deltaY)
      ensures tail == old(tail)
    {
      var i := 0;
      while i < steps
        invariant steps <= 0 ==> i == 0
        invariant steps > 0 ==> 0 <= i <= steps
        invariant head == Position(old(head).x + i * direction.deltaX, old(head).y + i * direction.deltaY)
        invariant tail == old(tail)
      {
        head := head.NextPosition(direction);
        MoveTailIfNeeded();
        i := i + 1;
      }
    }

    /** `_move_tail_if_needed`, which does nothing in this version. */
    method MoveTailIfNeeded()
      ensures head == old(head) && tail == old(tail)
    {
    }
  }
}
