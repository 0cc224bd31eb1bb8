/** The instruction set shared by the two processors of test_day10: `noop`
    takes one cycle, `addx n` takes two and adds `n` to the register at the
    end of the second. */
module Cpu {
  import opened Wrappers
  import Text

  datatype Instruction = Noop | Addx(argument: int)

  /** `execute`: one value per cycle; only the last cycle of an `addx`
      carries a register change. */
  function Execute(instruction: Instruction): (values: seq<Option<int>>)
    ensures |values| == if instruction.Noop? then 1 else 2
    ensures forall k :: 0 <= k < |values| - 1 ==> values[k] == None
    ensures values[|values| - 1] == if instruction.Addx? then Some(instruction.argument) else None
  {
    match instruction
    case Noop => [None]
    case Addx(n) => [None, Some(n)]
  }

  /** `value if value else 0`: what a cycle adds to the register. */
  function Increment(value: Option<int>): int {
    match value
    case None => 0
    case Some(n) => n
  }

  /** The values of a whole program, cycle after cycle. */
  function Values(program: seq<Instruction>): seq<Option<int>> {
    if program == [] then [] else Execute(program[0]) + Values(program[1..])
  }

  /** The sum of the register changes of a run of cycles. */
  function Total(values: seq<Option<int>>): int {
    if values == [] then 0 else Increment(values[0]) + Total(values[1..])
  }

  function NoopCount(program: seq<Instruction>): nat {
    if program == [] then 0 else (if program[0].Noop? then 1 else 0) + NoopCount(program[1..])
  }

  function AddxCount(program: seq<Instruction>): nat {
    if program == [] then 0 else (if program[0].Addx? then 1 else 0) + AddxCount(program[1..])
  }

  /** The sum of the arguments of the `addx` instructions. */
  function ArgumentSum(program: seq<Instruction>): int {
    if program == [] then 0
    else (if program[0].Addx? then program[0].argument else 0) + ArgumentSum(program[1..])
  }

  lemma {:induction false} ValuesAppend(a: seq<Instruction>, b: seq<Instruction>)
    ensures Values(a + b) == Values(a) + Values(b)
    decreases |a|
  {
    if a != [] {
      assert (a + b)[0] == a[0] && (a + b)[1..] == a[1..] + b;
      ValuesAppend(a[1..], b);
      calc {
        Values(a + b);
        Execute(a[0]) + Values(a[1..] + b);
        Execute(a[0]) + (Values(a[1..]) + Values(b));
        (Execute(a[0]) + Values(a[1..])) + Values(b);
      }
    } else {
      assert a + b == b;
    }
  }

  lemma {:induction false} TotalAppend(a: seq<Option<int>>, b: seq<Option<int>>)
    ensures Total(a + b) == Total(a) + Total(b)
    decreases |a|
  {
    if a != [] {
      assert (a + b)[0] == a[0] && (a + b)[1..] == a[1..] + b;
      TotalAppend(a[1..], b);
      assert Total(a + b) == Increment(a[0]) + Total(a[1..] + b);
    } else {
      assert a + b == b;
    }
  }

  /** A program runs for one cycle per `noop` and two per `addx`. */
  lemma {:induction false} CycleCount(program: seq<Instruction>)
    ensures |Values(program)| == NoopCount(program) + 2 * AddxCount(program)
    decreases |program|
  {
    if program != [] {
      CycleCount(program[1..]);
    }
  }

  /** Over a whole program the register changes by the sum of the `addx`
      arguments. */
  lemma {:induction false} RegisterChange(program: seq<Instruction>)
    ensures Total(Values(program)) == ArgumentSum(program)
    decreases |program|
  {
    if program != [] {
      var head := Execute(program[0]);
      TotalAppend(head, Values(program[1..]));
      RegisterChange(program[1..]);
      if program[0].Addx? {
        assert Total(head) == Increment(head[0]) + Total(head[1..]);
        assert head[1..] == [Some(program[0].argument)];
      }
    }
  }

  /** The cycle counts and final register values of the small test programs. */
  lemma SmallPrograms()
    ensures var v := Values([Noop, Noop]); |v| == 2 && 1 + Total(v) == 1
    ensures var v := Values([Addx(2)]); |v| == 2 && 1 + Total(v) == 3
    ensures var v := Values([Noop, Addx(3), Addx(-5)]); |v| == 5 && 1 + Total(v) == -1
    ensures Values([]) == []
  {
    RegisterChange([Noop, Noop]);
    RegisterChange([Addx(2)]);
    RegisterChange([Noop, Addx(3), Addx(-5)]);
    CycleCount([Noop, Noop]);
    CycleCount([Addx(2)]);
    CycleCount([Noop, Addx(3), Addx(-5)]);
  }

  /** `parse_line`: "noop", or any two words whose second is an integer;
      `None` where the unpacking or `int` raises. */
  function ParseLine(rawLine: string): Option<Instruction> {
    if rawLine == "noop" then Some(Noop)
    else
      var words := Text.Words(rawLine);
      if |words| != 2 then None
      else
        match Text.ParseInt(words[1])
        case Some(n) => Some(Addx(n))
        case None => None
  }

  /** The text of an instruction as the puzzle input writes it. */
  function Format(instruction: Instruction): string {
    match instruction
    case Noop => "noop"
    case Addx(n) => "addx " + Text.IntToString(n)
  }

  /** Parsing the text of an instruction gives the instruction back. */
  lemma ParseFormat(instruction: Instruction)
    ensures ParseLine(Format(instruction)) == Some(instruction)
  {
    if instruction.Addx? {
      var n := instruction.argument;
      assert Format(instruction) != "noop" by {
        assert Format(instruction)[0] == 'a';
      }
      assert Format(instruction) == "addx" + " " + Text.IntToString(n);
      Text.TwoWords("addx", Text.IntToString(n));
      Text.ParseIntToString(n);
    }
  }

  /** The two lines of the test: "noop" and "addx -3". */
  lemma ParseExamples()
    ensures ParseLine("noop") == Some(Noop)
    ensures ParseLine("addx -3") == Some(Addx(-3))
  {
    ParseFormat(Addx(-3));
    assert Text.IntToString(-3) == "-3";
    assert Format(Addx(-3)) == "addx -3";
  }
}
