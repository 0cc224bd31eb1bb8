/** The processor of test_day10/test_ex17.py, which yields one signal strength
    per cycle: the 1-based cycle number times the register during that cycle. */
module SignalCpu {
  import opened Wrappers
  import opened Cpu

  /** The strengths of the cycles `values`, starting after `cycle` cycles with
      the register at `register`. */
  function Signals(cycle: int, register: int, values: seq<Option<int>>): (r: seq<int>)
    ensures |r| == |values|
    decreases |values|
  {
    if values == [] then []
    else [(cycle + 1) * register] + Signals(cycle + 1, register + Increment(values[0]), values[1..])
  }

  /** Running two stretches of cycles one after the other. */
  lemma {:induction false} SignalsAppend(cycle: int, register: int, a: seq<Option<int>>, b: seq<Option<int>>)
    ensures Signals(cycle, register, a + b)
         == Signals(cycle, register, a) + Signals(cycle + |a|, register + Total(a), b)
    decreases |a|
  {
    if a == [] {
      assert a + b == b;
    } else {
      assert (a + b)[0] == a[0] && (a + b)[1..] == a[1..] + b;
      SignalsAppend(cycle + 1, register + Increment(a[0]), a[1..], b);
    }
  }

  /** The `k`-th strength (0-based) is the cycle number `cycle + k + 1` times the
      register as the first `k` cycles left it. */
  lemma {:induction false} SignalAt(cycle: int, register: int, values: seq<Option<int>>, k: nat)
    requires k < |values|
    ensures Signals(cycle, register, values)[k] == (cycle + k + 1) * (register + Total(values[..k]))
    decreases k
  {
    if k > 0 {
      SignalAt(cycle + 1, register + Increment(values[0]), values[1..], k - 1);
      assert values[..k] == [values[0]] + values[1..][..k - 1];
      assert values[..k][0] == values[0] && values[..k][1..] == values[1..][..k - 1];
    }
  }

  class InstructionProcessor {
    var cycle: int
    var register: int
    var instructions: seq<Instruction>

    /** A new processor: no cycle run yet and the register at 1. */
    constructor (instructions: seq<Instruction>)
      ensures cycle == 0 && register == 1 && this.instructions == instructions
    {
      cycle := 0;
      register := 1;
      this.instructions := instructions;
    }

    /** The inner loop of `__iter__`: the strengths of the cycles of one
        instruction, after which the cycle count and the register have
        advanced over those cycles. */
    method RunInstruction(instruction: Instruction) returns (drawn: seq<int>)
      modifies this
      ensures drawn == Signals(old(cycle), old(register), Execute(instruction))
      ensures cycle == old(cycle) + |Execute(instruction)|
      ensures register == old(register) + Total(Execute(instruction))
      ensures instructions == old(instructions)
    {
      var values := Execute(instruction);
      drawn := [];
      var j := 0;
      while j < |values|
        invariant 0 <= j <= |values|
        invariant drawn == Signals(old(cycle), old(register), values[..j])
        invariant cycle == old(cycle) + j
        invariant register == old(register) + Total(values[..j])
        invariant instructions == old(instructions)
      {
        SignalsAppend(old(cycle), old(register), values[..j], [values[j]]);
        TotalAppend(values[..j], [values[j]]);
        assert values[..j] + [values[j]] == values[..j + 1];
        var signalStrength := (cycle + 1) * register;
        cycle := cycle + 1;
        register := register + Increment(values[j]);
        drawn := drawn + [signalStrength];
        j := j + 1;
      }
      assert values[..j] == values;
    }

    /** `__iter__`, run to the end: the strengths of all cycles of the
        program, after which the cycle count and the register have advanced
        over every cycle. */
    method Iterate() returns (strengths: seq<int>)
      modifies this
      ensures strengths == Signals(old(cycle), old(register), Values(instructions))
      ensures cycle == old(cycle) + |Values(instructions)|
      ensures register == old(register) + Total(Values(instructions))
      ensures instructions == old(instructions)
    {
      strengths := [];
      var i := 0;
      while i < |instructions|
        invariant 0 <= i <= |instructions|
        invariant strengths == Signals(old(cycle), old(register), Values(instructions[..i]))
        invariant cycle == old(cycle) + |Values(instructions[..i])|
        invariant register == old(register) + Total(Values(instructions[..i]))
        invariant instructions == old(instructions)
      {
        ghost var done := Values(instructions[..i]);
        ghost var values := Execute(instructions[i]);
        SignalsAppend(old(cycle), old(register), done, values);
        TotalAppend(done, values);
        var drawn := RunInstruction(instructions[i]);
        strengths := strengths + drawn;
        assert instructions[..i + 1] == instructions[..i] + [instructions[i]];
        ValuesAppend(instructions[..i], [instructions[i]]);
        assert Values([instructions[i]]) == values by {
          assert [instructions[i]][1..] == [];
        }
        i := i + 1;
      }
      assert instructions[..i] == instructions;
    }
  }

  /** The sample program of the test, in two parts: the first ten
      instructions fill the first 19 cycles. */
  const SampleStart: seq<Instruction> :=
    [Addx(15), Addx(-11), Addx(6), Addx(-3), Addx(5), Addx(-1), Addx(-8), Addx(13), Addx(4), Noop]
  const SampleEnd: seq<Instruction> :=
    [Addx(-1), Addx(5), Addx(-1), Addx(5), Addx(-1), Addx(5), Addx(-1), Addx(5), Addx(-1),
     Addx(-35), Addx(1), Addx(24), Addx(-19)]

  lemma SampleStartRun()
    ensures |Values(SampleStart)| == 19 && Total(Values(SampleStart)) == 20
  {
    CycleCount(SampleStart);
    RegisterChange(SampleStart);
  }

  /** A program whose first 19 cycles add 20 to the register has 420 as its
      20th strength. */
  lemma {:induction false} TwentiethSignalOf(start: seq<Instruction>, end: seq<Instruction>)
    requires |Values(start)| == 19 && Total(Values(start)) == 20 && end != []
    ensures var values := Values(start + end);
            |values| >= 20 && Signals(0, 1, values)[19] == 420
  {
    var values := Values(start + end);
    ValuesAppend(start, end);
    assert |Values(end)| >= 1;
    assert values[..19] == Values(start);
    SignalAt(0, 1, values, 19);
  }

  /** The 20th strength of the sample program is 420. */
  lemma TwentiethSignal()
    ensures var values := Values(SampleStart + SampleEnd);
            |values| >= 20 && Signals(0, 1, values)[19] == 420
  {
    SampleStartRun();
    TwentiethSignalOf(SampleStart, SampleEnd);
  }
}
