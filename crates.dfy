/** The crate stacks of test_day05/test_ex09.py: stacks of one-letter crates,
    a crane that moves crates one at a time from the top of one stack to the
    top of another, and the parsers for the stack drawing and the moves. */
module Crates {
  import opened Wrappers
  import Text

  datatype Instruction = Instruction(quantity: int, origin: int, destination: int)

  type Stacks = seq<seq<char>>

  /** Python's `xs[i]` on a list of length `n`: a negative `i` counts from the
      end, and an index outside `-n..n-1` raises. */
  function PyIndex(i: int, n: nat): (r: Option<nat>)
    ensures r.Some? <==> -(n as int) <= i < n
    ensures r.Some? ==> r.value < n && (r.value == i || r.value == i + n)
  {
    if 0 <= i < n then Some(i) else if -(n as int) <= i < 0 then Some(i + n) else None
  }

  /** One crate popped from the top of stack `from` and pushed on stack `to`. */
  function MoveOne(stacks: Stacks, from: nat, to: nat): Stacks
    requires from < |stacks| && to < |stacks| && stacks[from] != []
  {
    var source := stacks[from];
    var popped := stacks[from := source[..|source| - 1]];
    popped[to := popped[to] + [source[|source| - 1]]]
  }

  /** `n` single-crate moves; `None` once a pop meets an empty stack. */
  function MoveTimes(stacks: Stacks, from: nat, to: nat, n: nat): Option<Stacks>
    requires from < |stacks| && to < |stacks|
    decreases n
  {
    if n == 0 then Some(stacks)
    else if stacks[from] == [] then None
    else MoveTimes(MoveOne(stacks, from, to), from, to, n - 1)
  }

  /** One instruction, with the 1-based stack numbers read as Python indexes
      `origin - 1` and `destination - 1`; nothing is looked up when the
      quantity is not positive. */
  function Apply(stacks: Stacks, instruction: Instruction): Option<Stacks> {
    if instruction.quantity <= 0 then Some(stacks)
    else
      match (PyIndex(instruction.origin - 1, |stacks|), PyIndex(instruction.destination - 1, |stacks|))
      case (Some(from), Some(to)) => MoveTimes(stacks, from, to, instruction.quantity)
      case _ => None
  }

  function ApplyAll(stacks: Stacks, instructions: seq<Instruction>): Option<Stacks>
    decreases |instructions|
  {
    if instructions == [] then Some(stacks)
    else
      match Apply(stacks, instructions[0])
      case Some(next) => ApplyAll(next, instructions[1..])
      case None => None
  }

  /** `"".join(stack[-1] for stack in stacks)`; `None` when a stack is empty. */
  function TopCrates(stacks: Stacks): (r: Option<string>)
    ensures r.Some? <==> forall k :: 0 <= k < |stacks| ==> stacks[k] != []
    ensures r.Some? ==> |r.value| == |stacks|
    ensures r.Some? ==> forall k :: 0 <= k < |stacks| ==> r.value[k] == stacks[k][|stacks[k]| - 1]
    decreases |stacks|
  {
    if stacks == [] then Some("")
    else if stacks[0] == [] then None
    else
      match TopCrates(stacks[1..])
      case Some(rest) => Some([stacks[0][|stacks[0]| - 1]] + rest)
      case None => None
  }

  /** `get_top_crates_after_instructions`: carries out every instruction on the
      stacks in place and returns the top crates. The caller must give moves
      that never pop an empty stack or name a missing one, after which every
      stack must hold a crate, as the source raises otherwise. */
  method GetTopCratesAfterInstructions(stacks: array<seq<char>>, instructions: seq<Instruction>)
    returns (top: string)
    requires ApplyAll(stacks[..], instructions).Some?
    requires TopCrates(ApplyAll(stacks[..], instructions).value).Some?
    modifies stacks
    ensures stacks[..] == ApplyAll(old(stacks[..]), instructions).value
    ensures Some(top) == TopCrates(stacks[..])
  {
    var i := 0;
    while i < |instructions|
      invariant 0 <= i <= |instructions|
      invariant ApplyAll(stacks[..], instructions[i..]) == ApplyAll(old(stacks[..]), instructions)
    {
      var instruction := instructions[i];
      assert instructions[i..][0] == instruction && instructions[i..][1..] == instructions[i + 1..];
      ghost var after := Apply(stacks[..], instruction);
      if instruction.quantity > 0 {
        var from := PyIndex(instruction.origin - 1, stacks.Length).value;
        var to := PyIndex(instruction.destination - 1, stacks.Length).value;
        var k := 0;
        while k < instruction.quantity
          invariant 0 <= k <= instruction.quantity
          invariant MoveTimes(stacks[..], from, to, instruction.quantity - k) == after
        {
          var source := stacks[from];
          ghost var before := stacks[..];
          stacks[from] := source[..|source| - 1];
          stacks[to] := stacks[to] + [source[|source| - 1]];
          assert stacks[..] == MoveOne(before, from, to);
          k := k + 1;
        }
      }
      i := i + 1;
    }
    top := TopCrates(stacks[..]).value;
  }

  /** `xs` back to front. */
  function Reverse(xs: seq<char>): (r: seq<char>)
    ensures |r| == |xs|
    decreases |xs|
  {
    if xs == [] then [] else [xs[|xs| - 1]] + Reverse(xs[..|xs| - 1])
  }

  /** Moving `n` crates between two different stacks takes the top `n` off
      the origin and puts them on the destination in reversed order, leaving
      every other stack alone; moving more crates than the origin holds fails. */
  lemma {:induction false} MoveTimesBlock(stacks: Stacks, from: nat, to: nat, n: nat)
    requires from < |stacks| && to < |stacks| && from != to
    ensures n <= |stacks[from]| ==>
      var source := stacks[from];
      MoveTimes(stacks, from, to, n)
      == Some(stacks[from := source[..|source| - n]][to := stacks[to] + Reverse(source[|source| - n..])])
    ensures n > |stacks[from]| ==> MoveTimes(stacks, from, to, n) == None
    decreases n
  {
    var source := stacks[from];
    if n == 0 {
      assert source[..|source|] == source && source[|source|..] == [];
      assert stacks[to] + Reverse([]) == stacks[to];
      var same := stacks[from := source];
      assert same == stacks;
      assert same[to := stacks[to]] == stacks;
    } else if source != [] {
      var l := |source|;
      var crate := source[l - 1];
      var next := MoveOne(stacks, from, to);
      var shorter := source[..l - 1];
      assert next == stacks[from := shorter][to := stacks[to] + [crate]];
      assert next[from] == shorter && next[to] == stacks[to] + [crate];
      MoveTimesBlock(next, from, to, n - 1);
      if n <= l {
        var remaining := source[..l - n];
        var block := source[l - n..];
        var front := block[..|block| - 1];
        assert shorter[..|shorter| - (n - 1)] == remaining;
        assert shorter[|shorter| - (n - 1)..] == front;
        var rest := Reverse(front);
        assert MoveTimes(next, from, to, n - 1) == Some(next[from := remaining][to := next[to] + rest]);
        assert block[|block| - 1] == crate;
        assert Reverse(block) == [crate] + rest;
        assert next[to] + rest == stacks[to] + Reverse(block);
        var target := stacks[from := remaining][to := stacks[to] + Reverse(block)];
        assert next[from := remaining][to := next[to] + rest] == target;
      }
    }
  }

  /** Moving crates from a stack onto itself changes nothing, as long as the
      stack is not empty. */
  lemma {:induction false} MoveTimesSameStack(stacks: Stacks, from: nat, n: nat)
    requires from < |stacks|
    ensures MoveTimes(stacks, from, from, n) == if n > 0 && stacks[from] == [] then None else Some(stacks)
    decreases n
  {
    if n > 0 && stacks[from] != [] {
      var source := stacks[from];
      assert source[..|source| - 1] + [source[|source| - 1]] == source;
      assert MoveOne(stacks, from, from) == stacks;
      MoveTimesSameStack(stacks, from, n - 1);
    }
  }

  /** All the crates of all the stacks, stack after stack. */
  function Flatten(stacks: Stacks): seq<char> {
    if stacks == [] then [] else stacks[0] + Flatten(stacks[1..])
  }

  lemma {:induction false} FlattenAppend(a: Stacks, b: Stacks)
    ensures Flatten(a + b) == Flatten(a) + Flatten(b)
    decreases |a|
  {
    if a == [] {
      assert a + b == b;
    } else {
      assert (a + b)[0] == a[0] && (a + b)[1..] == a[1..] + b;
      FlattenAppend(a[1..], b);
    }
  }

  /** The crates of every stack but stack `k`. */
  ghost function Others(stacks: Stacks, k: nat): multiset<char>
    requires k < |stacks|
  {
    multiset(Flatten(stacks[..k])) + multiset(Flatten(stacks[k + 1..]))
  }

  /** After replacing stack `k` by `v`, the crates are those of `v` and of the
      other stacks. */
  lemma FlattenUpdate(stacks: Stacks, k: nat, v: seq<char>)
    requires k < |stacks|
    ensures multiset(Flatten(stacks[k := v])) == multiset(v) + Others(stacks, k)
  {
    var front := stacks[..k];
    var back := stacks[k + 1..];
    assert stacks[k := v] == front + ([v] + back);
    FlattenAppend(front, [v] + back);
    assert Flatten([v] + back) == v + Flatten(back) by {
      assert ([v] + back)[1..] == back;
    }
  }

  /** Pushing crate `c` on stack `k` adds it to the crates. */
  lemma FlattenPush(stacks: Stacks, k: nat, c: char)
    requires k < |stacks|
    ensures multiset(Flatten(stacks[k := stacks[k] + [c]])) == multiset(Flatten(stacks)) + multiset{c}
  {
    FlattenUpdate(stacks, k, stacks[k] + [c]);
    FlattenUpdate(stacks, k, stacks[k]);
    assert stacks[k := stacks[k]] == stacks;
    assert multiset(stacks[k] + [c]) == multiset(stacks[k]) + multiset{c};
  }

  /** Popping the top crate of stack `k` removes it from the crates. */
  lemma FlattenPop(stacks: Stacks, k: nat)
    requires k < |stacks| && stacks[k] != []
    ensures var source := stacks[k];
            multiset(Flatten(stacks[k := source[..|source| - 1]])) + multiset{source[|source| - 1]}
            == multiset(Flatten(stacks))
  {
    var source := stacks[k];
    var rest := source[..|source| - 1];
    FlattenUpdate(stacks, k, rest);
    FlattenUpdate(stacks, k, source);
    assert stacks[k := source] == stacks;
    assert source == rest + [source[|source| - 1]];
    assert multiset(source) == multiset(rest) + multiset{source[|source| - 1]};
  }

  /** A single move keeps the same crates overall. */
  lemma MoveOneKeepsCrates(stacks: Stacks, from: nat, to: nat)
    requires from < |stacks| && to < |stacks| && stacks[from] != []
    ensures multiset(Flatten(MoveOne(stacks, from, to))) == multiset(Flatten(stacks))
  {
    var source := stacks[from];
    var popped := stacks[from := source[..|source| - 1]];
    FlattenPop(stacks, from);
    FlattenPush(popped, to, source[|source| - 1]);
  }

  lemma {:induction false} MoveTimesKeepsCrates(stacks: Stacks, from: nat, to: nat, n: nat)
    requires from < |stacks| && to < |stacks|
    requires MoveTimes(stacks, from, to, n).Some?
    ensures |MoveTimes(stacks, from, to, n).value| == |stacks|
    ensures multiset(Flatten(MoveTimes(stacks, from, to, n).value)) == multiset(Flatten(stacks))
    decreases n
  {
    if n > 0 {
      MoveOneKeepsCrates(stacks, from, to);
      MoveTimesKeepsCrates(MoveOne(stacks, from, to), from, to, n - 1);
    }
  }

  /** Carrying out instructions keeps the number of stacks and the multiset
      of crates, hence also the number of crates. */
  lemma {:induction false} ApplyAllKeepsCrates(stacks: Stacks, instructions: seq<Instruction>)
    requires ApplyAll(stacks, instructions).Some?
    ensures |ApplyAll(stacks, instructions).value| == |stacks|
    ensures multiset(Flatten(ApplyAll(stacks, instructions).value)) == multiset(Flatten(stacks))
    decreases |instructions|
  {
    if instructions != [] {
      var instruction := instructions[0];
      var next := Apply(stacks, instruction).value;
      if instruction.quantity > 0 {
        var from := PyIndex(instruction.origin - 1, |stacks|).value;
        var to := PyIndex(instruction.destination - 1, |stacks|).value;
        MoveTimesKeepsCrates(stacks, from, to, instruction.quantity);
      }
      ApplyAllKeepsCrates(next, instructions[1..]);
    }
  }

  /** An instruction with a positive quantity between two different stacks
      that are both present, taking no more crates than the origin holds. */
  lemma {:induction false} ApplyBlock(stacks: Stacks, instruction: Instruction,
                                      remaining: seq<char>, moved: seq<char>)
    requires 1 <= instruction.origin <= |stacks| && 1 <= instruction.destination <= |stacks|
    requires instruction.origin != instruction.destination
    requires stacks[instruction.origin - 1] == remaining + moved
    requires |moved| == instruction.quantity > 0
    ensures var from := instruction.origin - 1;
            var to := instruction.destination - 1;
            Apply(stacks, instruction) == Some(stacks[from := remaining][to := stacks[to] + Reverse(moved)])
  {
    var from := instruction.origin - 1;
    var to := instruction.destination - 1;
    var source := stacks[from];
    assert PyIndex(from, |stacks|) == Some(from) && PyIndex(to, |stacks|) == Some(to);
    MoveTimesBlock(stacks, from, to, instruction.quantity);
    assert source[..|source| - |moved|] == remaining && source[|source| - |moved|..] == moved;
    assert Apply(stacks, instruction) == MoveTimes(stacks, from, to, instruction.quantity);
  }

  /** Four instructions that each succeed, one after the other. */
  lemma {:induction false} ApplyAllFour(s0: Stacks, s1: Stacks, s2: Stacks, s3: Stacks, s4: Stacks,
                                        instructions: seq<Instruction>)
    requires |instructions| == 4
    requires Apply(s0, instructions[0]) == Some(s1) && Apply(s1, instructions[1]) == Some(s2)
    requires Apply(s2, instructions[2]) == Some(s3) && Apply(s3, instructions[3]) == Some(s4)
    ensures ApplyAll(s0, instructions) == Some(s4)
  {
    var rest1 := instructions[1..];
    var rest2 := rest1[1..];
    var rest3 := rest2[1..];
    assert rest1[0] == instructions[1] && rest2[0] == instructions[2] && rest3[0] == instructions[3];
    assert rest3[1..] == [];
    assert ApplyAll(s4, rest3[1..]) == Some(s4);
    assert ApplyAll(s3, rest3) == Some(s4);
    assert ApplyAll(s2, rest2) == Some(s4);
    assert ApplyAll(s1, rest1) == Some(s4);
  }

  /** The four moves of the test on stacks ZN, MCD and P, one by one. */
  lemma SampleMove1()
    ensures Apply([['Z', 'N'], ['M', 'C', 'D'], ['P']], Instruction(1, 2, 1)) == Some([['Z', 'N', 'D'], ['M', 'C'], ['P']])
  {
    var before: Stacks := [['Z', 'N'], ['M', 'C', 'D'], ['P']];
    var after: Stacks := [['Z', 'N', 'D'], ['M', 'C'], ['P']];
    assert Reverse(['D']) == ['D'];
    ApplyBlock(before, Instruction(1, 2, 1), ['M', 'C'], ['D']);
    assert before[0] + ['D'] == ['Z', 'N', 'D'];
    var result := before[1 := ['M', 'C']][0 := ['Z', 'N', 'D']];
    assert result[0] == after[0] && result[1] == after[1] && result[2] == after[2];
    assert result == after;
  }

  lemma SampleMove2()
    ensures Apply([['Z', 'N', 'D'], ['M', 'C'], ['P']], Instruction(3, 1, 3)) == Some([[], ['M', 'C'], ['P', 'D', 'N', 'Z']])
  {
    var before: Stacks := [['Z', 'N', 'D'], ['M', 'C'], ['P']];
    var after: Stacks := [[], ['M', 'C'], ['P', 'D', 'N', 'Z']];
    assert Reverse(['Z', 'N', 'D']) == ['D', 'N', 'Z'];
    ApplyBlock(before, Instruction(3, 1, 3), [], ['Z', 'N', 'D']);
    assert before[2] + ['D', 'N', 'Z'] == ['P', 'D', 'N', 'Z'];
    var result := before[0 := []][2 := ['P', 'D', 'N', 'Z']];
    assert result[0] == after[0] && result[1] == after[1] && result[2] == after[2];
    assert result == after;
  }

  lemma SampleMove3()
    ensures Apply([[], ['M', 'C'], ['P', 'D', 'N', 'Z']], Instruction(2, 2, 1)) == Some([['C', 'M'], [], ['P', 'D', 'N', 'Z']])
  {
    var before: Stacks := [[], ['M', 'C'], ['P', 'D', 'N', 'Z']];
    var after: Stacks := [['C', 'M'], [], ['P', 'D', 'N', 'Z']];
    assert Reverse(['M', 'C']) == ['C', 'M'];
    ApplyBlock(before, Instruction(2, 2, 1), [], ['M', 'C']);
    assert before[0] + ['C', 'M'] == ['C', 'M'];
    var result := before[1 := []][0 := ['C', 'M']];
    assert result[0] == after[0] && result[1] == after[1] && result[2] == after[2];
    assert result == after;
  }

  lemma SampleMove4()
    ensures Apply([['C', 'M'], [], ['P', 'D', 'N', 'Z']], Instruction(1, 1, 2)) == Some([['C'], ['M'], ['P', 'D', 'N', 'Z']])
  {
    var before: Stacks := [['C', 'M'], [], ['P', 'D', 'N', 'Z']];
    var after: Stacks := [['C'], ['M'], ['P', 'D', 'N', 'Z']];
    assert Reverse(['M']) == ['M'];
    ApplyBlock(before, Instruction(1, 1, 2), ['C'], ['M']);
    assert before[1] + ['M'] == ['M'];
    var result := before[0 := ['C']][1 := ['M']];
    assert result[0] == after[0] && result[1] == after[1] && result[2] == after[2];
    assert result == after;
  }

  /** The crane moves of the test on stacks ZN, MCD and P leave C, M and Z on
      top. */
  lemma SampleTopCrates()
    ensures var moves := [Instruction(1, 2, 1), Instruction(3, 1, 3), Instruction(2, 2, 1), Instruction(1, 1, 2)];
            var final := ApplyAll([['Z', 'N'], ['M', 'C', 'D'], ['P']], moves);
            final.Some? && TopCrates(final.value) == Some("CMZ")
  {
    var moves := [Instruction(1, 2, 1), Instruction(3, 1, 3), Instruction(2, 2, 1), Instruction(1, 1, 2)];
    var final: Stacks := [['C'], ['M'], ['P', 'D', 'N', 'Z']];
    SampleMove1();
    SampleMove2();
    SampleMove3();
    SampleMove4();
    ApplyAllFour([['Z', 'N'], ['M', 'C', 'D'], ['P']], [['Z', 'N', 'D'], ['M', 'C'], ['P']],
                 [[], ['M', 'C'], ['P', 'D', 'N', 'Z']], [['C', 'M'], [], ['P', 'D', 'N', 'Z']],
                 final, moves);
    var top := TopCrates(final);
    assert top.Some?;
    assert top.value[0] == 'C' && top.value[1] == 'M' && top.value[2] == 'Z';
    assert top.value == "CMZ";
  }

  /** One row of the stack drawing, scanned from column `i` on: a '[' at
      column `i` puts the character after it on stack `i / 4`; `None` where
      that character or that stack is missing. */
  function FillRow(stacks: Stacks, row: string, i: nat): Option<Stacks>
    decreases |row| - i
  {
    if i >= |row| then Some(stacks)
    else if row[i] == '[' then
      if i + 1 < |row| && i / 4 < |stacks| then
        FillRow(stacks[i / 4 := stacks[i / 4] + [row[i + 1]]], row, i + 1)
      else None
    else FillRow(stacks, row, i + 1)
  }

  function FillRows(stacks: Stacks, rows: seq<string>): Option<Stacks>
    decreases |rows|
  {
    if rows == [] then Some(stacks)
    else
      match FillRow(stacks, rows[0], 0)
      case Some(next) => FillRows(next, rows[1..])
      case None => None
  }

  function Reversed(rows: seq<string>): (r: seq<string>)
    ensures |r| == |rows|
    ensures forall k :: 0 <= k < |rows| ==> r[k] == rows[|rows| - 1 - k]
    decreases |rows|
  {
    if rows == [] then [] else [rows[|rows| - 1]] + Reversed(rows[..|rows| - 1])
  }

  /** `parse_raw_stacks`: drops the numbering line, creates
      `(len(bottom row) + 1) // 4` empty stacks and fills them row by row from
      the bottom. `None` where the source raises: a drawing without a crate row,
      or a '[' with nothing after it or beyond the last stack. */
  method ParseRawStacks(rawStacks: seq<string>) returns (r: Option<Stacks>)
    ensures |rawStacks| < 2 ==> r == None
    ensures |rawStacks| >= 2 ==>
      var ordered := Reversed(rawStacks[..|rawStacks| - 1]);
      r == FillRows(seq((|ordered[0]| + 1) / 4, _ => []), ordered)
  {
    if |rawStacks| < 2 {
      return None;
    }
    var ordered := Reversed(rawStacks[..|rawStacks| - 1]);
    var stacks: Stacks := seq((|ordered[0]| + 1) / 4, _ => []);
    ghost var outcome := FillRows(stacks, ordered);
    var j := 0;
    while j < |ordered|
      invariant 0 <= j <= |ordered|
      invariant FillRows(stacks, ordered[j..]) == outcome
    {
      var rawStack := ordered[j];
      assert ordered[j..][0] == rawStack && ordered[j..][1..] == ordered[j + 1..];
      ghost var rowOutcome := FillRow(stacks, rawStack, 0);
      var i := 0;
      while i < |rawStack|
        invariant 0 <= i <= |rawStack|
        invariant FillRow(stacks, rawStack, i) == rowOutcome
      {
        if rawStack[i] == '[' {
          if i + 1 >= |rawStack| || i / 4 >= |stacks| {
            return None;
          }
          stacks := stacks[i / 4 := stacks[i / 4] + [rawStack[i + 1]]];
        }
        i := i + 1;
      }
      j := j + 1;
    }
    return Some(stacks);
  }

  /** The crate a well-drawn row shows for stack `j`: the letter after a '['
      at column `4 * j`. */
  function CrateAt(row: string, j: nat): seq<char> {
    if 4 * j + 1 < |row| && row[4 * j] == '[' then [row[4 * j + 1]] else []
  }

  /** A row drawn in the puzzle's layout for `count` stacks: every '[' sits
      at a column that is a multiple of 4, inside the drawing and followed by
      a letter. */
  predicate WellDrawn(row: string, count: nat) {
    forall i :: 0 <= i < |row| && row[i] == '[' ==> i % 4 == 0 && i + 1 < |row| && i / 4 < count
  }

  /** A well-drawn row adds to each stack the crate drawn above it. */
  lemma {:induction false} FillRowStacks(stacks: Stacks, row: string, i: nat)
    requires WellDrawn(row, |stacks|) && i <= |row|
    ensures FillRow(stacks, row, i)
         == Some(seq(|stacks|, j requires 0 <= j < |stacks| => stacks[j] + (if 4 * j >= i then CrateAt(row, j) else [])))
    decreases |row| - i
  {
    var expected := seq(|stacks|, j requires 0 <= j < |stacks| => stacks[j] + (if 4 * j >= i then CrateAt(row, j) else []));
    if i >= |row| {
      assert expected == stacks by {
        forall j | 0 <= j < |stacks| ensures expected[j] == stacks[j] {
          if 4 * j >= i { assert CrateAt(row, j) == []; }
        }
      }
    } else if row[i] == '[' {
      var k := i / 4;
      var next := stacks[k := stacks[k] + [row[i + 1]]];
      FillRowStacks(next, row, i + 1);
      var got := seq(|next|, j requires 0 <= j < |next| => next[j] + (if 4 * j >= i + 1 then CrateAt(row, j) else []));
      assert got == expected by {
        forall j | 0 <= j < |stacks| ensures got[j] == expected[j] {
          if j == k {
            assert 4 * j == i;
            assert CrateAt(row, j) == [row[i + 1]];
          }
        }
      }
    } else {
      FillRowStacks(stacks, row, i + 1);
      var got := seq(|stacks|, j requires 0 <= j < |stacks| => stacks[j] + (if 4 * j >= i + 1 then CrateAt(row, j) else []));
      assert got == expected by {
        forall j | 0 <= j < |stacks| ensures got[j] == expected[j] {
          if 4 * j == i {
            assert CrateAt(row, j) == [];
          }
        }
      }
    }
  }

  /** A well-drawn row, scanned from its start, adds to each stack its crate. */
  lemma FillWellDrawnRow(stacks: Stacks, row: string, expected: Stacks)
    requires WellDrawn(row, |stacks|)
    requires |expected| == |stacks| && forall j :: 0 <= j < |stacks| ==> expected[j] == stacks[j] + CrateAt(row, j)
    ensures FillRow(stacks, row, 0) == Some(expected)
  {
    FillRowStacks(stacks, row, 0);
    var filled := seq(|stacks|, j requires 0 <= j < |stacks| => stacks[j] + (if 4 * j >= 0 then CrateAt(row, j) else []));
    assert filled == expected by {
      forall j | 0 <= j < |stacks| ensures filled[j] == expected[j] { }
    }
  }

  /** The bottom row of the test's drawing puts Z, M and P on the empty stacks. */
  lemma SampleBottomRow()
    ensures FillRow([[], [], []], "[Z] [M] [P]", 0) == Some([['Z'], ['M'], ['P']])
  {
    var row := "[Z] [M] [P]";
    assert CrateAt(row, 0) == ['Z'] && CrateAt(row, 1) == ['M'] && CrateAt(row, 2) == ['P'];
    FillWellDrawnRow([[], [], []], row, [['Z'], ['M'], ['P']]);
  }

  /** The middle row adds N and C. */
  lemma SampleMiddleRow()
    ensures FillRow([['Z'], ['M'], ['P']], "[N] [C]    ", 0) == Some([['Z', 'N'], ['M', 'C'], ['P']])
  {
    var row := "[N] [C]    ";
    assert CrateAt(row, 0) == ['N'] && CrateAt(row, 1) == ['C'] && CrateAt(row, 2) == [];
    FillWellDrawnRow([['Z'], ['M'], ['P']], row, [['Z', 'N'], ['M', 'C'], ['P']]);
  }

  /** The top row adds D. */
  lemma SampleTopRow()
    ensures FillRow([['Z', 'N'], ['M', 'C'], ['P']], "    [D]    ", 0) == Some([['Z', 'N'], ['M', 'C', 'D'], ['P']])
  {
    var row := "    [D]    ";
    assert CrateAt(row, 0) == [] && CrateAt(row, 1) == ['D'] && CrateAt(row, 2) == [];
    FillWellDrawnRow([['Z', 'N'], ['M', 'C'], ['P']], row, [['Z', 'N'], ['M', 'C', 'D'], ['P']]);
  }

  /** Three rows filled one after the other. */
  lemma {:induction false} FillThreeRows(s0: Stacks, s1: Stacks, s2: Stacks, s3: Stacks, rows: seq<string>)
    requires |rows| == 3
    requires FillRow(s0, rows[0], 0) == Some(s1) && FillRow(s1, rows[1], 0) == Some(s2)
    requires FillRow(s2, rows[2], 0) == Some(s3)
    ensures FillRows(s0, rows) == Some(s3)
  {
    var r1 := rows[1..];
    var r2 := r1[1..];
    assert r1[0] == rows[1] && r2[0] == rows[2] && r2[1..] == [];
    assert FillRows(s3, r2[1..]) == Some(s3);
    assert FillRows(s2, r2) == Some(s3);
    assert FillRows(s1, r1) == Some(s3);
  }

  /** The drawing of the test: three stacks, ZN, MCD and P. */
  lemma SampleRawStacks()
    ensures var raw := ["    [D]    ", "[N] [C]    ", "[Z] [M] [P]", " 1   2   3 "];
            var ordered := Reversed(raw[..|raw| - 1]);
            (|ordered[0]| + 1) / 4 == 3
            && FillRows(seq(3, _ => []), ordered) == Some([['Z', 'N'], ['M', 'C', 'D'], ['P']])
  {
    var raw := ["    [D]    ", "[N] [C]    ", "[Z] [M] [P]", " 1   2   3 "];
    var ordered := Reversed(raw[..|raw| - 1]);
    assert ordered == ["[Z] [M] [P]", "[N] [C]    ", "    [D]    "];
    var empty: Stacks := seq(3, _ => []);
    assert empty == [[], [], []];
    SampleBottomRow();
    SampleMiddleRow();
    SampleTopRow();
    FillThreeRows(empty, [['Z'], ['M'], ['P']], [['Z', 'N'], ['M', 'C'], ['P']],
                  [['Z', 'N'], ['M', 'C', 'D'], ['P']], ordered);
  }

  /** `parse_instruction`: the template "move <a> from <b> to <c>" with
      decimal numbers; `None` where the pattern is not found. */
  function ParseInstruction(rawInstruction: string): Option<Instruction> {
    var parts := Text.Split(rawInstruction, " ");
    if |parts| != 6 || parts[0] != "move" || parts[2] != "from" || parts[4] != "to" then None
    else
      match (Text.ParseNat(parts[1]), Text.ParseNat(parts[3]), Text.ParseNat(parts[5]))
      case (Some(a), Some(b), Some(c)) => Some(Instruction(a, b, c))
      case _ => None
  }

  function FormatInstruction(quantity: nat, origin: nat, destination: nat): string {
    "move " + Text.NatToString(quantity) + " from " + Text.NatToString(origin)
      + " to " + Text.NatToString(destination)
  }

  /** The template with the numerals `a`, `b` and `c` filled in parses to their
      values. */
  lemma ParseTemplate(quantity: nat, origin: nat, destination: nat, a: string, b: string, c: string)
    requires a == Text.NatToString(quantity) && b == Text.NatToString(origin)
    requires c == Text.NatToString(destination)
    ensures ParseInstruction("move " + a + " from " + b + " to " + c)
         == Some(Instruction(quantity, origin, destination))
  {
    Text.NumeralHasNoSeparator(quantity);
    Text.NumeralHasNoSeparator(origin);
    Text.NumeralHasNoSeparator(destination);
    SplitTemplate(a, b, c);
    Text.ParseNatToString(quantity);
    Text.ParseNatToString(origin);
    Text.ParseNatToString(destination);
  }

  /** The template filled with three words free of spaces splits into its
      six words. */
  lemma SplitTemplate(a: string, b: string, c: string)
    requires ' ' !in a && ' ' !in b && ' ' !in c
    ensures Text.Split("move " + a + " from " + b + " to " + c, " ") == ["move", a, "from", b, "to", c]
  {
    var parts := ["move", a, "from", b, "to", c];
    JoinSix("move", a, "from", b, "to", c, " ");
    assert "move" + " " + a + " " + "from" + " " + b + " " + "to" + " " + c
        == "move " + a + " from " + b + " to " + c;
    forall i | 0 <= i < |parts|
      ensures " "[0] !in parts[i]
    {
      if i == 0 {
        assert ' ' !in "move";
      } else if i == 2 {
        assert ' ' !in "from";
      } else if i == 4 {
        assert ' ' !in "to";
      }
    }
    Text.SplitJoin(parts, " ", 0);
  }

  /** Six fields joined by a separator. */
  lemma JoinSix(p0: string, p1: string, p2: string, p3: string, p4: string, p5: string, sep: string)
    ensures Text.Join([p0, p1, p2, p3, p4, p5], sep) == p0 + sep + p1 + sep + p2 + sep + p3 + sep + p4 + sep + p5
  {
    var parts := [p0, p1, p2, p3, p4, p5];
    assert parts[1..] == [p1, p2, p3, p4, p5] && parts[2..] == [p2, p3, p4, p5];
    assert parts[3..] == [p3, p4, p5] && parts[4..] == [p4, p5] && parts[5..] == [p5];
    assert Text.Join(parts[5..], sep) == p5;
    assert Text.Join(parts[4..], sep) == p4 + sep + p5;
    assert Text.Join(parts[3..], sep) == p3 + sep + (p4 + sep + p5);
    assert Text.Join(parts[2..], sep) == p2 + sep + (p3 + sep + (p4 + sep + p5));
    assert Text.Join(parts[1..], sep) == p1 + sep + (p2 + sep + (p3 + sep + (p4 + sep + p5)));
  }

  /** A move written out in the template parses back to its three numbers,
      however many digits they have. */
  lemma ParseFormatInstruction(quantity: nat, origin: nat, destination: nat)
    ensures ParseInstruction(FormatInstruction(quantity, origin, destination))
         == Some(Instruction(quantity, origin, destination))
  {
    ParseTemplate(quantity, origin, destination, Text.NatToString(quantity), Text.NatToString(origin),
                  Text.NatToString(destination));
  }

  /** The three lines of the test. */
  lemma ParseExampleOne()
    ensures ParseInstruction("move 1 from 2 to 1") == Some(Instruction(1, 2, 1))
  {
    assert "move " + "1" + " from " + "2" + " to " + "1" == "move 1 from 2 to 1";
    ParseTemplate(1, 2, 1, "1", "2", "1");
  }

  lemma ParseExampleTwo()
    ensures ParseInstruction("move 2 from 2 to 1") == Some(Instruction(2, 2, 1))
  {
    assert "move " + "2" + " from " + "2" + " to " + "1" == "move 2 from 2 to 1";
    ParseTemplate(2, 2, 1, "2", "2", "1");
  }

  lemma ParseExampleThree()
    ensures ParseInstruction("move 11 from 7 to 2") == Some(Instruction(11, 7, 2))
  {
    assert Text.NatToString(11) == "11";
    assert "move " + "11" + " from " + "7" + " to " + "2" == "move 11 from 7 to 2";
    ParseTemplate(11, 7, 2, "11", "7", "2");
  }
}
