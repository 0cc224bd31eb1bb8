/** The processor of test_day10/test_ex18.py, which drives a 40-pixel-wide
    screen: during each cycle it lights the pixel under the beam when the
    three-pixel sprite centred on the register covers the beam's column. */
module CrtCpu {
  import opened Wrappers
  import opened Cpu

  const Width := 40

  /** The pixel drawn during the cycle after `cycle` earlier ones, with the
      sprite centred on `register`. */
  function Pixel(cycle: int, register: int): (c: char)
    ensures c == '#' <==> -1 <= cycle % Width - register <= 1
    ensures c == '#' || c == '.'
  {
    if register - 1 <= cycle % Width < register + 2 then '#' else '.'
  }

  /** The pixels of the cycles `values`, starting after `cycle` cycles with
      the register at `register`. */
  function Pixels(cycle: int, register: int, values: seq<Option<int>>): (r: seq<char>)
    ensures |r| == |values|
    decreases |values|
  {
    if values == [] then []
    else [Pixel(cycle, register)] + Pixels(cycle + 1, register + Increment(values[0]), values[1..])
  }

  lemma {:induction false} PixelsAppend(cycle: int, register: int, a: seq<Option<int>>, b: seq<Option<int>>)
    ensures Pixels(cycle, register, a + b)
         == Pixels(cycle, register, a) + Pixels(cycle + |a|, register + Total(a), b)
    decreases |a|
  {
    if a == [] {
      assert a + b == b;
    } else {
      assert (a + b)[0] == a[0] && (a + b)[1..] == a[1..] + b;
      PixelsAppend(cycle + 1, register + Increment(a[0]), a[1..], b);
    }
  }

  /** Pixel `k` is lit exactly when the sprite, centred on the register as the
      first `k` cycles left it, covers column `(cycle + k) % 40`. */
  lemma {:induction false} PixelAt(cycle: int, register: int, values: seq<Option<int>>, k: nat)
    requires k < |values|
    ensures Pixels(cycle, register, values)[k] == Pixel(cycle + k, register + Total(values[..k]))
    decreases k
  {
    if k > 0 {
      PixelAt(cycle + 1, register + Increment(values[0]), values[1..], k - 1);
      assert values[..k][0] == values[0] && values[..k][1..] == values[1..][..k - 1];
    }
  }

  /** Every pixel is '#' or '.'. */
  lemma PixelsAreDots(cycle: int, register: int, values: seq<Option<int>>, k: nat)
    requires k < |values|
    ensures Pixels(cycle, register, values)[k] in {'#', '.'}
  {
    PixelAt(cycle, register, values, k);
  }

  /** `paint`'s string for `pixels`: a "\n" before every pixel whose index is a
      multiple of 40. */
  function Layout(pixels: seq<char>): string
    decreases |pixels|
  {
    if pixels == [] then ""
    else
      var last := |pixels| - 1;
      Layout(pixels[..last]) + (if last % Width == 0 then "\n" else "") + [pixels[last]]
  }

  /** The same screen described row by row: each row of 40 pixels (the last
      one possibly shorter) preceded by "\n". */
  function Rows(pixels: seq<char>): string
    decreases |pixels|
  {
    if pixels == [] then ""
    else if |pixels| <= Width then "\n" + pixels
    else "\n" + pixels[..Width] + Rows(pixels[Width..])
  }

  /** Appending one pixel to the row picture. */
  lemma {:induction false} RowsSnoc(pixels: seq<char>, c: char)
    ensures Rows(pixels + [c]) == Rows(pixels) + (if |pixels| % Width == 0 then "\n" else "") + [c]
    decreases |pixels|
  {
    var longer := pixels + [c];
    if |pixels| > Width {
      var rest := pixels[Width..];
      assert longer[..Width] == pixels[..Width] && longer[Width..] == rest + [c];
      RowsSnoc(rest, c);
      assert |rest| % Width == |pixels| % Width;
      assert Rows(longer) == "\n" + pixels[..Width] + Rows(rest + [c]);
      assert Rows(pixels) == "\n" + pixels[..Width] + Rows(rest);
    } else if |pixels| == Width {
      assert longer[..Width] == pixels && longer[Width..] == [c];
      assert Rows(longer) == "\n" + pixels + Rows([c]);
      assert Rows([c]) == "\n" + [c];
    } else if pixels != [] {
      assert |pixels| % Width == |pixels|;
    } else {
      assert longer == [c];
    }
  }

  /** `paint`'s string is the row picture. */
  lemma {:induction false} LayoutIsRows(pixels: seq<char>)
    ensures Layout(pixels) == Rows(pixels)
    decreases |pixels|
  {
    if pixels != [] {
      var last := |pixels| - 1;
      LayoutIsRows(pixels[..last]);
      RowsSnoc(pixels[..last], pixels[last]);
      assert pixels[..last] + [pixels[last]] == pixels;
    }
  }

  /** One "\n" per started row: the painted string is `|pixels|` plus
      `ceil(|pixels| / 40)` characters long. */
  lemma {:induction false} LayoutLength(pixels: seq<char>)
    ensures |Layout(pixels)| == |pixels| + (|pixels| + Width - 1) / Width
    decreases |pixels|
  {
    if pixels != [] {
      var last := |pixels| - 1;
      LayoutLength(pixels[..last]);
      assert (last + Width - 1) / Width + (if last % Width == 0 then 1 else 0)
          == (|pixels| + Width - 1) / Width;
    }
  }

  /** `s` with every "\n" removed. */
  function WithoutNewlines(s: string): string {
    if s == [] then ""
    else WithoutNewlines(s[..|s| - 1]) + (if s[|s| - 1] == '\n' then "" else [s[|s| - 1]])
  }

  /** Appending a pixel, after a "\n" or not, appends it to the text without
      newlines. */
  lemma WithoutNewlinesSnoc(front: string, c: char, newline: bool)
    requires c != '\n'
    ensures WithoutNewlines(front + (if newline then "\n" else "") + [c]) == WithoutNewlines(front) + [c]
  {
    var middle: string := if newline then "\n" else "";
    var s := front + middle + [c];
    assert s[..|s| - 1] == front + middle && s[|s| - 1] == c;
    if newline {
      var t := front + "\n";
      assert t[..|t| - 1] == front && t[|t| - 1] == '\n';
    } else {
      assert front + middle == front;
    }
  }

  /** Removing the newlines of the painted string gives the pixels back. */
  lemma {:induction false} LayoutWithoutNewlines(pixels: seq<char>)
    requires '\n' !in pixels
    ensures WithoutNewlines(Layout(pixels)) == pixels
    decreases |pixels|
  {
    if pixels != [] {
      var last := |pixels| - 1;
      var front := pixels[..last];
      assert '\n' !in front && pixels[last] != '\n';
      LayoutWithoutNewlines(front);
      var newline := last % Width == 0;
      assert Layout(pixels) == Layout(front) + (if newline then "\n" else "") + [pixels[last]];
      WithoutNewlinesSnoc(Layout(front), pixels[last], newline);
      assert front + [pixels[last]] == pixels;
    }
  }

  class InstructionProcessor {
    var cycle: int
    var register: int
    var instructions: seq<Instruction>

    /** A new processor: no cycle run yet and the register at 1. */
    constructor (instructions: seq<Instruction>)
      ensures cycle == 0 && register == 1 && this.instructions == instructions
    {
      cycle := 0;
      register := 1;
      this.instructions := instructions;
    }

    /** The body of `__iter__`'s inner loop: the pixel drawn during the
        current cycle, lit when the sprite around the register covers the
        column; then one cycle passes and the value is added. */
    method Tick(value: Option<int>) returns (pixel: char)
      modifies this
      ensures pixel == Pixel(old(cycle), old(register))
      ensures cycle == old(cycle) + 1 && register == old(register) + Increment(value)
      ensures instructions == old(instructions)
    {
      pixel := '.';
      if register - 1 <= cycle % Width < register + 2 {
        pixel := '#';
      }
      cycle := cycle + 1;
      register := register + Increment(value);
    }

    /** The inner loop of `__iter__`: the pixels of the cycles of one
        instruction, after which the cycle count and the register have
        advanced over those cycles. */
    method RunInstruction(instruction: Instruction) returns (drawn: seq<char>)
      modifies this
      ensures drawn == Pixels(old(cycle), old(register), Execute(instruction))
      ensures cycle == old(cycle) + |Execute(instruction)|
      ensures register == old(register) + Total(Execute(instruction))
      ensures instructions == old(instructions)
    {
      var values := Execute(instruction);
      drawn := [];
      var j := 0;
      while j < |values|
        invariant 0 <= j <= |values|
        invariant drawn == Pixels(old(cycle), old(register), values[..j])
        invariant cycle == old(cycle) + j
        invariant register == old(register) + Total(values[..j])
        invariant instructions == old(instructions)
      {
        PixelsAppend(old(cycle), old(register), values[..j], [values[j]]);
        TotalAppend(values[..j], [values[j]]);
        assert values[..j] + [values[j]] == values[..j + 1];
        var pixel := Tick(values[j]);
        drawn := drawn + [pixel];
        j := j + 1;
      }
      assert values[..j] == values;
    }

    /** `__iter__`, run to the end: the pixels of all cycles of the program,
        after which the cycle count and the register have advanced over every
        cycle. */
    method Iterate() returns (pixels: seq<char>)
      modifies this
      ensures pixels == Pixels(old(cycle), old(register), Values(instructions))
      ensures cycle == old(cycle) + |Values(instructions)|
      ensures register == old(register) + Total(Values(instructions))
      ensures instructions == old(instructions)
    {
      pixels := [];
      var i := 0;
      while i < |instructions|
        invariant 0 <= i <= |instructions|
        invariant pixels == Pixels(old(cycle), old(register), Values(instructions[..i]))
        invariant cycle == old(cycle) + |Values(instructions[..i])|
        invariant register == old(register) + Total(Values(instructions[..i]))
        invariant instructions == old(instructions)
      {
        ghost var done := Values(instructions[..i]);
        ghost var values := Execute(instructions[i]);
        PixelsAppend(old(cycle), old(register), done, values);
        TotalAppend(done, values);
        var drawn := RunInstruction(instructions[i]);
        pixels := pixels + drawn;
        assert instructions[..i + 1] == instructions[..i] + [instructions[i]];
        ValuesAppend(instructions[..i], [instructions[i]]);
        assert Values([instructions[i]]) == values by {
          assert [instructions[i]][1..] == [];
        }
        i := i + 1;
      }
      assert instructions[..i] == instructions;
    }

    /** `paint`: runs the program and lays its pixels out in rows of 40. */
    method Paint() returns (printed: string)
      modifies this
      ensures printed == Layout(Pixels(old(cycle), old(register), Values(instructions)))
      ensures cycle == old(cycle) + |Values(instructions)|
      ensures register == old(register) + Total(Values(instructions))
      ensures instructions == old(instructions)
    {
      var pixels := Iterate();
      printed := "";
      var i := 0;
      while i < |pixels|
        invariant 0 <= i <= |pixels|
        invariant printed == Layout(pixels[..i])
      {
        if i % Width == 0 {
          printed := printed + "\n";
        }
        printed := printed + [pixels[i]];
        assert pixels[..i + 1][..i] == pixels[..i];
        i := i + 1;
      }
      assert pixels[..i] == pixels;
    }
  }

  /** Addx 15, -11 and 6 draw "##..##". */
  lemma IterativePainting()
    ensures Pixels(0, 1, Values([Addx(15), Addx(-11), Addx(6)])) == "##..##"
  {
    assert Values([Addx(15), Addx(-11), Addx(6)]) == [None, Some(15), None, Some(-11), None, Some(6)];
  }
}
