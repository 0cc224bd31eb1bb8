/** `generate_chunks_of_lines` of test_day01/test_ex01.py and
    test_day11/test_ex17.py: a shared iterator over the lines is drained by
    `takewhile(line != "")` again and again, each call consuming the blank line
    that stops it, until a call produces nothing. */
module LineChunks {

  /** The number of lines before the first blank one (or the end). */
  function RunLength(lines: seq<string>): (n: nat)
    ensures n <= |lines|
    ensures forall k :: 0 <= k < n ==> lines[k] != ""
    ensures n < |lines| ==> lines[n] == ""
    decreases |lines|
  {
    if lines == [] || lines[0] == "" then 0 else 1 + RunLength(lines[1..])
  }

  /** What is left of the iterator after one `takewhile`: the run and the
      blank line that ended it are consumed. */
  function AfterRun(lines: seq<string>): (rest: seq<string>)
    ensures lines != [] ==> |rest| < |lines|
  {
    var n := RunLength(lines);
    if n < |lines| then lines[n + 1..] else []
  }

  /** The chunks the generator yields, in order. */
  function Chunks(lines: seq<string>): seq<seq<string>>
    decreases |lines|
  {
    var n := RunLength(lines);
    if n == 0 then [] else [lines[..n]] + Chunks(AfterRun(lines))
  }

  /** Every chunk is a nonempty run of non-blank lines. */
  lemma {:induction false} ChunksAreRuns(lines: seq<string>)
    ensures forall c :: c in Chunks(lines) ==> c != [] && "" !in c
    decreases |lines|
  {
    var n := RunLength(lines);
    if n > 0 {
      ChunksAreRuns(AfterRun(lines));
      assert "" !in lines[..n] by {
        forall k | 0 <= k < n ensures lines[..n][k] != "" {
        }
      }
    }
  }

  /** Lines with the chunks of `chunks`, one blank line between consecutive
      chunks. */
  function Unchunk(chunks: seq<seq<string>>): seq<string>
    decreases |chunks|
  {
    if chunks == [] then []
    else if |chunks| == 1 then chunks[0]
    else chunks[0] + [""] + Unchunk(chunks[1..])
  }

  lemma {:induction false} RunOfChunk(chunk: seq<string>, rest: seq<string>)
    requires "" !in chunk
    ensures RunLength(chunk + rest) == |chunk| + RunLength(rest)
    decreases |chunk|
  {
    if chunk == [] {
      assert chunk + rest == rest;
    } else {
      assert (chunk + rest)[0] == chunk[0] && (chunk + rest)[1..] == chunk[1..] + rest;
      RunOfChunk(chunk[1..], rest);
    }
  }

  /** Blank-separated nonempty chunks without blank lines are given back as
      they are: the generator inverts `Unchunk`. */
  lemma {:induction false} ChunksUnchunk(chunks: seq<seq<string>>)
    requires forall k :: 0 <= k < |chunks| ==> chunks[k] != [] && "" !in chunks[k]
    ensures Chunks(Unchunk(chunks)) == chunks
    decreases |chunks|
  {
    if chunks == [] {
    } else if |chunks| == 1 {
      var c := chunks[0];
      RunOfChunk(c, []);
      assert c + [] == c;
      assert c[..|c|] == c;
    } else {
      var c := chunks[0];
      var rest := Unchunk(chunks[1..]);
      var lines := c + ([""] + rest);
      assert Unchunk(chunks) == lines;
      RunOfChunk(c, [""] + rest);
      assert RunLength([""] + rest) == 0;
      assert lines[..|c|] == c;
      assert lines[|c|] == "";
      assert AfterRun(lines) == rest;
      ChunksUnchunk(chunks[1..]);
      assert chunks == [c] + chunks[1..];
    }
  }

  /** The lines without their blank lines. */
  function NonBlank(lines: seq<string>): seq<string> {
    if lines == [] then []
    else (if lines[0] == "" then [] else [lines[0]]) + NonBlank(lines[1..])
  }

  function Concat(chunks: seq<seq<string>>): seq<string> {
    if chunks == [] then [] else chunks[0] + Concat(chunks[1..])
  }

  /** No blank line starts the input or follows another blank line, so the
      generator does not stop early. */
  predicate NoEmptyRun(lines: seq<string>) {
    (|lines| > 0 ==> lines[0] != "")
    && forall k :: 0 <= k < |lines| - 1 && lines[k] == "" ==> lines[k + 1] != ""
  }

  lemma {:induction false} NonBlankAppend(a: seq<string>, b: seq<string>)
    ensures NonBlank(a + b) == NonBlank(a) + NonBlank(b)
    decreases |a|
  {
    if a == [] {
      assert a + b == b;
    } else {
      assert (a + b)[0] == a[0] && (a + b)[1..] == a[1..] + b;
      NonBlankAppend(a[1..], b);
    }
  }

  lemma {:induction false} NonBlankOfRun(run: seq<string>)
    requires "" !in run
    ensures NonBlank(run) == run
    decreases |run|
  {
    if run != [] {
      NonBlankOfRun(run[1..]);
      assert run == [run[0]] + run[1..];
    }
  }

  /** The run ends at the first blank line. */
  lemma {:induction false} RunLengthIs(lines: seq<string>, n: nat)
    requires n <= |lines| && (n == |lines| || lines[n] == "")
    requires forall k :: 0 <= k < n ==> lines[k] != ""
    ensures RunLength(lines) == n
    decreases n
  {
    if n > 0 {
      RunLengthIs(lines[1..], n - 1);
    }
  }

  /** What follows a run and its blank line has no empty run when the whole
      input has none. */
  lemma NoEmptyRunAfter(lines: seq<string>)
    requires NoEmptyRun(lines)
    ensures NoEmptyRun(AfterRun(lines))
  {
    var n := RunLength(lines);
    if n < |lines| {
      var rest := lines[n + 1..];
      if |rest| > 0 {
        assert rest[0] == lines[n + 1];
        assert n > 0 || lines == [];
      }
      forall k | 0 <= k < |rest| - 1 && rest[k] == "" ensures rest[k + 1] != "" {
        assert rest[k] == lines[n + 1 + k] && rest[k + 1] == lines[n + 2 + k];
      }
    }
  }

  /** The non-blank lines are those of the first run followed by those after
      the blank line that ends it. */
  lemma NonBlankSplit(lines: seq<string>)
    ensures var n := RunLength(lines);
            NonBlank(lines) == lines[..n] + NonBlank(AfterRun(lines))
  {
    var n := RunLength(lines);
    var run := lines[..n];
    assert "" !in run by {
      forall k | 0 <= k < n ensures run[k] != "" {
      }
    }
    NonBlankOfRun(run);
    if n < |lines| {
      var rest := lines[n + 1..];
      assert lines == run + ([""] + rest);
      NonBlankAppend(run, [""] + rest);
      assert NonBlank([""] + rest) == NonBlank(rest) by {
        assert ([""] + rest)[0] == "" && ([""] + rest)[1..] == rest;
      }
    } else {
      assert run == lines;
      assert run + [] == run;
    }
  }

  /** Without an empty run the chunks hold every non-blank line, in order. */
  lemma {:induction false} ChunksKeepLines(lines: seq<string>)
    requires NoEmptyRun(lines)
    ensures Concat(Chunks(lines)) == NonBlank(lines)
    decreases |lines|
  {
    if lines != [] {
      var n := RunLength(lines);
      var run := lines[..n];
      var tail := Chunks(AfterRun(lines));
      assert Chunks(lines) == [run] + tail;
      assert Concat([run] + tail) == run + Concat(tail) by {
        assert ([run] + tail)[0] == run && ([run] + tail)[1..] == tail;
      }
      NonBlankSplit(lines);
      NoEmptyRunAfter(lines);
      ChunksKeepLines(AfterRun(lines));
    }
  }

  /** One `takewhile` call from position `start`, having stopped at `stop`. */
  lemma ChunkStep(lines: seq<string>, start: nat, stop: nat)
    requires start <= stop <= |lines| && (stop == |lines| || lines[stop] == "")
    requires forall k :: start <= k < stop ==> lines[k] != ""
    ensures var next := if stop < |lines| then stop + 1 else stop;
            Chunks(lines[start..])
            == if stop == start then [] else [lines[start..stop]] + Chunks(lines[next..])
  {
    var remaining := lines[start..];
    RunLengthIs(remaining, stop - start);
    assert remaining[..stop - start] == lines[start..stop];
    if stop < |lines| {
      assert remaining[stop - start + 1..] == lines[stop + 1..];
    }
  }

  lemma AppendAssociates<T>(a: seq<T>, b: seq<T>, c: seq<T>)
    ensures (a + b) + c == a + (b + c)
  {
  }

  /** `takewhile(lambda line: line != "", ...)` from position `start`: the
      position of the first blank line at or after `start`, or the end. */
  method TakeWhileNotBlank(lines: seq<string>, start: nat) returns (stop: nat)
    requires start <= |lines|
    ensures start <= stop <= |lines| && (stop == |lines| || lines[stop] == "")
    ensures forall k :: start <= k < stop ==> lines[k] != ""
  {
    stop := start;
    while stop < |lines| && lines[stop] != ""
      invariant start <= stop <= |lines|
      invariant forall k :: start <= k < stop ==> lines[k] != ""
    {
      stop := stop + 1;
    }
  }

  /** The generator, drained into a list: the loop of `takewhile` calls over
      a shared position in the lines. */
  method GenerateChunksOfLines(rawLines: seq<string>) returns (chunks: seq<seq<string>>)
    ensures chunks == Chunks(rawLines)
  {
    chunks := [];
    var i := 0;
    assert rawLines[0..] == rawLines;
    while true
      invariant 0 <= i <= |rawLines|
      invariant chunks + Chunks(rawLines[i..]) == Chunks(rawLines)
      decreases |rawLines| - i
    {
      var start := i;
      i := TakeWhileNotBlank(rawLines, start);
      var lines := rawLines[start..i];
      ChunkStep(rawLines, start, i);
      if i == start {
        assert chunks + [] == chunks;
        return;
      }
      var next := if i < |rawLines| then i + 1 else i;
      ghost var later := Chunks(rawLines[next..]);
      AppendAssociates(chunks, [lines], later);
      chunks := chunks + [lines];
      i := next;
    }
  }

  /** The lines of the tests give the chunks ab, cd and efg. */
  lemma SampleChunks()
    ensures Chunks(["a", "b", "", "c", "d", "", "e", "f", "g"]) == [["a", "b"], ["c", "d"], ["e", "f", "g"]]
  {
    var chunks := [["a", "b"], ["c", "d"], ["e", "f", "g"]];
    assert chunks[1..] == [["c", "d"], ["e", "f", "g"]] && chunks[1..][1..] == [["e", "f", "g"]];
    assert Unchunk(chunks) == ["a", "b", "", "c", "d", "", "e", "f", "g"];
    ChunksUnchunk(chunks);
  }
}
