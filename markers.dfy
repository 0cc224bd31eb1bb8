/** The start-of-packet and start-of-message finders of test_day06: the
    position just after the first window of a fixed number of characters in
    which no character repeats. */
module Markers {
  import opened Wrappers

  /** No character of `w` occurs twice. */
  predicate AllDistinct(w: string) {
    forall i, j :: 0 <= i < j < |w| ==> w[i] != w[j]
  }

  /** The characters of `w`, as `set(chars)` collects them. */
  function CharSet(w: string): set<char> {
    set c | c in w
  }

  /** `len(chars) == len(set(chars))` holds exactly when no character
      repeats. */
  lemma {:induction false} CharSetSize(w: string)
    ensures |CharSet(w)| <= |w|
    ensures |CharSet(w)| == |w| <==> AllDistinct(w)
    decreases |w|
  {
    if w != [] {
      var tail := w[1..];
      CharSetSize(tail);
      CharSetCons(w);
      DistinctCons(w);
      if w[0] in tail {
        assert CharSet(w) == CharSet(tail);
      } else {
        assert w[0] !in CharSet(tail);
      }
    }
  }

  /** The characters of a non-empty string: its first one and those of the
      rest. */
  lemma CharSetCons(w: string)
    requires w != []
    ensures CharSet(w) == {w[0]} + CharSet(w[1..])
  {
    forall c ensures c in CharSet(w) <==> c in {w[0]} + CharSet(w[1..]) {
      assert c in w <==> c == w[0] || c in w[1..] by {
        assert w == [w[0]] + w[1..];
      }
    }
  }

  /** A non-empty string has no repeats exactly when its first character does
      not come back and the rest has no repeats. */
  lemma DistinctCons(w: string)
    requires w != []
    ensures AllDistinct(w) <==> w[0] !in w[1..] && AllDistinct(w[1..])
  {
    var tail := w[1..];
    if w[0] in tail {
      var k :| 0 <= k < |tail| && tail[k] == w[0];
      assert w[0] == w[k + 1];
    }
    if w[0] !in tail && AllDistinct(tail) {
      forall i, j | 0 <= i < j < |w| ensures w[i] != w[j] {
        if i == 0 {
          assert w[j] == tail[j - 1];
        } else {
          assert w[i] == tail[i - 1] && w[j] == tail[j - 1];
        }
      }
    }
    if AllDistinct(w) {
      forall i, j | 0 <= i < j < |tail| ensures tail[i] != tail[j] {
        assert tail[i] == w[i + 1] && tail[j] == w[j + 1];
      }
    }
  }

  /** Position `i` ends a window of `width` characters without repeats. */
  predicate IsMarker(datastream: string, width: nat, i: nat) {
    width <= i <= |datastream| && AllDistinct(datastream[i - width..i])
  }

  /** The first marker position at `i` or later. */
  function MarkerFrom(datastream: string, width: nat, i: nat): (r: Option<nat>)
    requires width <= i
    ensures r.Some? ==> i <= r.value && IsMarker(datastream, width, r.value)
    ensures r.Some? ==> forall j :: i <= j < r.value ==> !IsMarker(datastream, width, j)
    ensures r.None? ==> forall j :: i <= j ==> !IsMarker(datastream, width, j)
    decreases |datastream| - i
  {
    if i > |datastream| then None
    else if AllDistinct(datastream[i - width..i]) then Some(i)
    else MarkerFrom(datastream, width, i + 1)
  }

  /** The value `sliding_window` and `enumerate(..., width)` lead to: the
      smallest position `i >= width` whose `width` preceding characters are
      all distinct, or `None` (the exception) when there is none, in
      particular when the stream is shorter than `width`. */
  function StartIndex(datastream: string, width: nat): Option<nat> {
    MarkerFrom(datastream, width, width)
  }

  /** `StartIndex` is the least marker; no other value has that property. */
  lemma StartIndexUnique(datastream: string, width: nat, r: Option<nat>)
    requires r.Some? ==> IsMarker(datastream, width, r.value)
    requires r.Some? ==> forall j :: width <= j < r.value ==> !IsMarker(datastream, width, j)
    requires r.None? ==> forall j :: width <= j ==> !IsMarker(datastream, width, j)
    ensures StartIndex(datastream, width) == r
  {
  }

  /** The scanning loop shared by both finders: windows are tested in order by
      comparing their length with the size of their character set. */
  method FindStart(datastream: string, width: nat) returns (index: Option<nat>)
    ensures index == StartIndex(datastream, width)
  {
    var i := width;
    while i <= |datastream|
      invariant width <= i
      invariant forall j :: width <= j < i ==> !IsMarker(datastream, width, j)
      decreases |datastream| + 1 - i
    {
      var chars := datastream[i - width..i];
      CharSetSize(chars);
      if |chars| == |set c | c in chars| {
        StartIndexUnique(datastream, width, Some(i));
        return Some(i);
      }
      i := i + 1;
    }
    StartIndexUnique(datastream, width, None);
    return None;
  }

  /** `get_start_of_packet_index`: windows of 4. */
  method GetStartOfPacketIndex(datastream: string) returns (index: Option<nat>)
    ensures index == StartIndex(datastream, 4)
  {
    index := FindStart(datastream, 4);
  }

  /** `get_start_of_message_index`: windows of 14. */
  method GetStartOfMessageIndex(datastream: string) returns (index: Option<nat>)
    ensures index == StartIndex(datastream, 14)
  {
    index := FindStart(datastream, 14);
  }

  /** A stream shorter than the window has no marker. */
  lemma ShortStream(datastream: string, width: nat)
    requires |datastream| < width
    ensures StartIndex(datastream, width) == None
  {
  }

  /** A marker position is where `sliding_window` has produced the window that
      ends there: it never lies past the end of the stream. */
  lemma StartIndexBounds(datastream: string, width: nat)
    ensures StartIndex(datastream, width).Some? ==> width <= StartIndex(datastream, width).value <= |datastream|
  {
  }

  /** `s[k]` does not occur in `s[lo..hi]`, checked position by position. */
  function Absent(s: string, k: nat, lo: nat, hi: nat): bool
    requires k < |s| && lo <= hi <= |s|
    decreases hi - lo
  {
    lo == hi || (s[lo] != s[k] && Absent(s, k, lo + 1, hi))
  }

  /** No character repeats in `s[lo..hi]`, checked position by position. */
  function Distinct(s: string, lo: nat, hi: nat): bool
    requires lo <= hi <= |s|
    decreases hi - lo
  {
    lo == hi || (Absent(s, lo, lo + 1, hi) && Distinct(s, lo + 1, hi))
  }

  lemma {:induction false} AbsentSplit(s: string, k: nat, lo: nat, mid: nat, hi: nat)
    requires k < |s| && lo <= mid <= hi <= |s|
    requires Absent(s, k, lo, mid) && Absent(s, k, mid, hi)
    ensures Absent(s, k, lo, hi)
    decreases mid - lo
  {
    if lo < mid {
      AbsentSplit(s, k, lo + 1, mid, hi);
    }
  }

  lemma {:induction false} AbsentSound(s: string, k: nat, lo: nat, hi: nat)
    requires k < |s| && lo <= hi <= |s|
    requires Absent(s, k, lo, hi)
    ensures forall m :: lo <= m < hi ==> s[m] != s[k]
    decreases hi - lo
  {
    if lo < hi {
      AbsentSound(s, k, lo + 1, hi);
    }
  }

  /** The position-by-position check is the pairwise-distinct window. */
  lemma {:induction false} DistinctSound(s: string, lo: nat, hi: nat)
    requires lo <= hi <= |s|
    requires Distinct(s, lo, hi)
    ensures AllDistinct(s[lo..hi])
    decreases hi - lo
  {
    if lo < hi {
      DistinctSound(s, lo + 1, hi);
      AbsentSound(s, lo, lo + 1, hi);
      var w := s[lo..hi];
      forall i, j | 0 <= i < j < |w| ensures w[i] != w[j] {
        if i == 0 {
          assert w[j] == s[lo + j];
        } else {
          assert w[i] == s[lo + 1..hi][i - 1] && w[j] == s[lo + 1..hi][j - 1];
        }
      }
    }
  }

  /** Two equal characters inside a window make it no marker. */
  lemma Repeat(s: string, lo: nat, hi: nat, a: nat, b: nat)
    requires lo <= a < b < hi <= |s| && s[a] == s[b]
    ensures !AllDistinct(s[lo..hi])
  {
    assert s[lo..hi][a - lo] == s[a] && s[lo..hi][b - lo] == s[b];
  }

  /** A position whose window has no repeats while every earlier window has a
      repeat is the answer. */
  lemma MarkerAt(datastream: string, width: nat, i: nat)
    requires width <= i <= |datastream|
    requires AllDistinct(datastream[i - width..i])
    requires forall j :: width <= j < i ==> !IsMarker(datastream, width, j)
    ensures StartIndex(datastream, width) == Some(i)
  {
    StartIndexUnique(datastream, width, Some(i));
  }
}
