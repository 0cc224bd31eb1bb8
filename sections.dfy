/** test_day04/test_ex07.py and test_ex08.py: each elf of a pair cleans a
    range of section IDs, written "2-4"; the two solvers ask whether one range
    of a pair contains the other, and whether the two overlap. */
module Sections {
  import opened Wrappers
  import Text

  /** A Python `range(start, stop)`: the IDs from `start` up to but not
      including `stop`. */
  datatype Range = Range(start: int, stop: int)

  predicate IsEmpty(r: Range) {
    r.stop <= r.start
  }

  /** The IDs of the range in order, as iterating it yields them. */
  function Ids(r: Range): (ids: seq<int>)
    ensures forall k :: 0 <= k < |ids| ==> ids[k] == r.start + k
    ensures |ids| == if IsEmpty(r) then 0 else r.stop - r.start
  {
    if IsEmpty(r) then [] else seq(r.stop - r.start, k => r.start + k)
  }

  /** `set(section)`: the IDs of the range. */
  function Members(r: Range): set<int> {
    set i | i in Ids(r)
  }

  /** An ID belongs to a range exactly when it lies between its bounds. */
  lemma MemberIff(r: Range, i: int)
    ensures i in Members(r) <==> r.start <= i < r.stop
  {
    if r.start <= i < r.stop {
      assert Ids(r)[i - r.start] == i;
    }
  }

  /** `is_one_range_fully_contained`: one set of IDs is a subset of the
      other. */
  predicate IsOneRangeFullyContained(sections1: Range, sections2: Range) {
    Members(sections1) <= Members(sections2) || Members(sections2) <= Members(sections1)
  }

  /** `are_ranges_overlapping`: the two sets of IDs share one. */
  predicate AreRangesOverlapping(sections1: Range, sections2: Range) {
    Members(sections1) * Members(sections2) != {}
  }

  function Max(a: int, b: int): int {
    if a < b then b else a
  }

  function Min(a: int, b: int): int {
    if a < b then a else b
  }

  /** The IDs of one range are among those of the other exactly when the
      first is empty or lies between the other's bounds. */
  lemma SubsetIffBounds(a: Range, b: Range)
    ensures Members(a) <= Members(b) <==> IsEmpty(a) || (b.start <= a.start && a.stop <= b.stop)
  {
    if !IsEmpty(a) && Members(a) <= Members(b) {
      MemberIff(a, a.start);
      MemberIff(b, a.start);
      MemberIff(a, a.stop - 1);
      MemberIff(b, a.stop - 1);
    }
    if IsEmpty(a) || (b.start <= a.start && a.stop <= b.stop) {
      forall i | i in Members(a)
        ensures i in Members(b)
      {
        MemberIff(a, i);
        MemberIff(b, i);
      }
    }
  }

  /** Containment in terms of the bounds: an empty range is contained in any
      other, and otherwise one range's bounds lie within the other's. */
  lemma ContainedIffBounds(a: Range, b: Range)
    ensures IsOneRangeFullyContained(a, b)
        <==> IsEmpty(a) || IsEmpty(b)
             || (b.start <= a.start && a.stop <= b.stop)
             || (a.start <= b.start && b.stop <= a.stop)
  {
    SubsetIffBounds(a, b);
    SubsetIffBounds(b, a);
  }

  /** Two ranges overlap exactly when the later start comes before the
      earlier stop. */
  lemma OverlappingIffBounds(a: Range, b: Range)
    ensures AreRangesOverlapping(a, b) <==> Max(a.start, b.start) < Min(a.stop, b.stop)
  {
    var lo := Max(a.start, b.start);
    if lo < Min(a.stop, b.stop) {
      MemberIff(a, lo);
      MemberIff(b, lo);
      assert lo in Members(a) * Members(b);
    }
    if AreRangesOverlapping(a, b) {
      var i :| i in Members(a) * Members(b);
      MemberIff(a, i);
      MemberIff(b, i);
    }
  }

  lemma ContainedIsSymmetric(a: Range, b: Range)
    ensures IsOneRangeFullyContained(a, b) == IsOneRangeFullyContained(b, a)
  {
  }

  lemma OverlappingIsSymmetric(a: Range, b: Range)
    ensures AreRangesOverlapping(a, b) == AreRangesOverlapping(b, a)
  {
    assert Members(a) * Members(b) == Members(b) * Members(a);
  }

  /** A non-empty range overlaps itself, and contains itself. */
  lemma Reflexive(a: Range)
    ensures IsOneRangeFullyContained(a, a)
    ensures AreRangesOverlapping(a, a) <==> !IsEmpty(a)
  {
    OverlappingIffBounds(a, a);
  }

  /** Of two non-empty ranges, one containing the other, they overlap. */
  lemma ContainedRangesOverlap(a: Range, b: Range)
    requires !IsEmpty(a) && !IsEmpty(b) && IsOneRangeFullyContained(a, b)
    ensures AreRangesOverlapping(a, b)
  {
    ContainedIffBounds(a, b);
    OverlappingIffBounds(a, b);
  }

  /** The containment answers of the pairs of the first test. */
  lemma ContainedSamples()
    ensures !IsOneRangeFullyContained(Range(2, 5), Range(6, 9))
    ensures IsOneRangeFullyContained(Range(2, 9), Range(3, 8))
  {
    ContainedIffBounds(Range(2, 5), Range(6, 9));
    ContainedIffBounds(Range(2, 9), Range(3, 8));
  }

  /** The overlap answers of the pairs of the second test. */
  lemma OverlappingSamples()
    ensures !AreRangesOverlapping(Range(2, 5), Range(6, 9))
    ensures AreRangesOverlapping(Range(2, 9), Range(3, 8))
    ensures AreRangesOverlapping(Range(5, 8), Range(7, 10))
  {
    OverlappingIffBounds(Range(2, 5), Range(6, 9));
    OverlappingIffBounds(Range(2, 9), Range(3, 8));
    OverlappingIffBounds(Range(5, 8), Range(7, 10));
  }

  /** One elf's "start-end": the range `range(int(start), int(end) + 1)`;
      `None` where the unpacking or `int` raises. */
  function ParseRange(raw: string): Option<Range> {
    var bounds := Text.Split(raw, "-");
    if |bounds| != 2 then None
    else
      match (Text.ParseInt(bounds[0]), Text.ParseInt(bounds[1]))
      case (Some(start), Some(end)) => Some(Range(start, end + 1))
      case _ => None
  }

  /** `parse_line`: two ranges separated by ","; `None` where the unpacking or
      `int` raises. */
  function ParseLine(line: string): Option<(Range, Range)> {
    var raws := Text.Split(line, ",");
    if |raws| != 2 then None
    else
      match (ParseRange(raws[0]), ParseRange(raws[1]))
      case (Some(sections1), Some(sections2)) => Some((sections1, sections2))
      case _ => None
  }

  /** The text of a range of section IDs from `start` to `end`, both included. */
  function FormatRange(start: nat, end: nat): string {
    Text.NatToString(start) + "-" + Text.NatToString(end)
  }

  lemma ParseFormatRange(start: nat, end: nat)
    ensures ParseRange(FormatRange(start, end)) == Some(Range(start, end + 1))
    ensures ',' !in FormatRange(start, end)
  {
    var a := Text.NatToString(start);
    var b := Text.NatToString(end);
    Text.NumeralHasNoSeparator(start);
    Text.NumeralHasNoSeparator(end);
    Text.SplitAtSeparator(a, "-", 0, b);
    Text.SplitWithoutSeparator(b, "-", 0);
    Text.ParseNatToString(start);
    Text.ParseNatToString(end);
    assert Text.AllDigits(a) && Text.AllDigits(b);
  }

  /** Parsing the text of a pair of ranges of section IDs gives the pair
      back. */
  lemma ParseFormatLine(start1: nat, end1: nat, start2: nat, end2: nat)
    ensures ParseLine(FormatRange(start1, end1) + "," + FormatRange(start2, end2))
         == Some((Range(start1, end1 + 1), Range(start2, end2 + 1)))
  {
    var a := FormatRange(start1, end1);
    var b := FormatRange(start2, end2);
    ParseFormatRange(start1, end1);
    ParseFormatRange(start2, end2);
    Text.SplitAtSeparator(a, ",", 0, b);
    Text.SplitWithoutSeparator(b, ",", 0);
  }

  /** The lines of the tests. */
  lemma ParseExampleOne()
    ensures ParseLine("2-4,6-8") == Some((Range(2, 5), Range(6, 9)))
  {
    ParseFormatLine(2, 4, 6, 8);
    assert FormatRange(2, 4) + "," + FormatRange(6, 8) == "2-4,6-8";
  }

  lemma ParseExampleTwo()
    ensures ParseLine("2-8,3-7") == Some((Range(2, 9), Range(3, 8)))
  {
    ParseFormatLine(2, 8, 3, 7);
    assert FormatRange(2, 8) + "," + FormatRange(3, 7) == "2-8,3-7";
  }
}
