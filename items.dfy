/** What the two rucksack solvers of test_day03 share: `get_item_priority`,
    the 1-based position of an item in `string.ascii_letters`, and the search
    for an item common to several collections of items. */
module Items {
  import opened Wrappers

  /** `string.ascii_letters`: the lower-case letters, then the upper-case
      ones. */
  function AsciiLetters(): (letters: string)
    ensures |letters| == 52
  {
    seq(52, i requires 0 <= i < 52 => LetterAt(i))
  }

  /** The letter at position `i` of `AsciiLetters`. */
  function LetterAt(i: int): char
    requires 0 <= i < 52
  {
    if i < 26 then ('a' as int + i) as char else ('A' as int + i - 26) as char
  }

  predicate IsLower(c: char) {
    'a' <= c <= 'z'
  }

  predicate IsUpper(c: char) {
    'A' <= c <= 'Z'
  }

  /** `s.index(c)`: the first position of `c`; `None` (the `ValueError`) when
      it does not occur. */
  function IndexOf(s: string, c: char): (r: Option<nat>)
    ensures r.Some? <==> c in s
    ensures r.Some? ==> r.value < |s| && s[r.value] == c && forall k :: 0 <= k < r.value ==> s[k] != c
    decreases |s|
  {
    if s == [] then None
    else if s[0] == c then Some(0)
    else
      match IndexOf(s[1..], c)
      case Some(i) => Some(i + 1)
      case None => None
  }

  function GetItemPriority(item: char): (r: Option<nat>)
    ensures r.Some? ==> 1 <= r.value <= 52
  {
    match IndexOf(AsciiLetters(), item)
    case Some(i) => Some(i + 1)
    case None => None
  }

  /** The priority computed from the letter's code: the form the solvers'
      sums use, equal to `GetItemPriority` by `PriorityOfItem`. */
  function Priority(item: char): (r: Option<nat>)
    ensures r.Some? ==> 1 <= r.value <= 52
  {
    if IsLower(item) then Some(item as int - 'a' as int + 1)
    else if IsUpper(item) then Some(item as int - 'A' as int + 27)
    else None
  }

  /** The first position of `c` is the position before which it does not
      occur. */
  lemma {:induction false} IndexOfFirst(s: string, c: char, k: nat)
    requires k < |s| && s[k] == c
    requires forall j :: 0 <= j < k ==> s[j] != c
    ensures IndexOf(s, c) == Some(k)
  {
    var r := IndexOf(s, c);
    assert r.Some?;
    assert !(r.value < k);
    assert !(r.value > k);
  }

  lemma LowerPriority(item: char)
    requires IsLower(item)
    ensures GetItemPriority(item) == Some(item as int - 'a' as int + 1)
  {
    var k := item as int - 'a' as int;
    IndexOfFirst(AsciiLetters(), item, k);
  }

  lemma UpperPriority(item: char)
    requires IsUpper(item)
    ensures GetItemPriority(item) == Some(item as int - 'A' as int + 27)
  {
    var letters := AsciiLetters();
    var k := item as int - 'A' as int + 26;
    assert letters[k] == item;
    forall j | 0 <= j < k
      ensures letters[j] != item
    {
      assert letters[j] == LetterAt(j);
    }
    IndexOfFirst(letters, item, k);
  }

  lemma NonLetterPriority(item: char)
    requires !IsLower(item) && !IsUpper(item)
    ensures GetItemPriority(item) == None
  {
    assert item !in AsciiLetters() by {
      forall k | 0 <= k < 52 ensures AsciiLetters()[k] != item {
      }
    }
  }

  /** Items a to z have priorities 1 to 26 and A to Z 27 to 52; anything else
      has none. */
  lemma PriorityOfItem(item: char)
    ensures IsLower(item) ==> GetItemPriority(item) == Some(item as int - 'a' as int + 1)
    ensures IsUpper(item) ==> GetItemPriority(item) == Some(item as int - 'A' as int + 27)
    ensures !IsLower(item) && !IsUpper(item) ==> GetItemPriority(item) == None
    ensures GetItemPriority(item) == Priority(item)
  {
    if IsLower(item) {
      LowerPriority(item);
    } else if IsUpper(item) {
      UpperPriority(item);
    } else {
      NonLetterPriority(item);
    }
  }

  /** Different items have different priorities. */
  lemma PriorityInjective(a: char, b: char)
    requires GetItemPriority(a).Some? && GetItemPriority(a) == GetItemPriority(b)
    ensures a == b
  {
  }

  /** The priorities of the tests: P is 42 and t is 20. */
  lemma SamplePriorities()
    ensures GetItemPriority('P') == Some(42)
    ensures GetItemPriority('t') == Some(20)
  {
    PriorityOfItem('P');
    PriorityOfItem('t');
  }

  /** `c` occurs in each of `others`. */
  predicate InAll(c: char, others: seq<string>) {
    forall k :: 0 <= k < |others| ==> c in others[k]
  }

  /** The items of `items` that occur in each of `others`: the intersection
      of the sets the solvers build. */
  function Common(items: string, others: seq<string>): set<char> {
    set c | c in items && InAll(c, others)
  }

  /** The first item of `items`, from position `i` on, that occurs in each of
      `others`; `None` when there is none. */
  function FirstCommon(items: string, others: seq<string>, i: nat): (r: Option<char>)
    requires i <= |items|
    ensures r.Some? ==> InAll(r.value, others) && exists k :: i <= k < |items| && items[k] == r.value
    ensures r.None? <==> forall k :: i <= k < |items| ==> !InAll(items[k], others)
    decreases |items| - i
  {
    if i == |items| then None
    else if InAll(items[i], others) then Some(items[i])
    else FirstCommon(items, others, i + 1)
  }

  /** The search finds an item of the intersection, and nothing exactly when
      the intersection is empty. */
  lemma FirstCommonInCommon(items: string, others: seq<string>)
    ensures FirstCommon(items, others, 0).Some? ==> FirstCommon(items, others, 0).value in Common(items, others)
    ensures FirstCommon(items, others, 0).None? <==> Common(items, others) == {}
  {
  }

  /** When the intersection holds a single item, as the puzzle promises, the
      search finds that item, whichever one `set.pop` would return. */
  lemma FirstCommonOfSingleton(items: string, others: seq<string>, c: char)
    requires Common(items, others) == {c}
    ensures FirstCommon(items, others, 0) == Some(c)
  {
    FirstCommonInCommon(items, others);
  }

  /** The search stops at the first item, from position `i` on, that occurs in
      each of `others`. */
  lemma {:induction false} FirstCommonAt(items: string, others: seq<string>, i: nat, k: nat)
    requires i <= k < |items| && InAll(items[k], others)
    requires forall j :: i <= j < k ==> !InAll(items[j], others)
    ensures FirstCommon(items, others, i) == Some(items[k])
    decreases k - i
  {
    if i < k {
      FirstCommonAt(items, others, i + 1, k);
    }
  }

  /** Every priority that is there is between 1 and 52. */
  predicate InRange(priorities: seq<Option<nat>>) {
    forall k :: 0 <= k < |priorities| && priorities[k].Some? ==> 1 <= priorities[k].value <= 52
  }

  /** `sum` over a generator of priorities: `None` where one of them is
      missing, as the exception then leaves `sum`. */
  function SumAll(priorities: seq<Option<nat>>): (r: Option<nat>)
    ensures r.Some? <==> forall k :: 0 <= k < |priorities| ==> priorities[k].Some?
    ensures r.Some? && InRange(priorities) ==> |priorities| <= r.value <= 52 * |priorities|
    decreases |priorities|
  {
    if priorities == [] then Some(0)
    else
      var rest := SumAll(priorities[1..]);
      assert forall k :: 1 <= k < |priorities| ==> priorities[k] == priorities[1..][k - 1];
      if priorities[0].Some? && rest.Some? then Some(priorities[0].value + rest.value) else None
  }

  function Total(values: seq<nat>): nat {
    if values == [] then 0 else values[0] + Total(values[1..])
  }

  /** When every priority is there, the sum is the sum of their values. */
  lemma {:induction false} SumAllOfValues(priorities: seq<Option<nat>>, values: seq<nat>)
    requires |priorities| == |values|
    requires forall k :: 0 <= k < |values| ==> priorities[k] == Some(values[k])
    ensures SumAll(priorities) == Some(Total(values))
    decreases |values|
  {
    if values != [] {
      SumAllOfValues(priorities[1..], values[1..]);
    }
  }

  /** Six priorities that are all there. */
  lemma SumOfSix(p0: nat, p1: nat, p2: nat, p3: nat, p4: nat, p5: nat)
    ensures SumAll([Some(p0), Some(p1), Some(p2), Some(p3), Some(p4), Some(p5)])
         == Some(p0 + p1 + p2 + p3 + p4 + p5)
  {
    var ps := [Some(p0), Some(p1), Some(p2), Some(p3), Some(p4), Some(p5)];
    assert SumAll(ps[5..]) == Some(p5);
    assert SumAll(ps[4..]) == Some(p4 + p5);
    assert SumAll(ps[3..]) == Some(p3 + p4 + p5);
    assert SumAll(ps[2..]) == Some(p2 + p3 + p4 + p5);
    assert SumAll(ps[1..]) == Some(p1 + p2 + p3 + p4 + p5);
  }
}
