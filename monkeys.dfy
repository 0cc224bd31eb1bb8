/** The monkeys of test_day11/test_ex17.py: each monkey keeps a queue of
    worry levels, inspects them one at a time and throws each one to another
    monkey chosen by a divisibility test; twenty rounds of this give the
    "monkey business" level. */
module Monkeys {
  import opened Wrappers
  import Text

  /** The operations the puzzle input uses: `old + n`, `old * n` and
      `old * old`. */
  datatype Operation = Add(n: int) | Multiply(n: int) | Square

  /** `do_operation`: the worry level the operation gives for `oldItem`. */
  function Evaluate(operation: Operation, oldItem: int): int {
    match operation
    case Add(n) => oldItem + n
    case Multiply(n) => oldItem * n
    case Square => oldItem * oldItem
  }

  /** The parts of a monkey that never change: its id, its operation, its
      divisor and the monkeys it throws to. */
  datatype Rules = Rules(id: int, operation: Operation, divisibleTest: int, trueTarget: int, falseTarget: int)

  /** A monkey as a value: its rules, its queue of items and how many items
      it has inspected. */
  datatype MonkeyState = MonkeyState(rules: Rules, items: seq<int>, inspectionCount: nat)

  datatype ItemMovement = ItemMovement(monkeyId: int, worryLevel: int)

  /** What happens to an item of worry level `worry`: the operation, the
      floor division by 3 (Python's `//`), and the divisibility test that
      picks the monkey it is thrown to. */
  function Inspect(rules: Rules, worry: int): (movement: ItemMovement)
    requires rules.divisibleTest != 0
    ensures var changed := Evaluate(rules.operation, worry);
            3 * movement.worryLevel <= changed < 3 * movement.worryLevel + 3
    ensures movement.worryLevel % rules.divisibleTest == 0 ==> movement.monkeyId == rules.trueTarget
    ensures movement.worryLevel % rules.divisibleTest != 0 ==> movement.monkeyId == rules.falseTarget
  {
    var bored := Evaluate(rules.operation, worry) / 3;
    ItemMovement(if bored % rules.divisibleTest == 0 then rules.trueTarget else rules.falseTarget, bored)
  }

  /** `inspect_next_item` on a value: the movement (`None` where Python
      raises: `StopIteration` on an empty queue, `ZeroDivisionError` on a
      zero divisor, after the item was already taken) and the monkey
      afterwards. */
  function InspectNext(m: MonkeyState): (r: (Option<ItemMovement>, MonkeyState))
    ensures r.1.rules == m.rules
    ensures m.items == [] ==> r == (None, m)
    ensures m.items != [] ==> r.1.items == m.items[1..]
    ensures r.0.Some? <==> m.items != [] && m.rules.divisibleTest != 0
    ensures r.0.Some? ==> r.0.value == Inspect(m.rules, m.items[0])
                          && r.1.inspectionCount == m.inspectionCount + 1
    ensures r.0.None? ==> r.1.inspectionCount == m.inspectionCount
  {
    if m.items == [] then (None, m)
    else if m.rules.divisibleTest == 0 then (None, m.(items := m.items[1..]))
    else
      (Some(Inspect(m.rules, m.items[0])),
       m.(items := m.items[1..], inspectionCount := m.inspectionCount + 1))
  }

  class Monkey {
    var id: int
    var items: seq<int>
    var operation: Operation
    var divisibleTest: int
    var trueTarget: int
    var falseTarget: int
    var inspectionCount: nat

    /** The dataclass constructor: the inspection count starts at 0. */
    constructor (id: int, items: seq<int>, operation: Operation, divisibleTest: int, trueTarget: int, falseTarget: int)
      ensures State() == MonkeyState(Rules(id, operation, divisibleTest, trueTarget, falseTarget), items, 0)
    {
      this.id := id;
      this.items := items;
      this.operation := operation;
      this.divisibleTest := divisibleTest;
      this.trueTarget := trueTarget;
      this.falseTarget := falseTarget;
      this.inspectionCount := 0;
    }

    function State(): MonkeyState
      reads this
    {
      MonkeyState(Rules(id, operation, divisibleTest, trueTarget, falseTarget), items, inspectionCount)
    }

    /** `inspect_next_item`: pops the first item, works out its new worry
        level and target, and counts the inspection. */
    method InspectNextItem() returns (movement: Option<ItemMovement>)
      modifies this
      ensures (movement, State()) == InspectNext(old(State()))
    {
      if items == [] {
        return None;
      }
      var oldItem := items[0];
      items := items[1..];
      var newItem := Evaluate(operation, oldItem);
      var boredItem := newItem / 3;
      if divisibleTest == 0 {
        return None;
      }
      var target := if boredItem % divisibleTest == 0 then trueTarget else falseTarget;
      inspectionCount := inspectionCount + 1;
      movement := Some(ItemMovement(target, boredItem));
    }
  }

  /** The test's monkey 0 (items 79 and 98, `old * 19`, divisible by 23,
      throwing to 2 or 3) sends 79 to monkey 3 as 500, keeps 98 and has
      inspected one item; `old * 5` of 5 is 25 and `old * old` of 3 is 9. */
  lemma SampleInspection()
    ensures var m := MonkeyState(Rules(0, Multiply(19), 23, 2, 3), [79, 98], 0);
            InspectNext(m) == (Some(ItemMovement(3, 500)), m.(items := [98], inspectionCount := 1))
    ensures Evaluate(Multiply(5), 5) == 25 && Evaluate(Square, 3) == 9
  {
  }

  // The simulation, on values.

  function RulesOf(ms: seq<MonkeyState>): (r: seq<Rules>)
    ensures |r| == |ms| && forall k :: 0 <= k < |ms| ==> r[k] == ms[k].rules
  {
    seq(|ms|, k requires 0 <= k < |ms| => ms[k].rules)
  }

  /** No divisor is zero and every monkey throws to another monkey of the
      list. Python raises on a zero divisor or a target past the end. A
      monkey that throws to itself may keep its `while monkey.items` going
      forever (item 0 under "old + 0", say, since 0 stays 0 and is always
      divisible), though it need not: an item of 9 under "old + 0" with
      divisor 3 comes back as 3 and then leaves as 1. Targets other than
      the thrower are what make a turn end after one throw per item. */
  predicate ValidRules(rules: seq<Rules>) {
    forall k :: 0 <= k < |rules| ==>
      rules[k].divisibleTest != 0
      && 0 <= rules[k].trueTarget < |rules| && rules[k].trueTarget != k
      && 0 <= rules[k].falseTarget < |rules| && rules[k].falseTarget != k
  }

  predicate ValidTroop(ms: seq<MonkeyState>) {
    ValidRules(RulesOf(ms))
  }

  /** The number of items all the monkeys hold. */
  function TotalItems(ms: seq<MonkeyState>): nat {
    if ms == [] then 0 else |ms[0].items| + TotalItems(ms[1..])
  }

  /** The number of inspections all the monkeys have made. */
  function TotalInspections(ms: seq<MonkeyState>): nat {
    if ms == [] then 0 else ms[0].inspectionCount + TotalInspections(ms[1..])
  }

  /** Replacing one monkey changes the totals by the difference. */
  lemma {:induction false} TotalsUpdate(ms: seq<MonkeyState>, k: nat, m: MonkeyState)
    requires k < |ms|
    ensures TotalItems(ms[k := m]) + |ms[k].items| == TotalItems(ms) + |m.items|
    ensures TotalInspections(ms[k := m]) + ms[k].inspectionCount == TotalInspections(ms) + m.inspectionCount
    decreases k
  {
    if k > 0 {
      TotalsUpdate(ms[1..], k - 1, m);
      assert ms[k := m][1..] == ms[1..][k - 1 := m];
    }
  }

  /** One pass of the `while monkey.items` loop: monkey `i` inspects its
      first item and the item is appended to its target's queue. */
  function ThrowOne(ms: seq<MonkeyState>, i: nat): (r: seq<MonkeyState>)
    requires ValidTroop(ms) && i < |ms| && ms[i].items != []
    ensures |r| == |ms| && RulesOf(r) == RulesOf(ms)
    ensures r[i].items == ms[i].items[1..] && r[i].inspectionCount == ms[i].inspectionCount + 1
    ensures var movement := Inspect(ms[i].rules, ms[i].items[0]);
            r[movement.monkeyId].items == ms[movement.monkeyId].items + [movement.worryLevel]
            && r[movement.monkeyId].inspectionCount == ms[movement.monkeyId].inspectionCount
            && forall k :: 0 <= k < |ms| && k != i && k != movement.monkeyId ==> r[k] == ms[k]
    ensures TotalItems(r) == TotalItems(ms)
    ensures TotalInspections(r) == TotalInspections(ms) + 1
  {
    var movement := Inspect(ms[i].rules, ms[i].items[0]);
    var target := movement.monkeyId;
    var thrown := ms[i := ms[i].(items := ms[i].items[1..], inspectionCount := ms[i].inspectionCount + 1)];
    var r := thrown[target := thrown[target].(items := thrown[target].items + [movement.worryLevel])];
    assert RulesOf(r) == RulesOf(ms);
    TotalsUpdate(ms, i, thrown[i]);
    TotalsUpdate(thrown, target, r[target]);
    r
  }

  /** Monkey `i`'s turn: it throws items until its queue is empty. */
  function Turn(ms: seq<MonkeyState>, i: nat): (r: seq<MonkeyState>)
    requires ValidTroop(ms) && i < |ms|
    ensures |r| == |ms| && RulesOf(r) == RulesOf(ms)
    ensures r[i].items == []
    ensures r[i].inspectionCount == ms[i].inspectionCount + |ms[i].items|
    ensures forall k :: 0 <= k < |ms| && k != i ==>
              r[k].inspectionCount == ms[k].inspectionCount && ms[k].items <= r[k].items
    ensures TotalItems(r) == TotalItems(ms)
    ensures TotalInspections(r) == TotalInspections(ms) + |ms[i].items|
    decreases |ms[i].items|
  {
    if ms[i].items == [] then ms else Turn(ThrowOne(ms, i), i)
  }

  /** The turns of monkeys `i`, `i + 1`, ... in order. */
  function RoundFrom(ms: seq<MonkeyState>, i: nat): (r: seq<MonkeyState>)
    requires ValidTroop(ms)
    ensures |r| == |ms| && RulesOf(r) == RulesOf(ms)
    ensures forall k :: 0 <= k < |ms| ==> ms[k].inspectionCount <= r[k].inspectionCount
    ensures TotalItems(r) == TotalItems(ms)
    ensures TotalInspections(ms) <= TotalInspections(r)
    decreases |ms| - i
  {
    if i >= |ms| then ms else RoundFrom(Turn(ms, i), i + 1)
  }

  /** One round: every monkey in order takes its turn. */
  function Round(ms: seq<MonkeyState>): (r: seq<MonkeyState>)
    requires ValidTroop(ms)
    ensures |r| == |ms| && RulesOf(r) == RulesOf(ms)
    ensures TotalItems(r) == TotalItems(ms)
    ensures forall k :: 0 <= k < |ms| ==> ms[k].inspectionCount <= r[k].inspectionCount
  {
    RoundFrom(ms, 0)
  }

  /** `n` rounds. They neither create nor lose items, and never lower a
      monkey's inspection count. */
  function Rounds(ms: seq<MonkeyState>, n: nat): (r: seq<MonkeyState>)
    requires ValidTroop(ms)
    ensures |r| == |ms| && RulesOf(r) == RulesOf(ms)
    ensures TotalItems(r) == TotalItems(ms)
    ensures forall k :: 0 <= k < |ms| ==> ms[k].inspectionCount <= r[k].inspectionCount
  {
    if n == 0 then ms else Round(Rounds(ms, n - 1))
  }

  /** At the end of a round the last monkey holds nothing: nobody throws
      after its turn. */
  lemma {:induction false} RoundEmptiesLast(ms: seq<MonkeyState>)
    requires ValidTroop(ms) && ms != []
    ensures Round(ms)[|ms| - 1].items == []
  {
    LaterTurnsKeepEmpty(ms, 0, |ms| - 1);
  }

  /** The turns from monkey `i` on leave the last monkey empty: its own
      turn empties it and no turn follows it. */
  lemma {:induction false} LaterTurnsKeepEmpty(ms: seq<MonkeyState>, i: nat, last: nat)
    requires ValidTroop(ms) && last == |ms| - 1 && i <= last
    ensures RoundFrom(ms, i)[last].items == []
    decreases |ms| - i
  {
    if i < last {
      LaterTurnsKeepEmpty(Turn(ms, i), i + 1, last);
    } else {
      var t := Turn(ms, i);
      assert RoundFrom(ms, i) == RoundFrom(t, i + 1) == t;
    }
  }

  // The monkey business level.

  /** The position of a largest count. */
  function MaxIndex(counts: seq<nat>): (k: nat)
    requires counts != []
    ensures k < |counts| && forall j :: 0 <= j < |counts| ==> counts[j] <= counts[k]
    decreases |counts|
  {
    if |counts| == 1 then 0
    else
      var k := MaxIndex(counts[1..]);
      if counts[0] >= counts[k + 1] then 0 else k + 1
  }

  function Without(s: seq<nat>, k: nat): (r: seq<nat>)
    requires k < |s|
    ensures |r| == |s| - 1 && multiset(r) + multiset{s[k]} == multiset(s)
  {
    assert s == s[..k] + [s[k]] + s[k + 1..];
    s[..k] + s[k + 1..]
  }

  /** `counts[0] * counts[1]` after sorting the counts in decreasing order:
      a largest count times the largest of the others. */
  function MonkeyBusinessLevel(counts: seq<nat>): nat
    requires |counts| >= 2
  {
    var first := MaxIndex(counts);
    var others := Without(counts, first);
    counts[first] * others[MaxIndex(others)]
  }

  predicate Decreasing(s: seq<nat>) {
    forall a, b :: 0 <= a < b < |s| ==> s[a] >= s[b]
  }

  /** The first of a decreasing rearrangement is a largest element. */
  lemma LargestOfSorted(counts: seq<nat>, sorted: seq<nat>)
    requires counts != [] && multiset(sorted) == multiset(counts) && Decreasing(sorted)
    ensures sorted[0] == counts[MaxIndex(counts)]
  {
    var k := MaxIndex(counts);
    assert sorted[0] in multiset(counts);
    assert counts[k] in multiset(sorted);
    var j :| 0 <= j < |sorted| && sorted[j] == counts[k];
    if j > 0 {
      assert sorted[0] >= sorted[j];
    }
  }

  /** Once a largest count is set aside, the rest of a decreasing
      rearrangement is a decreasing rearrangement of the other counts. */
  lemma SortedTail(counts: seq<nat>, first: nat, sorted: seq<nat>)
    requires first < |counts| && |sorted| == |counts|
    requires multiset(sorted) == multiset(counts) && sorted[0] == counts[first]
    ensures multiset(sorted[1..]) == multiset(Without(counts, first))
  {
    var others := Without(counts, first);
    assert sorted == [sorted[0]] + sorted[1..];
    assert multiset(sorted[1..]) + multiset{sorted[0]} == multiset(others) + multiset{sorted[0]};
    forall y ensures multiset(sorted[1..])[y] == multiset(others)[y] {
      assert (multiset(sorted[1..]) + multiset{sorted[0]})[y] == (multiset(others) + multiset{sorted[0]})[y];
    }
  }

  /** The level is the product of the first two counts of any decreasing
      rearrangement of the counts, which is what `sorted(..., reverse=True)`
      gives. */
  lemma MonkeyBusinessOfSorted(counts: seq<nat>, sorted: seq<nat>)
    requires |counts| >= 2 && |sorted| == |counts|
    requires multiset(sorted) == multiset(counts) && Decreasing(sorted)
    ensures MonkeyBusinessLevel(counts) == sorted[0] * sorted[1]
  {
    var first := MaxIndex(counts);
    LargestOfSorted(counts, sorted);
    var others := Without(counts, first);
    SortedTail(counts, first, sorted);
    LargestOfSorted(others, sorted[1..]);
    assert sorted[1..][0] == sorted[1];
  }

  function CountsOf(ms: seq<MonkeyState>): (r: seq<nat>)
    ensures |r| == |ms| && forall k :: 0 <= k < |ms| ==> r[k] == ms[k].inspectionCount
  {
    seq(|ms|, k requires 0 <= k < |ms| => ms[k].inspectionCount)
  }

  // The simulation on the Monkey objects.

  ghost function States(monkeys: seq<Monkey>): (r: seq<MonkeyState>)
    reads monkeys
    ensures |r| == |monkeys| && forall k :: 0 <= k < |monkeys| ==> r[k] == monkeys[k].State()
  {
    seq(|monkeys|, k reads monkeys requires 0 <= k < |monkeys| => monkeys[k].State())
  }

  predicate Distinct(monkeys: seq<Monkey>) {
    forall a, b :: 0 <= a < b < |monkeys| ==> monkeys[a] != monkeys[b]
  }

  /** The body of the `while monkey.items` loop: monkey `i` inspects its next
      item and the item is appended to the queue of the monkey it is thrown
      to. */
  method ThrowNextItem(monkeys: seq<Monkey>, i: nat)
    requires Distinct(monkeys) && ValidTroop(States(monkeys))
    requires i < |monkeys| && monkeys[i].items != []
    modifies monkeys
    ensures States(monkeys) == ThrowOne(old(States(monkeys)), i)
  {
    ghost var before := States(monkeys);
    var movement := monkeys[i].InspectNextItem();
    ghost var inspected := before[i := monkeys[i].State()];
    assert States(monkeys) == inspected;
    var target := monkeys[movement.value.monkeyId];
    target.items := target.items + [movement.value.worryLevel];
    assert States(monkeys) == ThrowOne(before, i);
  }

  /** Monkey `i`'s turn: `while monkey.items`, throw the next item. */
  method TakeTurn(monkeys: seq<Monkey>, i: nat)
    requires Distinct(monkeys) && ValidTroop(States(monkeys)) && i < |monkeys|
    modifies monkeys
    ensures States(monkeys) == Turn(old(States(monkeys)), i)
  {
    ghost var before := States(monkeys);
    while monkeys[i].items != []
      invariant ValidTroop(States(monkeys))
      invariant Turn(States(monkeys), i) == Turn(before, i)
      decreases |monkeys[i].items|
    {
      ThrowNextItem(monkeys, i);
    }
  }

  /** One round: `for monkey in monkeys`, that monkey's turn. */
  method PlayRound(monkeys: seq<Monkey>)
    requires Distinct(monkeys) && ValidTroop(States(monkeys))
    modifies monkeys
    ensures States(monkeys) == Round(old(States(monkeys)))
  {
    ghost var before := States(monkeys);
    for i := 0 to |monkeys|
      invariant ValidTroop(States(monkeys))
      invariant RoundFrom(States(monkeys), i) == Round(before)
    {
      TakeTurn(monkeys, i);
    }
  }

  /** `get_monkey_business_level`: twenty rounds, then the product of the two
      largest inspection counts. */
  method GetMonkeyBusinessLevel(monkeys: seq<Monkey>) returns (level: nat)
    requires |monkeys| >= 2 && Distinct(monkeys) && ValidTroop(States(monkeys))
    modifies monkeys
    ensures States(monkeys) == Rounds(old(States(monkeys)), 20)
    ensures level == MonkeyBusinessLevel(CountsOf(States(monkeys)))
  {
    ghost var start := States(monkeys);
    for round := 0 to 20
      invariant States(monkeys) == Rounds(start, round)
    {
      PlayRound(monkeys);
    }
    var counts := seq(|monkeys|, k reads monkeys requires 0 <= k < |monkeys| => monkeys[k].inspectionCount);
    assert counts == CountsOf(States(monkeys));
    level := MonkeyBusinessLevel(counts);
  }

  // Parsing.

  /** The operation text after "new = ": "old * old", "old * n" or
      "old + n"; `None` for any other expression, which `eval` would
      accept but this model does not cover. */
  function ParseOperation(text: string): Option<Operation> {
    var words := Text.Words(text);
    if |words| != 3 || words[0] != "old" then None
    else if words[1] == "*" && words[2] == "old" then Some(Square)
    else
      match Text.ParseInt(words[2])
      case None => None
      case Some(n) =>
        if words[1] == "*" then Some(Multiply(n))
        else if words[1] == "+" then Some(Add(n))
        else None
  }

  function FormatOperation(operation: Operation): string {
    match operation
    case Add(n) => "old + " + Text.IntToString(n)
    case Multiply(n) => "old * " + Text.IntToString(n)
    case Square => "old * old"
  }

  /** An operation with a numeric operand is parsed back from its text. */
  lemma ParseOperandOperation(operator: string, n: int)
    requires operator == "*" || operator == "+"
    ensures ParseOperation("old" + " " + operator + " " + Text.IntToString(n))
         == Some(if operator == "*" then Multiply(n) else Add(n))
  {
    var numeral := Text.IntToString(n);
    Text.ThreeWords("old", operator, numeral);
    Text.ParseIntToString(n);
    assert numeral != "old" by {
      Text.NumeralCharacters(n);
      assert numeral[0] != 'o';
    }
  }

  /** The text of every operation is parsed back into it. */
  lemma ParseFormatOperation(operation: Operation)
    ensures ParseOperation(FormatOperation(operation)) == Some(operation)
  {
    match operation
    case Square =>
      assert FormatOperation(operation) == "old" + " " + "*" + " " + "old";
      Text.ThreeWords("old", "*", "old");
    case Multiply(n) =>
      assert FormatOperation(operation) == "old" + " " + "*" + " " + Text.IntToString(n);
      ParseOperandOperation("*", n);
    case Add(n) =>
      assert FormatOperation(operation) == "old" + " " + "+" + " " + Text.IntToString(n);
      ParseOperandOperation("+", n);
  }

  /** `[int(i) for i in ...]`; `None` when one of them is not a numeral. */
  function ParseItems(fields: seq<string>): (r: Option<seq<int>>)
    ensures r.Some? ==> |r.value| == |fields|
  {
    if fields == [] then Some([])
    else
      match (Text.ParseInt(fields[0]), ParseItems(fields[1..]))
      case (Some(item), Some(rest)) => Some([item] + rest)
      case _ => None
  }

  function Numerals(items: seq<int>): (r: seq<string>)
    ensures |r| == |items| && forall k :: 0 <= k < |items| ==> r[k] == Text.IntToString(items[k])
  {
    if items == [] then [] else [Text.IntToString(items[0])] + Numerals(items[1..])
  }

  lemma {:induction false} ParseNumerals(items: seq<int>)
    ensures ParseItems(Numerals(items)) == Some(items)
  {
    if items != [] {
      Text.ParseIntToString(items[0]);
      ParseNumerals(items[1..]);
      assert Numerals(items)[1..] == Numerals(items[1..]);
      assert items == [items[0]] + items[1..];
    }
  }

  function LastChar(s: string): string {
    if s == [] then [] else [s[|s| - 1]]
  }

  /** `build_monkey_from_text`: the id is the first character of the second
      word of the first line, the items follow ": ", the operation follows
      "= ", the divisor follows "by ", and the targets are the last
      characters of the last two lines; `None` where Python raises. */
  function BuildMonkeyFromText(text: seq<string>): (r: Option<MonkeyState>)
    ensures r.Some? ==> r.value.inspectionCount == 0 && 0 <= r.value.rules.id < 10
    ensures r.Some? ==> 0 <= r.value.rules.trueTarget < 10 && 0 <= r.value.rules.falseTarget < 10
  {
    if |text| < 6 then None
    else
      var idWords := Text.Words(text[0]);
      var itemFields := Text.Split(text[1], ": ");
      var operationFields := Text.Split(text[2], "= ");
      var testFields := Text.Split(text[3], "by ");
      if |idWords| < 2 || idWords[1] == [] || |itemFields| < 2 || |operationFields| < 2 || |testFields| < 2
      then None
      else
        match (Text.ParseNat([idWords[1][0]]), ParseItems(Text.Split(itemFields[1], ", ")),
               ParseOperation(operationFields[1]), Text.ParseInt(testFields[1]))
        case (Some(id), Some(items), Some(operation), Some(divisor)) =>
          (match (Text.ParseNat(LastChar(text[4])), Text.ParseNat(LastChar(text[5])))
           case (Some(t), Some(f)) =>
             SingleDigit(idWords[1][0]);
             SingleDigit(text[4][|text[4]| - 1]);
             SingleDigit(text[5][|text[5]| - 1]);
             Some(MonkeyState(Rules(id, operation, divisor, t, f), items, 0))
           case _ => None)
        case _ => None
  }

  lemma SingleDigit(c: char)
    ensures Text.ParseNat([c]).Some? ==> Text.ParseNat([c]).value < 10
  {
    if Text.IsDigit(c) {
      assert [c][..0] == [];
      assert Text.DigitsValue([c]) == Text.DigitValue(c);
    }
  }

  /** The six lines describing a monkey, in the layout of the test. */
  function FormatMonkey(rules: Rules, items: seq<int>): seq<string> {
    ["Monkey " + Text.IntToString(rules.id) + ":",
     "Starting items: " + Text.Join(Numerals(items), ", "),
     "Operation: new = " + FormatOperation(rules.operation),
     "Test: divisible by " + Text.IntToString(rules.divisibleTest),
     "If true: throw to monkey " + Text.IntToString(rules.trueTarget),
     "If false: throw to monkey " + Text.IntToString(rules.falseTarget)]
  }

  /** A single-digit numeral is one digit character. */
  lemma DigitNumeral(d: int)
    requires 0 <= d < 10
    ensures |Text.IntToString(d)| == 1 && Text.ParseNat(Text.IntToString(d)) == Some(d)
  {
    Text.ParseNatToString(d);
  }

  /** The separator splits the line into the label before it and the text
      after it when the marking character occurs in neither. */
  lemma SplitLabel(heading: string, sep: string, j: nat, rest: string)
    requires Text.MarksSeparator(sep, j) && sep[j] !in heading && sep[j] !in rest
    ensures Text.Split(heading + sep + rest, sep) == [heading, rest]
  {
    Text.SplitAtSeparator(heading, sep, j, rest);
    Text.SplitWithoutSeparator(rest, sep, j);
  }

  /** A numeral holds no ':', '=' or 'y'. */
  lemma NumeralMarks(i: int)
    ensures ':' !in Text.IntToString(i) && '=' !in Text.IntToString(i) && 'y' !in Text.IntToString(i)
    ensures ',' !in Text.IntToString(i) && ' ' !in Text.IntToString(i)
  {
    Text.NumeralCharacters(i);
  }

  /** The id line: the first character of the second word is the id. */
  lemma ParseIdLine(id: int)
    requires 0 <= id < 10
    ensures var words := Text.Words("Monkey " + Text.IntToString(id) + ":");
            |words| >= 2 && words[1] != [] && Text.ParseNat([words[1][0]]) == Some(id)
  {
    var numeral := Text.IntToString(id);
    DigitNumeral(id);
    NumeralMarks(id);
    assert "Monkey " + numeral + ":" == "Monkey" + " " + (numeral + ":");
    Text.TwoWords("Monkey", numeral + ":");
    assert [(numeral + ":")[0]] == numeral;
  }

  /** The items line: the text after ": ", split at ", ", gives the items. */
  lemma ParseItemsLine(items: seq<int>)
    requires items != []
    ensures var fields := Text.Split("Starting items: " + Text.Join(Numerals(items), ", "), ": ");
            |fields| >= 2 && ParseItems(Text.Split(fields[1], ", ")) == Some(items)
  {
    var numerals := Numerals(items);
    var joined := Text.Join(numerals, ", ");
    forall k | 0 <= k < |numerals| ensures ", "[0] !in numerals[k] && ':' !in numerals[k] {
      NumeralMarks(items[k]);
    }
    Text.CharNotInJoin(':', numerals, ", ");
    assert "Starting items: " + joined == "Starting items" + ": " + joined;
    SplitLabel("Starting items", ": ", 0, joined);
    Text.SplitJoin(numerals, ", ", 0);
    ParseNumerals(items);
  }

  /** The operation line: the text after "= " is the operation's text. */
  lemma ParseOperationLine(operation: Operation)
    ensures var fields := Text.Split("Operation: new = " + FormatOperation(operation), "= ");
            |fields| >= 2 && ParseOperation(fields[1]) == Some(operation)
  {
    var operationText := FormatOperation(operation);
    assert '=' !in operationText by {
      match operation
      case Square =>
      case Multiply(n) => NumeralMarks(n);
      case Add(n) => NumeralMarks(n);
    }
    assert "Operation: new = " + operationText == "Operation: new " + "= " + operationText;
    SplitLabel("Operation: new ", "= ", 0, operationText);
    ParseFormatOperation(operation);
  }

  /** The divisibility line: the text after "by " is the divisor. */
  lemma ParseTestLine(divisor: int)
    ensures var fields := Text.Split("Test: divisible by " + Text.IntToString(divisor), "by ");
            |fields| >= 2 && Text.ParseInt(fields[1]) == Some(divisor)
  {
    var numeral := Text.IntToString(divisor);
    NumeralMarks(divisor);
    assert "Test: divisible by " + numeral == "Test: divisible " + "by " + numeral;
    SplitLabel("Test: divisible ", "by ", 1, numeral);
    Text.ParseIntToString(divisor);
  }

  /** A target line: its last character is the target. */
  lemma ParseTargetLine(heading: string, target: int)
    requires 0 <= target < 10
    ensures Text.ParseNat(LastChar(heading + Text.IntToString(target))) == Some(target)
  {
    DigitNumeral(target);
  }

  /** The description of a monkey with single-digit id and targets and at
      least one item is parsed back into that monkey, with a zero count. */
  lemma BuildFormattedMonkey(rules: Rules, items: seq<int>)
    requires 0 <= rules.id < 10 && 0 <= rules.trueTarget < 10 && 0 <= rules.falseTarget < 10
    requires items != []
    ensures BuildMonkeyFromText(FormatMonkey(rules, items)) == Some(MonkeyState(rules, items, 0))
  {
    ParseIdLine(rules.id);
    ParseItemsLine(items);
    ParseOperationLine(rules.operation);
    ParseTestLine(rules.divisibleTest);
    ParseTargetLine("If true: throw to monkey ", rules.trueTarget);
    ParseTargetLine("If false: throw to monkey ", rules.falseTarget);
  }

  /** The numerals and item list of the test's monkey 0. */
  lemma SampleNumerals()
    ensures Text.IntToString(0) == "0" && Text.IntToString(2) == "2" && Text.IntToString(3) == "3"
    ensures Text.IntToString(19) == "19" && Text.IntToString(23) == "23"
    ensures Text.Join(Numerals([79, 98]), ", ") == "79, 98"
  {
    assert Text.IntToString(79) == "79" && Text.IntToString(98) == "98";
    assert Numerals([79, 98]) == ["79", "98"];
  }

  /** The text `FormatMonkey` writes for the test's monkey 0. */
  lemma SampleMonkeyText()
    ensures FormatMonkey(Rules(0, Multiply(19), 23, 2, 3), [79, 98])
         == ["Monkey 0:", "Starting items: 79, 98", "Operation: new = old * 19",
             "Test: divisible by 23", "If true: throw to monkey 2", "If false: throw to monkey 3"]
  {
    SampleNumerals();
    var text := FormatMonkey(Rules(0, Multiply(19), 23, 2, 3), [79, 98]);
    assert text[0] == "Monkey 0:";
    assert text[1] == "Starting items: 79, 98";
    assert text[2] == "Operation: new = old * 19";
    assert text[3] == "Test: divisible by 23";
    assert text[4] == "If true: throw to monkey 2";
    assert text[5] == "If false: throw to monkey 3";
  }

  /** The test's description of monkey 0 gives id 0, items 79 and 98,
      `old * 19`, divisor 23 and targets 2 and 3. */
  lemma SampleMonkey()
    ensures BuildMonkeyFromText(["Monkey 0:", "Starting items: 79, 98", "Operation: new = old * 19",
                                 "Test: divisible by 23", "If true: throw to monkey 2",
                                 "If false: throw to monkey 3"])
         == Some(MonkeyState(Rules(0, Multiply(19), 23, 2, 3), [79, 98], 0))
  {
    SampleMonkeyText();
    BuildFormattedMonkey(Rules(0, Multiply(19), 23, 2, 3), [79, 98]);
  }
}
