/** test_day02/test_ex04.py: the second column of the strategy guide read as
    the result the round must have. */
module RpsStrategy {
  import opened Wrappers
  import opened Hands
  import Text
  import RpsGuess

  datatype Result = Win | Lose | Draw

  /** `get_my_hand`: the opponent's hand for a draw, the one before it in
      `list(Hand)` for a loss (index -1 wraps round to Scissors) and the one
      after it for a win (index 2 wraps round to Rock). */
  function GetMyHand(opponentHand: Hand, result: Result): (myHand: Hand)
    ensures result == Draw ==> myHand == opponentHand
    ensures result == Lose ==> Beats(opponentHand, myHand)
    ensures result == Win ==> Beats(myHand, opponentHand)
  {
    var opponentIndex := Index(opponentHand);
    match result
    case Draw => opponentHand
    case Lose => HandsList[if opponentIndex - 1 < 0 then opponentIndex - 1 + 3 else opponentIndex - 1]
    case Win => HandsList[if opponentIndex == 2 then 0 else opponentIndex + 1]
  }

  /** For a fixed opponent the three results ask for three different hands. */
  lemma MyHandsDistinct(opponentHand: Hand, a: Result, b: Result)
    requires a != b
    ensures GetMyHand(opponentHand, a) != GetMyHand(opponentHand, b)
  {
    BeatsExactlyOne(GetMyHand(opponentHand, a), opponentHand);
    BeatsExactlyOne(GetMyHand(opponentHand, b), opponentHand);
  }

  /** `get_round_score`: the outcome's score plus the shape of the hand that
      brings it about, which is what the guessing solver scores for that
      hand. */
  function GetRoundScore(opponentHand: Hand, result: Result): (score: int)
    ensures 1 <= score <= 9
    ensures score == RpsGuess.GetRoundScore(opponentHand, GetMyHand(opponentHand, result))
  {
    var outcomeScore := if result == Draw then 3 else if result == Win then 6 else 0;
    outcomeScore + ShapeScore(GetMyHand(opponentHand, result))
  }

  function GetTotalScore(rounds: seq<(Hand, Result)>): int {
    if rounds == [] then 0 else GetRoundScore(rounds[0].0, rounds[0].1) + GetTotalScore(rounds[1..])
  }

  /** The total is what the guessing solver scores for the chosen hands. */
  lemma {:induction false} TotalScoreIsGuessed(rounds: seq<(Hand, Result)>)
    ensures GetTotalScore(rounds)
         == RpsGuess.GetTotalScore(seq(|rounds|, k requires 0 <= k < |rounds| =>
                                       (rounds[k].0, GetMyHand(rounds[k].0, rounds[k].1))))
    decreases |rounds|
  {
    var chosen := seq(|rounds|, k requires 0 <= k < |rounds| => (rounds[k].0, GetMyHand(rounds[k].0, rounds[k].1)));
    if rounds != [] {
      var rest := rounds[1..];
      TotalScoreIsGuessed(rest);
      assert chosen[1..] == seq(|rest|, k requires 0 <= k < |rest| => (rest[k].0, GetMyHand(rest[k].0, rest[k].1)));
    }
  }

  /** `player_to_result`: X, Y and Z. */
  function PlayerResult(key: string): (result: Option<Result>)
    ensures result.Some? <==> key in {"X", "Y", "Z"}
  {
    if key == "X" then Some(Lose)
    else if key == "Y" then Some(Draw)
    else if key == "Z" then Some(Win)
    else None
  }

  function PlayerKey(result: Result): string {
    match result
    case Lose => "X"
    case Draw => "Y"
    case Win => "Z"
  }

  /** `parse_line`, as in the guessing solver but with the result table. */
  function ParseLine(rawLine: string): Option<(Hand, Result)> {
    var parts := Text.Split(rawLine, " ");
    if |parts| != 2 then None
    else
      match (OpponentHand(parts[0]), PlayerResult(parts[1]))
      case (Some(opponent), Some(result)) => Some((opponent, result))
      case _ => None
  }

  function FormatLine(round: (Hand, Result)): string {
    OpponentKey(round.0) + " " + PlayerKey(round.1)
  }

  lemma ParseFormatLine(round: (Hand, Result))
    ensures ParseLine(FormatLine(round)) == Some(round)
  {
    var a := OpponentKey(round.0);
    var b := PlayerKey(round.1);
    Text.SplitAtSeparator(a, " ", 0, b);
    Text.SplitWithoutSeparator(b, " ", 0);
  }

  /** The rounds of the tests: 4, 1 and 7, 12 in all; "A Y" is Rock and a
      draw. */
  lemma Samples()
    ensures GetRoundScore(Rock, Draw) == 4
    ensures GetRoundScore(Paper, Lose) == 1
    ensures GetRoundScore(Scissors, Win) == 7
    ensures GetTotalScore([(Rock, Draw), (Paper, Lose), (Scissors, Win)]) == 12
    ensures ParseLine("A Y") == Some((Rock, Draw))
  {
    ParseFormatLine((Rock, Draw));
    assert FormatLine((Rock, Draw)) == "A Y";
  }
}
