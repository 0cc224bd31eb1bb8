/** test_day02/test_ex03.py: the second column of the strategy guide read as
    the hand to play. */
module RpsGuess {
  import opened Wrappers
  import opened Hands
  import Text

  /** `opponent_loses`: the three winning pairs, listed one by one. */
  predicate OpponentLoses(opponentHand: Hand, myHand: Hand) {
    (myHand == Rock && opponentHand == Scissors)
    || (myHand == Scissors && opponentHand == Paper)
    || (myHand == Paper && opponentHand == Rock)
  }

  /** The listed pairs are exactly the rule of the game. */
  lemma OpponentLosesIsBeats(opponentHand: Hand, myHand: Hand)
    ensures OpponentLoses(opponentHand, myHand) <==> Beats(myHand, opponentHand)
  {
  }

  /** `get_round_score`: the shape of my hand plus 3 for a draw and 6 for a
      win. Counting how far my hand is ahead of the opponent's in the cycle
      gives the same score. */
  function GetRoundScore(opponentHand: Hand, myHand: Hand): (score: int)
    ensures 1 <= score <= 9
    ensures score == ShapeScore(myHand) + 3 * ((Index(myHand) - Index(opponentHand) + 1) % 3)
  {
    var outcomeScore :=
      if opponentHand == myHand then 3
      else if OpponentLoses(opponentHand, myHand) then 6
      else 0;
    outcomeScore + ShapeScore(myHand)
  }

  /** `get_total_score`: the sum of the round scores. */
  function GetTotalScore(rounds: seq<(Hand, Hand)>): int {
    if rounds == [] then 0 else GetRoundScore(rounds[0].0, rounds[0].1) + GetTotalScore(rounds[1..])
  }

  /** Each round scores between 1 and 9. */
  lemma {:induction false} TotalScoreBounds(rounds: seq<(Hand, Hand)>)
    ensures |rounds| <= GetTotalScore(rounds) <= 9 * |rounds|
    decreases |rounds|
  {
    if rounds != [] {
      TotalScoreBounds(rounds[1..]);
    }
  }

  lemma {:induction false} TotalScoreAppend(a: seq<(Hand, Hand)>, b: seq<(Hand, Hand)>)
    ensures GetTotalScore(a + b) == GetTotalScore(a) + GetTotalScore(b)
    decreases |a|
  {
    if a == [] {
      assert a + b == b;
    } else {
      assert (a + b)[0] == a[0] && (a + b)[1..] == a[1..] + b;
      TotalScoreAppend(a[1..], b);
    }
  }

  /** `player_to_hand`: X, Y and Z. */
  function PlayerHand(key: string): (hand: Option<Hand>)
    ensures hand.Some? <==> key in {"X", "Y", "Z"}
  {
    if key == "X" then Some(Rock)
    else if key == "Y" then Some(Paper)
    else if key == "Z" then Some(Scissors)
    else None
  }

  function PlayerKey(hand: Hand): string {
    [['X', 'Y', 'Z'][Index(hand)]]
  }

  /** `parse_line`: exactly two fields separated by one space, each a key of
      its table; `None` where the unpacking or a lookup raises. */
  function ParseLine(rawLine: string): Option<(Hand, Hand)> {
    var parts := Text.Split(rawLine, " ");
    if |parts| != 2 then None
    else
      match (OpponentHand(parts[0]), PlayerHand(parts[1]))
      case (Some(opponent), Some(player)) => Some((opponent, player))
      case _ => None
  }

  /** A line of the guide, as the input writes it. */
  function FormatLine(round: (Hand, Hand)): string {
    OpponentKey(round.0) + " " + PlayerKey(round.1)
  }

  /** Every line of the guide is parsed back into its round. */
  lemma ParseFormatLine(round: (Hand, Hand))
    ensures ParseLine(FormatLine(round)) == Some(round)
  {
    var a := OpponentKey(round.0);
    var b := PlayerKey(round.1);
    Text.SplitAtSeparator(a, " ", 0, b);
    Text.SplitWithoutSeparator(b, " ", 0);
  }

  /** The rounds of the tests: 8, 1 and 6, 15 in all; "A Y" is Rock against
      Paper. */
  lemma Samples()
    ensures GetRoundScore(Rock, Paper) == 8
    ensures GetRoundScore(Paper, Rock) == 1
    ensures GetRoundScore(Scissors, Scissors) == 6
    ensures GetTotalScore([(Rock, Paper), (Paper, Rock), (Scissors, Scissors)]) == 15
    ensures ParseLine("A Y") == Some((Rock, Paper))
  {
    ParseFormatLine((Rock, Paper));
    assert FormatLine((Rock, Paper)) == "A Y";
  }
}
