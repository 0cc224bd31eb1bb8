/** The hands of rock paper scissors shared by both solvers of test_day02:
    their cyclic order, the scores of the shapes and the letters that name
    the opponent's hand. */
module Hands {
  import opened Wrappers

  datatype Hand = Rock | Paper | Scissors

  /** `list(Hand)`: the hands in declaration order. */
  const HandsList: seq<Hand> := [Rock, Paper, Scissors]

  /** `hands_list.index(hand)`. */
  function Index(hand: Hand): (i: nat)
    ensures i < 3 && HandsList[i] == hand
  {
    match hand
    case Rock => 0
    case Paper => 1
    case Scissors => 2
  }

  /** The rule of the game, stated on the cyclic order: each hand beats the
      one just before it, and Rock (the first) beats Scissors (the last). */
  predicate Beats(winner: Hand, loser: Hand) {
    (Index(winner) - Index(loser)) % 3 == 1
  }

  /** `shape_score`. */
  function ShapeScore(hand: Hand): (score: nat)
    ensures score == Index(hand) + 1
  {
    match hand
    case Rock => 1
    case Paper => 2
    case Scissors => 3
  }

  /** `opponent_to_hand`: A, B and C; any other key is missing. */
  function OpponentHand(key: string): (hand: Option<Hand>)
    ensures hand.Some? <==> key in {"A", "B", "C"}
  {
    if key == "A" then Some(Rock)
    else if key == "B" then Some(Paper)
    else if key == "C" then Some(Scissors)
    else None
  }

  function OpponentKey(hand: Hand): string {
    [['A', 'B', 'C'][Index(hand)]]
  }

  /** Of two different hands exactly one beats the other; no hand beats
      itself. */
  lemma BeatsExactlyOne(a: Hand, b: Hand)
    ensures !Beats(a, a)
    ensures a != b ==> (Beats(a, b) <==> !Beats(b, a))
  {
  }

  lemma OpponentKeyRoundTrip(hand: Hand)
    ensures OpponentHand(OpponentKey(hand)) == Some(hand)
  {
  }
}
