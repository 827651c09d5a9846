/** The dice of src/utils/diceRoll.ts: the three colours, the mapping of a
    random value onto a colour, a roll of three dice, and the classifier
    that recognises a triple. The random value itself is an input here. */
module Dice {

  datatype DiceColor = Green | Red | Yellow

  /** What a roll amounts to: a triple of one colour, or no match
      (`{type: 'triple', color}` and `{type: 'none'}`). */
  datatype Outcome = Triple(color: DiceColor) | NoMatch

  /** The colour a random value in [0, 1] lands on: the lower third is
      green, the middle third red, and everything from 2/3 up, 1 included,
      yellow. */
  function RollDie(rand: real): (c: DiceColor)
    ensures c == Green <==> rand < 1.0 / 3.0
    ensures c == Red <==> 1.0 / 3.0 <= rand < 2.0 / 3.0
    ensures c == Yellow <==> 2.0 / 3.0 <= rand
  {
    if rand < 1.0 / 3.0 then Green
    else if rand < 2.0 / 3.0 then Red
    else Yellow
  }

  /** The colour of bucket 0, 1 or 2. */
  function BucketColor(k: int): DiceColor
  {
    if k <= 0 then Green else if k == 1 then Red else Yellow
  }

  /** A second reading of the thresholds: the die shows the colour of bucket
      floor(3 * rand), where the top value 1 joins the last bucket. */
  lemma RollDieIsBucket(rand: real)
    requires 0.0 <= rand <= 1.0
    ensures RollDie(rand) == BucketColor(if rand == 1.0 then 2 else (3.0 * rand).Floor)
  {
  }

  /** Three independent dice, one per random value. */
  function RollThreeDice(r0: real, r1: real, r2: real): (dice: seq<DiceColor>)
    ensures |dice| == 3
    ensures dice[0] == RollDie(r0) && dice[1] == RollDie(r1) && dice[2] == RollDie(r2)
  {
    [RollDie(r0), RollDie(r1), RollDie(r2)]
  }

  /** How many of the dice show colour c, counted from the front as the
      original's `forEach` does. */
  function Occurrences(dice: seq<DiceColor>, c: DiceColor): nat
  {
    if dice == [] then 0
    else Occurrences(dice[..|dice| - 1], c) + (if dice[|dice| - 1] == c then 1 else 0)
  }

  /** The classification `countDiceOutcome` computes: green, red and yellow
      are tested for a count of exactly three, in that order. */
  function Classify(dice: seq<DiceColor>): (o: Outcome)
    ensures o.Triple? ==> Occurrences(dice, o.color) == 3
    ensures o == NoMatch <==> forall c :: Occurrences(dice, c) != 3
    ensures Occurrences(dice, Green) == 3 ==> o == Triple(Green)
    ensures o == Triple(Yellow) ==> Occurrences(dice, Green) != 3 && Occurrences(dice, Red) != 3
  {
    if Occurrences(dice, Green) == 3 then Triple(Green)
    else if Occurrences(dice, Red) == 3 then Triple(Red)
    else if Occurrences(dice, Yellow) == 3 then Triple(Yellow)
    else NoMatch
  }

  /** The classifier as the original runs it: one pass fills the three
      counters, then the counters are tested. */
  method CountDiceOutcome(dice: seq<DiceColor>) returns (outcome: Outcome)
    ensures outcome == Classify(dice)
  {
    var green, red, yellow := 0, 0, 0;
    var i := 0;
    while i < |dice|
      invariant 0 <= i <= |dice|
      invariant green == Occurrences(dice[..i], Green)
      invariant red == Occurrences(dice[..i], Red)
      invariant yellow == Occurrences(dice[..i], Yellow)
    {
      assert dice[..i + 1][..i] == dice[..i];
      match dice[i] {
        case Green => green := green + 1;
        case Red => red := red + 1;
        case Yellow => yellow := yellow + 1;
      }
      i := i + 1;
    }
    assert dice[..i] == dice;
    if green == 3 {
      outcome := Triple(Green);
    } else if red == 3 {
      outcome := Triple(Red);
    } else if yellow == 3 {
      outcome := Triple(Yellow);
    } else {
      outcome := NoMatch;
    }
  }

  /** The counter for colour c is the multiplicity of c among the dice. */
  lemma {:induction false} OccurrencesIsMultiplicity(dice: seq<DiceColor>, c: DiceColor)
    ensures Occurrences(dice, c) == multiset(dice)[c]
  {
    if dice != [] {
      var front := dice[..|dice| - 1];
      OccurrencesIsMultiplicity(front, c);
      assert dice == front + [dice[|dice| - 1]];
    }
  }

  /** The three counters together count every die once. */
  lemma {:induction false} OccurrencesTotal(dice: seq<DiceColor>)
    ensures Occurrences(dice, Green) + Occurrences(dice, Red) + Occurrences(dice, Yellow) == |dice|
  {
    if dice != [] {
      OccurrencesTotal(dice[..|dice| - 1]);
    }
  }

  /** Only the counts matter: reordering the dice never changes the outcome. */
  lemma ClassifyPermutationInvariant(a: seq<DiceColor>, b: seq<DiceColor>)
    requires multiset(a) == multiset(b)
    ensures Classify(a) == Classify(b)
  {
    forall c: DiceColor ensures Occurrences(a, c) == Occurrences(b, c) {
      OccurrencesIsMultiplicity(a, c);
      OccurrencesIsMultiplicity(b, c);
    }
  }

  /** With fewer than six dice at most one colour can reach three, so the
      order in which the colours are tested does not matter: the outcome is
      a triple of c exactly when c occurs three times. */
  lemma TripleIffCountThree(dice: seq<DiceColor>, c: DiceColor)
    requires |dice| < 6
    ensures Classify(dice) == Triple(c) <==> Occurrences(dice, c) == 3
    ensures Classify(dice) == NoMatch <==> forall d: DiceColor :: Occurrences(dice, d) != 3
  {
    OccurrencesTotal(dice);
  }

  /** With six dice the test order does decide: three green and three red
      dice count as a green triple. */
  lemma SixDiceFavourGreen()
    ensures Classify([Red, Red, Red, Green, Green, Green]) == Triple(Green)
    ensures Occurrences([Red, Red, Red, Green, Green, Green], Red) == 3
  {
    var dice := [Red, Red, Red, Green, Green, Green];
    OccurrencesIsMultiplicity(dice, Green);
    OccurrencesIsMultiplicity(dice, Red);
    assert multiset(dice) == multiset{Red, Red, Red, Green, Green, Green};
  }

  /** For a roll of three dice, a triple of c means all three dice show c,
      and no match means that not all three agree. */
  lemma ClassifyThree(dice: seq<DiceColor>, c: DiceColor)
    requires |dice| == 3
    ensures Classify(dice) == Triple(c) <==> dice[0] == c && dice[1] == c && dice[2] == c
    ensures Classify(dice) == NoMatch <==> !(dice[0] == dice[1] == dice[2])
  {
    assert dice == [dice[0], dice[1], dice[2]];
    forall d: DiceColor ensures Occurrences(dice, d) == multiset{dice[0], dice[1], dice[2]}[d] {
      OccurrencesIsMultiplicity(dice, d);
    }
  }
}
