/** The game state of src/stores/gameStore.ts: one mutable store holding the
    phase, whose turn it is, the dice, the six boards and the players, and
    the named actions that update it. The random start player and the dice
    colours arrive as arguments. */
module GameStore {

  import opened Wrappers
  import Dice
  import opened TicTacToe

  const MinPlayers := 2
  const MaxPlayers := 6
  const MaxHearts := 4
  /** Boards are allocated for the largest table, whatever the player count. */
  const BoardCount := 6
  const CellCount := 9
  /** A turn without a triple ends on its third roll. */
  const RollsPerTurn := 3

  /** The display colour of each seat. */
  const PlayerColors: seq<string> :=
    ["#ff4444", "#00ff88", "#00ffff", "#ffdd00", "#ff88ff", "#ff9900"]

  datatype Player = Player(id: int, name: string, color: string, hearts: int, wins: int)

  datatype Die = Die(color: Dice.DiceColor, kept: bool)

  /** The phases 'setup', 'playing', 'placing', 'checking-win', 'round-end',
      'game-over' and 'wild-menu'. */
  datatype Phase = Setup | Playing | Placing | CheckingWin | RoundEnd | GameOver | WildChoice

  // ---------------------------------------------------------------------
  // Builders.

  function EmptyBoard(): (b: Board)
    ensures |b| == CellCount
    ensures forall i :: 0 <= i < |b| ==> b[i] == Empty
  {
    seq(CellCount, _ => Empty)
  }

  /** Six boards of nine empty cells. */
  function CreateEmptyBoards(): (boards: seq<Board>)
    ensures |boards| == BoardCount
    ensures forall k :: 0 <= k < |boards| ==> |boards[k]| == CellCount
    ensures forall k, i :: 0 <= k < |boards| && 0 <= i < |boards[k]| ==> boards[k][i] == Empty
  {
    seq(BoardCount, _ => EmptyBoard())
  }

  function DigitChar(d: nat): (c: char)
    requires d < 10
    ensures '0' <= c <= '9' && c as int - '0' as int == d
  {
    (d + '0' as int) as char
  }

  /** The decimal numeral of n, as a template string prints it. */
  function DecimalString(n: nat): (s: string)
    ensures |s| >= 1
    ensures forall k :: 0 <= k < |s| ==> '0' <= s[k] <= '9'
  {
    if n < 10 then [DigitChar(n)] else DecimalString(n / 10) + [DigitChar(n % 10)]
  }

  /** The number a numeral denotes. */
  function DecimalValue(s: string): nat
    requires forall k :: 0 <= k < |s| ==> '0' <= s[k] <= '9'
  {
    if s == [] then 0
    else DecimalValue(s[..|s| - 1]) * 10 + (s[|s| - 1] as int - '0' as int)
  }

  /** Printing a number and reading it back gives the number. */
  lemma {:induction false} DecimalRoundTrip(n: nat)
    ensures DecimalValue(DecimalString(n)) == n
  {
    if n >= 10 {
      DecimalRoundTrip(n / 10);
      var s := DecimalString(n);
      assert s[..|s| - 1] == DecimalString(n / 10);
    }
  }

  /** The default name of seat i: "Player 1" for seat 0, and so on. */
  function DefaultName(i: nat): string
  {
    "Player " + DecimalString(i + 1)
  }

  /** num fresh players: seat i has id i, its default name and colour, full
      hearts and no wins. */
  function CreateEmptyPlayers(num: nat): (players: seq<Player>)
    requires num <= |PlayerColors|
    ensures |players| == num
    ensures forall i :: 0 <= i < num ==>
      players[i].id == i && players[i].name == DefaultName(i) && players[i].color == PlayerColors[i] &&
      players[i].hearts == MaxHearts && players[i].wins == 0
  {
    seq(num, i requires 0 <= i < num => Player(i, DefaultName(i), PlayerColors[i], MaxHearts, 0))
  }

  /** No two seats get the same default name. */
  lemma DefaultNamesDistinct(i: nat, j: nat)
    requires i != j
    ensures DefaultName(i) != DefaultName(j)
  {
    if DefaultName(i) == DefaultName(j) {
      var p := "Player ";
      assert DefaultName(i)[|p|..] == DecimalString(i + 1);
      assert DefaultName(j)[|p|..] == DecimalString(j + 1);
      DecimalRoundTrip(i + 1);
      DecimalRoundTrip(j + 1);
      assert false;
    }
  }

  /** The requested player count, held to the range [2, 6]. */
  function ClampPlayers(num: int): (n: int)
    ensures MinPlayers <= n <= MaxPlayers
    ensures MinPlayers <= num <= MaxPlayers ==> n == num
    ensures num < MinPlayers ==> n == MinPlayers
    ensures num > MaxPlayers ==> n == MaxPlayers
  {
    var upper := if MaxPlayers < num then MaxPlayers else num;
    if MinPlayers > upper then MinPlayers else upper
  }

  // ---------------------------------------------------------------------
  // The rule each placement action applies to one cell of one board.

  /** A green chip lands on an empty cell; any other cell is left alone. */
  function GreenPlaced(b: Board, i: nat): (r: Board)
    requires i < |b|
    ensures |r| == |b| && forall j :: 0 <= j < |b| && j != i ==> r[j] == b[j]
    ensures r[i] == Green <==> b[i] != Red
    ensures b[i] == Red ==> r[i] == Red
  {
    match b[i]
    case Empty => b[i := Green]
    case Green => b
    case Red => b
  }

  /** A red chip lands on any cell, covering a green one. */
  function RedPlaced(b: Board, i: nat): (r: Board)
    requires i < |b|
    ensures |r| == |b| && forall j :: 0 <= j < |b| && j != i ==> r[j] == b[j]
    ensures r[i] == Red
  {
    if b[i] != Red then b[i := Red] else b
  }

  /** A red cell becomes empty; any other cell is left alone. */
  function RedRemoved(b: Board, i: nat): (r: Board)
    requires i < |b|
    ensures |r| == |b| && forall j :: 0 <= j < |b| && j != i ==> r[j] == b[j]
    ensures r[i] != Red
    ensures b[i] == Red ==> r[i] == Empty
    ensures b[i] != Red ==> r[i] == b[i]
  {
    if b[i] == Red then b[i := Empty] else b
  }

  /** An empty cell becomes red; any other cell is left alone. */
  function RedRestored(b: Board, i: nat): (r: Board)
    requires i < |b|
    ensures |r| == |b| && forall j :: 0 <= j < |b| && j != i ==> r[j] == b[j]
    ensures r[i] != Empty
    ensures b[i] == Empty ==> r[i] == Red
    ensures b[i] != Empty ==> r[i] == b[i]
  {
    if b[i] == Empty then b[i := Red] else b
  }

  /** Each placement rule, applied twice to the same cell, acts as once. */
  lemma PlacementsIdempotent(b: Board, i: nat)
    requires i < |b|
    ensures GreenPlaced(GreenPlaced(b, i), i) == GreenPlaced(b, i)
    ensures RedPlaced(RedPlaced(b, i), i) == RedPlaced(b, i)
    ensures RedRemoved(RedRemoved(b, i), i) == RedRemoved(b, i)
    ensures RedRestored(RedRestored(b, i), i) == RedRestored(b, i)
  {
  }

  /** Removing a red chip and restoring it undo each other. */
  lemma RemoveRestoreInverse(b: Board, i: nat)
    requires i < |b|
    ensures b[i] == Red ==> RedRestored(RedRemoved(b, i), i) == b
    ensures b[i] == Empty ==> RedRemoved(RedRestored(b, i), i) == b
  {
  }

  /** A green placement never undoes a win already on the board. */
  lemma GreenPlacedKeepsWin(b: Board, i: nat)
    requires i < |b| && CheckWin(b)
    ensures CheckWin(GreenPlaced(b, i))
  {
    if b[i] == Empty {
      GreenKeepsWin(b, i);
    }
  }

  // ---------------------------------------------------------------------
  // Dice, hearts and turn order.

  /** Freshly rolled dice: the given colours, none of them kept. */
  function FreshDice(colors: seq<Dice.DiceColor>): (dice: seq<Die>)
    ensures |dice| == |colors|
    ensures forall i :: 0 <= i < |dice| ==> dice[i].color == colors[i] && !dice[i].kept
  {
    seq(|colors|, i requires 0 <= i < |colors| => Die(colors[i], false))
  }

  /** The colours shown by the dice (`diceState.map(d => d.color)`). */
  function DiceColors(dice: seq<Die>): (colors: seq<Dice.DiceColor>)
    ensures |colors| == |dice|
    ensures forall i :: 0 <= i < |dice| ==> colors[i] == dice[i].color
  {
    seq(|dice|, i requires 0 <= i < |dice| => dice[i].color)
  }

  /** The colours read off freshly rolled dice are the colours rolled. */
  lemma FreshDiceColors(colors: seq<Dice.DiceColor>)
    ensures DiceColors(FreshDice(colors)) == colors
  {
  }

  /** Die `index` with its kept mark flipped; an index outside the dice
      changes nothing. */
  function KeptToggled(dice: seq<Die>, index: int): (r: seq<Die>)
    ensures |r| == |dice|
    ensures forall i :: 0 <= i < |dice| ==> r[i].color == dice[i].color
    ensures forall i :: 0 <= i < |dice| && i != index ==> r[i] == dice[i]
    ensures 0 <= index < |dice| ==> r[index].kept != dice[index].kept
  {
    seq(|dice|, i requires 0 <= i < |dice| => if i == index then dice[i].(kept := !dice[i].kept) else dice[i])
  }

  /** Toggling the same die twice restores the dice. */
  lemma ToggleTwiceIsIdentity(dice: seq<Die>, index: int)
    ensures KeptToggled(KeptToggled(dice, index), index) == dice
  {
  }

  /** One heart lost, never going below zero. */
  function LoseHeart(hearts: int): (r: int)
    ensures r >= 0
    ensures hearts > 0 ==> r == hearts - 1
    ensures hearts <= 0 ==> r == 0
  {
    if 0 > hearts - 1 then 0 else hearts - 1
  }

  /** How many players still have hearts (`filter(p => p.hearts > 0).length`). */
  function AliveCount(players: seq<Player>): (n: nat)
    ensures n <= |players|
    ensures n == 0 <==> forall i :: 0 <= i < |players| ==> players[i].hearts <= 0
  {
    if players == [] then 0
    else AliveCount(players[..|players| - 1]) + (if players[|players| - 1].hearts > 0 then 1 else 0)
  }

  ghost function AliveSeats(players: seq<Player>): set<int>
  {
    set i | 0 <= i < |players| && players[i].hearts > 0
  }

  /** The count of living players is the number of seats with hearts. */
  lemma {:induction false} AliveCountIsSeats(players: seq<Player>)
    ensures AliveCount(players) == |AliveSeats(players)|
  {
    if players != [] {
      var last := |players| - 1;
      var front := players[..last];
      AliveCountIsSeats(front);
      if players[last].hearts > 0 {
        assert AliveSeats(players) == AliveSeats(front) + {last};
      } else {
        assert AliveSeats(players) == AliveSeats(front);
      }
    } else {
      assert AliveSeats(players) == {};
    }
  }

  /** When the player at `out` has no hearts and exactly one player is
      alive, any living player is somebody else and everybody but that
      survivor is out. */
  lemma SoleSurvivor(players: seq<Player>, out: nat, survivor: nat)
    requires out < |players| && players[out].hearts <= 0 && AliveCount(players) == 1
    requires survivor < |players| && players[survivor].hearts > 0
    ensures survivor != out
    ensures forall k :: 0 <= k < |players| && k != survivor ==> players[k].hearts <= 0
  {
    AliveCountIsSeats(players);
    var seats := AliveSeats(players);
    assert survivor in seats;
    assert |seats - {survivor}| == 0;
    assert seats == {survivor};
    forall k | 0 <= k < |players| && k != survivor ensures players[k].hearts <= 0 {
      assert k !in seats;
    }
  }

  /** The seat after i, wrapping to seat 0 after the last. */
  function NextIndex(i: int, n: int): (r: int)
    requires 0 <= i && 0 < n
    ensures 0 <= r < n
    ensures i < n - 1 ==> r == i + 1
    ensures i == n - 1 ==> r == 0
  {
    (i + 1) % n
  }

  /** The seat reached from i after k turns. */
  function AdvanceBy(i: int, n: int, k: nat): (r: int)
    requires 0 <= i < n
    ensures 0 <= r < n
  {
    if k == 0 then i else NextIndex(AdvanceBy(i, n, k - 1), n)
  }

  /** Within one round of the table, k turns from seat i reach seat i + k,
      wrapping past the last seat. */
  lemma {:induction false} AdvanceWithinRound(i: int, n: int, k: nat)
    requires 0 <= i < n && k <= n
    ensures AdvanceBy(i, n, k) == if i + k < n then i + k else i + k - n
  {
    if k > 0 {
      AdvanceWithinRound(i, n, k - 1);
    }
  }

  /** n turns around a table of n players come back to where they started. */
  lemma FullRoundReturns(i: int, n: int)
    requires 0 <= i < n
    ensures AdvanceBy(i, n, n) == i
  {
    AdvanceWithinRound(i, n, n);
  }

  /** The players after a full reset: same seats, names and colours, full
      hearts and no wins. */
  function Replenished(players: seq<Player>): (r: seq<Player>)
    ensures |r| == |players|
    ensures forall i :: 0 <= i < |r| ==>
      r[i].id == players[i].id && r[i].name == players[i].name && r[i].color == players[i].color &&
      r[i].hearts == MaxHearts && r[i].wins == 0
  {
    seq(|players|, i requires 0 <= i < |players| => players[i].(hearts := MaxHearts, wins := 0))
  }

  /** Seat i with its name replaced; any other index changes nothing. */
  function Renamed(players: seq<Player>, index: int, name: string): (r: seq<Player>)
    ensures |r| == |players|
    ensures forall i :: 0 <= i < |r| && i != index ==> r[i] == players[i]
    ensures 0 <= index < |r| ==> r[index].name == name && r[index].(name := players[index].name) == players[index]
  {
    seq(|players|, i requires 0 <= i < |players| => if i == index then players[i].(name := name) else players[i])
  }

  // ---------------------------------------------------------------------
  // The store.

  class Store {
    var gameStarted: bool
    var players: seq<Player>
    var numPlayers: int
    var currentPlayerIndex: int
    var boards: seq<Board>
    var rollCount: int
    var diceState: seq<Die>
    var rollHistory: seq<seq<Dice.DiceColor>>
    var selectedBoardIndices: seq<int>
    var gamePhase: Phase
    var lastWildColor: Option<Dice.DiceColor>

    /** The invariant every action keeps. Wins are never incremented by any
        action, so every player's tally stays 0. */
    ghost predicate Valid()
      reads this
    {
      MinPlayers <= numPlayers <= MaxPlayers && |players| == numPlayers &&
      (forall i :: 0 <= i < |players| ==>
         players[i].id == i && 0 <= players[i].hearts <= MaxHearts && players[i].wins == 0) &&
      |boards| == BoardCount && (forall k :: 0 <= k < |boards| ==> |boards[k]| == CellCount) &&
      0 <= currentPlayerIndex < numPlayers &&
      0 <= rollCount &&
      (gamePhase == Setup ==> currentPlayerIndex == 0)
    }

    /** The store as first created: two default players, empty boards, setup. */
    constructor ()
      ensures Valid()
      ensures !gameStarted && numPlayers == 2 && players == CreateEmptyPlayers(2)
      ensures currentPlayerIndex == 0 && boards == CreateEmptyBoards()
      ensures rollCount == 0 && diceState == [] && rollHistory == [] && selectedBoardIndices == []
      ensures gamePhase == Setup && lastWildColor == None
    {
      gameStarted := false;
      players := CreateEmptyPlayers(2);
      numPlayers := 2;
      currentPlayerIndex := 0;
      boards := CreateEmptyBoards();
      rollCount := 0;
      diceState := [];
      rollHistory := [];
      selectedBoardIndices := [];
      gamePhase := Setup;
      lastWildColor := None;
    }

    /** Sets the player count, clamped to [2, 6], and seats that many fresh
        players. Only the setup screen offers it. */
    method SetNumPlayers(num: int)
      requires Valid() && gamePhase == Setup
      modifies this`numPlayers, this`players
      ensures Valid()
      ensures numPlayers == ClampPlayers(num)
      ensures players == CreateEmptyPlayers(numPlayers)
    {
      var clamped := ClampPlayers(num);
      numPlayers := clamped;
      players := CreateEmptyPlayers(clamped);
    }

    /** Renames one player; nothing else about any player changes. */
    method SetPlayerName(index: int, name: string)
      requires Valid()
      modifies this`players
      ensures Valid()
      ensures players == Renamed(old(players), index, name)
    {
      players := Renamed(players, index, name);
    }

    /** Starts a game with the given first player (drawn at random by the
        caller), on empty boards with no rolls made. */
    method StartGame(firstPlayerIndex: int)
      requires Valid() && 0 <= firstPlayerIndex < numPlayers
      modifies this`currentPlayerIndex, this`gameStarted, this`gamePhase, this`boards,
        this`rollCount, this`diceState, this`rollHistory
      ensures Valid()
      ensures currentPlayerIndex == firstPlayerIndex && gameStarted && gamePhase == Playing
      ensures boards == CreateEmptyBoards()
      ensures rollCount == 0 && diceState == [] && rollHistory == []
    {
      currentPlayerIndex := firstPlayerIndex;
      gameStarted := true;
      gamePhase := Playing;
      boards := CreateEmptyBoards();
      rollCount := 0;
      diceState := [];
      rollHistory := [];
    }

    /** The store went through one roll of `colors`: the count rose by one,
        the dice show the colours unkept and the roll joined the history. A
        triple leads to placing (green or red) or to the wild menu (yellow)
        and is remembered as the last wild colour. Without a triple the turn
        goes on until the third roll, which costs the roller a heart and ends
        the round, or the game when the roller is out and one player is
        left; that last case keeps the remembered colour. */
    twostate predicate Rolled(colors: seq<Dice.DiceColor>)
      reads this
    {
      && rollCount == old(rollCount) + 1
      && diceState == FreshDice(colors)
      && rollHistory == old(rollHistory) + [colors]
      && currentPlayerIndex == old(currentPlayerIndex)
      && (Dice.Classify(colors).Triple? ==>
            && players == old(players)
            && lastWildColor == Some(Dice.Classify(colors).color)
            && gamePhase == (if Dice.Classify(colors).color == Dice.Yellow then WildChoice else Placing))
      && (Dice.Classify(colors) == Dice.NoMatch && rollCount < RollsPerTurn ==>
            && players == old(players)
            && lastWildColor == None
            && gamePhase == old(gamePhase))
      && (Dice.Classify(colors) == Dice.NoMatch && rollCount >= RollsPerTurn ==>
            && 0 <= currentPlayerIndex < |players| == |old(players)|
            && players[currentPlayerIndex].hearts == LoseHeart(old(players)[currentPlayerIndex].hearts)
            && players == old(players)[currentPlayerIndex := players[currentPlayerIndex]]
            && players[currentPlayerIndex] == old(players)[currentPlayerIndex].(hearts := players[currentPlayerIndex].hearts)
            && lastWildColor == old(lastWildColor)
            && gamePhase == (if players[currentPlayerIndex].hearts == 0 && AliveCount(players) == 1
                             then GameOver else RoundEnd))
    }

    /** Records a roll of the given colours and moves the turn on. */
    method RollDice(colors: seq<Dice.DiceColor>)
      requires Valid()
      modifies this`rollCount, this`diceState, this`rollHistory, this`gamePhase,
        this`players, this`lastWildColor
      ensures Valid()
      ensures Rolled(colors)
    {
      var newRollCount := rollCount + 1;
      var newDiceState := FreshDice(colors);
      var outcome := Dice.CountDiceOutcome(colors);
      var newPhase := gamePhase;
      if outcome.Triple? {
        newPhase := if outcome.color == Dice.Yellow then WildChoice else Placing;
      } else if newRollCount >= RollsPerTurn {
        var newPlayers := players;
        var roller := newPlayers[currentPlayerIndex];
        newPlayers := newPlayers[currentPlayerIndex := roller.(hearts := LoseHeart(roller.hearts))];
        newPhase :=
          if newPlayers[currentPlayerIndex].hearts == 0 then
            if AliveCount(newPlayers) == 1 then GameOver else RoundEnd
          else RoundEnd;
        rollCount := newRollCount;
        diceState := newDiceState;
        rollHistory := rollHistory + [colors];
        gamePhase := newPhase;
        players := newPlayers;
        return;
      }
      rollCount := newRollCount;
      diceState := newDiceState;
      rollHistory := rollHistory + [colors];
      gamePhase := newPhase;
      lastWildColor := if outcome.Triple? then Some(outcome.color) else None;
    }

    /** Flips the kept mark of one die. */
    method ToggleKeptDice(index: int)
      requires Valid()
      modifies this`diceState
      ensures Valid()
      ensures diceState == KeptToggled(old(diceState), index)
    {
      diceState := KeptToggled(diceState, index);
    }

    /** Clears the dice and the roll count and returns to rolling. */
    method ResetRoll()
      requires Valid()
      modifies this`rollCount, this`diceState, this`selectedBoardIndices, this`gamePhase
      ensures Valid()
      ensures rollCount == 0 && diceState == [] && selectedBoardIndices == [] && gamePhase == Playing
    {
      rollCount := 0;
      diceState := [];
      selectedBoardIndices := [];
      gamePhase := Playing;
    }

    /** A green chip on one cell of one board, then on to the win check. */
    method PlaceGreen(playerIndex: int, cellIndex: int)
      requires Valid() && 0 <= playerIndex < BoardCount && 0 <= cellIndex < CellCount
      modifies this`boards, this`gamePhase
      ensures Valid()
      ensures boards == old(boards)[playerIndex := GreenPlaced(old(boards)[playerIndex], cellIndex)]
      ensures gamePhase == CheckingWin
    {
      var newBoards := boards;
      if newBoards[playerIndex][cellIndex] == Empty {
        newBoards := newBoards[playerIndex := newBoards[playerIndex][cellIndex := Green]];
      }
      boards := newBoards;
      gamePhase := CheckingWin;
    }

    /** A red chip on one cell of one board; the round ends. */
    method PlaceRed(playerIndex: int, cellIndex: int)
      requires Valid() && 0 <= playerIndex < BoardCount && 0 <= cellIndex < CellCount
      modifies this`boards, this`gamePhase
      ensures Valid()
      ensures boards == old(boards)[playerIndex := RedPlaced(old(boards)[playerIndex], cellIndex)]
      ensures gamePhase == RoundEnd
    {
      var newBoards := boards;
      if newBoards[playerIndex][cellIndex] != Red {
        newBoards := newBoards[playerIndex := newBoards[playerIndex][cellIndex := Red]];
      }
      boards := newBoards;
      gamePhase := RoundEnd;
    }

    /** Clears a red chip from one cell of one board; the round ends. */
    method RemoveRed(playerIndex: int, cellIndex: int)
      requires Valid() && 0 <= playerIndex < BoardCount && 0 <= cellIndex < CellCount
      modifies this`boards, this`gamePhase
      ensures Valid()
      ensures boards == old(boards)[playerIndex := RedRemoved(old(boards)[playerIndex], cellIndex)]
      ensures gamePhase == RoundEnd
    {
      var newBoards := boards;
      if newBoards[playerIndex][cellIndex] == Red {
        newBoards := newBoards[playerIndex := newBoards[playerIndex][cellIndex := Empty]];
      }
      boards := newBoards;
      gamePhase := RoundEnd;
    }

    /** Puts a red chip on an empty cell of one board; the round ends. */
    method RestoreRed(playerIndex: int, cellIndex: int)
      requires Valid() && 0 <= playerIndex < BoardCount && 0 <= cellIndex < CellCount
      modifies this`boards, this`gamePhase
      ensures Valid()
      ensures boards == old(boards)[playerIndex := RedRestored(old(boards)[playerIndex], cellIndex)]
      ensures gamePhase == RoundEnd
    {
      var newBoards := boards;
      if newBoards[playerIndex][cellIndex] == Empty {
        newBoards := newBoards[playerIndex := newBoards[playerIndex][cellIndex := Red]];
      }
      boards := newBoards;
      gamePhase := RoundEnd;
    }

    /** Whether the current player's board, as it is now, shows a win. */
    method CheckWinCondition() returns (won: bool)
      requires Valid()
      ensures won <==> GridWin(boards[currentPlayerIndex])
    {
      won := CheckWin(boards[currentPlayerIndex]);
      CheckWinIsGridWin(boards[currentPlayerIndex]);
    }

    /** Passes the turn to the next seat with fresh dice. */
    method NextTurn()
      requires Valid()
      modifies this`currentPlayerIndex, this`rollCount, this`diceState,
        this`selectedBoardIndices, this`gamePhase
      ensures Valid()
      ensures currentPlayerIndex == NextIndex(old(currentPlayerIndex), numPlayers)
      ensures rollCount == 0 && diceState == [] && selectedBoardIndices == [] && gamePhase == Playing
    {
      currentPlayerIndex := (currentPlayerIndex + 1) % numPlayers;
      rollCount := 0;
      diceState := [];
      selectedBoardIndices := [];
      gamePhase := Playing;
    }

    /** Ends the turn without passing it on. */
    method EndTurn()
      requires Valid()
      modifies this`rollCount, this`diceState, this`selectedBoardIndices, this`gamePhase
      ensures Valid()
      ensures rollCount == 0 && diceState == [] && selectedBoardIndices == [] && gamePhase == RoundEnd
    {
      rollCount := 0;
      diceState := [];
      selectedBoardIndices := [];
      gamePhase := RoundEnd;
    }

    /** Back to setup for a new game: the same players with full hearts and
        no wins, empty boards, seat 0 first. */
    method ResetBoard()
      requires Valid()
      modifies this`gameStarted, this`gamePhase, this`boards, this`rollCount, this`diceState,
        this`rollHistory, this`selectedBoardIndices, this`currentPlayerIndex, this`players
      ensures Valid()
      ensures !gameStarted && gamePhase == Setup && boards == CreateEmptyBoards()
      ensures rollCount == 0 && diceState == [] && rollHistory == [] && selectedBoardIndices == []
      ensures currentPlayerIndex == 0
      ensures players == Replenished(old(players))
    {
      gameStarted := false;
      gamePhase := Setup;
      boards := CreateEmptyBoards();
      rollCount := 0;
      diceState := [];
      rollHistory := [];
      selectedBoardIndices := [];
      currentPlayerIndex := 0;
      players := Replenished(players);
    }
  }
}
