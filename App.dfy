/** The turn resolution that src/App.tsx performs on top of the store: the
    roll guard, the cell press that places a chip and decides the round,
    the wild-card flow, and the continue button after a win. Rendering,
    sound and the roll animation are not part of this model. */
module App {

  import opened Wrappers
  import Dice
  import opened TicTacToe
  import opened GameStore
  import opened WildMenu

  /** handleRoll refuses once this many rolls have been made. */
  const RollLimit := 3

  /** The dice on the table show a green triple (`outcome.color === 'green'`). */
  predicate GreenTriple(dice: seq<Die>)
  {
    Dice.Classify(DiceColors(dice)) == Dice.Triple(Dice.Green)
  }

  /** The players after `winner` completes a line: everybody else loses a
      heart, with a floor of zero; the winner is untouched. */
  function OthersLoseHeart(players: seq<Player>, winner: int): (r: seq<Player>)
    ensures |r| == |players|
    ensures 0 <= winner < |r| ==> r[winner] == players[winner]
    ensures forall i :: 0 <= i < |r| && i != winner ==>
      r[i].hearts == LoseHeart(players[i].hearts) && r[i].(hearts := players[i].hearts) == players[i]
  {
    seq(|players|, i requires 0 <= i < |players| =>
      if i == winner then players[i] else players[i].(hearts := LoseHeart(players[i].hearts)))
  }

  /** Every player but `winner` is out of hearts (the `every` test). */
  predicate OthersAllOut(players: seq<Player>, winner: int)
  {
    forall i :: 0 <= i < |players| && i != winner ==> players[i].hearts == 0
  }

  /** A win ends the game exactly when every other player had at most one
      heart left before it. */
  lemma WinEndsGameIffOthersOnLastHeart(players: seq<Player>, winner: int)
    requires forall i :: 0 <= i < |players| ==> players[i].hearts >= 0
    ensures OthersAllOut(OthersLoseHeart(players, winner), winner) <==>
      forall i :: 0 <= i < |players| && i != winner ==> players[i].hearts <= 1
  {
  }

  /** The board a wild action lands on: the next seat for place-red, the
      current player's own board otherwise. */
  function WildTarget(action: WildAction, current: int, numPlayers: int): (target: int)
    requires 0 <= current < numPlayers
    ensures 0 <= target < numPlayers
    ensures action == PlaceRedAction ==> target == NextIndex(current, numPlayers)
    ensures action != PlaceRedAction ==> target == current
  {
    if action == PlaceRedAction then (current + 1) % numPlayers else current
  }

  /** The boards after the wild branch of a cell press: with a yellow triple
      and a selected action, that action's rule is applied to its target
      board; otherwise nothing changes. */
  function WildBoards(boards: seq<Board>, action: Option<WildAction>, color: Option<Dice.DiceColor>,
                      current: int, numPlayers: int, cell: nat): (r: seq<Board>)
    requires 0 <= current < numPlayers <= |boards|
    requires forall k :: 0 <= k < |boards| ==> cell < |boards[k]|
    ensures |r| == |boards|
    ensures action.None? || color != Some(Dice.Yellow) ==> r == boards
    ensures action.Some? && color == Some(Dice.Yellow) ==>
      var t := WildTarget(action.value, current, numPlayers);
      && (forall k :: 0 <= k < |boards| && k != t ==> r[k] == boards[k])
      && r[t] == match action.value {
           case PlaceGreenAction => GreenPlaced(boards[t], cell)
           case PlaceRedAction => RedPlaced(boards[t], cell)
           case RemoveRedAction => RedRemoved(boards[t], cell)
           case RestoreRedAction => RedRestored(boards[t], cell)
         }
  {
    if action.None? || color != Some(Dice.Yellow) then boards
    else
      var t := WildTarget(action.value, current, numPlayers);
      match action.value
      case PlaceGreenAction => boards[t := GreenPlaced(boards[t], cell)]
      case PlaceRedAction => boards[t := RedPlaced(boards[t], cell)]
      case RemoveRedAction => boards[t := RedRemoved(boards[t], cell)]
      case RestoreRedAction => boards[t := RedRestored(boards[t], cell)]
  }

  /** A press on a completing cell: two green chips in the top row and a
      press on the third. The board before the press shows no win; the
      board after it does. */
  lemma CompletingPressUnseenBySnapshot()
    ensures var b := [Green, Green, Empty, Empty, Empty, Empty, Empty, Empty, Empty];
            !CheckWin(b) && CheckWin(GreenPlaced(b, 2))
  {
    var b := [Green, Green, Empty, Empty, Empty, Empty, Empty, Empty, Empty];
    var after := GreenPlaced(b, 2);
    assert after == [Green, Green, Green, Empty, Empty, Empty, Empty, Empty, Empty];
    LineOfThree(after, Lines[0]);
    assert LineGreen(after, Lines[0]);
    forall k | 0 <= k < |Lines|
      ensures !LineGreen(b, Lines[k])
    {
      LineOfThree(b, Lines[k]);
    }
  }

  /** The game screen: the store it drives and its own local state. */
  class GameUI {
    const store: Store
    var isRolling: bool
    var selectedAction: Option<WildAction>
    var showWinModal: bool
    var roundWinner: Option<int>

    /** The store's invariant, and the roll guard keeps the roll count at
        three or below. */
    ghost predicate Valid()
      reads this, store
    {
      store.Valid() && store.rollCount <= RollLimit
    }

    constructor (s: Store)
      requires s.Valid() && s.rollCount <= RollLimit
      ensures Valid() && store == s
      ensures !isRolling && selectedAction == None && !showWinModal && roundWinner == None
    {
      store := s;
      isRolling := false;
      selectedAction := None;
      showWinModal := false;
      roundWinner := None;
    }

    /** The roll button: refused after three rolls or while a roll is under
        way; otherwise three dice are rolled from the given random values
        and handed to the store. The animation delay is collapsed. */
    method HandleRoll(r0: real, r1: real, r2: real)
      requires Valid()
      modifies this`isRolling, store`rollCount, store`diceState, store`rollHistory,
        store`gamePhase, store`players, store`lastWildColor
      ensures Valid()
      ensures old(store.rollCount) >= RollLimit || old(isRolling) ==>
        unchanged(store) && isRolling == old(isRolling)
      ensures old(store.rollCount) < RollLimit && !old(isRolling) ==>
        !isRolling && store.Rolled(Dice.RollThreeDice(r0, r1, r2))
    {
      if store.rollCount >= RollLimit || isRolling {
        return;
      }
      isRolling := true;
      var newDice := Dice.RollThreeDice(r0, r1, r2);
      store.RollDice(newDice);
      isRolling := false;
    }

    /** What follows a green placement once the win test has given its
        verdict: on a win the current player is recorded as the round
        winner, every other player loses a heart, and the game is over when
        they are all out; without a win the round ends. */
    method ResolvePlacement(won: bool)
      requires Valid()
      modifies this`roundWinner, this`showWinModal, store`players, store`gamePhase
      ensures Valid()
      ensures won ==>
        && roundWinner == Some(store.currentPlayerIndex) && showWinModal
        && store.players == OthersLoseHeart(old(store.players), store.currentPlayerIndex)
        && store.gamePhase == (if OthersAllOut(store.players, store.currentPlayerIndex) then GameOver else RoundEnd)
      ensures !won ==>
        && roundWinner == old(roundWinner) && showWinModal == old(showWinModal)
        && store.players == old(store.players) && store.gamePhase == RoundEnd
    {
      if won {
        var current := store.currentPlayerIndex;
        roundWinner := Some(current);
        showWinModal := true;
        ghost var before := store.players;
        var idx := 0;
        while idx < |store.players|
          invariant 0 <= idx <= |store.players| == |before|
          invariant roundWinner == Some(current) && showWinModal
          invariant forall j :: 0 <= j < |before| ==>
            store.players[j] == if j < idx then OthersLoseHeart(before, current)[j] else before[j]
        {
          if idx != current {
            var p := store.players[idx];
            store.players := store.players[idx := p.(hearts := LoseHeart(p.hearts))];
          }
          idx := idx + 1;
        }
        assert store.players == OthersLoseHeart(before, current);
        if OthersAllOut(store.players, current) {
          store.gamePhase := GameOver;
        } else {
          store.gamePhase := RoundEnd;
        }
      } else {
        store.gamePhase := RoundEnd;
      }
    }

    /** The wild branch of a cell press: the selected action is applied (only
        after a yellow triple), place-red to the next seat's board, then the
        selection is cleared and the round ends. */
    method ApplyWildAction(cellIndex: int)
      requires Valid() && 0 <= cellIndex < CellCount
      modifies this`selectedAction, store`boards, store`gamePhase
      ensures Valid()
      ensures store.boards == WildBoards(old(store.boards), old(selectedAction), store.lastWildColor,
                                         store.currentPlayerIndex, store.numPlayers, cellIndex)
      ensures selectedAction == None && store.gamePhase == RoundEnd
    {
      var color := store.lastWildColor;
      var current := store.currentPlayerIndex;
      if selectedAction == Some(PlaceGreenAction) && color == Some(Dice.Yellow) {
        store.PlaceGreen(current, cellIndex);
      } else if selectedAction == Some(PlaceRedAction) && color == Some(Dice.Yellow) {
        var opponent := (current + 1) % store.numPlayers;
        store.PlaceRed(opponent, cellIndex);
      } else if selectedAction == Some(RemoveRedAction) && color == Some(Dice.Yellow) {
        store.RemoveRed(current, cellIndex);
      } else if selectedAction == Some(RestoreRedAction) && color == Some(Dice.Yellow) {
        store.RestoreRed(current, cellIndex);
      }
      selectedAction := None;
      store.gamePhase := RoundEnd;
    }

    /** A press on a cell of the current player's board, as the original
        does it. In the placing phase only a green triple places a chip; the
        win test then reads the boards the screen was drawn from, taken
        before the chip was placed. In the wild-menu phase the selected wild
        action is applied. In every other phase nothing happens. */
    method HandleCellPress(cellIndex: int)
      requires Valid() && 0 <= cellIndex < CellCount
      modifies this`selectedAction, this`showWinModal, this`roundWinner,
        store`boards, store`gamePhase, store`players
      ensures Valid()
      ensures old(store.gamePhase) != Placing && old(store.gamePhase) != WildChoice ==>
        unchanged(this) && unchanged(store)
      ensures old(store.gamePhase) == Placing && !GreenTriple(old(store.diceState)) ==>
        unchanged(this) && unchanged(store)
      ensures old(store.gamePhase) == Placing && GreenTriple(old(store.diceState)) ==>
        var current := store.currentPlayerIndex;
        && selectedAction == old(selectedAction)
        && store.boards == old(store.boards)[current := GreenPlaced(old(store.boards)[current], cellIndex)]
        && (CheckWin(old(store.boards)[current]) ==>
              && roundWinner == Some(current) && showWinModal
              && store.players == OthersLoseHeart(old(store.players), current)
              && store.gamePhase == (if OthersAllOut(store.players, current) then GameOver else RoundEnd))
        && (!CheckWin(old(store.boards)[current]) ==>
              && roundWinner == old(roundWinner) && showWinModal == old(showWinModal)
              && store.players == old(store.players) && store.gamePhase == RoundEnd)
      ensures old(store.gamePhase) == WildChoice ==>
        && store.boards == WildBoards(old(store.boards), old(selectedAction), store.lastWildColor,
                                      store.currentPlayerIndex, store.numPlayers, cellIndex)
        && selectedAction == None && store.gamePhase == RoundEnd
        && store.players == old(store.players)
        && roundWinner == old(roundWinner) && showWinModal == old(showWinModal)
    {
      if store.gamePhase == Placing {
        var outcome := Dice.CountDiceOutcome(DiceColors(store.diceState));
        if outcome == Dice.Triple(Dice.Green) {
          var snapshot := store.boards;
          var current := store.currentPlayerIndex;
          store.PlaceGreen(current, cellIndex);
          ResolvePlacement(CheckWin(snapshot[current]));
        }
      } else if store.gamePhase == WildChoice {
        ApplyWildAction(cellIndex);
      }
    }

    /** The same press with the win test moved after the placement, so that
        it reads the board the chip was placed on: the press that completes a
        line wins the round. */
    method HandleCellPressRechecked(cellIndex: int)
      requires Valid() && 0 <= cellIndex < CellCount
      modifies this`selectedAction, this`showWinModal, this`roundWinner,
        store`boards, store`gamePhase, store`players
      ensures Valid()
      ensures old(store.gamePhase) != Placing && old(store.gamePhase) != WildChoice ==>
        unchanged(this) && unchanged(store)
      ensures old(store.gamePhase) == Placing && !GreenTriple(old(store.diceState)) ==>
        unchanged(this) && unchanged(store)
      ensures old(store.gamePhase) == Placing && GreenTriple(old(store.diceState)) ==>
        var current := store.currentPlayerIndex;
        && selectedAction == old(selectedAction)
        && store.boards == old(store.boards)[current := GreenPlaced(old(store.boards)[current], cellIndex)]
        && (GridWin(store.boards[current]) ==>
              && roundWinner == Some(current) && showWinModal
              && store.players == OthersLoseHeart(old(store.players), current)
              && store.gamePhase == (if OthersAllOut(store.players, current) then GameOver else RoundEnd))
        && (!GridWin(store.boards[current]) ==>
              && roundWinner == old(roundWinner) && showWinModal == old(showWinModal)
              && store.players == old(store.players) && store.gamePhase == RoundEnd)
      ensures old(store.gamePhase) == WildChoice ==>
        && store.boards == WildBoards(old(store.boards), old(selectedAction), store.lastWildColor,
                                      store.currentPlayerIndex, store.numPlayers, cellIndex)
        && selectedAction == None && store.gamePhase == RoundEnd
        && store.players == old(store.players)
        && roundWinner == old(roundWinner) && showWinModal == old(showWinModal)
    {
      if store.gamePhase == Placing {
        var outcome := Dice.CountDiceOutcome(DiceColors(store.diceState));
        if outcome == Dice.Triple(Dice.Green) {
          var current := store.currentPlayerIndex;
          store.PlaceGreen(current, cellIndex);
          var won := store.CheckWinCondition();
          ResolvePlacement(won);
        }
      } else if store.gamePhase == WildChoice {
        ApplyWildAction(cellIndex);
      }
    }

    /** A wild action chosen from the menu: it is remembered and the phase
        goes back to playing. */
    method HandleWildAction(action: WildAction)
      requires Valid()
      modifies this`selectedAction, store`gamePhase
      ensures Valid()
      ensures selectedAction == Some(action) && store.gamePhase == Playing
    {
      selectedAction := Some(action);
      store.gamePhase := Playing;
    }

    /** A press on button k of the wild menu, which is on screen in the
        wild-menu phase: an available action is passed on, a disabled one
        changes nothing. */
    method PressWildButton(k: nat)
      requires Valid() && store.gamePhase == WildChoice && k < 4
      modifies this`selectedAction, store`gamePhase
      ensures Valid()
      ensures !Actions(store.boards[store.currentPlayerIndex])[k].available ==>
        unchanged(this) && unchanged(store)
      ensures Actions(store.boards[store.currentPlayerIndex])[k].available ==>
        selectedAction == Some(Actions(store.boards[store.currentPlayerIndex])[k].id) &&
        store.gamePhase == Playing
    {
      var option := Actions(store.boards[store.currentPlayerIndex])[k];
      var choice := Click(option);
      if choice.Some? {
        HandleWildAction(choice.value);
      }
    }

    /** Choosing a wild action and then pressing a cell changes no board:
        choosing sets the phase to playing, and a press in that phase does
        nothing, so the wild branch of the cell press is never reached. */
    method ChooseWildThenPress(action: WildAction, cellIndex: int)
      requires Valid() && 0 <= cellIndex < CellCount
      modifies this`selectedAction, this`showWinModal, this`roundWinner,
        store`boards, store`gamePhase, store`players
      ensures Valid()
      ensures store.boards == old(store.boards) && store.players == old(store.players)
      ensures store.gamePhase == Playing && selectedAction == Some(action)
      ensures roundWinner == old(roundWinner) && showWinModal == old(showWinModal)
    {
      HandleWildAction(action);
      HandleCellPress(cellIndex);
    }

    /** The continue button after a win: a finished game goes back to setup
        through a full reset; otherwise the turn passes to the next seat. */
    method HandleWinContinue()
      requires Valid()
      modifies this`showWinModal, store`gameStarted, store`gamePhase, store`boards,
        store`rollCount, store`diceState, store`rollHistory, store`selectedBoardIndices,
        store`currentPlayerIndex, store`players
      ensures Valid()
      ensures !showWinModal
      ensures old(store.gamePhase) == GameOver ==>
        && store.gamePhase == Setup && store.currentPlayerIndex == 0
        && store.players == Replenished(old(store.players))
        && store.boards == CreateEmptyBoards() && store.rollCount == 0
        && !store.gameStarted && store.diceState == [] && store.rollHistory == []
        && store.selectedBoardIndices == []
      ensures old(store.gamePhase) != GameOver ==>
        && store.gamePhase == Playing
        && store.currentPlayerIndex == NextIndex(old(store.currentPlayerIndex), store.numPlayers)
        && store.players == old(store.players) && store.boards == old(store.boards)
        && store.rollCount == 0 && store.diceState == []
        && store.rollHistory == old(store.rollHistory) && store.gameStarted == old(store.gameStarted)
        && store.selectedBoardIndices == []
    {
      showWinModal := false;
      if store.gamePhase == GameOver {
        store.ResetBoard();
        store.gamePhase := Setup;
      } else {
        store.NextTurn();
      }
    }
  }

  /** The completing press as the original resolves it: player 0 holds green
      on cells 0 and 1, rolls a green triple and presses cell 2. The row is
      complete on the board, yet no winner is recorded and the round simply
      ends. */
  method CompletingPressAsWritten()
  {
    var store := new Store();
    store.StartGame(0);
    store.PlaceGreen(0, 0);
    store.PlaceGreen(0, 1);
    Dice.ClassifyThree([Dice.Green, Dice.Green, Dice.Green], Dice.Green);
    store.RollDice([Dice.Green, Dice.Green, Dice.Green]);
    assert store.gamePhase == Placing;
    var ui := new GameUI(store);
    assert GreenTriple(store.diceState) by {
      FreshDiceColors([Dice.Green, Dice.Green, Dice.Green]);
      Dice.ClassifyThree([Dice.Green, Dice.Green, Dice.Green], Dice.Green);
    }
    assert store.boards[0] == [Green, Green, Empty, Empty, Empty, Empty, Empty, Empty, Empty];
    CompletingPressUnseenBySnapshot();
    ui.HandleCellPress(2);
    assert CheckWin(store.boards[0]);
    assert ui.roundWinner == None && store.gamePhase == RoundEnd;
    assert store.players[1].hearts == MaxHearts;
  }

  /** The press after the completing one: the row 0-1-2 is already on the
      board the screen was drawn from, so a green press, even on an occupied
      cell, records player 0 as the winner and opens the win modal. */
  method PressAfterCompletingWins()
  {
    var store := new Store();
    store.StartGame(0);
    store.PlaceGreen(0, 0);
    store.PlaceGreen(0, 1);
    store.PlaceGreen(0, 2);
    Dice.ClassifyThree([Dice.Green, Dice.Green, Dice.Green], Dice.Green);
    store.RollDice([Dice.Green, Dice.Green, Dice.Green]);
    var ui := new GameUI(store);
    assert GreenTriple(store.diceState) by {
      FreshDiceColors([Dice.Green, Dice.Green, Dice.Green]);
      Dice.ClassifyThree([Dice.Green, Dice.Green, Dice.Green], Dice.Green);
    }
    var b := store.boards[0];
    assert b == [Green, Green, Green, Empty, Empty, Empty, Empty, Empty, Empty];
    CheckWinIsGridWin(b);
    assert RowGreen(b, 0);
    ui.HandleCellPress(0);
    assert ui.roundWinner == Some(0) && ui.showWinModal;
  }

  /** The same press with the win test after the placement: player 0 wins the
      round and player 1 drops from four hearts to three. */
  method CompletingPressRechecked()
  {
    var store := new Store();
    store.StartGame(0);
    store.PlaceGreen(0, 0);
    store.PlaceGreen(0, 1);
    Dice.ClassifyThree([Dice.Green, Dice.Green, Dice.Green], Dice.Green);
    store.RollDice([Dice.Green, Dice.Green, Dice.Green]);
    var ui := new GameUI(store);
    assert GreenTriple(store.diceState) by {
      FreshDiceColors([Dice.Green, Dice.Green, Dice.Green]);
      Dice.ClassifyThree([Dice.Green, Dice.Green, Dice.Green], Dice.Green);
    }
    assert store.boards[0] == [Green, Green, Empty, Empty, Empty, Empty, Empty, Empty, Empty];
    CompletingPressUnseenBySnapshot();
    ui.HandleCellPressRechecked(2);
    CheckWinIsGridWin(store.boards[0]);
    assert ui.roundWinner == Some(0);
    assert store.players[1].hearts == MaxHearts - 1;
    assert store.gamePhase == RoundEnd;
  }

  /** Three rolls without a triple in a two-player game: the third roll costs
      the roller a heart and ends the round, and a fourth roll is refused. */
  method ThreeMissesCostAHeart()
  {
    var store := new Store();
    store.StartGame(0);
    var ui := new GameUI(store);
    Dice.ClassifyThree(Dice.RollThreeDice(0.0, 0.5, 0.9), Dice.Green);
    ui.HandleRoll(0.0, 0.5, 0.9);
    assert store.gamePhase == Playing && store.lastWildColor == None;
    ui.HandleRoll(0.0, 0.5, 0.9);
    ui.HandleRoll(0.0, 0.5, 0.9);
    assert store.rollCount == 3;
    assert store.players[0].hearts == MaxHearts - 1;
    assert store.gamePhase == RoundEnd;
    ui.HandleRoll(0.9, 0.9, 0.9);
    assert store.rollCount == 3 && store.gamePhase == RoundEnd;
  }

  /** A yellow triple opens the wild menu; on an empty board remove-red is
      disabled and pressing it selects nothing. */
  method YellowTripleOnEmptyBoard()
  {
    var store := new Store();
    store.StartGame(0);
    var ui := new GameUI(store);
    Dice.ClassifyThree(Dice.RollThreeDice(0.7, 0.8, 1.0), Dice.Yellow);
    ui.HandleRoll(0.7, 0.8, 1.0);
    assert store.gamePhase == WildChoice && store.lastWildColor == Some(Dice.Yellow);
    assert !Actions(store.boards[0])[2].available;
    ui.PressWildButton(2);
    assert ui.selectedAction == None && store.gamePhase == WildChoice;
  }
}
