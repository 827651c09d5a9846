/** The availability rules of the wild-card menu (src/components/WildMenu.tsx)
    that opens after a yellow triple: which of the four actions are offered
    for the current player's board, and what a button press passes on. */
module WildMenu {

  import opened Wrappers
  import opened TicTacToe

  /** The four wild actions ('place-green', 'place-red', 'remove-red',
      'restore-red'). */
  datatype WildAction = PlaceGreenAction | PlaceRedAction | RemoveRedAction | RestoreRedAction

  /** One button of the menu. */
  datatype ActionOption = ActionOption(id: WildAction, available: bool)

  /** Remove-red needs a red cell on the board: the count of red cells is
      positive. */
  function CanRemoveRed(b: Board): (available: bool)
    ensures available <==> exists i :: 0 <= i < |b| && b[i] == Red
  {
    CountPositive(b, Red);
    Count(b, Red) > 0
  }

  /** Restore-red needs an empty cell and fewer red cells than cells; an
      empty cell already keeps the red count below the board length, so it
      is offered exactly when some cell is empty. */
  function CanRestoreRed(b: Board): (available: bool)
    ensures available <==> exists i :: 0 <= i < |b| && b[i] == Empty
  {
    CountPositive(b, Empty);
    CountsPartitionBoard(b);
    Count(b, Empty) > 0 && Count(b, Red) < |b|
  }

  /** The menu for a board, in display order. Placing green and placing red
      are always offered; removing and restoring red depend on the board. */
  function Actions(b: Board): (options: seq<ActionOption>)
    ensures |options| == 4
    ensures options[0].id == PlaceGreenAction && options[1].id == PlaceRedAction
    ensures options[2].id == RemoveRedAction && options[3].id == RestoreRedAction
    ensures options[0].available && options[1].available
    ensures options[2].available <==> exists i :: 0 <= i < |b| && b[i] == Red
    ensures options[3].available <==> exists i :: 0 <= i < |b| && b[i] == Empty
  {
    [ActionOption(PlaceGreenAction, true),
     ActionOption(PlaceRedAction, true),
     ActionOption(RemoveRedAction, CanRemoveRed(b)),
     ActionOption(RestoreRedAction, CanRestoreRed(b))]
  }

  /** A press on a button: the action is passed on to the game only when it
      is available; a disabled button passes nothing on. */
  function Click(option: ActionOption): (selected: Option<WildAction>)
    ensures selected.Some? <==> option.available
    ensures selected.Some? ==> selected.value == option.id
  {
    if option.available then Some(option.id) else None
  }

  /** No press ever selects an action the menu did not offer, and an action
      that is selected is the one on the pressed button. */
  lemma ClickOnlySelectsOffered(b: Board, k: nat)
    requires k < 4
    ensures Click(Actions(b)[k]).Some? ==> Actions(b)[k].available
    ensures Click(Actions(b)[k]) == None <==> (k == 2 && forall i :: 0 <= i < |b| ==> b[i] != Red) || (k == 3 && forall i :: 0 <= i < |b| ==> b[i] != Empty)
  {
  }
}
