/**
 * The vocabulary of the dialog engine: which dialogs exist, what a waterfall
 * step may ask the engine to do next, and the activation frames on the stack.
 */
module Waterfall {
  import opened ShoppingItems
  import opened Store

  /** The five dialogs of the bot, one per dialog class. */
  datatype DialogId =
    | Main
    | BeginConversation
    | CreateShoppingList
    | DeleteItems
    | ViewExistingShoppingList

  /** What a step returns to the engine:
      Prompt      wait for the user's next message (PromptAsync);
      Next        run the following step now, in the same turn (NextAsync);
      BeginChild  push the child dialog above this frame (BeginDialogAsync);
      Replace     drop this frame and start the target at its first step (ReplaceDialogAsync);
      End         drop this frame and resume the frame below (EndDialogAsync);
      Throw       the step raised an exception that nothing catches. */
  datatype Transition =
    | Prompt
    | Next
    | BeginChild(child: DialogId)
    | Replace(target: DialogId)
    | End
    | Throw

  /** An activation of a waterfall: which dialog, the index of the step that
      runs when the frame is next resumed, and the item under construction
      that the source keeps in stepContext.Values. */
  datatype Frame = Frame(dialog: DialogId, step: nat, pending: Item)

  /** A fresh activation, at its first step. */
  function Start(d: DialogId): Frame {
    Frame(d, 0, Blank)
  }

  /** What one step produced: its transition, the frame's item afterwards and
      the store afterwards. */
  datatype Outcome = Outcome(t: Transition, pending: Item, lists: Lists)

  /** The sentinel every text prompt accepts to cancel. */
  const NoneText := "None"

  /** The number of steps each waterfall declares. */
  function StepCount(d: DialogId): nat {
    match d
    case Main => 2
    case BeginConversation => 2
    case CreateShoppingList => 8
    case DeleteItems => 3
    case ViewExistingShoppingList => 6
  }

  /** The transitions each step of each waterfall can return; a waterfall that
      has run past its last step ends. */
  ghost predicate Permitted(d: DialogId, k: nat, t: Transition) {
    if k >= StepCount(d) then t == End
    else match d
      case Main =>
        if k == 0 then t == BeginChild(BeginConversation) else t == End
      case BeginConversation =>
        if k == 0 then t == Prompt else t in {BeginChild(CreateShoppingList), End}
      case CreateShoppingList =>
        (match k
         case 0 => t == Prompt
         case 1 => t in {Prompt, Next}
         case 2 => t in {Prompt, Next, Replace(CreateShoppingList)}
         case 3 => t in {Next, Replace(CreateShoppingList)}
         case 4 => t == Prompt
         case 5 => t in {Replace(CreateShoppingList), Replace(DeleteItems), Prompt, Next}
         case 6 => t in {Prompt, Throw}
         case _ => t in {Replace(ViewExistingShoppingList), End})
      case DeleteItems =>
        (match k
         case 0 => t in {Prompt, End}
         case 1 => t in {Prompt, Replace(CreateShoppingList), Replace(DeleteItems)}
         case _ => t in {Replace(DeleteItems), Replace(CreateShoppingList)})
      case ViewExistingShoppingList =>
        (match k
         case 0 => t in {Prompt, End}
         case 1 => t in {End, Replace(ViewExistingShoppingList), Next}
         case 2 => t == Prompt
         case 3 => t in {Next, End}
         case 4 => t == Prompt
         case _ => t in {End, Replace(ViewExistingShoppingList)})
  }

  /** A bound on the steps a frame can run, starting at step k, before it
      prompts or leaves the stack. */
  ghost function Rank(d: DialogId, k: nat): nat {
    var table: seq<nat> :=
      match d
      case Main => [3, 1]
      case BeginConversation => [1, 3]
      case CreateShoppingList => [1, 4, 3, 2, 1, 2, 1, 2]
      case DeleteItems => [1, 2, 2]
      case ViewExistingShoppingList => [1, 2, 1, 2, 1, 2];
    if k < |table| then table[k] else 1
  }

  /** The rank of the stack goes down when frame f's step returns t. */
  ghost predicate Lowers(f: Frame, t: Transition) {
    match t
    case Next => Rank(f.dialog, f.step + 1) < Rank(f.dialog, f.step)
    case Replace(d) => Rank(d, 0) < Rank(f.dialog, f.step)
    case BeginChild(d) => Rank(f.dialog, f.step + 1) + Rank(d, 0) < Rank(f.dialog, f.step)
    case _ => 0 < Rank(f.dialog, f.step)
  }

  /** No chain of Next, Replace, BeginChild and End runs forever: every
      transition a waterfall may return lowers the rank. */
  lemma PermittedLowers(f: Frame, t: Transition)
    requires Permitted(f.dialog, f.step, t)
    ensures Lowers(f, t)
  {
  }
}
