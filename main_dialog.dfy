/**
 * MainDialog: the root two-step waterfall. It starts BeginConversationDialog
 * as a child and ends once that child has returned.
 */
module MainDialog {
  import opened ShoppingItems
  import opened Store
  import opened Waterfall

  /** Step 0: start the conversation dialog. */
  function InitialStep(pending: Item, lists: Lists): Outcome {
    Outcome(BeginChild(BeginConversation), pending, lists)
  }

  /** Step 1: the child has returned; end the root. */
  function FinalStep(pending: Item, lists: Lists): Outcome {
    Outcome(End, pending, lists)
  }

  /** The waterfall: step k of the dialog. */
  function Step(k: nat, pending: Item, lists: Lists): Outcome {
    match k
    case 0 => InitialStep(pending, lists)
    case 1 => FinalStep(pending, lists)
    case _ => Outcome(End, pending, lists)
  }
}
