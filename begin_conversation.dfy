/**
 * BeginConversationDialog: a two-step waterfall that offers "Create Shopping
 * List" or "Exit" and starts the create dialog as a child.
 */
module BeginConversationDialog {
  import opened ShoppingItems
  import opened Store
  import opened Waterfall

  const CreateShoppingListChoice := "Create Shopping List"

  /** Step 0: offer the two options. */
  function SelectOption(pending: Item, lists: Lists): Outcome {
    Outcome(Prompt, pending, lists)
  }

  /** Step 1: start creating a list as a child, or say goodbye and end. */
  function PerformTask(pending: Item, lists: Lists, input: string): Outcome {
    Outcome(if input == CreateShoppingListChoice then BeginChild(CreateShoppingList) else End, pending, lists)
  }

  /** The waterfall: step k of the dialog. */
  function Step(k: nat, pending: Item, lists: Lists, input: string): Outcome {
    match k
    case 0 => SelectOption(pending, lists)
    case 1 => PerformTask(pending, lists, input)
    case _ => Outcome(End, pending, lists)
  }
}
