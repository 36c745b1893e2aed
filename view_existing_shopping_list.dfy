/**
 * ViewExistingShoppingListDialog: the six-step waterfall that lists the
 * saved names, shows one saved list, and can delete a saved list by name.
 */
module ViewExistingShoppingListDialog {
  import opened ShoppingItems
  import opened Store
  import opened Waterfall

  const DeleteShoppingList := "Delete Shopping List"

  /** Step 0: list the saved names and ask for one, or end if there are none. */
  function FindList(pending: Item, lists: Lists): Outcome {
    Outcome(if |lists.saved| > 0 then Prompt else End, pending, lists)
  }

  /** Step 1: "None" ends; an unknown name starts this dialog again; a known
      name is shown (read only) and the next step runs at once. */
  function ViewShoppingList(pending: Item, lists: Lists, input: string): Outcome {
    var t :=
      if input == NoneText then End
      else if input !in lists.saved then Replace(ViewExistingShoppingList)
      else Next;
    Outcome(t, pending, lists)
  }

  /** Step 2: offer "Delete Shopping List" or "Exit". */
  function PromptStep(pending: Item, lists: Lists): Outcome {
    Outcome(Prompt, pending, lists)
  }

  /** Step 3: go on to deleting, or end. */
  function UserOption(pending: Item, lists: Lists, input: string): Outcome {
    Outcome(if input == DeleteShoppingList then Next else End, pending, lists)
  }

  /** Step 4: list the saved names and ask which to delete. */
  function SelectListToDelete(pending: Item, lists: Lists): Outcome {
    Outcome(Prompt, pending, lists)
  }

  /** Step 5: "None" ends; an unknown name starts this dialog again from its
      first step; a known name is removed and the dialog ends. */
  function DeleteList(pending: Item, lists: Lists, input: string): Outcome {
    if input == NoneText then Outcome(End, pending, lists)
    else if input !in lists.saved then Outcome(Replace(ViewExistingShoppingList), pending, lists)
    else Outcome(End, pending, lists.(saved := lists.saved - {input}))
  }

  /** The waterfall: step k of the dialog. */
  function Step(k: nat, pending: Item, lists: Lists, input: string): Outcome {
    match k
    case 0 => FindList(pending, lists)
    case 1 => ViewShoppingList(pending, lists, input)
    case 2 => PromptStep(pending, lists)
    case 3 => UserOption(pending, lists, input)
    case 4 => SelectListToDelete(pending, lists)
    case 5 => DeleteList(pending, lists, input)
    case _ => Outcome(End, pending, lists)
  }

  /** Step 5 on the shared store. */
  method DeleteListStep(store: ShoppingStore, pending: Item, input: string) returns (t: Transition)
    modifies store
    ensures Outcome(t, pending, store.Contents()) == DeleteList(pending, old(store.Contents()), input)
  {
    if input == NoneText {
      return End;
    }
    if input !in store.saved {
      return Replace(ViewExistingShoppingList);
    }
    var _ := store.RemoveList(input);
    t := End;
  }

  /** Runs step k against the shared store. */
  method RunStep(store: ShoppingStore, k: nat, pending: Item, input: string)
    returns (t: Transition, item: Item)
    modifies store
    ensures Outcome(t, item, store.Contents()) == Step(k, pending, old(store.Contents()), input)
  {
    item := pending;
    if k == 5 {
      t := DeleteListStep(store, pending, input);
    } else {
      t := Step(k, pending, store.Contents(), input).t;
    }
  }

  /** Viewing never touches the working list, and what remains saved stays valid. */
  lemma StepKeepsAccepted(env: Parsers, k: nat, pending: Item, lists: Lists, input: string)
    requires StoreAccepted(env, lists)
    ensures var o := Step(k, pending, lists, input);
      StoreAccepted(env, o.lists) && o.lists.working == lists.working
  {
  }
}
