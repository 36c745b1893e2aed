/**
 * CreateShoppingListDialog: the eight-step waterfall that collects an item's
 * name, quantity and price, appends valid items to the working list, offers
 * the add / delete / done menu, saves the list under a name and finally
 * offers to view the saved lists.
 */
module CreateShoppingListDialog {
  import opened Optional
  import opened ShoppingItems
  import opened Store
  import opened Waterfall

  const AddMoreItems := "Add More Items"
  const DeleteItemsChoice := "Delete Items"
  const ViewExistingList := "View Existing List"

  /** Step 0: start a fresh item and ask for its name. */
  function NameItem(lists: Lists): Outcome {
    Outcome(Prompt, Blank, lists)
  }

  /** Step 1: record the name; "None" skips ahead without waiting for input. */
  function NameQuantity(pending: Item, lists: Lists, input: string): Outcome {
    var item := pending.(name := input);
    Outcome(if input == NoneText then Next else Prompt, item, lists)
  }

  /** Step 2: record the quantity and validate it; a rejected quantity drops
      the item and restarts the dialog. */
  function NamePrice(env: Parsers, pending: Item, lists: Lists, input: string): Outcome {
    if pending.name == NoneText then Outcome(Next, pending, lists)
    else
      var item := pending.(quantity := input);
      Outcome(if QuantityAccepted(env, input) then Prompt else Replace(CreateShoppingList), item, lists)
  }

  /** Step 3: record the price, validate it and append the item. */
  function AddItemToList(env: Parsers, pending: Item, lists: Lists, input: string): Outcome {
    if pending.name == NoneText then Outcome(Next, pending, lists)
    else
      var item := pending.(price := input);
      if PriceAccepted(env, input) then Outcome(Next, item, lists.(working := lists.working + [item]))
      else Outcome(Replace(CreateShoppingList), item, lists)
  }

  /** Step 4: offer "Add More Items", "Delete Items" and "Done". */
  function NextUserAction(pending: Item, lists: Lists): Outcome {
    Outcome(Prompt, pending, lists)
  }

  /** Step 5: route the menu choice; asking for a name only when there is
      something to save. */
  function SaveList(pending: Item, lists: Lists, input: string): Outcome {
    var t :=
      if input == AddMoreItems then Replace(CreateShoppingList)
      else if input == DeleteItemsChoice then Replace(DeleteItems)
      else if |lists.working| > 0 then Prompt
      else Next;
    Outcome(t, pending, lists)
  }

  /** Step 6: save a copy of a non-empty working list under the name just
      given, empty the working list, and offer "View Existing List" or "Exit". */
  function FinalPrompt(pending: Item, lists: Lists, input: string): Outcome {
    if |lists.working| == 0 then Outcome(Prompt, pending, lists)
    else if input in lists.saved then Outcome(Throw, pending, lists)
    else Outcome(Prompt, pending, Lists([], lists.saved[input := lists.working]))
  }

  /** Step 7: view the saved lists, or say goodbye and end. */
  function FinalStep(pending: Item, lists: Lists, input: string): Outcome {
    Outcome(if input == ViewExistingList then Replace(ViewExistingShoppingList) else End, pending, lists)
  }

  /** The waterfall: step k of the dialog. */
  function Step(env: Parsers, k: nat, pending: Item, lists: Lists, input: string): Outcome {
    match k
    case 0 => NameItem(lists)
    case 1 => NameQuantity(pending, lists, input)
    case 2 => NamePrice(env, pending, lists, input)
    case 3 => AddItemToList(env, pending, lists, input)
    case 4 => NextUserAction(pending, lists)
    case 5 => SaveList(pending, lists, input)
    case 6 => FinalPrompt(pending, lists, input)
    case 7 => FinalStep(pending, lists, input)
    case _ => Outcome(End, pending, lists)
  }

  /** The copy FinalPrompt builds item by item before saving it. */
  method CopyItems(items: seq<Item>) returns (copy: seq<Item>)
    ensures copy == items
  {
    copy := [];
    var i := 0;
    while i < |items|
      invariant 0 <= i <= |items|
      invariant copy == items[..i]
    {
      copy := copy + [items[i]];
      i := i + 1;
    }
  }

  /** Step 3 on the shared store. */
  method AddItemToListStep(store: ShoppingStore, env: Parsers, pending: Item, input: string)
    returns (t: Transition, item: Item)
    modifies store
    ensures Outcome(t, item, store.Contents()) == AddItemToList(env, pending, old(store.Contents()), input)
  {
    if pending.name == NoneText {
      return Next, pending;
    }
    item := pending.(price := input);
    match env.float(input) {
      case None =>
        t := Replace(CreateShoppingList);
      case Some(price) =>
        if BelowZero(price) {
          t := Replace(CreateShoppingList);
        } else {
          store.AddItem(item);
          t := Next;
        }
    }
  }

  /** Step 6 on the shared store. */
  method FinalPromptStep(store: ShoppingStore, pending: Item, input: string)
    returns (t: Transition, item: Item)
    modifies store
    ensures Outcome(t, item, store.Contents()) == FinalPrompt(pending, old(store.Contents()), input)
  {
    item := pending;
    if |store.working| > 0 {
      var copy := CopyItems(store.working);
      var added := store.AddList(input, copy);
      if !added {
        return Throw, item;
      }
      store.ClearItems();
    }
    t := Prompt;
  }

  /** Runs step k against the shared store. */
  method RunStep(store: ShoppingStore, env: Parsers, k: nat, pending: Item, input: string)
    returns (t: Transition, item: Item)
    modifies store
    ensures Outcome(t, item, store.Contents()) == Step(env, k, pending, old(store.Contents()), input)
  {
    if k == 3 {
      t, item := AddItemToListStep(store, env, pending, input);
    } else if k == 6 {
      t, item := FinalPromptStep(store, pending, input);
    } else {
      var o := Step(env, k, pending, store.Contents(), input);
      t, item := o.t, o.pending;
    }
  }

  /** What a frame of this dialog must carry before step k: at AddItemToList,
      a real item's quantity has already passed the check. */
  ghost predicate PendingReady(env: Parsers, k: nat, pending: Item) {
    k == 3 && pending.name != NoneText ==> QuantityAccepted(env, pending.quantity)
  }

  /** Only validated items enter the store: every step keeps every stored
      item's quantity at least 1 and its price not below 0, and a frame that
      goes on to AddItemToList carries a validated quantity. */
  lemma StepKeepsAccepted(env: Parsers, k: nat, pending: Item, lists: Lists, input: string)
    requires StoreAccepted(env, lists) && PendingReady(env, k, pending)
    ensures var o := Step(env, k, pending, lists, input);
      && StoreAccepted(env, o.lists)
      && (o.t == Prompt || o.t == Next ==> PendingReady(env, k + 1, o.pending))
  {
    var o := Step(env, k, pending, lists, input);
    if k == 3 && pending.name != NoneText && PriceAccepted(env, input) {
      var item := pending.(price := input);
      assert ItemAccepted(env, item);
      assert o.lists.working == lists.working + [item];
    } else if k == 6 && |lists.working| > 0 && input !in lists.saved {
      assert o.lists == Lists([], lists.saved[input := lists.working]);
    }
  }
}
