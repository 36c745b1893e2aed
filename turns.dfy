/**
 * What one inbound message does, dialog by dialog: each lemma starts from the
 * frame waiting at a prompt and states where the turn stops and what the store
 * holds then. The task dialogs always run above the root and
 * BeginConversationDialog, both parked after starting their child (`Hosting`).
 */
module Turns {
  import opened Optional
  import opened ShoppingItems
  import opened Store
  import opened Waterfall
  import opened Orchestrator
  import DeleteItemsDialog

  /** The two frames under every task dialog. */
  ghost predicate Hosting(below: seq<Frame>) {
    && |below| == 2
    && below[0].dialog == Main && below[0].step == 1
    && below[1].dialog == BeginConversation && below[1].step == 2
  }

  /** One unfolding of Settle on a stack whose top is f. */
  lemma SettleTop(env: Parsers, below: seq<Frame>, f: Frame, lists: Lists, input: string)
    ensures Settle(env, below + [f], lists, input) ==
      match Apply(below, f, StepSpec(env, f, lists, input))
      case Halt(r) => r
      case Continue(s, l) => Settle(env, s, l, input)
  {
    assert Top(below + [f]) == f;
    assert Below(below + [f]) == below;
  }

  /** A message with no active dialog starts the root, which starts
      BeginConversationDialog, which waits for a choice. */
  lemma RootStartsConversation(env: Parsers, lists: Lists, input: string)
    ensures Settle(env, [Start(Main)], lists, input)
      == Suspended([Frame(Main, 1, Blank), Frame(BeginConversation, 1, Blank)], lists)
  {
    SettleTop(env, [], Start(Main), lists, input);
    SettleTop(env, [Frame(Main, 1, Blank)], Start(BeginConversation), lists, input);
  }

  /** When a task dialog ends, BeginConversationDialog has run past its last
      step and ends, and then the root ends: the stack is empty. */
  lemma HostEnds(env: Parsers, below: seq<Frame>, lists: Lists, input: string)
    requires Hosting(below)
    ensures Settle(env, below, lists, input) == Suspended([], lists)
  {
    assert below == [below[0]] + [below[1]];
    SettleTop(env, [below[0]], below[1], lists, input);
    SettleTop(env, [], below[0], lists, input);
  }

  /** BeginConversationDialog's choice: "Create Shopping List" pushes the
      create dialog (which asks for an item name); anything else ends the
      conversation. Neither touches the store. */
  lemma BeginConversationChoice(env: Parsers, root: Item, begin: Item, lists: Lists, input: string)
    ensures Settle(env, [Frame(Main, 1, root), Frame(BeginConversation, 1, begin)], lists, input)
      == if input == "Create Shopping List" then
           Suspended([Frame(Main, 1, root), Frame(BeginConversation, 2, begin), Frame(CreateShoppingList, 1, Blank)], lists)
         else Suspended([], lists)
  {
    var parked := [Frame(Main, 1, root), Frame(BeginConversation, 2, begin)];
    SettleTop(env, [Frame(Main, 1, root)], Frame(BeginConversation, 1, begin), lists, input);
    if input == "Create Shopping List" {
      SettleTop(env, parked, Start(CreateShoppingList), lists, input);
    } else {
      SettleTop(env, [], Frame(Main, 1, root), lists, input);
    }
  }

  /** A fresh create dialog asks for an item name at once. */
  lemma CreateRestarts(env: Parsers, below: seq<Frame>, lists: Lists, input: string)
    ensures Settle(env, below + [Start(CreateShoppingList)], lists, input)
      == Suspended(below + [Frame(CreateShoppingList, 1, Blank)], lists)
  {
    SettleTop(env, below, Start(CreateShoppingList), lists, input);
  }

  /** The item name: "None" adds nothing and runs on, in the same turn, to the
      add / delete / done menu; any other name is recorded and the quantity is
      asked for. */
  lemma NameEntered(env: Parsers, below: seq<Frame>, p: Item, lists: Lists, input: string)
    ensures Settle(env, below + [Frame(CreateShoppingList, 1, p)], lists, input)
      == if input == "None" then Suspended(below + [Frame(CreateShoppingList, 5, p.(name := input))], lists)
         else Suspended(below + [Frame(CreateShoppingList, 2, p.(name := input))], lists)
  {
    var named := p.(name := input);
    SettleTop(env, below, Frame(CreateShoppingList, 1, p), lists, input);
    if input == "None" {
      SettleTop(env, below, Frame(CreateShoppingList, 2, named), lists, input);
      SettleTop(env, below, Frame(CreateShoppingList, 3, named), lists, input);
      SettleTop(env, below, Frame(CreateShoppingList, 4, named), lists, input);
    }
  }

  /** The quantity: accepted exactly when Int32.Parse succeeds with a value of
      at least 1, and then the price is asked for; otherwise the item is
      dropped, the store is unchanged and the dialog asks for a name again. */
  lemma QuantityEntered(env: Parsers, below: seq<Frame>, p: Item, lists: Lists, input: string)
    requires p.name != "None"
    ensures Settle(env, below + [Frame(CreateShoppingList, 2, p)], lists, input)
      == if QuantityAccepted(env, input) then
           Suspended(below + [Frame(CreateShoppingList, 3, p.(quantity := input))], lists)
         else Suspended(below + [Frame(CreateShoppingList, 1, Blank)], lists)
  {
    SettleTop(env, below, Frame(CreateShoppingList, 2, p), lists, input);
    if !QuantityAccepted(env, input) {
      CreateRestarts(env, below, lists, input);
    }
  }

  /** The price: when float.Parse succeeds with a value not below 0 the item,
      with its three strings as entered, is appended once at the end and the
      menu is offered; otherwise the store is unchanged and the dialog asks
      for a name again. */
  lemma PriceEntered(env: Parsers, below: seq<Frame>, p: Item, lists: Lists, input: string)
    requires p.name != "None"
    ensures Settle(env, below + [Frame(CreateShoppingList, 3, p)], lists, input)
      == if PriceAccepted(env, input) then
           Suspended(below + [Frame(CreateShoppingList, 5, p.(price := input))],
                     Lists(lists.working + [Item(p.name, p.quantity, input)], lists.saved))
         else Suspended(below + [Frame(CreateShoppingList, 1, Blank)], lists)
  {
    var item := p.(price := input);
    SettleTop(env, below, Frame(CreateShoppingList, 3, p), lists, input);
    if PriceAccepted(env, input) {
      SettleTop(env, below, Frame(CreateShoppingList, 4, item), lists.(working := lists.working + [item]), input);
    } else {
      CreateRestarts(env, below, lists, input);
    }
  }

  /** A fresh delete dialog waits for a name, or, with an empty working list,
      ends, which ends the whole conversation. */
  lemma DeleteRestarts(env: Parsers, below: seq<Frame>, lists: Lists, input: string)
    requires Hosting(below)
    ensures Settle(env, below + [Start(DeleteItems)], lists, input)
      == if |lists.working| > 0 then Suspended(below + [Frame(DeleteItems, 1, Blank)], lists)
         else Suspended([], lists)
  {
    SettleTop(env, below, Start(DeleteItems), lists, input);
    if |lists.working| == 0 {
      HostEnds(env, below, lists, input);
    }
  }

  /** A fresh view dialog waits for a name, or, with no saved lists, ends,
      which ends the whole conversation. */
  lemma ViewRestarts(env: Parsers, below: seq<Frame>, lists: Lists, input: string)
    requires Hosting(below)
    ensures Settle(env, below + [Start(ViewExistingShoppingList)], lists, input)
      == if |lists.saved| > 0 then Suspended(below + [Frame(ViewExistingShoppingList, 1, Blank)], lists)
         else Suspended([], lists)
  {
    SettleTop(env, below, Start(ViewExistingShoppingList), lists, input);
    if |lists.saved| == 0 {
      HostEnds(env, below, lists, input);
    }
  }

  /** The menu: "Add More Items" asks for another item; "Delete Items" starts
      the delete dialog; anything else asks for a save name when the working
      list has items, and otherwise goes straight to the view / exit choice. */
  lemma MenuChosen(env: Parsers, below: seq<Frame>, p: Item, lists: Lists, input: string)
    requires Hosting(below)
    ensures Settle(env, below + [Frame(CreateShoppingList, 5, p)], lists, input)
      == if input == "Add More Items" then Suspended(below + [Frame(CreateShoppingList, 1, Blank)], lists)
         else if input == "Delete Items" then
           (if |lists.working| > 0 then Suspended(below + [Frame(DeleteItems, 1, Blank)], lists)
            else Suspended([], lists))
         else if |lists.working| > 0 then Suspended(below + [Frame(CreateShoppingList, 6, p)], lists)
         else Suspended(below + [Frame(CreateShoppingList, 7, p)], lists)
  {
    SettleTop(env, below, Frame(CreateShoppingList, 5, p), lists, input);
    if input == "Add More Items" {
      CreateRestarts(env, below, lists, input);
    } else if input == "Delete Items" {
      DeleteRestarts(env, below, lists, input);
    } else if |lists.working| == 0 {
      SettleTop(env, below, Frame(CreateShoppingList, 6, p), lists, input);
    }
  }

  /** Saving: a non-empty working list is stored under the name given and the
      working list is emptied, no other name changing; a name already in use
      makes Dictionary.Add throw, and nothing changes. An empty list saves
      nothing. Either way the view / exit choice follows. */
  lemma SaveNamed(env: Parsers, below: seq<Frame>, p: Item, lists: Lists, input: string)
    ensures Settle(env, below + [Frame(CreateShoppingList, 6, p)], lists, input)
      == if |lists.working| == 0 then Suspended(below + [Frame(CreateShoppingList, 7, p)], lists)
         else if input in lists.saved then Aborted(lists)
         else Suspended(below + [Frame(CreateShoppingList, 7, p)], Lists([], lists.saved[input := lists.working]))
    ensures var r := Settle(env, below + [Frame(CreateShoppingList, 6, p)], lists, input);
      |lists.working| > 0 && input !in lists.saved ==>
        && r.lists.saved[input] == lists.working
        && r.lists.working == []
        && r.lists.saved.Keys == lists.saved.Keys + {input}
        && forall key :: key in lists.saved ==> r.lists.saved[key] == lists.saved[key]
  {
    SettleTop(env, below, Frame(CreateShoppingList, 6, p), lists, input);
  }

  /** The last choice: "View Existing List" starts the view dialog; anything
      else ends the conversation. */
  lemma FinalChoice(env: Parsers, below: seq<Frame>, p: Item, lists: Lists, input: string)
    requires Hosting(below)
    ensures Settle(env, below + [Frame(CreateShoppingList, 7, p)], lists, input)
      == if input == "View Existing List" && |lists.saved| > 0 then
           Suspended(below + [Frame(ViewExistingShoppingList, 1, Blank)], lists)
         else Suspended([], lists)
  {
    SettleTop(env, below, Frame(CreateShoppingList, 7, p), lists, input);
    if input == "View Existing List" {
      ViewRestarts(env, below, lists, input);
    } else {
      HostEnds(env, below, lists, input);
    }
  }

  /** Removing an item: an exact name match removes one item (the first whose
      name contains the text) and offers to delete more; otherwise "None"
      goes back to adding items, and any other text restarts the delete
      dialog. Only the exact-match case changes the store. */
  lemma ItemToRemove(env: Parsers, below: seq<Frame>, p: Item, lists: Lists, input: string)
    requires Hosting(below)
    ensures Settle(env, below + [Frame(DeleteItems, 1, p)], lists, input)
      == if DeleteItemsDialog.HasItemNamed(lists.working, input) then
           Suspended(below + [Frame(DeleteItems, 2, p)],
                     lists.(working := DeleteItemsDialog.RemoveFound(lists.working, input)))
         else if input == "None" then Suspended(below + [Frame(CreateShoppingList, 1, Blank)], lists)
         else if |lists.working| > 0 then Suspended(below + [Frame(DeleteItems, 1, Blank)], lists)
         else Suspended([], lists)
  {
    SettleTop(env, below, Frame(DeleteItems, 1, p), lists, input);
    if !DeleteItemsDialog.HasItemNamed(lists.working, input) {
      if input == "None" {
        CreateRestarts(env, below, lists, input);
      } else {
        DeleteRestarts(env, below, lists, input);
      }
    }
  }

  /** After a removal: "Delete More Items" restarts the delete dialog;
      anything else goes back to adding items. */
  lemma DeleteMoreChosen(env: Parsers, below: seq<Frame>, p: Item, lists: Lists, input: string)
    requires Hosting(below)
    ensures Settle(env, below + [Frame(DeleteItems, 2, p)], lists, input)
      == if input != "Delete More Items" then Suspended(below + [Frame(CreateShoppingList, 1, Blank)], lists)
         else if |lists.working| > 0 then Suspended(below + [Frame(DeleteItems, 1, Blank)], lists)
         else Suspended([], lists)
  {
    SettleTop(env, below, Frame(DeleteItems, 2, p), lists, input);
    if input == "Delete More Items" {
      DeleteRestarts(env, below, lists, input);
    } else {
      CreateRestarts(env, below, lists, input);
    }
  }

  /** Viewing a saved list: "None" ends the conversation; an unknown name
      restarts the view dialog; a known name is shown and the delete / exit
      choice follows in the same turn. The store is never changed. */
  lemma ListToView(env: Parsers, below: seq<Frame>, p: Item, lists: Lists, input: string)
    requires Hosting(below)
    ensures Settle(env, below + [Frame(ViewExistingShoppingList, 1, p)], lists, input)
      == if input == "None" then Suspended([], lists)
         else if input in lists.saved then Suspended(below + [Frame(ViewExistingShoppingList, 3, p)], lists)
         else if |lists.saved| > 0 then Suspended(below + [Frame(ViewExistingShoppingList, 1, Blank)], lists)
         else Suspended([], lists)
  {
    SettleTop(env, below, Frame(ViewExistingShoppingList, 1, p), lists, input);
    if input == "None" {
      HostEnds(env, below, lists, input);
    } else if input in lists.saved {
      SettleTop(env, below, Frame(ViewExistingShoppingList, 2, p), lists, input);
    } else {
      ViewRestarts(env, below, lists, input);
    }
  }

  /** "Delete Shopping List" lists the names and asks which to delete, in the
      same turn; anything else ends the conversation. */
  lemma ViewOptionChosen(env: Parsers, below: seq<Frame>, p: Item, lists: Lists, input: string)
    requires Hosting(below)
    ensures Settle(env, below + [Frame(ViewExistingShoppingList, 3, p)], lists, input)
      == if input == "Delete Shopping List" then Suspended(below + [Frame(ViewExistingShoppingList, 5, p)], lists)
         else Suspended([], lists)
  {
    SettleTop(env, below, Frame(ViewExistingShoppingList, 3, p), lists, input);
    if input == "Delete Shopping List" {
      SettleTop(env, below, Frame(ViewExistingShoppingList, 4, p), lists, input);
    } else {
      HostEnds(env, below, lists, input);
    }
  }

  /** Deleting a saved list: "None" ends with nothing changed; an unknown name
      restarts the view dialog from its first step (not the delete prompt); a
      known name is removed, every other saved list is kept, and the
      conversation ends. */
  lemma ListToDelete(env: Parsers, below: seq<Frame>, p: Item, lists: Lists, input: string)
    requires Hosting(below)
    ensures Settle(env, below + [Frame(ViewExistingShoppingList, 5, p)], lists, input)
      == if input == "None" then Suspended([], lists)
         else if input in lists.saved then Suspended([], lists.(saved := lists.saved - {input}))
         else if |lists.saved| > 0 then Suspended(below + [Frame(ViewExistingShoppingList, 1, Blank)], lists)
         else Suspended([], lists)
  {
    SettleTop(env, below, Frame(ViewExistingShoppingList, 5, p), lists, input);
    if input == "None" {
      HostEnds(env, below, lists, input);
    } else if input in lists.saved {
      HostEnds(env, below, lists.(saved := lists.saved - {input}), input);
    } else {
      ViewRestarts(env, below, lists, input);
    }
  }

  /** One message, then the rest. */
  lemma ConverseFirst(env: Parsers, c: Config, input: string, rest: seq<string>)
    ensures Converse(env, c, [input] + rest) == Converse(env, NextConfig(env, c, input), rest)
  {
    assert ([input] + rest)[1..] == rest;
  }

  /** A whole conversation from an empty store: one item entered with
      quantity 2 and price 3.50, the list saved as "Save1", then no view.
      The conversation ends with that list saved, the working list empty and
      no dialog active. */
  lemma SaveOneListScenario(env: Parsers)
    requires env.int32("2") == Some(2)
    requires env.float("3.50") == Some(Finite(3.5))
    ensures Converse(env, Config([], Lists([], map[])),
                     ["Hi", "Create Shopping List", "Milk", "2", "3.50", "Done", "Save1", "Exit"])
      == Config([], Lists([], map["Save1" := [Item("Milk", "2", "3.50")]]))
  {
    var empty := Lists([], map[]);
    var milk := Item("Milk", "2", "3.50");
    var below := [Frame(Main, 1, Blank), Frame(BeginConversation, 2, Blank)];
    var listed := Lists([milk], map[]);
    var saved := Lists([], map["Save1" := [milk]]);
    var c1 := Config([Frame(Main, 1, Blank), Frame(BeginConversation, 1, Blank)], empty);
    var c2 := Config(below + [Frame(CreateShoppingList, 1, Blank)], empty);
    var c3 := Config(below + [Frame(CreateShoppingList, 2, Item("Milk", "", ""))], empty);
    var c4 := Config(below + [Frame(CreateShoppingList, 3, Item("Milk", "2", ""))], empty);
    var c5 := Config(below + [Frame(CreateShoppingList, 5, milk)], listed);
    var c6 := Config(below + [Frame(CreateShoppingList, 6, milk)], listed);
    var c7 := Config(below + [Frame(CreateShoppingList, 7, milk)], saved);
    var c8 := Config([], saved);

    RootStartsConversation(env, empty, "Hi");
    assert NextConfig(env, Config([], empty), "Hi") == c1;
    BeginConversationChoice(env, Blank, Blank, empty, "Create Shopping List");
    assert NextConfig(env, c1, "Create Shopping List") == c2;
    assert "Milk" != "None" by { assert "Milk"[0] != "None"[0]; }
    NameEntered(env, below, Blank, empty, "Milk");
    assert NextConfig(env, c2, "Milk") == c3;
    QuantityEntered(env, below, Item("Milk", "", ""), empty, "2");
    assert NextConfig(env, c3, "2") == c4;
    PriceEntered(env, below, Item("Milk", "2", ""), empty, "3.50");
    assert NextConfig(env, c4, "3.50") == c5;
    assert "Done" != "Add More Items" && "Done" != "Delete Items" by { assert "Done"[0] != "Add More Items"[0]; }
    MenuChosen(env, below, milk, listed, "Done");
    assert NextConfig(env, c5, "Done") == c6;
    SaveNamed(env, below, milk, listed, "Save1");
    assert NextConfig(env, c6, "Save1") == c7;
    assert "Exit" != "View Existing List" by { assert "Exit"[0] != "View Existing List"[0]; }
    FinalChoice(env, below, milk, saved, "Exit");
    assert NextConfig(env, c7, "Exit") == c8;

    ConverseFirst(env, Config([], empty), "Hi", ["Create Shopping List", "Milk", "2", "3.50", "Done", "Save1", "Exit"]);
    ConverseFirst(env, c1, "Create Shopping List", ["Milk", "2", "3.50", "Done", "Save1", "Exit"]);
    ConverseFirst(env, c2, "Milk", ["2", "3.50", "Done", "Save1", "Exit"]);
    ConverseFirst(env, c3, "2", ["3.50", "Done", "Save1", "Exit"]);
    ConverseFirst(env, c4, "3.50", ["Done", "Save1", "Exit"]);
    ConverseFirst(env, c5, "Done", ["Save1", "Exit"]);
    ConverseFirst(env, c6, "Save1", ["Exit"]);
    ConverseFirst(env, c7, "Exit", []);
  }

  /** A rejected quantity: the item named "Milk" with quantity text that does
      not parse is never added; the store is as before and the dialog asks for
      an item name again. */
  lemma RejectedQuantityScenario(env: Parsers, below: seq<Frame>, lists: Lists)
    requires Hosting(below)
    requires env.int32("zero") == None
    ensures Converse(env, Config(below + [Frame(CreateShoppingList, 1, Blank)], lists), ["Milk", "zero"])
      == Config(below + [Frame(CreateShoppingList, 1, Blank)], lists)
  {
    var start := Config(below + [Frame(CreateShoppingList, 1, Blank)], lists);
    var named := Config(below + [Frame(CreateShoppingList, 2, Item("Milk", "", ""))], lists);
    assert "Milk" != "None" by { assert "Milk"[0] != "None"[0]; }
    NameEntered(env, below, Blank, lists, "Milk");
    assert NextConfig(env, start, "Milk") == named;
    QuantityEntered(env, below, Item("Milk", "", ""), lists, "zero");
    assert NextConfig(env, named, "zero") == start;
    ConverseFirst(env, start, "Milk", ["zero"]);
    ConverseFirst(env, named, "zero", []);
  }

  /** The price check is IEEE `< 0`, which is false for NaN: when float.Parse
      yields NaN the item is accepted and appended with the price "NaN", so a
      stored price can be something that is not a number. */
  lemma NaNPriceAppended(env: Parsers, below: seq<Frame>, p: Item, lists: Lists)
    requires p.name != "None"
    requires env.float("NaN") == Some(NaN)
    ensures Settle(env, below + [Frame(CreateShoppingList, 3, p)], lists, "NaN")
      == Suspended(below + [Frame(CreateShoppingList, 5, p.(price := "NaN"))],
                   Lists(lists.working + [Item(p.name, p.quantity, "NaN")], lists.saved))
  {
    PriceEntered(env, below, p, lists, "NaN");
  }

  /** Saving under a name already in use: the exception leaves the dialog
      where it was (waiting for a save name) and the store unchanged. */
  lemma DuplicateSaveScenario(env: Parsers, below: seq<Frame>, p: Item, lists: Lists, key: string)
    requires |lists.working| > 0 && key in lists.saved
    ensures NextConfig(env, Config(below + [Frame(CreateShoppingList, 6, p)], lists), key)
      == Config(below + [Frame(CreateShoppingList, 6, p)], lists)
  {
    SaveNamed(env, below, p, lists, key);
    assert Entry(below + [Frame(CreateShoppingList, 6, p)]) == below + [Frame(CreateShoppingList, 6, p)];
  }
}
