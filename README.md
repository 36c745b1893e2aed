# ShopperBot shopping-list dialogs in Dafny

ShopperBot is a Bot Framework chat bot. It helps one user build a shopping
list item by item, save it under a name, look at saved lists, delete items
and delete saved lists. The core is five waterfall dialogs:

- `MainDialog` is the root.
- `BeginConversationDialog` offers "Create Shopping List" or "Exit".
- `CreateShoppingListDialog` has eight steps: item name, quantity, price,
  append, a menu, a save name, saving, and a view or exit choice.
- `DeleteItemsDialog` removes an item from the working list.
- `ViewExistingShoppingListDialog` shows a saved list and can delete one.

All of them share one store: the working `List<ShoppingItem>` and the
`Dictionary<string, List<ShoppingItem>>` of saved lists.

The model has these parts:

- `ShoppingItems` (shopping_item.dfy) holds the three-string item. It also
  holds the quantity check (`Int32.Parse` succeeds with a value of at least
  1) and the price check (`float.Parse` succeeds with a value not below 0).
  Both parsers are parameters (`Parsers`): `None` stands for any exception
  they throw. The float result has NaN and the infinities, and "below zero"
  follows IEEE comparison, so a price that parses to NaN passes the check.
- `Store` (store.dfy) is the shared store. It is a class whose fields the
  step methods update in place, with one method per list or dictionary
  operation the dialogs call.
- `Waterfall` (waterfall.dfy) is the engine's vocabulary. It holds the dialog
  ids and the transitions a step returns: Prompt, Next, BeginChild,
  Replace, End, and Throw for an uncaught exception. It also holds stack
  frames and the table of transitions each step may return.
- One module per dialog. Each step is a function of the item under
  construction, the store and the turn's text. Each step that changes the
  store also has a module-level method that takes the shared
  `ShoppingStore` object and updates it through the class's methods. Each
  such method is proved equal to its step function.
- `Orchestrator` (orchestrator.dfy) runs the steps of one turn over a flat
  stack of frames (`Settle`). It applies transitions until a step prompts,
  the stack empties or a step throws. Messages in sequence are
  `NextConfig` and `Converse`. `Conversation.Turn` does the same with a
  loop over the mutable store.
- The orchestrator proves two things. Every turn terminates, because each
  transition lowers a rank. The "resting" invariant holds between messages:
  the stack has one of three shapes, the top frame waits at a prompt, and
  every item in the working list and in every saved list passed both checks.
- `Turns` (turns.dfy) states, for each prompt the user can be waiting at,
  where the next message leaves the conversation and the store. It also
  has whole-conversation scenarios.

Routing is a total, deterministic function of the message text and the store
by construction: every step is a Dafny function of those values.

Saving a list under a name that is already saved keeps the old list.
`Dictionary.Add` throws on a used name (CreateShoppingListDialog.cs:328).
Nothing in the dialogs catches the exception, so the working list is not
cleared either. The exception also skips the state save at the end of
`ShopperBot.OnTurnAsync`. The model assumes that the adapter's error
handler leaves the conversation state alone, so the next message resumes
the dialog at the save-name prompt. A handler that deleted the conversation
state would restart the root dialog instead; that handler is not part of
this model.

## Model

| member | source | states |
|---|---|---|
| Store.ShoppingStore.constructor | ShopperBot2020-src/Dialogs/BeginConversationDialog.cs:27-29 | The working list and the saved-lists map both start empty. |
| Store.ShoppingStore.AddItem | ShopperBot2020-src/Dialogs/CreateShoppingListDialog.cs:219 | List.Add appends the item at the end; the saved lists are unchanged. |
| Store.ShoppingStore.RemoveItemAt | ShopperBot2020-src/Dialogs/DeleteItemsDialog.cs:80 | List.Remove of the found element drops that one element and keeps the others in order; saved lists unchanged. |
| Store.ShoppingStore.ClearItems | ShopperBot2020-src/Dialogs/CreateShoppingListDialog.cs:329 | List.Clear empties the working list and leaves the saved lists alone. |
| Store.ShoppingStore.AddList | ShopperBot2020-src/Dialogs/CreateShoppingListDialog.cs:328 | Dictionary.Add succeeds exactly when the key is new, and then binds it to the items. On a duplicate key nothing changes (it throws). |
| Store.ShoppingStore.RemoveList | ShopperBot2020-src/Dialogs/ViewExistingShoppingListDialog.cs:196 | Dictionary.Remove removes exactly that key and reports whether it was present; the working list is unchanged. |
| Waterfall.PermittedLowers | ShopperBot2020-src/Bots/ShopperBot.cs:42 | For the engine that RunAsync drives, over the five step lists (MainDialog.cs 21-25, BeginConversationDialog.cs 38-42, CreateShoppingListDialog.cs 51-61, DeleteItemsDialog.cs 31-36, ViewExistingShoppingListDialog.cs 31-39): every transition a waterfall step may return lowers the rank of the stack, so no chain of Next/Replace/BeginChild/End runs forever within one turn. |
| Orchestrator.StepPermitted | ShopperBot2020-src/Bots/ShopperBot.cs:42 | For the engine, across all five dialogs: each step of each dialog returns only a transition from its waterfall's table (e.g. AddItemToList only Next or a restart; FinalPrompt only a prompt or an exception). |
| CreateShoppingListDialog.CopyItems | ShopperBot2020-src/Dialogs/CreateShoppingListDialog.cs:320-325 | The foreach copy holds exactly the working list's items in order. |
| CreateShoppingListDialog.AddItemToListStep | ShopperBot2020-src/Dialogs/CreateShoppingListDialog.cs:191-261 | On the shared store: with a "None" name nothing changes and the dialog moves on. A price that fails to parse or is below 0 changes nothing and restarts the dialog. Otherwise the item with the price as typed is appended. |
| CreateShoppingListDialog.FinalPromptStep | ShopperBot2020-src/Dialogs/CreateShoppingListDialog.cs:315-358 | On the shared store: a non-empty working list is copied into the map under the given name and then emptied; a duplicate name throws before the clear; an empty list saves nothing. |
| CreateShoppingListDialog.RunStep | ShopperBot2020-src/Dialogs/CreateShoppingListDialog.cs:51-61 | Running step k on the shared store yields the transition, item and store of the step function. |
| CreateShoppingListDialog.StepKeepsAccepted | ShopperBot2020-src/Dialogs/CreateShoppingListDialog.cs:124-261 | No step of the create dialog puts an item that fails the quantity or the price check into the working list or a saved list, and a frame reaching AddItemToList carries an accepted quantity. |
| DeleteItemsDialog.ContainsAt | ShopperBot2020-src/Dialogs/DeleteItemsDialog.cs:79 | string.Contains holds exactly when the target occurs in the name at some offset. |
| DeleteItemsDialog.FindContaining | ShopperBot2020-src/Dialogs/DeleteItemsDialog.cs:79 | List.Find returns the first index whose name contains the target, or none when no name does. |
| DeleteItemsDialog.RemovesFirstContaining | ShopperBot2020-src/Dialogs/DeleteItemsDialog.cs:74-80 | When some name equals the target exactly, exactly one element is removed: the first whose name contains the target. The rest keep their order, the length drops by 1, and the multiset loses just that item. |
| DeleteItemsDialog.SubstringMatchWins | ShopperBot2020-src/Dialogs/DeleteItemsDialog.cs:79-80 | In [Milkshake, Milk], deleting "Milk" removes "Milkshake", not the exact match. |
| DeleteItemsDialog.RemoveItemStep | ShopperBot2020-src/Dialogs/DeleteItemsDialog.cs:69-121 | On the shared store: an exact match removes the found item and prompts; otherwise "None" goes back to creating and any other text restarts the delete dialog, the list unchanged. |
| DeleteItemsDialog.RunStep | ShopperBot2020-src/Dialogs/DeleteItemsDialog.cs:31-36 | Running step k on the shared store yields the transition and store of the step function. |
| DeleteItemsDialog.StepKeepsAccepted | ShopperBot2020-src/Dialogs/DeleteItemsDialog.cs:69-121 | Deleting keeps every remaining item valid and never touches the saved lists. |
| ViewExistingShoppingListDialog.DeleteListStep | ShopperBot2020-src/Dialogs/ViewExistingShoppingListDialog.cs:172-211 | On the shared store: "None" ends with nothing changed; an unknown name restarts the dialog; a known name is removed and the dialog ends. |
| ViewExistingShoppingListDialog.RunStep | ShopperBot2020-src/Dialogs/ViewExistingShoppingListDialog.cs:31-39 | Running step k on the shared store yields the transition and store of the step function. |
| ViewExistingShoppingListDialog.StepKeepsAccepted | ShopperBot2020-src/Dialogs/ViewExistingShoppingListDialog.cs:45-211 | No view step touches the working list, and the lists that stay saved stay valid. |
| Orchestrator.StepKeepsAccepted | ShopperBot2020-src/Bots/ShopperBot.cs:42 | For the engine, whichever of the five dialogs a frame belongs to: the step keeps every stored item valid; a create frame that goes on keeps its validated quantity. |
| Orchestrator.SettleRests | ShopperBot2020-src/Bots/ShopperBot.cs:42 | A turn keeps the stack in one of its three shapes and the store valid. The turn stops waiting at a prompt, with an empty stack, or at an exception. |
| Orchestrator.TurnKeepsResting | ShopperBot2020-src/Bots/ShopperBot.cs:30-36 | Between messages every item in the working list and in every saved list has quantity at least 1 and price not below 0, and the dialog waits at a prompt; one message keeps this. |
| Orchestrator.ConverseKeepsResting | ShopperBot2020-src/Bots/ShopperBot.cs:38-43 | The same invariant over any sequence of messages. |
| Orchestrator.RunStep | ShopperBot2020-src/Bots/ShopperBot.cs:42 | For the engine: running any frame's step, of any of the five dialogs, on the shared store agrees with the step functions of its dialog. |
| Orchestrator.Conversation.constructor | ShopperBot2020-src/Dialogs/BeginConversationDialog.cs:27-36 | A conversation starts with no active dialog and one freshly created, empty store shared by every dialog; the invariant holds. |
| Orchestrator.Conversation.Turn | ShopperBot2020-src/Bots/ShopperBot.cs:30-43 | Handling a message on the mutable store produces exactly the next configuration of the model. It reports an abort exactly when a step threw, and it keeps the invariant. |
| Turns.RootStartsConversation | ShopperBot2020-src/Dialogs/MainDialog.cs:31-34 | With no active dialog, a message starts the root, which pushes BeginConversationDialog; the conversation then waits for the create-or-exit choice; the store is untouched. |
| Turns.HostEnds | ShopperBot2020-src/Dialogs/MainDialog.cs:37-40 | When a task dialog ends, BeginConversationDialog runs past its last step and ends, then the root ends unconditionally: no dialog remains. |
| Turns.BeginConversationChoice | ShopperBot2020-src/Dialogs/BeginConversationDialog.cs:63-76 | "Create Shopping List" pushes the create dialog as a child (parking BeginConversation), which asks for a name; anything else ends the conversation; the store is untouched. |
| Turns.CreateRestarts | ShopperBot2020-src/Dialogs/CreateShoppingListDialog.cs:67-79 | A fresh create dialog starts a new item and asks for its name, store unchanged. |
| Turns.NameEntered | ShopperBot2020-src/Dialogs/CreateShoppingListDialog.cs:82-121 | The name "None" adds nothing and reaches the menu prompt in the same turn; any other name is recorded and the quantity is asked for. |
| Turns.QuantityEntered | ShopperBot2020-src/Dialogs/CreateShoppingListDialog.cs:147-185 | A quantity is accepted exactly when Int32.Parse succeeds with at least 1 (then the price is asked for). Otherwise the item is dropped, the store is unchanged and the dialog asks for a name again. |
| Turns.PriceEntered | ShopperBot2020-src/Dialogs/CreateShoppingListDialog.cs:203-259 | An accepted price appends the item, with its three strings as typed, once at the end, earlier items unchanged, and shows the menu. Otherwise the store is unchanged and the dialog asks for a name again. |
| Turns.MenuChosen | ShopperBot2020-src/Dialogs/CreateShoppingListDialog.cs:282-310 | Menu routing. "Add More Items" starts a new item. "Delete Items" starts the delete dialog, which ends the conversation when the list is empty. Other text asks for a save name when the list is non-empty, and otherwise goes straight to the view or exit choice. |
| Turns.SaveNamed | ShopperBot2020-src/Dialogs/CreateShoppingListDialog.cs:315-329 | Saving a non-empty list under a new name sets saved[name] to the old working list, empties the working list, and adds only that key with every other list unchanged. A used name aborts the turn with the store unchanged. An empty list saves nothing. |
| Turns.FinalChoice | ShopperBot2020-src/Dialogs/CreateShoppingListDialog.cs:363-376 | "View Existing List" starts the view dialog (which ends at once when nothing is saved); anything else ends the conversation. |
| Turns.DeleteRestarts | ShopperBot2020-src/Dialogs/DeleteItemsDialog.cs:42-66 | A fresh delete dialog asks for a name, or with an empty working list ends without prompting, list unchanged. |
| Turns.ItemToRemove | ShopperBot2020-src/Dialogs/DeleteItemsDialog.cs:69-121 | The exact-match test comes first. A match removes the first item whose name contains the text and offers to delete more. Otherwise "None" returns to adding items and other text restarts the delete dialog, with the store unchanged in both. |
| Turns.DeleteMoreChosen | ShopperBot2020-src/Dialogs/DeleteItemsDialog.cs:124-137 | "Delete More Items" restarts the delete dialog; anything else returns to adding items. |
| Turns.ViewRestarts | ShopperBot2020-src/Dialogs/ViewExistingShoppingListDialog.cs:45-72 | A fresh view dialog asks for a list name, or with no saved lists ends without prompting. |
| Turns.ListToView | ShopperBot2020-src/Dialogs/ViewExistingShoppingListDialog.cs:75-116 | "None" ends the conversation. An unknown name restarts the view dialog. A known name is shown without change, and the delete or exit choice follows in the same turn. The store is never changed. |
| Turns.ViewOptionChosen | ShopperBot2020-src/Dialogs/ViewExistingShoppingListDialog.cs:135-169 | "Delete Shopping List" moves on, in the same turn, to asking which list to delete; anything else ends the conversation. |
| Turns.ListToDelete | ShopperBot2020-src/Dialogs/ViewExistingShoppingListDialog.cs:172-211 | "None" ends with the store unchanged. An unknown name restarts the view dialog at its first step, not at the delete prompt. A known name removes exactly that key, and the conversation ends. |
| Turns.SaveOneListScenario | ShopperBot2020-src/Dialogs/CreateShoppingListDialog.cs:82-376 | From an empty store, the messages "Hi", "Create Shopping List", "Milk", "2", "3.50", "Done", "Save1", "Exit" end the conversation with Save1 holding [Milk, 2, 3.50] and the working list empty. |
| Turns.RejectedQuantityScenario | ShopperBot2020-src/Dialogs/CreateShoppingListDialog.cs:147-185 | Naming "Milk" and then giving a quantity that does not parse leaves the store and the dialog exactly as before: asking for an item name. |
| Turns.NaNPriceAppended | ShopperBot2020-src/Dialogs/CreateShoppingListDialog.cs:208-219 | When float.Parse yields NaN, the comparison `itemPrice < 0` is false and the item is appended with the price "NaN". |
| Turns.DuplicateSaveScenario | ShopperBot2020-src/Dialogs/CreateShoppingListDialog.cs:328-329 | Saving under a name already in use leaves the whole configuration unchanged: the store, and the dialog waiting for a save name. |

## Left out

- Orchestrator.TurnKeepsResting: the invariant says every stored price parses and is not below zero under IEEE comparison. That is weaker than "price >= 0": a price that parses to NaN passes the source's check and is stored (Turns.NaNPriceAppended). The same holds for StoreAccepted and every StepKeepsAccepted lemma.
- ChoicePrompt recognition and re-prompting: every reply reaches the routing step as typed. A reply the prompt would reject and re-ask is not modelled, and routing compares the raw text.
- The culture-dependent details of `Int32.Parse` and `float.Parse` are parameters (`Parsers`). Every property holds for any parsers, and the scenarios state the parse results they need.
- The running price totals and their rendering are left out: the sums in the foreach loops (CreateShoppingListDialog.cs 98-106 and 224-232, DeleteItemsDialog.cs 85-95, ViewExistingShoppingListDialog.cs 101-111). Those loops re-parse stored prices. The resting invariant shows that every stored price parses, so that re-parse does not throw. The single-precision sum itself is not modelled.
- Message wording, hero cards and the order in which dictionary keys are printed are left out: they are presentation only.
- The Bot Framework's nested ComponentDialog stacks are flattened into one stack of waterfall frames. Replace drops the frame and starts the target at step 0. End resumes the frame below at its next step. A waterfall that runs past its last step ends.
- After an uncaught exception, the host's error reply and any handler in the adapter are not modelled. The model keeps the pre-turn dialog state and the store as it was when the exception was raised.
- ShopperBot.cs is not part of this model beyond the turn boundary. This leaves out state persistence, logging, the welcome message and `UserState` (stored by MainDialog but never read).
- Concurrency, async/await and cancellation are left out. So is the fact that the store lives in fields of dialog objects that may be shared between conversations. One conversation is modelled.
- The in-progress item is kept as a value in its frame. The source mutates one `ShoppingItem` object in `stepContext.Values` and appends that same object to the list. No step mutates it after the append, so the aliasing is not observable.
