/**
 * The shared store: the working list under construction and the saved lists
 * by name. BeginConversationDialog allocates one List and one Dictionary and
 * every dialog below it holds references to those same two objects.
 */
module Store {
  import opened ShoppingItems

  /** The value of the store at one moment. */
  datatype Lists = Lists(working: seq<Item>, saved: map<string, seq<Item>>)

  /** Every item in the store, working or saved, passed the quantity and price checks. */
  ghost predicate StoreAccepted(env: Parsers, l: Lists) {
    && AllAccepted(env, l.working)
    && forall key :: key in l.saved ==> AllAccepted(env, l.saved[key])
  }

  class ShoppingStore {
    /** List<ShoppingItem> _ShoppingList */
    var working: seq<Item>
    /** Dictionary<string, List<ShoppingItem>> _createdShoppingLists */
    var saved: map<string, seq<Item>>

    /** Both collections are created empty, once. */
    constructor ()
      ensures working == [] && saved == map[]
    {
      working := [];
      saved := map[];
    }

    function Contents(): Lists
      reads this
    {
      Lists(working, saved)
    }

    /** List.Add: append at the end. */
    method AddItem(item: Item)
      modifies this
      ensures working == old(working) + [item]
      ensures saved == old(saved)
    {
      working := working + [item];
    }

    /** List.Remove of the element found at index i: the others keep their order. */
    method RemoveItemAt(i: nat)
      requires i < |working|
      modifies this
      ensures working == old(working[..i]) + old(working[i + 1..])
      ensures saved == old(saved)
    {
      working := working[..i] + working[i + 1..];
    }

    /** List.Clear */
    method ClearItems()
      modifies this
      ensures working == []
      ensures saved == old(saved)
    {
      working := [];
    }

    /** Dictionary.Add: a key that is already present makes it throw
        ArgumentException before anything changes. */
    method AddList(key: string, items: seq<Item>) returns (added: bool)
      modifies this
      ensures added <==> key !in old(saved)
      ensures saved == if added then old(saved)[key := items] else old(saved)
      ensures working == old(working)
    {
      added := key !in saved;
      if added {
        saved := saved[key := items];
      }
    }

    /** Dictionary.Remove: drops the key if present and reports whether it was. */
    method RemoveList(key: string) returns (removed: bool)
      modifies this
      ensures removed <==> key in old(saved)
      ensures saved == old(saved) - {key}
      ensures working == old(working)
    {
      removed := key in saved;
      saved := saved - {key};
    }
  }
}
