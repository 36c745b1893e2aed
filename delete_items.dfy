/**
 * DeleteItemsDialog: the three-step waterfall that shows the working list,
 * removes one item chosen by name, and offers to delete more.
 */
module DeleteItemsDialog {
  import opened Optional
  import opened ShoppingItems
  import opened Store
  import opened Waterfall

  const DeleteMoreItems := "Delete More Items"

  /** string.Contains: t occurs in s, compared character by character. */
  predicate Contains(s: string, t: string)
    decreases |s|
  {
    t <= s || (|s| > 0 && Contains(s[1..], t))
  }

  /** t occurs in s starting at offset k. */
  ghost predicate OccursAt(s: string, t: string, k: int) {
    0 <= k <= |s| - |t| && s[k..k + |t|] == t
  }

  /** Contains is the substring relation: t occurs in s at some offset. */
  lemma {:induction false} ContainsAt(s: string, t: string)
    ensures Contains(s, t) <==> exists k :: OccursAt(s, t, k)
  {
    if Contains(s, t) {
      ContainsGivesOffset(s, t);
    }
    if exists k :: OccursAt(s, t, k) {
      var k :| OccursAt(s, t, k);
      OffsetGivesContains(s, t, k);
    }
  }

  lemma {:induction false} ContainsGivesOffset(s: string, t: string)
    requires Contains(s, t)
    ensures exists k :: OccursAt(s, t, k)
    decreases |s|
  {
    if t <= s {
      assert s[0..0 + |t|] == t;
      assert OccursAt(s, t, 0);
    } else {
      ContainsGivesOffset(s[1..], t);
      var k :| OccursAt(s[1..], t, k);
      assert s[1..][k..k + |t|] == s[k + 1..k + 1 + |t|];
      assert OccursAt(s, t, k + 1);
    }
  }

  lemma {:induction false} OffsetGivesContains(s: string, t: string, k: int)
    requires OccursAt(s, t, k)
    ensures Contains(s, t)
    decreases k
  {
    if k == 0 {
      assert t == s[..|t|];
      assert t <= s;
    } else {
      assert s[1..][k - 1..k - 1 + |t|] == s[k..k + |t|];
      OffsetGivesContains(s[1..], t, k - 1);
    }
  }

  /** List.Exists(item => item.name == target): an exact, case-sensitive match. */
  predicate HasItemNamed(items: seq<Item>, target: string) {
    exists i :: 0 <= i < |items| && items[i].name == target
  }

  /** List.Find(item => item.name.Contains(target)): the index of the first
      item whose name contains the target. */
  function FindContaining(items: seq<Item>, target: string): (r: Option<nat>)
    ensures r.Some? ==> r.value < |items| && Contains(items[r.value].name, target)
    ensures r.Some? ==> forall j :: 0 <= j < r.value ==> !Contains(items[j].name, target)
    ensures r.None? ==> forall j :: 0 <= j < |items| ==> !Contains(items[j].name, target)
  {
    if items == [] then None
    else if Contains(items[0].name, target) then Some(0)
    else
      match FindContaining(items[1..], target)
      case None => None
      case Some(i) => Some(i + 1)
  }

  /** _ShoppingList.Remove(_ShoppingList.Find(...)): drop the first item whose
      name contains the target (Remove of a missing element changes nothing). */
  function RemoveFound(items: seq<Item>, target: string): seq<Item> {
    match FindContaining(items, target)
    case None => items
    case Some(i) => items[..i] + items[i + 1..]
  }

  /** When some item is named exactly `target`, removal takes out exactly one
      element, the first whose name contains `target`, and keeps the others
      in their order. */
  lemma RemovesFirstContaining(items: seq<Item>, target: string)
    requires HasItemNamed(items, target)
    ensures FindContaining(items, target).Some?
    ensures var i := FindContaining(items, target).value;
      && Contains(items[i].name, target)
      && (forall j :: 0 <= j < i ==> !Contains(items[j].name, target))
      && RemoveFound(items, target) == items[..i] + items[i + 1..]
      && |RemoveFound(items, target)| == |items| - 1
      && multiset(items) == multiset(RemoveFound(items, target)) + multiset{items[i]}
  {
    var j :| 0 <= j < |items| && items[j].name == target;
    assert Contains(items[j].name, target);
    var i := FindContaining(items, target).value;
    assert items == items[..i] + [items[i]] + items[i + 1..];
  }

  /** The removed item can differ from the exact match: with "Milkshake"
      before "Milk", deleting "Milk" removes "Milkshake". */
  lemma SubstringMatchWins()
    ensures var shake := Item("Milkshake", "1", "4.00");
      var milk := Item("Milk", "2", "3.50");
      && HasItemNamed([shake, milk], "Milk")
      && RemoveFound([shake, milk], "Milk") == [milk]
  {
    var shake := Item("Milkshake", "1", "4.00");
    var milk := Item("Milk", "2", "3.50");
    assert [shake, milk][1].name == "Milk";
    assert "Milk" <= "Milkshake";
    assert FindContaining([shake, milk], "Milk") == Some(0);
  }

  /** Step 0: show the list and ask for a name, or end if there is nothing to delete. */
  function FindItem(pending: Item, lists: Lists): Outcome {
    Outcome(if |lists.working| > 0 then Prompt else End, pending, lists)
  }

  /** Step 1: remove on an exact match, go back to adding items on "None",
      otherwise report it missing and start this dialog again. */
  function RemoveItem(pending: Item, lists: Lists, input: string): Outcome {
    if HasItemNamed(lists.working, input) then
      Outcome(Prompt, pending, lists.(working := RemoveFound(lists.working, input)))
    else if input == NoneText then Outcome(Replace(CreateShoppingList), pending, lists)
    else Outcome(Replace(DeleteItems), pending, lists)
  }

  /** Step 2: delete more, or go back to adding items. */
  function FinalStep(pending: Item, lists: Lists, input: string): Outcome {
    Outcome(if input == DeleteMoreItems then Replace(DeleteItems) else Replace(CreateShoppingList), pending, lists)
  }

  /** The waterfall: step k of the dialog. */
  function Step(k: nat, pending: Item, lists: Lists, input: string): Outcome {
    match k
    case 0 => FindItem(pending, lists)
    case 1 => RemoveItem(pending, lists, input)
    case 2 => FinalStep(pending, lists, input)
    case _ => Outcome(End, pending, lists)
  }

  /** Step 1 on the shared store. */
  method RemoveItemStep(store: ShoppingStore, pending: Item, input: string) returns (t: Transition)
    modifies store
    ensures Outcome(t, pending, store.Contents()) == RemoveItem(pending, old(store.Contents()), input)
  {
    if HasItemNamed(store.working, input) {
      var found := FindContaining(store.working, input);
      if found.Some? {
        store.RemoveItemAt(found.value);
      }
      t := Prompt;
    } else if input == NoneText {
      t := Replace(CreateShoppingList);
    } else {
      t := Replace(DeleteItems);
    }
  }

  /** Runs step k against the shared store. */
  method RunStep(store: ShoppingStore, k: nat, pending: Item, input: string)
    returns (t: Transition, item: Item)
    modifies store
    ensures Outcome(t, item, store.Contents()) == Step(k, pending, old(store.Contents()), input)
  {
    item := pending;
    if k == 1 {
      t := RemoveItemStep(store, pending, input);
    } else {
      t := Step(k, pending, store.Contents(), input).t;
    }
  }

  /** Deleting keeps every remaining item valid and leaves the saved lists alone. */
  lemma StepKeepsAccepted(env: Parsers, k: nat, pending: Item, lists: Lists, input: string)
    requires StoreAccepted(env, lists)
    ensures var o := Step(k, pending, lists, input);
      StoreAccepted(env, o.lists) && o.lists.saved == lists.saved
  {
    if k == 1 && HasItemNamed(lists.working, input) {
      RemovesFirstContaining(lists.working, input);
      var i := FindContaining(lists.working, input).value;
      var rest := lists.working[..i] + lists.working[i + 1..];
      assert forall j :: 0 <= j < |rest| ==> rest[j] == lists.working[if j < i then j else j + 1];
    }
  }
}
