/**
 * The dialog engine: a stack of waterfall frames, resumed once per inbound
 * message. The step awaiting input runs with the message; the transitions it
 * and the steps after it return are applied until a step prompts, the root
 * ends or a step throws.
 */
module Orchestrator {
  import opened ShoppingItems
  import opened Store
  import opened Waterfall
  import MainDialog
  import BeginConversationDialog
  import CreateShoppingListDialog
  import DeleteItemsDialog
  import ViewExistingShoppingListDialog

  /** Runs frame f's pending step. */
  function StepSpec(env: Parsers, f: Frame, lists: Lists, input: string): Outcome {
    match f.dialog
    case Main => MainDialog.Step(f.step, f.pending, lists)
    case BeginConversation => BeginConversationDialog.Step(f.step, f.pending, lists, input)
    case CreateShoppingList => CreateShoppingListDialog.Step(env, f.step, f.pending, lists, input)
    case DeleteItems => DeleteItemsDialog.Step(f.step, f.pending, lists, input)
    case ViewExistingShoppingList => ViewExistingShoppingListDialog.Step(f.step, f.pending, lists, input)
  }

  /** Every step returns only a transition its waterfall allows. */
  lemma StepPermitted(env: Parsers, f: Frame, lists: Lists, input: string)
    ensures Permitted(f.dialog, f.step, StepSpec(env, f, lists, input).t)
  {
  }

  function Top(s: seq<Frame>): Frame
    requires s != []
  {
    s[|s| - 1]
  }

  function Below(s: seq<Frame>): seq<Frame>
    requires s != []
  {
    s[..|s| - 1]
  }

  /** The sum of the frames' ranks. */
  ghost function Potential(s: seq<Frame>): nat {
    if s == [] then 0 else Potential(Below(s)) + Rank(Top(s).dialog, Top(s).step)
  }

  lemma PotentialPush(s: seq<Frame>, f: Frame)
    ensures Potential(s + [f]) == Potential(s) + Rank(f.dialog, f.step)
  {
    assert Below(s + [f]) == s;
  }

  /** How a turn stops: waiting at a prompt (or with an empty stack once the
      root has ended), or aborted by an exception with the store as it was
      when the exception was raised. */
  datatype Settled = Suspended(stack: seq<Frame>, lists: Lists) | Aborted(lists: Lists)

  datatype Move = Halt(result: Settled) | Continue(stack: seq<Frame>, lists: Lists)

  /** Applies the transition of frame f's step to the stack `below + [f]`. */
  function Apply(below: seq<Frame>, f: Frame, o: Outcome): Move {
    var parked := f.(step := f.step + 1, pending := o.pending);
    match o.t
    case Prompt => Halt(Suspended(below + [parked], o.lists))
    case Throw => Halt(Aborted(o.lists))
    case Next => Continue(below + [parked], o.lists)
    case End => Continue(below, o.lists)
    case Replace(d) => Continue(below + [Start(d)], o.lists)
    case BeginChild(d) => Continue(below + [parked, Start(d)], o.lists)
  }

  lemma ApplyLowers(stack: seq<Frame>, o: Outcome)
    requires stack != [] && Permitted(Top(stack).dialog, Top(stack).step, o.t)
    ensures var m := Apply(Below(stack), Top(stack), o);
      m.Continue? ==> Potential(m.stack) < Potential(stack)
  {
    var f, below := Top(stack), Below(stack);
    PermittedLowers(f, o.t);
    assert stack == below + [f];
    PotentialPush(below, f);
    var parked := f.(step := f.step + 1, pending := o.pending);
    PotentialPush(below, parked);
    match o.t
    case Replace(d) => PotentialPush(below, Start(d));
    case BeginChild(d) =>
      PotentialPush(below + [parked], Start(d));
      assert below + [parked, Start(d)] == below + [parked] + [Start(d)];
    case _ =>
  }

  /** The rest of a turn from `stack`: run the top frame's step with the
      turn's text and apply its transition, until the turn stops. */
  ghost function Settle(env: Parsers, stack: seq<Frame>, lists: Lists, input: string): Settled
    decreases Potential(stack)
  {
    if stack == [] then Suspended([], lists)
    else
      var o := StepSpec(env, Top(stack), lists, input);
      StepPermitted(env, Top(stack), lists, input);
      ApplyLowers(stack, o);
      match Apply(Below(stack), Top(stack), o)
      case Halt(r) => r
      case Continue(s, l) => Settle(env, s, l, input)
  }

  /** The stack a message resumes: with no active dialog the root starts afresh. */
  function Entry(stack: seq<Frame>): seq<Frame> {
    if stack == [] then [Start(Main)] else stack
  }

  /** The persisted state between messages. */
  datatype Config = Config(stack: seq<Frame>, lists: Lists)

  /** One inbound message. When a step throws, the dialog state saved at the
      end of the previous turn stays in force; the store objects keep whatever
      was done to them before the exception. */
  ghost function NextConfig(env: Parsers, c: Config, input: string): Config {
    match Settle(env, Entry(c.stack), c.lists, input)
    case Suspended(s, l) => Config(s, l)
    case Aborted(l) => Config(c.stack, l)
  }

  /** A sequence of inbound messages. */
  ghost function Converse(env: Parsers, c: Config, inputs: seq<string>): Config
    decreases |inputs|
  {
    if inputs == [] then c else Converse(env, NextConfig(env, c, inputs[0]), inputs[1..])
  }

  ghost predicate IsTask(d: DialogId) {
    d == CreateShoppingList || d == DeleteItems || d == ViewExistingShoppingList
  }

  /** The shapes the stack takes: the root alone; the root parked under
      BeginConversation; or both parked under one of the three task dialogs. */
  ghost predicate Hosted(s: seq<Frame>) {
    || (|s| == 1 && s[0].dialog == Main)
    || (|s| == 2 && s[0].dialog == Main && s[0].step == 1 && s[1].dialog == BeginConversation)
    || (&& |s| == 3 && s[0].dialog == Main && s[0].step == 1
        && s[1].dialog == BeginConversation && s[1].step == 2 && IsTask(s[2].dialog))
  }

  ghost predicate FrameReady(env: Parsers, f: Frame) {
    f.dialog == CreateShoppingList ==> CreateShoppingListDialog.PendingReady(env, f.step, f.pending)
  }

  /** The frame sits just after a step that prompts. */
  ghost predicate AwaitsInput(f: Frame) {
    f.step >= 1 && Permitted(f.dialog, f.step - 1, Prompt)
  }

  /** The state while steps run within a turn. */
  ghost predicate Running(env: Parsers, s: seq<Frame>, l: Lists) {
    StoreAccepted(env, l) && (s == [] || (Hosted(s) && FrameReady(env, Top(s))))
  }

  /** The state between messages. */
  ghost predicate Resting(env: Parsers, c: Config) {
    && StoreAccepted(env, c.lists)
    && (c.stack == [] || (Hosted(c.stack) && FrameReady(env, Top(c.stack)) && AwaitsInput(Top(c.stack))))
  }

  lemma StepKeepsAccepted(env: Parsers, f: Frame, lists: Lists, input: string)
    requires StoreAccepted(env, lists) && FrameReady(env, f)
    ensures var o := StepSpec(env, f, lists, input);
      && StoreAccepted(env, o.lists)
      && (o.t == Prompt || o.t == Next ==> FrameReady(env, f.(step := f.step + 1, pending := o.pending)))
  {
    match f.dialog
    case CreateShoppingList =>
      CreateShoppingListDialog.StepKeepsAccepted(env, f.step, f.pending, lists, input);
    case DeleteItems =>
      DeleteItemsDialog.StepKeepsAccepted(env, f.step, f.pending, lists, input);
    case ViewExistingShoppingList =>
      ViewExistingShoppingListDialog.StepKeepsAccepted(env, f.step, f.pending, lists, input);
    case _ =>
  }

  /** Within a turn the stack keeps its shape and the store holds only
      validated items; the turn stops at a prompt of the top frame, at an
      empty stack, or at an exception. */
  lemma {:induction false} SettleRests(env: Parsers, stack: seq<Frame>, lists: Lists, input: string)
    requires Running(env, stack, lists)
    ensures var r := Settle(env, stack, lists, input);
      && StoreAccepted(env, r.lists)
      && (r.Suspended? ==> Resting(env, Config(r.stack, r.lists)))
    decreases Potential(stack)
  {
    if stack != [] {
      var f, below := Top(stack), Below(stack);
      var o := StepSpec(env, f, lists, input);
      StepPermitted(env, f, lists, input);
      StepKeepsAccepted(env, f, lists, input);
      ApplyLowers(stack, o);
      var parked := f.(step := f.step + 1, pending := o.pending);
      match Apply(below, f, o)
      case Halt(r) =>
        if r.Suspended? {
          assert Top(r.stack) == parked;
          assert Below(r.stack) == below;
        }
      case Continue(s, l) =>
        match o.t {
          case Next =>
            assert Top(s) == parked && Below(s) == below;
          case Replace(d) =>
            assert Top(s) == Start(d) && Below(s) == below;
          case BeginChild(d) =>
            assert Top(s) == Start(d) && Below(s) == below + [parked];
          case _ =>
        }
        SettleRests(env, s, l, input);
    }
  }

  /** Between messages the stack keeps its shape and the store holds only
      validated items: every item in the working list and in every saved list
      has a quantity of at least 1 and a price not below 0. */
  lemma TurnKeepsResting(env: Parsers, c: Config, input: string)
    requires Resting(env, c)
    ensures Resting(env, NextConfig(env, c, input))
  {
    SettleRests(env, Entry(c.stack), c.lists, input);
  }

  /** The same, over any sequence of messages. */
  lemma {:induction false} ConverseKeepsResting(env: Parsers, c: Config, inputs: seq<string>)
    requires Resting(env, c)
    ensures Resting(env, Converse(env, c, inputs))
    decreases |inputs|
  {
    if inputs != [] {
      TurnKeepsResting(env, c, inputs[0]);
      ConverseKeepsResting(env, NextConfig(env, c, inputs[0]), inputs[1..]);
    }
  }

  /** Runs frame f's pending step against the shared store. */
  method RunStep(store: ShoppingStore, env: Parsers, f: Frame, input: string)
    returns (t: Transition, item: Item)
    modifies store
    ensures Outcome(t, item, store.Contents()) == StepSpec(env, f, old(store.Contents()), input)
  {
    match f.dialog {
      case CreateShoppingList =>
        t, item := CreateShoppingListDialog.RunStep(store, env, f.step, f.pending, input);
      case DeleteItems =>
        t, item := DeleteItemsDialog.RunStep(store, f.step, f.pending, input);
      case ViewExistingShoppingList =>
        t, item := ViewExistingShoppingListDialog.RunStep(store, f.step, f.pending, input);
      case _ =>
        var o := StepSpec(env, f, store.Contents(), input);
        t, item := o.t, o.pending;
    }
  }

  /** One conversation: the dialog stack and the store shared by its dialogs. */
  class Conversation {
    const env: Parsers
    const store: ShoppingStore
    var stack: seq<Frame>

    ghost predicate Valid()
      reads this, store
    {
      Resting(env, Config(stack, store.Contents()))
    }

    /** No dialog is active yet, and the working list and the saved lists
        start empty. */
    constructor (env: Parsers)
      ensures Valid() && this.env == env && fresh(store)
      ensures stack == [] && store.working == [] && store.saved == map[]
    {
      this.env := env;
      store := new ShoppingStore();
      stack := [];
    }

    /** Handles one inbound message. */
    method Turn(input: string) returns (aborted: bool)
      requires Valid()
      modifies this, store
      ensures Valid()
      ensures Config(stack, store.Contents()) == NextConfig(env, old(Config(stack, store.Contents())), input)
      ensures aborted <==> Settle(env, Entry(old(stack)), old(store.Contents()), input).Aborted?
    {
      TurnKeepsResting(env, Config(stack, store.Contents()), input);
      var s := Entry(stack);
      ghost var goal := Settle(env, s, store.Contents(), input);
      while true
        invariant Settle(env, s, store.Contents(), input) == goal
        invariant stack == old(stack)
        decreases Potential(s)
      {
        if s == [] {
          stack := [];
          return false;
        }
        var f := Top(s);
        ghost var before := store.Contents();
        var t, item := RunStep(store, env, f, input);
        var o := Outcome(t, item, store.Contents());
        StepPermitted(env, f, before, input);
        ApplyLowers(s, o);
        match Apply(Below(s), f, o) {
          case Halt(r) =>
            if r.Aborted? {
              return true;
            }
            stack := r.stack;
            return false;
          case Continue(next, _) =>
            s := next;
        }
      }
    }
  }
}
