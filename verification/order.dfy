/** The order form's state and the handlers that change it: the plus and
    minus buttons (a counter bounded above by 100 and below by 1, starting at
    0) and the two topping check boxes, whose clicks are refused with a
    notice while no coffee is ordered. Every refusal the screen shows as a
    toast is returned here as a `Feedback` value. */
module Order {

  /** Largest quantity the plus button lets through. */
  const MaxQuantity: int := 100
  /** Smallest quantity the minus button lets through. */
  const MinQuantity: int := 1

  /** The screen's mutable state: the `quantity` field and the checked state
      of the whipped-cream and chocolate check boxes. */
  datatype OrderState = OrderState(quantity: int, whipped: bool, chocolate: bool)

  /** The toasts the screen can show, named after their string resources. */
  datatype Notice = TooBigOrder | TooSmallOrder | OnlyToppings

  datatype Feedback = Quiet | Toast(notice: Notice)

  /** The outcome of one handler: the new state and what the user is told. */
  datatype Step = Step(state: OrderState, feedback: Feedback)

  datatype Topping = WhippedCream | Chocolate

  /** A user action on the form. */
  datatype Action = Plus | Minus | Click(topping: Topping)

  /** A freshly created screen: the `int` field defaults to 0 and both boxes
      start unchecked. */
  function Initial(): (s: OrderState)
    ensures s.quantity == 0 && !s.whipped && !s.chocolate
  {
    OrderState(0, false, false)
  }

  /** The states the counter's guards keep the screen in. */
  predicate InRange(s: OrderState) {
    0 <= s.quantity <= MaxQuantity
  }

  /** The plus button. */
  function Increment(s: OrderState): (r: Step)
    ensures r.state.whipped == s.whipped && r.state.chocolate == s.chocolate
    ensures r.state.quantity <= MaxQuantity || r.state.quantity == s.quantity
    ensures s.quantity < MaxQuantity ==> r.state.quantity == s.quantity + 1 && r.feedback == Quiet
    ensures s.quantity >= MaxQuantity ==> r.state == s && r.feedback == Toast(TooBigOrder)
  {
    if s.quantity < MaxQuantity then Step(s.(quantity := s.quantity + 1), Quiet)
    else Step(s, Toast(TooBigOrder))
  }

  /** The minus button. */
  function Decrement(s: OrderState): (r: Step)
    ensures r.state.whipped == s.whipped && r.state.chocolate == s.chocolate
    ensures r.state.quantity >= MinQuantity || r.state.quantity == s.quantity
    ensures s.quantity > MinQuantity ==> r.state.quantity == s.quantity - 1 && r.feedback == Quiet
    ensures s.quantity <= MinQuantity ==> r.state == s && r.feedback == Toast(TooSmallOrder)
  {
    if s.quantity > MinQuantity then Step(s.(quantity := s.quantity - 1), Quiet)
    else Step(s, Toast(TooSmallOrder))
  }

  /** The guard of the topping click handlers: a topping is refused while no
      coffee is ordered and a box is checked. */
  function CoffeeIsOrdered(s: OrderState): (ok: bool)
    ensures ok <==> s.quantity != 0 || (!s.whipped && !s.chocolate)
  {
    if s.quantity == 0 && (s.whipped || s.chocolate) then false else true
  }

  function Toggle(s: OrderState, t: Topping): OrderState {
    match t
    case WhippedCream => s.(whipped := !s.whipped)
    case Chocolate => s.(chocolate := !s.chocolate)
  }

  /** A click on a topping box. The box changes its checked state before the
      listener runs; the listener then consults `CoffeeIsOrdered` and either
      refreshes the price (no notice) or shows the "only toppings" toast. */
  function ClickTopping(s: OrderState, t: Topping): (r: Step)
    ensures r.state.quantity == s.quantity
    ensures t == WhippedCream ==> r.state.whipped == !s.whipped && r.state.chocolate == s.chocolate
    ensures t == Chocolate ==> r.state.chocolate == !s.chocolate && r.state.whipped == s.whipped
    ensures r.feedback == Quiet || r.feedback == Toast(OnlyToppings)
    ensures r.feedback == Toast(OnlyToppings)
            <==> s.quantity == 0 && (r.state.whipped || r.state.chocolate)
  {
    var toggled := Toggle(s, t);
    if CoffeeIsOrdered(toggled) then Step(toggled, Quiet) else Step(toggled, Toast(OnlyToppings))
  }

  function Apply(s: OrderState, a: Action): Step {
    match a
    case Plus => Increment(s)
    case Minus => Decrement(s)
    case Click(t) => ClickTopping(s, t)
  }

  /** The state after a sequence of actions, first action first. */
  function Run(s: OrderState, acts: seq<Action>): OrderState
    decreases |acts|
  {
    if |acts| == 0 then s else Run(Apply(s, acts[0]).state, acts[1..])
  }

  predicate CounterOnly(acts: seq<Action>) {
    forall i :: 0 <= i < |acts| ==> !acts[i].Click?
  }

  // ---------------------------------------------------------------------
  // Properties of the counter

  /** One press of plus undoes one press of minus away from the bounds. */
  lemma IncrementUndoesDecrement(s: OrderState)
    requires MinQuantity < s.quantity <= MaxQuantity
    ensures Increment(Decrement(s).state) == Step(s, Quiet)
  {
  }

  /** One press of minus undoes one press of plus away from the bounds. */
  lemma DecrementUndoesIncrement(s: OrderState)
    requires MinQuantity <= s.quantity < MaxQuantity
    ensures Decrement(Increment(s).state) == Step(s, Quiet)
  {
  }

  /** Every action keeps the quantity within [0, 100]. */
  lemma ApplyInRange(s: OrderState, a: Action)
    requires InRange(s)
    ensures InRange(Apply(s, a).state)
  {
  }

  /** From any state in range — in particular from `Initial()` — every
      sequence of clicks keeps the quantity between 0 and 100. */
  lemma {:induction false} RunInRange(s: OrderState, acts: seq<Action>)
    requires InRange(s)
    ensures InRange(Run(s, acts))
    decreases |acts|
  {
    if |acts| > 0 {
      ApplyInRange(s, acts[0]);
      RunInRange(Apply(s, acts[0]).state, acts[1..]);
    }
  }

  /** Once at least one coffee is ordered the quantity never returns to 0. */
  lemma {:induction false} RunKeepsCoffee(s: OrderState, acts: seq<Action>)
    requires s.quantity >= MinQuantity
    ensures Run(s, acts).quantity >= MinQuantity
    decreases |acts|
  {
    if |acts| > 0 {
      RunKeepsCoffee(Apply(s, acts[0]).state, acts[1..]);
    }
  }

  /** From 0, minus and topping clicks leave the quantity at 0: only the
      plus button leaves 0. */
  lemma {:induction false} RunFromZeroWithoutPlus(acts: seq<Action>, s: OrderState)
    requires s.quantity == 0
    requires forall i :: 0 <= i < |acts| ==> acts[i] != Plus
    ensures Run(s, acts).quantity == 0
    decreases |acts|
  {
    if |acts| > 0 {
      RunFromZeroWithoutPlus(acts[1..], Apply(s, acts[0]).state);
    }
  }

  /** Plus and minus never touch the topping boxes. */
  lemma {:induction false} CounterKeepsToppings(s: OrderState, acts: seq<Action>)
    requires CounterOnly(acts)
    ensures Run(s, acts).whipped == s.whipped
    ensures Run(s, acts).chocolate == s.chocolate
    decreases |acts|
  {
    if |acts| > 0 {
      assert !acts[0].Click?;
      CounterKeepsToppings(Apply(s, acts[0]).state, acts[1..]);
    }
  }

  /** Topping clicks never touch the quantity. */
  lemma {:induction false} ClicksKeepQuantity(s: OrderState, acts: seq<Action>)
    requires forall i :: 0 <= i < |acts| ==> acts[i].Click?
    ensures Run(s, acts).quantity == s.quantity
    decreases |acts|
  {
    if |acts| > 0 {
      ClicksKeepQuantity(Apply(s, acts[0]).state, acts[1..]);
    }
  }

  /** The topping guard only ever refuses while no coffee is ordered: in
      every state reached after the first coffee, topping clicks go through. */
  lemma {:induction false} ToppingsAcceptedAfterCoffee(s: OrderState, acts: seq<Action>, t: Topping)
    requires s.quantity >= MinQuantity
    ensures CoffeeIsOrdered(Run(s, acts))
    ensures ClickTopping(Run(s, acts), t).feedback == Quiet
  {
    RunKeepsCoffee(s, acts);
  }
}
