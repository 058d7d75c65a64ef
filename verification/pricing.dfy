/** The order's price: a standard cup costs 5, whipped cream adds 1 and
    chocolate adds 2 to every cup, and the order costs the quantity times the
    price of one cup. */
module Pricing {
  import opened Order

  const StandardCoffeePrice: int := 5
  const WhippedCreamPrice: int := 1
  const ChocolateToppingPrice: int := 2

  /** Java's `int` range, into which every reachable cost must fit. */
  const IntMin: int := -0x8000_0000
  const IntMax: int := 0x7fff_ffff

  /** The price of one cup with the chosen toppings, built up the way the
      screen does: start from the standard price and add each checked
      topping's surcharge. */
  function CupPrice(whipped: bool, chocolate: bool): (p: int)
    ensures StandardCoffeePrice <= p <= StandardCoffeePrice + WhippedCreamPrice + ChocolateToppingPrice
    ensures whipped ==> p > StandardCoffeePrice
    ensures (p - StandardCoffeePrice) % 2 == 1 <==> whipped
    ensures p - StandardCoffeePrice >= ChocolateToppingPrice <==> chocolate
  {
    var withCream := if whipped then StandardCoffeePrice + WhippedCreamPrice else StandardCoffeePrice;
    if chocolate then withCream + ChocolateToppingPrice else withCream
  }

  /** `calculateCost`: the total of the order. */
  function Cost(s: OrderState): (c: int)
    ensures s.quantity >= 0 ==> c >= 0
    ensures c == 0 <==> s.quantity == 0
    ensures 5 * s.quantity <= c <= 8 * s.quantity || c < 0
  {
    s.quantity * CupPrice(s.whipped, s.chocolate)
  }

  /** An independent reading of the total: each cup billed one by one. */
  function CupByCup(n: nat, whipped: bool, chocolate: bool): int {
    if n == 0 then 0
    else CupByCup(n - 1, whipped, chocolate)
         + StandardCoffeePrice
         + (if whipped then WhippedCreamPrice else 0)
         + (if chocolate then ChocolateToppingPrice else 0)
  }

  /** The four possible cup prices, one per topping combination, and two
      cups with both toppings. */
  lemma CupPriceTable()
    ensures CupPrice(false, false) == 5
    ensures CupPrice(true, false) == 6
    ensures CupPrice(false, true) == 7
    ensures CupPrice(true, true) == 8
    ensures Cost(OrderState(2, true, true)) == 16
  {
  }

  /** The cup price tells which toppings were chosen. */
  lemma CupPriceInjective(w1: bool, c1: bool, w2: bool, c2: bool)
    requires CupPrice(w1, c1) == CupPrice(w2, c2)
    ensures w1 == w2 && c1 == c2
  {
  }

  /** Billing cup by cup gives the same total as the screen's product. */
  lemma {:induction false} CostIsCupByCup(s: OrderState)
    requires s.quantity >= 0
    ensures Cost(s) == CupByCup(s.quantity, s.whipped, s.chocolate)
    decreases s.quantity
  {
    if s.quantity > 0 {
      var t := s.(quantity := s.quantity - 1);
      CostIsCupByCup(t);
      assert Cost(s) == Cost(t) + CupPrice(s.whipped, s.chocolate);
    }
  }

  /** With the quantity kept in [0, 100] the total is at most 800, so the
      `int` product in the source never wraps around. */
  lemma CostFitsInInt(s: OrderState)
    requires InRange(s)
    ensures 0 <= Cost(s) <= 800
    ensures IntMin <= Cost(s) <= IntMax
  {
  }

  /** Every state a screen reaches from its initial state has a total in
      [0, 800]. */
  lemma ReachableCostBounded(acts: seq<Action>)
    ensures 0 <= Cost(Run(Initial(), acts)) <= 800
  {
    RunInRange(Initial(), acts);
    CostFitsInInt(Run(Initial(), acts));
  }

  /** One more cup adds exactly one cup price; the counter moves the total
      in steps of the cup price. */
  lemma IncrementAddsOneCup(s: OrderState)
    requires s.quantity < MaxQuantity
    ensures Cost(Increment(s).state) == Cost(s) + CupPrice(s.whipped, s.chocolate)
  {
  }

  lemma DecrementRemovesOneCup(s: OrderState)
    requires s.quantity > MinQuantity
    ensures Cost(Decrement(s).state) == Cost(s) - CupPrice(s.whipped, s.chocolate)
  {
  }
}
