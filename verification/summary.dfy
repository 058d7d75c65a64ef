/** The text the screen shows and mails: the total price with its currency
    symbol, placed by locale, and the six-line order summary. The string
    resources, the user's name and the locale's currency come in as plain
    strings. */
module Summary {
  import opened Decimal
  import opened Lines
  import opened Order
  import opened Pricing

  datatype Option<T> = None | Some(value: T)

  /** What the screen learns from the default locale: whether it is the US
      locale, and the symbol of that locale's currency. */
  datatype Locale = Locale(isUS: bool, currencySymbol: string)

  /** The string resources the summary is assembled from. */
  datatype Resources = Resources(
    orderSummary: string,
    name: string,
    quantity: string,
    totalPrice: string,
    thankYou: string,
    withTwoToppings: string,
    withoutToppings: string,
    withChocolate: string,
    withWhippedCream: string)

  /** `constructTotalPrice` for a given cost: a leading space, then the
      symbol before the amount in the US locale and after it, behind a
      space, in every other locale. */
  function FormatPrice(cost: int, loc: Locale): (r: string)
    ensures |r| == 1 + |IntToString(cost)| + |loc.currencySymbol| + (if loc.isUS then 0 else 1)
    ensures r[0] == ' '
    ensures loc.isUS ==> r[1..1 + |loc.currencySymbol|] == loc.currencySymbol
    ensures loc.isUS ==> r[1 + |loc.currencySymbol|..] == IntToString(cost)
    ensures !loc.isUS ==> r[1..1 + |IntToString(cost)|] == IntToString(cost)
    ensures !loc.isUS ==> r[|r| - |loc.currencySymbol| - 1] == ' '
    ensures !loc.isUS ==> r[|r| - |loc.currencySymbol|..] == loc.currencySymbol
    ensures NoNewline(loc.currencySymbol) ==> NoNewline(r)
  {
    if loc.isUS then " " + loc.currencySymbol + IntToString(cost)
    else " " + IntToString(cost) + " " + loc.currencySymbol
  }

  /** Reads a non-negative amount back out of a formatted price, or `None`
      when the text is not a price formatted for `loc`. */
  function ReadPrice(r: string, loc: Locale): Option<nat> {
    var sym := loc.currencySymbol;
    if loc.isUS then
      if |r| >= 1 + |sym| && r[..1 + |sym|] == " " + sym && Canonical(r[1 + |sym|..])
      then Some(ParseNat(r[1 + |sym|..]))
      else None
    else
      if |r| >= 2 + |sym| && r[0] == ' ' && r[|r| - 1 - |sym|..] == " " + sym
         && Canonical(r[1..|r| - 1 - |sym|])
      then Some(ParseNat(r[1..|r| - 1 - |sym|]))
      else None
  }

  /** The amount of a formatted price can be read back exactly. */
  lemma ReadFormattedPrice(cost: nat, loc: Locale)
    ensures ReadPrice(FormatPrice(cost, loc), loc) == Some(cost)
  {
    var r := FormatPrice(cost, loc);
    var d := NatToString(cost);
    var sym := loc.currencySymbol;
    ParseNatToString(cost);
    if loc.isUS {
      assert r[..1 + |sym|] == " " + sym;
      assert r[1 + |sym|..] == d;
    } else {
      assert r[|r| - 1 - |sym|..] == " " + sym;
      assert r[1..|r| - 1 - |sym|] == d;
    }
  }

  /** Every text from which a price can be read is that price, formatted:
      formatted prices and non-negative amounts correspond one to one. */
  lemma FormatReadPrice(r: string, loc: Locale, cost: nat)
    requires ReadPrice(r, loc) == Some(cost)
    ensures FormatPrice(cost, loc) == r
  {
    var sym := loc.currencySymbol;
    if loc.isUS {
      var d := r[1 + |sym|..];
      NatToStringParse(d);
      assert r == r[..1 + |sym|] + d;
    } else {
      var d := r[1..|r| - 1 - |sym|];
      NatToStringParse(d);
      assert r == [r[0]] + d + r[|r| - 1 - |sym|..];
    }
  }

  /** The topping phrase, chosen as the screen does: both boxes, then
      neither, then "whipped cream not checked", else whipped cream only. */
  function ToppingDescription(whipped: bool, chocolate: bool, res: Resources): (r: string)
    ensures whipped && chocolate ==> r == res.withTwoToppings
    ensures !whipped && !chocolate ==> r == res.withoutToppings
    ensures !whipped && chocolate ==> r == res.withChocolate
    ensures whipped && !chocolate ==> r == res.withWhippedCream
  {
    if whipped && chocolate then res.withTwoToppings
    else if !whipped && !chocolate then res.withoutToppings
    else if !whipped then res.withChocolate
    else res.withWhippedCream
  }

  predicate DistinctToppingPhrases(res: Resources) {
    var phrases := [res.withTwoToppings, res.withoutToppings, res.withChocolate, res.withWhippedCream];
    forall i, j :: 0 <= i < j < |phrases| ==> phrases[i] != phrases[j]
  }

  /** With four distinct phrases, the phrase names the topping combination:
      each combination selects exactly one phrase. */
  lemma ToppingDescriptionInjective(w1: bool, c1: bool, w2: bool, c2: bool, res: Resources)
    requires DistinctToppingPhrases(res)
    requires ToppingDescription(w1, c1, res) == ToppingDescription(w2, c2, res)
    ensures w1 == w2 && c1 == c2
  {
    var phrases := [res.withTwoToppings, res.withoutToppings, res.withChocolate, res.withWhippedCream];
    assert phrases[0] != phrases[1] && phrases[0] != phrases[2] && phrases[0] != phrases[3];
    assert phrases[1] != phrases[2] && phrases[1] != phrases[3] && phrases[2] != phrases[3];
  }

  /** The six lines of the summary, in order. */
  function SummaryLines(s: OrderState, name: string, loc: Locale, res: Resources): (lines: seq<string>)
    ensures |lines| == 6
  {
    [ res.orderSummary,
      res.name + ": " + name,
      res.quantity + ": " + IntToString(s.quantity),
      ToppingDescription(s.whipped, s.chocolate, res),
      res.totalPrice + FormatPrice(Cost(s), loc),
      res.thankYou ]
  }

  /** `createOrderSummary`: the pieces concatenated with "\n" in front of
      every piece after the header. */
  function OrderSummary(s: OrderState, name: string, loc: Locale, res: Resources): (r: string)
    ensures r == JoinLines(SummaryLines(s, name, loc, res))
  {
    var toppings := ToppingDescription(s.whipped, s.chocolate, res);
    var nameLine := res.name + ": " + name;
    var quantityLine := res.quantity + ": " + IntToString(s.quantity);
    var priceLine := res.totalPrice + FormatPrice(Cost(s), loc);
    assert SummaryLines(s, name, loc, res)
        == [res.orderSummary, nameLine, quantityLine, toppings, priceLine, res.thankYou];
    JoinSix(res.orderSummary, nameLine, quantityLine, toppings, priceLine, res.thankYou);
    res.orderSummary
      + "\n" + nameLine
      + "\n" + quantityLine
      + "\n" + toppings
      + "\n" + priceLine
      + "\n" + res.thankYou
  }

  predicate SingleLineInputs(name: string, loc: Locale, res: Resources) {
    && NoNewline(name) && NoNewline(loc.currencySymbol)
    && NoNewline(res.orderSummary) && NoNewline(res.name) && NoNewline(res.quantity)
    && NoNewline(res.totalPrice) && NoNewline(res.thankYou)
    && NoNewline(res.withTwoToppings) && NoNewline(res.withoutToppings)
    && NoNewline(res.withChocolate) && NoNewline(res.withWhippedCream)
  }

  /** When none of the inputs spans lines, the summary has exactly six lines
      and each can be recovered: the header, the name line, the quantity
      line, the topping phrase, the total-price line and the thank-you line. */
  lemma SummaryHasSixLines(s: OrderState, name: string, loc: Locale, res: Resources)
    requires SingleLineInputs(name, loc, res)
    ensures SplitLines(OrderSummary(s, name, loc, res)) == SummaryLines(s, name, loc, res)
  {
    var lines := SummaryLines(s, name, loc, res);
    assert NoNewline(": ");
    forall i | 0 <= i < |lines|
      ensures NoNewline(lines[i])
    {
    }
    SplitJoin(lines);
  }

  /** The quantity line can be read back to the order's quantity. */
  lemma SummaryQuantityLine(s: OrderState, name: string, loc: Locale, res: Resources)
    requires SingleLineInputs(name, loc, res)
    requires s.quantity >= 0
    ensures |SplitLines(OrderSummary(s, name, loc, res))| == 6
    ensures var line := SplitLines(OrderSummary(s, name, loc, res))[2];
            && |line| >= |res.quantity| + 2
            && line[..|res.quantity| + 2] == res.quantity + ": "
            && Canonical(line[|res.quantity| + 2..])
            && ParseNat(line[|res.quantity| + 2..]) == s.quantity
  {
    SummaryHasSixLines(s, name, loc, res);
    var line := res.quantity + ": " + IntToString(s.quantity);
    assert line[|res.quantity| + 2..] == NatToString(s.quantity);
    assert line[..|res.quantity| + 2] == res.quantity + ": ";
    ParseNatToString(s.quantity);
  }

  /** The total-price line carries the order's cost, which can be read back
      from the text that follows the resource label. */
  lemma SummaryPriceLine(s: OrderState, name: string, loc: Locale, res: Resources)
    requires SingleLineInputs(name, loc, res)
    requires s.quantity >= 0
    ensures |SplitLines(OrderSummary(s, name, loc, res))| == 6
    ensures var line := SplitLines(OrderSummary(s, name, loc, res))[4];
            && |line| >= |res.totalPrice|
            && line[..|res.totalPrice|] == res.totalPrice
            && ReadPrice(line[|res.totalPrice|..], loc) == Some(Cost(s))
  {
    SummaryHasSixLines(s, name, loc, res);
    var line := res.totalPrice + FormatPrice(Cost(s), loc);
    assert line[|res.totalPrice|..] == FormatPrice(Cost(s), loc);
    ReadFormattedPrice(Cost(s), loc);
  }

  /** Three cups with whipped cream in the US locale cost 18 dollars, shown
      as " $18" after the total-price label. */
  lemma ThreeCupsWithCream(name: string, res: Resources)
    ensures var s := OrderState(3, true, false);
            var lines := SummaryLines(s, name, Locale(true, "$"), res);
            && Cost(s) == 18
            && lines[1] == res.name + ": " + name
            && lines[2] == res.quantity + ": 3"
            && lines[3] == res.withWhippedCream
            && lines[4] == res.totalPrice + " $18"
  {
  }

  /** Sixteen formatted for the US locale and for a euro locale. */
  lemma FormatSixteen()
    ensures FormatPrice(16, Locale(true, "$")) == " $16"
    ensures FormatPrice(16, Locale(false, "€")) == " 16 €"
  {
  }
}
