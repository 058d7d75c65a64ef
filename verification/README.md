# JustJava coffee order calculator, in Dafny

This project models the order form of the JustJava coffee app
(`MainActivity`). The screen keeps a cup `quantity` and two topping check
boxes, whipped cream and chocolate. Its handlers are:

- the plus button, which adds a cup while the quantity is below 100;
- the minus button, which removes a cup while the quantity is above 1;
- the topping boxes: a click always toggles its box, and while the quantity
  is 0 a click that leaves a box checked shows a toast instead of the price.

From this state the screen computes three things:

- the cost: 5 per cup, plus 1 for whipped cream and 2 for chocolate;
- a price string, whose currency symbol goes before the amount in the US
  locale and after it elsewhere;
- a six-line order summary that is mailed to the shop.

The Android calls are stripped away:

- The screen's state is the immutable `Order.OrderState`.
- Every handler is a pure function that returns the new state and a
  `Feedback`. The feedback is either `Quiet` or the toast the screen would
  show: `TooBigOrder`, `TooSmallOrder` or `OnlyToppings`.
- The locale test, the currency symbol, the user's name and the string
  resources are parameters (`Summary.Locale`, `Summary.Resources`).
- Java's concatenation of an `int` into a string is `Decimal.IntToString`.

Modules:

- `Decimal` (decimal.dfy): decimal rendering of integers and reading it back.
- `Order` (order.dfy): the state, the plus and minus buttons, the topping
  guard, and runs of user actions.
- `Pricing` (pricing.dfy): the cup price and the order cost.
- `Lines` (lines.dfy): joining lines with "\n" and splitting text at "\n".
- `Summary` (summary.dfy): price formatting, the topping phrase and the
  order summary.

A topping click in the model first toggles the box, then applies the guard.
An Android `CheckBox` changes its checked state before it calls its click
listener. So the guard sees the new state. When the guard refuses, the box
stays toggled. Only the price refresh is skipped and the toast is shown.

Three facts of the code that the model keeps:

- The quantity starts at 0, the default of a Java `int` field. The minus
  button's floor of 1 therefore does not hold before the first plus press.
- Chocolate adds 2 to the cup price.
- The summary has six parts: a header line from the `order_summary`
  resource, then the name, quantity, topping, total-price and thank-you
  lines.

## Model

| member | source | states |
|---|---|---|
| `Order.Initial` | app/src/main/java/com/example/android/justjava/MainActivity.java:25 | a new screen has quantity 0, the default of the `int` field, and both boxes unchecked; the unchecked boxes come from the layout, which is not part of this model |
| `Order.Increment` | app/src/main/java/com/example/android/justjava/MainActivity.java:155-165 | below 100, plus adds exactly one cup quietly; at 100 or more, the state is unchanged and the "too big order" toast is shown; the result never exceeds 100 unless the quantity already did; toppings are untouched |
| `Order.Decrement` | app/src/main/java/com/example/android/justjava/MainActivity.java:173-183 | above 1, minus removes exactly one cup quietly; at 1 or below (0 included), the state is unchanged and the "too small order" toast is shown; the result never goes below 1 unless the quantity already was; toppings are untouched |
| `Order.CoffeeIsOrdered` | app/src/main/java/com/example/android/justjava/MainActivity.java:66-77 | the guard refuses exactly when the quantity is 0 and at least one box is checked |
| `Order.ClickTopping` | app/src/main/java/com/example/android/justjava/MainActivity.java:45-63 | a click flips only the clicked box and never the quantity; the "only toppings" toast is shown exactly when the quantity is 0 and a box is checked after the click; otherwise the click is quiet |
| `Order.IncrementUndoesDecrement` | app/src/main/java/com/example/android/justjava/MainActivity.java:155-183 | for 1 < q <= 100, minus then plus returns the same state with no toast |
| `Order.DecrementUndoesIncrement` | app/src/main/java/com/example/android/justjava/MainActivity.java:155-183 | for 1 <= q < 100, plus then minus returns the same state with no toast |
| `Order.ApplyInRange` | app/src/main/java/com/example/android/justjava/MainActivity.java:155-183 | every single action keeps the quantity within [0, 100] |
| `Order.RunInRange` | app/src/main/java/com/example/android/justjava/MainActivity.java:25-183 | from a quantity in [0, 100], such as the initial 0, every sequence of button and box clicks keeps the quantity in [0, 100] |
| `Order.RunKeepsCoffee` | app/src/main/java/com/example/android/justjava/MainActivity.java:173-183 | once the quantity is at least 1, no sequence of actions brings it back below 1 |
| `Order.RunFromZeroWithoutPlus` | app/src/main/java/com/example/android/justjava/MainActivity.java:173-183 | from 0, any sequence of actions without a plus press leaves the quantity at 0, because minus is a no-op there |
| `Order.CounterKeepsToppings` | app/src/main/java/com/example/android/justjava/MainActivity.java:155-186 | any sequence of plus and minus presses leaves both topping boxes as they were |
| `Order.ClicksKeepQuantity` | app/src/main/java/com/example/android/justjava/MainActivity.java:45-63 | any sequence of topping clicks leaves the quantity as it was |
| `Order.ToppingsAcceptedAfterCoffee` | app/src/main/java/com/example/android/justjava/MainActivity.java:66-77 | once a coffee is ordered, the guard accepts in every later state and topping clicks are always quiet |
| `Pricing.CupPrice` | app/src/main/java/com/example/android/justjava/MainActivity.java:141-148 | a cup costs between 5 and 8; the surcharge above 5 is odd exactly when whipped cream is chosen, and it is at least 2 exactly when chocolate is chosen |
| `Pricing.CupPriceTable` | app/src/main/java/com/example/android/justjava/MainActivity.java:27-29 | no topping gives 5, cream 6, chocolate 7, both 8; two cups with both toppings cost 16 |
| `Pricing.CupPriceInjective` | app/src/main/java/com/example/android/justjava/MainActivity.java:141-148 | two topping choices with the same cup price are the same choice |
| `Pricing.Cost` | app/src/main/java/com/example/android/justjava/MainActivity.java:141-150 | the cost is 0 exactly when the quantity is 0; it is non-negative for a non-negative quantity and lies between 5 and 8 times the quantity |
| `Pricing.CostIsCupByCup` | app/src/main/java/com/example/android/justjava/MainActivity.java:141-150 | the product equals billing the cups one at a time |
| `Pricing.CostFitsInInt` | app/src/main/java/com/example/android/justjava/MainActivity.java:149 | for a quantity in [0, 100] the cost is in [0, 800], so the Java `int` product cannot wrap around |
| `Pricing.ReachableCostBounded` | app/src/main/java/com/example/android/justjava/MainActivity.java:141-186 | every state reached from the initial screen costs between 0 and 800 |
| `Pricing.IncrementAddsOneCup` | app/src/main/java/com/example/android/justjava/MainActivity.java:141-168 | an accepted plus press raises the cost by exactly one cup price |
| `Pricing.DecrementRemovesOneCup` | app/src/main/java/com/example/android/justjava/MainActivity.java:141-186 | an accepted minus press lowers the cost by exactly one cup price |
| `Decimal.NatToString` | app/src/main/java/com/example/android/justjava/MainActivity.java:102 | a natural number renders as a non-empty string of digits with no leading zero; the string begins with '0' exactly when the number is 0 |
| `Decimal.IntToString` | app/src/main/java/com/example/android/justjava/MainActivity.java:130 | an `int` renders as a canonical numeral, with a '-' in front when it is negative, and never contains a newline |
| `Decimal.IntToStringValue` | app/src/main/java/com/example/android/justjava/MainActivity.java:130 | a rendered `int` reads back as its value: a non-negative number parses to itself, and the digits after the minus sign of a negative number parse to its magnitude |
| `Decimal.ParseNatToString` | app/src/main/java/com/example/android/justjava/MainActivity.java:102 | reading a rendered number back gives the number |
| `Decimal.NatToStringParse` | app/src/main/java/com/example/android/justjava/MainActivity.java:102 | rendering the value of a canonical numeral gives the numeral back |
| `Decimal.NatToStringInjective` | app/src/main/java/com/example/android/justjava/MainActivity.java:102 | distinct numbers render differently |
| `Summary.FormatPrice` | app/src/main/java/com/example/android/justjava/MainActivity.java:97-107 | the price string starts with a space; in the US the symbol comes next and the amount fills the rest; elsewhere the amount comes next, then a space, and the string ends with the symbol; the length adds up; no newline appears unless the symbol has one |
| `Summary.ReadFormattedPrice` | app/src/main/java/com/example/android/justjava/MainActivity.java:97-107 | the amount of a formatted non-negative price can be read back exactly, for either symbol placement |
| `Summary.FormatReadPrice` | app/src/main/java/com/example/android/justjava/MainActivity.java:97-107 | any text that reads as a price is exactly that price formatted for the locale |
| `Summary.FormatSixteen` | app/src/main/java/com/example/android/justjava/MainActivity.java:101-105 | 16 formats as " $16" in the US locale and as " 16 €" in a euro locale |
| `Summary.ToppingDescription` | app/src/main/java/com/example/android/justjava/MainActivity.java:118-127 | both boxes give the two-toppings phrase, neither gives the no-toppings phrase, chocolate alone gives the chocolate phrase, and whipped cream alone gives the whipped-cream phrase |
| `Summary.ToppingDescriptionInjective` | app/src/main/java/com/example/android/justjava/MainActivity.java:118-127 | when the four phrases differ, the phrase identifies the topping combination |
| `Summary.OrderSummary` | app/src/main/java/com/example/android/justjava/MainActivity.java:114-134 | the summary is the header, name, quantity, topping, total-price and thank-you lines joined by single newlines, in that order |
| `Summary.SummaryHasSixLines` | app/src/main/java/com/example/android/justjava/MainActivity.java:128-133 | when no input contains a newline, splitting the summary at newlines yields exactly those six lines |
| `Summary.SummaryQuantityLine` | app/src/main/java/com/example/android/justjava/MainActivity.java:130 | the third line is the quantity label, ": " and a numeral that reads back as the quantity |
| `Summary.SummaryPriceLine` | app/src/main/java/com/example/android/justjava/MainActivity.java:132 | the fifth line is the total-price label followed by a formatted price that reads back as the order's cost |
| `Summary.ThreeCupsWithCream` | app/src/main/java/com/example/android/justjava/MainActivity.java:114-150 | three cups with whipped cream cost 18, and in the US locale the summary lines carry the name, "3", the whipped-cream phrase and " $18" |
| `Lines.SplitJoin` | app/src/main/java/com/example/android/justjava/MainActivity.java:128-133 | lines without newlines, joined by "\n", split back into the same lines |
| `Lines.JoinSplit` | app/src/main/java/com/example/android/justjava/MainActivity.java:128-133 | joining the lines of any text by "\n" gives the text back |

## Left out

- Android lifecycle and view plumbing (`onCreate`, `initialUISetup`'s
  listener registration, `findViewById`, `displayQuantity`,
  `displayMessage`): these only move values to and from the screen. The
  price refresh after a handler is not modelled. Only the handler's
  decision is modelled.
- Toast construction and display: each toast is a returned `Feedback` value.
- `sendOrder`: building the mail intent and handing it to the platform is
  I/O. The mailed body is `Summary.OrderSummary`.
- `Locale.getDefault`, `Currency.getInstance` and `getSymbol`: these are
  library calls. The model takes their result as `Summary.Locale`.
- Summary.FormatPrice: assumes the default locale has a currency.
  `Currency.getInstance` throws for a locale whose country is not a
  supported ISO 3166 code, and returns null for a territory without a
  currency, after which `getSymbol` throws. Then `constructTotalPrice`
  fails, and with it the plus and minus handlers (after the quantity has
  changed), an accepted topping click and the order summary. The model has
  no such failure.
- `getString` resource lookups and the name field's text: these are opaque
  string parameters.
- `String.format(Locale.US, "%d", …)` in `displayQuantity`: it belongs to the
  display, which is left out. Its output would match `Decimal.IntToString`.
- Java's 32-bit `int`: quantities and costs are unbounded integers. In every
  reachable state the values are at most 800 (`Pricing.CostFitsInInt`), so no
  wrap-around can occur.
- Summary.ReadFormattedPrice: covers non-negative costs only. Every
  reachable cost is non-negative.
