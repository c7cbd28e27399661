/** The quantity picker of the product page: a counter kept between 1 and
    the product's stock, and the hand-over to the checkout. */
module Quantity {
  import opened Values
  import opened JsString
  import opened Entities

  /** The quantity a freshly opened picker shows. */
  const InitialQuantity := 1

  /** `handleQuantityChange(n)`: the new value is taken only when it lies
      between 1 and the stock, otherwise the quantity stays. */
  function Change(quantity: int, stock: int, n: int): (r: int)
    ensures 1 <= n <= stock ==> r == n
    ensures !(1 <= n <= stock) ==> r == quantity
  {
    if n >= 1 && n <= stock then n else quantity
  }

  /** What the number field hands to the change handler: `parseInt(value) || 1`,
      so text without a number and a typed `0` both count as 1. */
  function TypedQuantity(value: string): (r: int)
    ensures ParseInt(value).Null? ==> r == 1
    ensures ParseInt(value).Some? && ParseInt(value).value != 0 ==> r == ParseInt(value).value
    ensures ParseInt(value) == Some(0) ==> r == 1
  {
    var parsed := ParseInt(value);
    if TruthyNumber(parsed) then parsed.value else 1
  }

  /** Typing a positive number within the stock selects exactly that number. */
  lemma TypedNumberSelected(quantity: int, stock: int, n: nat)
    requires 1 <= n <= stock
    ensures Change(quantity, stock, TypedQuantity(NatToDecimal(n))) == n
  {
    ParseIntOfDecimal(n);
  }

  /** Clearing the field or typing something that is not a number selects 1
      whenever there is stock. */
  lemma NonNumericSelectsOne(quantity: int, stock: int, value: string)
    requires ParseInt(value).Null? && stock >= 1
    ensures Change(quantity, stock, TypedQuantity(value)) == 1
  {
  }

  /** The minus button is disabled. */
  predicate MinusDisabled(quantity: int) {
    quantity <= 1
  }

  /** The plus button is disabled. */
  predicate PlusDisabled(quantity: int, stock: int) {
    quantity >= stock
  }

  /** Within the allowed range, a button is disabled exactly when its click
      would be refused. */
  lemma DisabledExactlyWhenRefused(quantity: int, stock: int)
    requires 1 <= quantity <= stock
    ensures MinusDisabled(quantity) <==> Change(quantity, stock, quantity - 1) == quantity
    ensures PlusDisabled(quantity, stock) <==> Change(quantity, stock, quantity + 1) == quantity
  {
  }

  /** The total shown under the picker. */
  function Total(price: int, quantity: int): int {
    price * quantity
  }

  /** What the user does in the open picker; the buttons can only be clicked
      while enabled. */
  datatype Action = Minus | Plus | Typed(value: string) | Confirm

  /** The navigation to the checkout: the product and the chosen quantity. */
  datatype ToPayment = ToPayment(product: Product, quantity: int)

  predicate Enabled(quantity: int, stock: int, a: Action) {
    match a
    case Minus => !MinusDisabled(quantity)
    case Plus => !PlusDisabled(quantity, stock)
    case _ => true
  }

  /** One action: the new quantity and the navigation it triggers, if any.
      `handleConfirm` navigates with the current quantity and then resets it. */
  function Step(p: Product, quantity: int, a: Action): (r: (int, Maybe<ToPayment>))
    requires Enabled(quantity, p.stock, a)
    ensures a.Confirm? ==> r == (InitialQuantity, Some(ToPayment(p, quantity)))
    ensures !a.Confirm? ==> r.1.Null?
  {
    match a
    case Minus => (Change(quantity, p.stock, quantity - 1), Null)
    case Plus => (Change(quantity, p.stock, quantity + 1), Null)
    case Typed(value) => (Change(quantity, p.stock, TypedQuantity(value)), Null)
    case Confirm => (InitialQuantity, Some(ToPayment(p, quantity)))
  }

  /** The quantity is at least 1, and within the stock unless it is the
      initial 1 of a product out of stock. */
  predicate InRange(quantity: int, stock: int) {
    1 <= quantity && (quantity <= stock || quantity == InitialQuantity)
  }

  /** Every action keeps the quantity in range, and a navigation always carries
      a quantity in range. */
  lemma StepInRange(p: Product, quantity: int, a: Action)
    requires InRange(quantity, p.stock) && Enabled(quantity, p.stock, a)
    ensures InRange(Step(p, quantity, a).0, p.stock)
    ensures Step(p, quantity, a).1.Some? ==> InRange(Step(p, quantity, a).1.value.quantity, p.stock)
  {
  }

  /** Runs a sequence of actions from a quantity, skipping clicks on disabled
      buttons; returns the final quantity and the navigations made. */
  function Run(p: Product, quantity: int, actions: seq<Action>): (r: (int, seq<ToPayment>))
    decreases |actions|
  {
    if actions == [] then (quantity, [])
    else if !Enabled(quantity, p.stock, actions[0]) then Run(p, quantity, actions[1..])
    else
      var s := Step(p, quantity, actions[0]);
      var rest := Run(p, s.0, actions[1..]);
      (rest.0, (if s.1.Some? then [s.1.value] else []) + rest.1)
  }

  /** From the initial quantity, with any stock, the quantity stays in range
      and every navigation to the checkout carries a quantity in [1, stock]
      (or 1 when the product is out of stock). */
  lemma {:induction false} RunInRange(p: Product, quantity: int, actions: seq<Action>)
    requires InRange(quantity, p.stock)
    ensures InRange(Run(p, quantity, actions).0, p.stock)
    ensures forall k :: 0 <= k < |Run(p, quantity, actions).1| ==>
              InRange(Run(p, quantity, actions).1[k].quantity, p.stock)
              && Run(p, quantity, actions).1[k].product == p
    decreases |actions|
  {
    if actions != [] {
      if !Enabled(quantity, p.stock, actions[0]) {
        RunInRange(p, quantity, actions[1..]);
      } else {
        var s := Step(p, quantity, actions[0]);
        StepInRange(p, quantity, actions[0]);
        RunInRange(p, s.0, actions[1..]);
      }
    }
  }

  /** One more action after a run: it acts on the quantity the run left,
      unless its button is disabled. */
  lemma {:induction false} RunSnoc(p: Product, quantity: int, actions: seq<Action>, a: Action)
    ensures var q := Run(p, quantity, actions).0;
            Run(p, quantity, actions + [a]).0 == if Enabled(q, p.stock, a) then Step(p, q, a).0 else q
    decreases |actions|
  {
    if actions == [] {
      assert actions + [a] == [a];
    } else {
      assert (actions + [a])[0] == actions[0];
      assert (actions + [a])[1..] == actions[1..] + [a];
      if Enabled(quantity, p.stock, actions[0]) {
        RunSnoc(p, Step(p, quantity, actions[0]).0, actions[1..], a);
      } else {
        RunSnoc(p, quantity, actions[1..], a);
      }
    }
  }

  /** One unit more or less changes the total by one unit price. */
  lemma TotalStep(price: int, quantity: int)
    ensures Total(price, quantity + 1) == Total(price, quantity) + price
    ensures Total(price, quantity - 1) == Total(price, quantity) - price
  {
  }

  /** The total shown follows the buttons over a whole session: after any
      actions from a freshly opened picker, a plus click adds one unit price
      and a minus click removes one, unless the button is disabled; the
      fresh picker shows the unit price. */
  lemma TotalFollowsButtons(p: Product, actions: seq<Action>)
    ensures Total(p.price, InitialQuantity) == p.price
    ensures var q := Run(p, InitialQuantity, actions).0;
            Total(p.price, Run(p, InitialQuantity, actions + [Plus]).0)
            == if PlusDisabled(q, p.stock) then Total(p.price, q) else Total(p.price, q) + p.price
    ensures var q := Run(p, InitialQuantity, actions).0;
            Total(p.price, Run(p, InitialQuantity, actions + [Minus]).0)
            == if MinusDisabled(q) then Total(p.price, q) else Total(p.price, q) - p.price
  {
    var q := Run(p, InitialQuantity, actions).0;
    RunInRange(p, InitialQuantity, actions);
    RunSnoc(p, InitialQuantity, actions, Plus);
    RunSnoc(p, InitialQuantity, actions, Minus);
    var plus, minus := Run(p, InitialQuantity, actions + [Plus]).0, Run(p, InitialQuantity, actions + [Minus]).0;
    assert plus == if PlusDisabled(q, p.stock) then q else q + 1;
    assert minus == if MinusDisabled(q) then q else q - 1;
    TotalStep(p.price, q);
  }

  /** For a product in stock, the total shown is always between one unit
      price and the price of the whole stock. */
  lemma TotalWithinStock(p: Product, actions: seq<Action>)
    requires p.stock >= 1 && p.price >= 0
    ensures p.price <= Total(p.price, Run(p, InitialQuantity, actions).0) <= p.price * p.stock
  {
    var q := Run(p, InitialQuantity, actions).0;
    RunInRange(p, InitialQuantity, actions);
    assert 1 <= q <= p.stock;
    MonotoneTotal(p.price, 1, q);
    MonotoneTotal(p.price, q, p.stock);
  }

  /** For a non-negative price, more units never cost less. */
  lemma MonotoneTotal(price: int, a: int, b: int)
    requires price >= 0 && a <= b
    ensures Total(price, a) <= Total(price, b)
  {
    assert Total(price, b) - Total(price, a) == price * (b - a);
  }
}
