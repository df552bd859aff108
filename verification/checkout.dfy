/** The checkout page: the order summary derived from the cart subtotal and
    the chosen delivery type, and what placing the order does to the cart.
    The payment outcome, decided at random in the page, is an input here. */
module Checkout {
  import opened Types
  import opened CartContext

  /** Sales tax, as a fraction of the subtotal. */
  const TaxRate: real := 0.08
  /** The flat delivery charge. */
  const DeliveryCharge: real := 4.99
  /** Delivery is free for subtotals strictly above this amount. */
  const FreeDeliveryAbove: real := 30.0

  datatype DeliveryType = Delivery | Pickup

  /** The figures the order summary shows. There is no discount term. */
  datatype Summary = Summary(subtotal: real, tax: real, deliveryFee: real, total: real)

  /** Pickup never pays for delivery; delivery is charged unless the subtotal
      is strictly above the threshold. */
  function DeliveryFee(subtotal: real, deliveryType: DeliveryType): (fee: real)
    ensures fee == 0.0 || fee == DeliveryCharge
    ensures deliveryType == Pickup ==> fee == 0.0
    ensures deliveryType == Delivery ==> (fee == 0.0 <==> subtotal > FreeDeliveryAbove)
  {
    match deliveryType
    case Delivery => if subtotal > FreeDeliveryAbove then 0.0 else DeliveryCharge
    case Pickup => 0.0
  }

  /** The order summary: 8% tax on the subtotal, the delivery fee, and their
      sum as the total. */
  function OrderSummary(subtotal: real, deliveryType: DeliveryType): (s: Summary)
    ensures s.subtotal == subtotal && s.tax == subtotal * 8.0 / 100.0
    ensures s.deliveryFee == DeliveryFee(subtotal, deliveryType)
    ensures s.total - s.tax - s.deliveryFee == subtotal
    ensures subtotal >= 0.0 ==> s.total >= subtotal
    ensures deliveryType == Pickup ==> s.total == subtotal * 1.08
  {
    var tax := subtotal * TaxRate;
    var fee := DeliveryFee(subtotal, deliveryType);
    Summary(subtotal, tax, fee, subtotal + tax + fee)
  }

  /** The worked example: a subtotal of 16 delivered. */
  lemma WorkedExample()
    ensures OrderSummary(16.0, Delivery) == Summary(16.0, 1.28, 4.99, 22.27)
  {
  }

  /** The same example from the cart: one line of an item at 8 with
      quantity 2 and no customizations. */
  lemma WorkedExampleFromCart(line: CartItem)
    requires line.menuItem.price == 8.0 && line.quantity == 2 && |line.customizations| == 0
    ensures CartTotal([line]) == 16.0
    ensures OrderSummary(CartTotal([line]), Delivery) == Summary(16.0, 1.28, 4.99, 22.27)
  {
    LineWithoutChoices(line);
    assert [line][1..] == [];
  }

  /** A subtotal of exactly 30 still pays for delivery. */
  lemma ThresholdIsStrict()
    ensures OrderSummary(30.0, Delivery).deliveryFee == DeliveryCharge
    ensures OrderSummary(30.0, Pickup).deliveryFee == 0.0
  {
  }

  /** When every line of the cart has a non-negative unit price and quantity,
      the total charged is at least the subtotal. */
  lemma TotalCoversSubtotal(cart: Cart, deliveryType: DeliveryType)
    requires forall i :: 0 <= i < |cart| ==> UnitPrice(cart[i]) >= 0.0 && cart[i].quantity >= 0
    ensures OrderSummary(CartTotal(cart), deliveryType).total >= CartTotal(cart) >= 0.0
  {
    forall i | 0 <= i < |cart|
      ensures LineTotal(cart[i]) >= 0.0
    {
      LineTotalNonNegative(cart[i]);
    }
  }

  /** Where the page leads after the order button, or instead of rendering. */
  datatype Screen = OrderSuccess(orderId: string, total: real) | OrderFailed | CartScreen

  datatype Outcome = Outcome(cart: Cart, screen: Screen)

  /** Placing the order: on success the cart is cleared and the success
      screen receives a fresh order id and the total shown on the page; on
      failure the cart is left as it was. */
  function PlaceOrder(cart: Cart, deliveryType: DeliveryType, paymentSucceeded: bool, now: string): (o: Outcome)
    ensures paymentSucceeded ==> o.cart == [] && CartCount(o.cart) == 0 && CartTotal(o.cart) == 0.0
    ensures paymentSucceeded ==> o.screen.OrderSuccess? && o.screen.orderId == "ORD-" + now &&
                                 o.screen.total == OrderSummary(CartTotal(cart), deliveryType).total
    ensures !paymentSucceeded ==> o.cart == cart && o.screen == OrderFailed
  {
    var total := OrderSummary(CartTotal(cart), deliveryType).total;
    if paymentSucceeded then Outcome(ClearCart(), OrderSuccess("ORD-" + now, total))
    else Outcome(cart, OrderFailed)
  }

  /** The page with an empty cart sends the shopper back to the cart page, so
      no order is ever placed for an empty cart. */
  function CheckoutPage(cart: Cart, deliveryType: DeliveryType, paymentSucceeded: bool, now: string): (o: Outcome)
    ensures |cart| == 0 ==> o == Outcome(cart, CartScreen)
    ensures o.screen.OrderSuccess? ==> |cart| > 0 && o.cart == []
    ensures o.screen.OrderFailed? ==> |cart| > 0 && o.cart == cart
    ensures |cart| > 0 ==> !o.screen.CartScreen? && (o.screen.OrderSuccess? <==> paymentSucceeded)
  {
    if |cart| == 0 then Outcome(cart, CartScreen)
    else PlaceOrder(cart, deliveryType, paymentSucceeded, now)
  }
}
