/** The cart page: its order summary (which always assumes home delivery),
    the free-delivery hint, the amount shown beside each line, and the
    minus and plus buttons, which ask the cart for one unit less or more. */
module CartPage {
  import opened Types
  import opened CartContext
  import Checkout

  /** The page's own fee rule: there is no pickup case here. */
  function DeliveryFee(subtotal: real): (fee: real)
    ensures fee == 0.0 <==> subtotal > Checkout.FreeDeliveryAbove
    ensures fee != 0.0 ==> fee == Checkout.DeliveryCharge
  {
    if subtotal > Checkout.FreeDeliveryAbove then 0.0 else Checkout.DeliveryCharge
  }

  function OrderSummary(subtotal: real): (s: Checkout.Summary)
    ensures s.subtotal == subtotal && s.tax == subtotal * 8.0 / 100.0
    ensures s.total == subtotal + s.tax + s.deliveryFee
    ensures s.deliveryFee == DeliveryFee(subtotal)
  {
    var tax := subtotal * Checkout.TaxRate;
    var fee := DeliveryFee(subtotal);
    Checkout.Summary(subtotal, tax, fee, subtotal + tax + fee)
  }

  /** The cart page's summary is the checkout summary for home delivery, and
      differs from it for pickup exactly when a fee is charged. */
  lemma AgreesWithCheckoutDelivery(subtotal: real)
    ensures OrderSummary(subtotal) == Checkout.OrderSummary(subtotal, Checkout.Delivery)
    ensures OrderSummary(subtotal) == Checkout.OrderSummary(subtotal, Checkout.Pickup)
            <==> subtotal > Checkout.FreeDeliveryAbove
  {
  }

  /** The amount still needed for free delivery, shown only below 30. */
  function FreeDeliveryHint(subtotal: real): (hint: Option<real>)
    ensures hint.Some? <==> subtotal < Checkout.FreeDeliveryAbove
    ensures hint.Some? ==> hint.value > 0.0 && subtotal + hint.value == Checkout.FreeDeliveryAbove
  {
    if subtotal < Checkout.FreeDeliveryAbove then Some(Checkout.FreeDeliveryAbove - subtotal) else None
  }

  /** Whenever the hint shows, delivery is charged; yet adding exactly the
      hinted amount reaches a subtotal of 30, which is still charged, and at
      30 itself there is neither a hint nor free delivery. */
  lemma HintAndFee(subtotal: real)
    ensures FreeDeliveryHint(subtotal).Some? ==> DeliveryFee(subtotal) == Checkout.DeliveryCharge
    ensures FreeDeliveryHint(subtotal).Some? ==>
              DeliveryFee(subtotal + FreeDeliveryHint(subtotal).value) == Checkout.DeliveryCharge
    ensures FreeDeliveryHint(30.0).None? && DeliveryFee(30.0) == Checkout.DeliveryCharge
  {
  }

  /** The amount shown beside a line: base price times quantity. */
  function DisplayedAmount(line: CartItem): (amount: real)
    ensures amount == line.menuItem.price * line.quantity as real
  {
    TimesIsProduct(line.menuItem.price, line.quantity);
    Times(line.menuItem.price, line.quantity)
  }

  /** The amount shown leaves out the customization modifiers, which the
      subtotal includes. */
  lemma DisplayedAmountOmitsModifiers(line: CartItem)
    ensures LineTotal(line) == DisplayedAmount(line)
              + Times(ModifierTotal(line.menuItem, line.customizations), line.quantity)
  {
    var price, extra := line.menuItem.price, ModifierTotal(line.menuItem, line.customizations);
    assert UnitPrice(line) == price + extra;
    TimesDistributes(price, extra, line.quantity);
    assert LineTotal(line) == Times(price + extra, line.quantity);
  }

  /** The sum of the amounts shown beside the lines. */
  function DisplayedSum(cart: Cart): (sum: real)
    ensures (forall i :: 0 <= i < |cart| ==> |cart[i].customizations| == 0) ==> sum == CartTotal(cart)
    decreases |cart|
  {
    if |cart| == 0 then 0.0 else DisplayedAmount(cart[0]) + DisplayedSum(cart[1..])
  }

  const Extra: CustomizationOption := CustomizationOption("extra", "Extra", 1.0)
  const Size: Customization := Customization("size", "Size", Radio, false, [Extra])
  const Tea: MenuItem := MenuItem("tea", "Tea", "", 2.0, None, "", "Drinks", "Hot", 4.0, 0,
                                  true, Mild, [], 5, None, Some([Size]))
  const TeaLine: CartItem := CartItem("tea-1", Tea, 1, [Choice("size", One("extra"))], None)

  /** One line with a one-unit modifier shows 2 while the subtotal is 3. */
  lemma DisplayedSumCanDiffer()
    ensures DisplayedSum([TeaLine]) == 2.0 && CartTotal([TeaLine]) == 3.0
  {
    assert Find(Size.options, HasOptionId("extra")) == Some(Extra);
    assert Find([Size], HasCustomizationId("size")) == Some(Size);
    assert ChoiceModifier(Tea, Choice("size", One("extra"))) == 1.0;
    assert ModifierTotal(Tea, TeaLine.customizations) == 1.0;
  }

  /** The minus button: a line at quantity 1 or less goes; otherwise every
      line with its id holds one unit less and the other lines stay. */
  function Decrease(cart: Cart, line: CartItem): (r: Cart)
    ensures line.quantity <= 1 ==> r == RemoveFromCart(cart, line.id)
    ensures line.quantity > 1 ==> |r| == |cart|
    ensures line.quantity > 1 ==> forall i :: 0 <= i < |cart| ==>
              r[i] == if cart[i].id == line.id then cart[i].(quantity := line.quantity - 1) else cart[i]
  {
    UpdateQuantity(cart, line.id, line.quantity - 1)
  }

  /** The plus button: every line with the id holds one unit more than the
      displayed line and the other lines stay. */
  function Increase(cart: Cart, line: CartItem): (r: Cart)
    ensures line.quantity >= 0 ==> |r| == |cart|
    ensures line.quantity >= 0 ==> forall i :: 0 <= i < |cart| ==>
              r[i] == if cart[i].id == line.id then cart[i].(quantity := line.quantity + 1) else cart[i]
    ensures line.quantity < 0 ==> r == RemoveFromCart(cart, line.id)
  {
    UpdateQuantity(cart, line.id, line.quantity + 1)
  }

  /** In a valid cart the minus button always takes away exactly one unit:
      a line at quantity 1 goes, any other line loses one. */
  lemma DecreaseLowersCountByOne(cart: Cart, k: int)
    requires Valid(cart) && 0 <= k < |cart|
    ensures CartCount(Decrease(cart, cart[k])) == CartCount(cart) - 1
    ensures cart[k].quantity == 1 ==> |Decrease(cart, cart[k])| == |cart| - 1
  {
    if cart[k].quantity == 1 {
      CountAfterRemove(cart, k);
      RemoveUniqueLine(cart, k);
    } else {
      CountAfterUpdate(cart, k, cart[k].quantity - 1);
    }
  }

  /** The plus button adds exactly one unit to a line that is not negative. */
  lemma IncreaseRaisesCountByOne(cart: Cart, k: int)
    requires UniqueIds(cart) && 0 <= k < |cart| && cart[k].quantity >= 0
    ensures CartCount(Increase(cart, cart[k])) == CartCount(cart) + 1
  {
    CountAfterUpdate(cart, k, cart[k].quantity + 1);
  }
}
