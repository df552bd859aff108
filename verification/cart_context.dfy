/** The cart state of the storefront: an ordered sequence of cart lines, the
    four operations that replace it (add, remove, update quantity, clear) and
    the two folds that read it (the price total with customization
    modifiers, and the item count). Each operation is a pure function from
    the old cart to the new one. */
module CartContext {
  import opened Types
  import opened Sequences

  type Cart = seq<CartItem>

  /** JavaScript's `Array.prototype.find`: the first element satisfying `p`. */
  function Find<T>(s: seq<T>, p: T -> bool): (r: Option<T>)
    ensures r.None? <==> forall i :: 0 <= i < |s| ==> !p(s[i])
    ensures r.Some? ==> exists k :: 0 <= k < |s| && s[k] == r.value && p(s[k]) &&
                                    forall j :: 0 <= j < k ==> !p(s[j])
    decreases |s|
  {
    if |s| == 0 then None
    else if p(s[0]) then Some(s[0])
    else
      var r := Find(s[1..], p);
      assert r.Some? ==> exists k :: 0 <= k < |s[1..]| && s[1..][k] == r.value && p(s[1..][k]) &&
                                     forall j :: 0 <= j < k ==> !p(s[1..][j]);
      assert r.Some? ==> exists k :: 1 <= k < |s| && s[k] == r.value && p(s[k]) &&
                                     forall j :: 1 <= j < k ==> !p(s[j]);
      r
  }

  // ---------------------------------------------------------------------
  // Cart operations

  /** The id of a new line: the menu item's id, a dash, and the current
      time, which the caller supplies. */
  function LineId(menuItem: MenuItem, now: string): (id: string)
    ensures |id| == |menuItem.id| + 1 + |now|
    ensures id[..|menuItem.id|] == menuItem.id && id[|menuItem.id|] == '-' && id[|menuItem.id| + 1..] == now
  {
    menuItem.id + "-" + now
  }

  /** Appends exactly one new line; existing lines are never merged with it. */
  function AddToCart(cart: Cart, menuItem: MenuItem, quantity: int, customizations: Option<seq<Choice>>,
                     specialInstructions: Option<string>, now: string): (r: Cart)
    ensures |r| == |cart| + 1 && r[..|cart|] == cart
    ensures r[|cart|].id == LineId(menuItem, now)
    ensures r[|cart|].menuItem == menuItem && r[|cart|].quantity == quantity
    ensures r[|cart|].specialInstructions == specialInstructions
    ensures customizations.None? ==> r[|cart|].customizations == []
    ensures customizations.Some? ==> r[|cart|].customizations == customizations.value
  {
    var line := CartItem(LineId(menuItem, now), menuItem, quantity, customizations.GetOr([]), specialInstructions);
    cart + [line]
  }

  function OtherThan(id: string): CartItem -> bool {
    (line: CartItem) => line.id != id
  }

  /** Keeps exactly the lines whose id differs from `id`, in their order;
      every line carrying `id` goes, not just the first. */
  function RemoveFromCart(cart: Cart, id: string): (r: Cart)
    ensures forall i :: 0 <= i < |r| ==> r[i].id != id && r[i] in cart
    ensures forall i :: 0 <= i < |cart| && cart[i].id != id ==> cart[i] in r
  {
    FilterMembers(cart, OtherThan(id));
    Filter(cart, OtherThan(id))
  }

  /** Every line carrying `id` gets the new quantity; all else is kept. */
  function SetQuantity(cart: Cart, id: string, quantity: int): (r: Cart)
    ensures |r| == |cart|
    ensures forall i :: 0 <= i < |cart| ==>
              r[i] == if cart[i].id == id then cart[i].(quantity := quantity) else cart[i]
    decreases |cart|
  {
    if |cart| == 0 then []
    else
      var head := if cart[0].id == id then cart[0].(quantity := quantity) else cart[0];
      [head] + SetQuantity(cart[1..], id, quantity)
  }

  /** A quantity of zero or less removes the lines; otherwise the matching
      lines take the new quantity, in place, and nothing else changes. */
  function UpdateQuantity(cart: Cart, id: string, quantity: int): (r: Cart)
    ensures quantity <= 0 ==> r == RemoveFromCart(cart, id)
    ensures quantity > 0 ==> |r| == |cart|
    ensures quantity > 0 ==> forall i :: 0 <= i < |cart| && cart[i].id == id ==>
              r[i].quantity == quantity && r[i] == cart[i].(quantity := quantity)
    ensures quantity > 0 ==> forall i :: 0 <= i < |cart| && cart[i].id != id ==> r[i] == cart[i]
  {
    if quantity <= 0 then RemoveFromCart(cart, id) else SetQuantity(cart, id, quantity)
  }

  function ClearCart(): (r: Cart)
    ensures |r| == 0 && CartTotal(r) == 0.0 && CartCount(r) == 0
  {
    []
  }

  // ---------------------------------------------------------------------
  // Pricing

  function HasOptionId(optionId: string): CustomizationOption -> bool {
    (o: CustomizationOption) => o.id == optionId
  }

  function HasCustomizationId(customizationId: string): Customization -> bool {
    (c: Customization) => c.id == customizationId
  }

  /** The price modifier of one selected option id within a customization:
      that of the first option carrying the id, or zero when none does. */
  function OptionModifier(c: Customization, optionId: string): (m: real)
    ensures (forall i :: 0 <= i < |c.options| ==> c.options[i].id != optionId) ==> m == 0.0
    ensures (exists i :: 0 <= i < |c.options| && c.options[i].id == optionId) ==>
              exists k :: 0 <= k < |c.options| && c.options[k].id == optionId && m == c.options[k].priceModifier &&
                          forall j :: 0 <= j < k ==> c.options[j].id != optionId
  {
    match Find(c.options, HasOptionId(optionId))
    case Some(o) => o.priceModifier
    case None => 0.0
  }

  /** The option ids a selection names: a single option id is treated as
      the one-element list, a list as itself. */
  function SelectedIds(selection: Selection): (ids: seq<string>)
    ensures selection.One? ==> ids == [selection.optionId]
    ensures selection.Many? ==> ids == selection.optionIds
  {
    match selection
    case One(optionId) => [optionId]
    case Many(optionIds) => optionIds
  }

  /** The sum of the modifiers of a list of selected option ids. */
  function SelectionModifier(c: Customization, optionIds: seq<string>): (m: real)
    ensures (forall i, j :: 0 <= i < |optionIds| && 0 <= j < |c.options| ==> c.options[j].id != optionIds[i]) ==> m == 0.0
    decreases |optionIds|
  {
    if |optionIds| == 0 then 0.0
    else OptionModifier(c, optionIds[0]) + SelectionModifier(c, optionIds[1..])
  }

  /** Each selected id is priced on its own, so the modifier of a list is
      the sum over its parts. */
  lemma {:induction false} SelectionModifierAppend(c: Customization, a: seq<string>, b: seq<string>)
    ensures SelectionModifier(c, a + b) == SelectionModifier(c, a) + SelectionModifier(c, b)
    decreases |a|
  {
    if |a| > 0 {
      assert (a + b)[1..] == a[1..] + b;
      SelectionModifierAppend(c, a[1..], b);
    } else {
      assert a + b == b;
    }
  }

  /** A one-element list adds the modifier of its option. */
  lemma SelectionModifierSingleton(c: Customization, optionId: string)
    ensures SelectionModifier(c, [optionId]) == OptionModifier(c, optionId)
  {
  }

  /** What one entry of a line's customization record adds to the unit
      price: the modifiers of its selected options within the item's first
      customization carrying the entry's key, and nothing when the item has
      no customizations or none with that key. */
  function ChoiceModifier(item: MenuItem, choice: Choice): (m: real)
    ensures item.customizations.None? ==> m == 0.0
    ensures (item.customizations.Some? &&
             forall i :: 0 <= i < |item.customizations.value| ==>
                           item.customizations.value[i].id != choice.customizationId) ==> m == 0.0
    ensures item.customizations.Some? ==>
              forall k :: 0 <= k < |item.customizations.value| &&
                          item.customizations.value[k].id == choice.customizationId &&
                          (forall j :: 0 <= j < k ==> item.customizations.value[j].id != choice.customizationId) ==>
                m == SelectionModifier(item.customizations.value[k], SelectedIds(choice.selection))
  {
    if item.customizations.None? then 0.0
    else
      match Find(item.customizations.value, HasCustomizationId(choice.customizationId))
      case None => 0.0
      case Some(c) => SelectionModifier(c, SelectedIds(choice.selection))
  }

  /** The sum of what all entries of a customization record add. */
  function ModifierTotal(item: MenuItem, choices: seq<Choice>): (m: real)
    ensures item.customizations.None? ==> m == 0.0
    decreases |choices|
  {
    if |choices| == 0 then 0.0
    else ChoiceModifier(item, choices[0]) + ModifierTotal(item, choices[1..])
  }

  /** Each entry of the record is priced on its own, so the modifier total
      of a record is the sum over its parts. */
  lemma {:induction false} ModifierTotalAppend(item: MenuItem, a: seq<Choice>, b: seq<Choice>)
    ensures ModifierTotal(item, a + b) == ModifierTotal(item, a) + ModifierTotal(item, b)
    decreases |a|
  {
    if |a| > 0 {
      assert (a + b)[1..] == a[1..] + b;
      ModifierTotalAppend(item, a[1..], b);
    } else {
      assert a + b == b;
    }
  }

  /** A record with one entry adds what that entry adds. */
  lemma ModifierTotalSingleton(item: MenuItem, choice: Choice)
    ensures ModifierTotal(item, [choice]) == ChoiceModifier(item, choice)
  {
  }

  /** The price of one unit of a line: the base price plus the modifiers of
      the options the line selects. */
  function UnitPrice(line: CartItem): (p: real)
    ensures p == line.menuItem.price + ModifierTotal(line.menuItem, line.customizations)
    ensures line.menuItem.customizations.None? ==> p == line.menuItem.price
    ensures |line.customizations| == 0 ==> p == line.menuItem.price
  {
    line.menuItem.price + ModifierTotal(line.menuItem, line.customizations)
  }

  /** A price taken `n` times, written as repeated addition so that sums of
      line totals stay within linear arithmetic; `TimesIsProduct` shows it is
      the product of the price and `n`. */
  function Times(price: real, n: int): real
    decreases if n < 0 then -n else n
  {
    if n == 0 then 0.0
    else if n > 0 then Times(price, n - 1) + price
    else Times(price, n + 1) - price
  }

  lemma {:induction false} TimesIsProduct(price: real, n: int)
    ensures Times(price, n) == price * n as real
    decreases if n < 0 then -n else n
  {
    if n > 0 {
      TimesIsProduct(price, n - 1);
    } else if n < 0 {
      TimesIsProduct(price, n + 1);
    }
  }

  lemma {:induction false} TimesDistributes(a: real, b: real, n: int)
    ensures Times(a + b, n) == Times(a, n) + Times(b, n)
    decreases if n < 0 then -n else n
  {
    if n > 0 {
      TimesDistributes(a, b, n - 1);
    } else if n < 0 {
      TimesDistributes(a, b, n + 1);
    }
  }

  lemma {:induction false} TimesNonNegative(a: real, n: int)
    requires a >= 0.0 && n >= 0
    ensures Times(a, n) >= 0.0
    decreases n
  {
    if n > 0 {
      TimesNonNegative(a, n - 1);
    }
  }

  /** A line's contribution to the subtotal: unit price times quantity. */
  function LineTotal(line: CartItem): (t: real)
    ensures t == UnitPrice(line) * line.quantity as real
  {
    var unit := UnitPrice(line);
    TimesIsProduct(unit, line.quantity);
    Times(unit, line.quantity)
  }

  /** The cart's subtotal: the sum of the line totals. */
  function CartTotal(cart: Cart): (total: real)
    ensures |cart| == 0 ==> total == 0.0
    ensures (forall i :: 0 <= i < |cart| ==> LineTotal(cart[i]) >= 0.0) ==> total >= 0.0
    decreases |cart|
  {
    if |cart| == 0 then 0.0 else LineTotal(cart[0]) + CartTotal(cart[1..])
  }

  /** The number of units in the cart (not the number of lines). */
  function CartCount(cart: Cart): (count: int)
    ensures |cart| == 0 ==> count == 0
    ensures (forall i :: 0 <= i < |cart| ==> cart[i].quantity >= 1) ==> count >= |cart|
    decreases |cart|
  {
    if |cart| == 0 then 0 else cart[0].quantity + CartCount(cart[1..])
  }

  // ---------------------------------------------------------------------
  // The cart invariant

  ghost predicate UniqueIds(cart: Cart) {
    forall i, j :: 0 <= i < |cart| && 0 <= j < |cart| && cart[i].id == cart[j].id ==> i == j
  }

  ghost predicate Fresh(cart: Cart, id: string) {
    forall i :: 0 <= i < |cart| ==> cart[i].id != id
  }

  /** Line ids are distinct and every line holds at least one unit. */
  ghost predicate Valid(cart: Cart) {
    UniqueIds(cart) && forall i :: 0 <= i < |cart| ==> cart[i].quantity >= 1
  }

  lemma AddPreservesValid(cart: Cart, menuItem: MenuItem, quantity: int, customizations: Option<seq<Choice>>,
                          specialInstructions: Option<string>, now: string)
    requires Valid(cart) && Fresh(cart, LineId(menuItem, now)) && quantity >= 1
    ensures Valid(AddToCart(cart, menuItem, quantity, customizations, specialInstructions, now))
  {
  }

  lemma {:induction false} RemovePreservesValid(cart: Cart, id: string)
    requires Valid(cart)
    ensures Valid(RemoveFromCart(cart, id))
    ensures Fresh(RemoveFromCart(cart, id), id)
    decreases |cart|
  {
    if |cart| > 0 {
      RemovePreservesValid(cart[1..], id);
      var rest := RemoveFromCart(cart[1..], id);
      assert RemoveFromCart(cart, id) == (if cart[0].id != id then [cart[0]] else []) + rest;
      assert forall i :: 0 <= i < |rest| ==> rest[i] in cart[1..];
      assert forall i :: 0 <= i < |rest| ==> rest[i].id != cart[0].id;
    }
  }

  lemma UpdatePreservesValid(cart: Cart, id: string, quantity: int)
    requires Valid(cart)
    ensures Valid(UpdateQuantity(cart, id, quantity))
  {
    if quantity <= 0 {
      RemovePreservesValid(cart, id);
    } else {
      var r := UpdateQuantity(cart, id, quantity);
      assert forall i :: 0 <= i < |r| ==> r[i].id == cart[i].id;
    }
  }

  // ---------------------------------------------------------------------
  // Properties of the operations

  /** Removing distributes over concatenation, so relative order is kept. */
  lemma RemoveAppend(a: Cart, b: Cart, id: string)
    ensures RemoveFromCart(a + b, id) == RemoveFromCart(a, id) + RemoveFromCart(b, id)
  {
    FilterAppend(a, b, OtherThan(id));
  }

  /** The lines kept appear in the order they had in the cart. */
  lemma RemoveKeepsOrder(cart: Cart, id: string)
    ensures IsSubseq(RemoveFromCart(cart, id), cart)
  {
    FilterIsSubseq(cart, OtherThan(id));
  }

  lemma RemoveIdempotent(cart: Cart, id: string)
    ensures RemoveFromCart(RemoveFromCart(cart, id), id) == RemoveFromCart(cart, id)
  {
    var r := RemoveFromCart(cart, id);
    FilterKeepsAll(r, OtherThan(id));
  }

  lemma RemoveFreshIsIdentity(cart: Cart, id: string)
    requires Fresh(cart, id)
    ensures RemoveFromCart(cart, id) == cart
  {
    FilterKeepsAll(cart, OtherThan(id));
  }

  /** Removing the line just added, by its fresh id, gives back the cart. */
  lemma RemoveUndoesAdd(cart: Cart, menuItem: MenuItem, quantity: int, customizations: Option<seq<Choice>>,
                        specialInstructions: Option<string>, now: string)
    requires Fresh(cart, LineId(menuItem, now))
    ensures RemoveFromCart(AddToCart(cart, menuItem, quantity, customizations, specialInstructions, now),
                           LineId(menuItem, now)) == cart
  {
    var id := LineId(menuItem, now);
    var r := AddToCart(cart, menuItem, quantity, customizations, specialInstructions, now);
    assert r == cart + [r[|cart|]];
    RemoveAppend(cart, [r[|cart|]], id);
    RemoveFreshIsIdentity(cart, id);
    FilterOfSingleton(r[|cart|], OtherThan(id));
  }

  /** Adding the same item with the same customizations twice gives two
      separate lines. */
  lemma AddTwiceNeverMerges(cart: Cart, menuItem: MenuItem, quantity: int, customizations: Option<seq<Choice>>,
                            specialInstructions: Option<string>, now1: string, now2: string)
    ensures var r := AddToCart(AddToCart(cart, menuItem, quantity, customizations, specialInstructions, now1),
                               menuItem, quantity, customizations, specialInstructions, now2);
            |r| == |cart| + 2 && r[..|cart|] == cart &&
            r[|cart|].menuItem == r[|cart| + 1].menuItem == menuItem &&
            CartCount(r) == CartCount(cart) + 2 * quantity
  {
    var r1 := AddToCart(cart, menuItem, quantity, customizations, specialInstructions, now1);
    var r := AddToCart(r1, menuItem, quantity, customizations, specialInstructions, now2);
    assert r1[..|cart|] == cart;
    assert r[..|cart|] == r1[..|r1|][..|cart|];
    CountAfterAdd(cart, menuItem, quantity, customizations, specialInstructions, now1);
    CountAfterAdd(r1, menuItem, quantity, customizations, specialInstructions, now2);
  }

  lemma {:induction false} CartTotalAppend(a: Cart, b: Cart)
    ensures CartTotal(a + b) == CartTotal(a) + CartTotal(b)
    decreases |a|
  {
    if |a| == 0 {
      assert a + b == b;
    } else {
      assert (a + b)[1..] == a[1..] + b;
      CartTotalAppend(a[1..], b);
    }
  }

  lemma {:induction false} CartCountAppend(a: Cart, b: Cart)
    ensures CartCount(a + b) == CartCount(a) + CartCount(b)
    decreases |a|
  {
    if |a| == 0 {
      assert a + b == b;
    } else {
      assert (a + b)[1..] == a[1..] + b;
      CartCountAppend(a[1..], b);
    }
  }

  /** Adding a line raises the count by its quantity. */
  lemma CountAfterAdd(cart: Cart, menuItem: MenuItem, quantity: int, customizations: Option<seq<Choice>>,
                      specialInstructions: Option<string>, now: string)
    ensures CartCount(AddToCart(cart, menuItem, quantity, customizations, specialInstructions, now))
            == CartCount(cart) + quantity
  {
    var r := AddToCart(cart, menuItem, quantity, customizations, specialInstructions, now);
    assert r == cart + [r[|cart|]];
    CartCountAppend(cart, [r[|cart|]]);
  }

  /** Adding a line raises the total by that line's total. */
  lemma TotalAfterAdd(cart: Cart, menuItem: MenuItem, quantity: int, customizations: Option<seq<Choice>>,
                      specialInstructions: Option<string>, now: string)
    ensures var r := AddToCart(cart, menuItem, quantity, customizations, specialInstructions, now);
            CartTotal(r) == CartTotal(cart) + LineTotal(r[|cart|])
  {
    var r := AddToCart(cart, menuItem, quantity, customizations, specialInstructions, now);
    assert r == cart + [r[|cart|]];
    CartTotalAppend(cart, [r[|cart|]]);
  }

  /** With distinct ids, removing the line at position `k` by its id takes
      out that line alone. */
  lemma RemoveUniqueLine(cart: Cart, k: int)
    requires UniqueIds(cart) && 0 <= k < |cart|
    ensures RemoveFromCart(cart, cart[k].id) == cart[..k] + cart[k + 1..]
  {
    UniqueSplit(cart, k);
    RemoveBetween(cart[..k], cart[k], cart[k + 1..]);
  }

  /** The lines before and after a line of a cart with distinct ids all
      carry other ids. */
  lemma UniqueSplit(cart: Cart, k: int)
    requires UniqueIds(cart) && 0 <= k < |cart|
    ensures cart == cart[..k] + [cart[k]] + cart[k + 1..]
    ensures Fresh(cart[..k], cart[k].id) && Fresh(cart[k + 1..], cart[k].id)
  {
    assert cart == cart[..k] + [cart[k]] + cart[k + 1..];
    var before, after := cart[..k], cart[k + 1..];
    forall i | 0 <= i < |before|
      ensures before[i].id != cart[k].id
    {
      assert before[i] == cart[i];
    }
    forall i | 0 <= i < |after|
      ensures after[i].id != cart[k].id
    {
      assert after[i] == cart[k + 1 + i];
    }
  }

  /** Removing by the id of a line whose id no other line carries takes out
      that line alone. */
  lemma RemoveBetween(before: Cart, line: CartItem, after: Cart)
    requires Fresh(before, line.id) && Fresh(after, line.id)
    ensures RemoveFromCart(before + [line] + after, line.id) == before + after
  {
    var id := line.id;
    calc {
      RemoveFromCart(before + [line] + after, id);
      == { RemoveAppend(before + [line], after, id); }
      RemoveFromCart(before + [line], id) + RemoveFromCart(after, id);
      == { RemoveAppend(before, [line], id); }
      RemoveFromCart(before, id) + RemoveFromCart([line], id) + RemoveFromCart(after, id);
      == { RemoveFreshIsIdentity(before, id); RemoveFreshIsIdentity(after, id);
           FilterOfSingleton(line, OtherThan(id)); }
      before + after;
    }
  }

  lemma TotalBetween(before: Cart, line: CartItem, after: Cart)
    ensures CartTotal(before + [line] + after) == CartTotal(before) + LineTotal(line) + CartTotal(after)
  {
    CartTotalAppend(before + [line], after);
    CartTotalAppend(before, [line]);
    assert [line][1..] == [];
  }

  /** Removing a line lowers the total by exactly that line's total. */
  lemma TotalAfterRemove(cart: Cart, k: int)
    requires UniqueIds(cart) && 0 <= k < |cart|
    ensures CartTotal(RemoveFromCart(cart, cart[k].id)) == CartTotal(cart) - LineTotal(cart[k])
  {
    var before, line, after := cart[..k], cart[k], cart[k + 1..];
    UniqueSplit(cart, k);
    RemoveBetween(before, line, after);
    TotalBetween(before, line, after);
    CartTotalAppend(before, after);
  }

  lemma CountBetween(before: Cart, line: CartItem, after: Cart)
    ensures CartCount(before + [line] + after) == CartCount(before) + line.quantity + CartCount(after)
  {
    CartCountAppend(before + [line], after);
    CartCountAppend(before, [line]);
    assert [line][1..] == [];
  }

  /** Removing a line lowers the count by exactly that line's quantity. */
  lemma CountAfterRemove(cart: Cart, k: int)
    requires UniqueIds(cart) && 0 <= k < |cart|
    ensures CartCount(RemoveFromCart(cart, cart[k].id)) == CartCount(cart) - cart[k].quantity
  {
    var before, line, after := cart[..k], cart[k], cart[k + 1..];
    UniqueSplit(cart, k);
    RemoveBetween(before, line, after);
    CountBetween(before, line, after);
    CartCountAppend(before, after);
  }

  /** A line with a non-negative unit price and quantity costs nothing
      negative. */
  lemma LineTotalNonNegative(line: CartItem)
    requires UnitPrice(line) >= 0.0 && line.quantity >= 0
    ensures LineTotal(line) >= 0.0
  {
    TimesNonNegative(UnitPrice(line), line.quantity);
  }

  /** With distinct ids, setting a positive quantity on one line changes the
      count by the difference of the quantities. */
  lemma {:induction false} CountAfterUpdate(cart: Cart, k: int, quantity: int)
    requires UniqueIds(cart) && 0 <= k < |cart| && quantity > 0
    ensures CartCount(UpdateQuantity(cart, cart[k].id, quantity)) == CartCount(cart) - cart[k].quantity + quantity
    decreases |cart|
  {
    var id := cart[k].id;
    var r := UpdateQuantity(cart, id, quantity);
    assert r[1..] == SetQuantity(cart[1..], id, quantity);
    if k == 0 {
      assert forall i :: 0 <= i < |cart[1..]| ==> cart[1..][i].id != id by {
        forall i | 0 <= i < |cart[1..]|
          ensures cart[1..][i].id != id
        {
          assert cart[1..][i] == cart[i + 1];
        }
      }
      assert r[1..] == cart[1..];
    } else {
      assert UniqueIds(cart[1..]) by {
        forall i, j | 0 <= i < |cart[1..]| && 0 <= j < |cart[1..]| && cart[1..][i].id == cart[1..][j].id
          ensures i == j
        {
          assert cart[i + 1].id == cart[j + 1].id;
        }
      }
      assert cart[1..][k - 1] == cart[k];
      CountAfterUpdate(cart[1..], k - 1, quantity);
      assert cart[0].id != id;
    }
  }

  /** Setting the same quantity twice is the same as setting it once. */
  lemma UpdateIdempotent(cart: Cart, id: string, quantity: int)
    ensures UpdateQuantity(UpdateQuantity(cart, id, quantity), id, quantity) == UpdateQuantity(cart, id, quantity)
  {
    if quantity <= 0 {
      RemoveIdempotent(cart, id);
    }
  }

  /** A single option id resolves exactly as the list holding only it. */
  lemma OneIsSingletonList(item: MenuItem, key: string, optionId: string)
    ensures ChoiceModifier(item, Choice(key, One(optionId))) == ChoiceModifier(item, Choice(key, Many([optionId])))
  {
  }

  /** A line whose customization record is empty is priced at its base price. */
  lemma LineWithoutChoices(line: CartItem)
    requires |line.customizations| == 0
    ensures LineTotal(line) == line.menuItem.price * line.quantity as real
  {
    TimesIsProduct(line.menuItem.price, line.quantity);
  }
}
