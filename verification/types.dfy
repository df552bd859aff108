/** The record shapes of the storefront: catalog items and their
    customizations, cart lines, and orders. Optional fields of the TypeScript
    records are `Option` values; money is an exact `real`. */
module Types {

  datatype Option<+T> = None | Some(value: T) {
    function GetOr(default: T): T {
      match this
      case Some(v) => v
      case None => default
    }
  }

  /** The four spice levels a catalog item may carry. */
  datatype SpiceLevel = Mild | Medium | Hot | ExtraHot

  /** The text the storefront uses for a spice level; the menu filter
      compares against this text. */
  function SpiceName(level: SpiceLevel): (name: string)
    ensures name != "all"
  {
    match level
    case Mild => "mild"
    case Medium => "medium"
    case Hot => "hot"
    case ExtraHot => "extra-hot"
  }

  lemma SpiceNameInjective(a: SpiceLevel, b: SpiceLevel)
    requires SpiceName(a) == SpiceName(b)
    ensures a == b
  {
  }

  /** Single-select ("radio") or multi-select ("checkbox"). */
  datatype CustomizationKind = Radio | Checkbox

  datatype CustomizationOption = CustomizationOption(id: string, optionLabel: string, priceModifier: real)

  datatype Customization = Customization(
    id: string,
    name: string,
    kind: CustomizationKind,
    required: bool,
    options: seq<CustomizationOption>)

  datatype MenuItem = MenuItem(
    id: string,
    name: string,
    description: string,
    price: real,
    originalPrice: Option<real>,
    image: string,
    category: string,
    subcategory: string,
    rating: real,
    reviewCount: int,
    isVeg: bool,
    spiceLevel: SpiceLevel,
    dietaryTags: seq<string>,
    prepTime: int,
    isPopular: Option<bool>,
    customizations: Option<seq<Customization>>)

  /** The value stored for one customization on a cart line: either a single
      option id or a list of option ids. */
  datatype Selection = One(optionId: string) | Many(optionIds: seq<string>)

  /** One key/value pair of a cart line's customization record, keyed by
      customization id. The record is represented by the list of its
      entries, in the order `Object.entries` enumerates them. The keys of a
      JavaScript object are distinct; the list does not enforce that, and a
      list with a repeated key is priced once per entry. */
  datatype Choice = Choice(customizationId: string, selection: Selection)

  /** A cart line embeds the whole catalog item by value. */
  datatype CartItem = CartItem(
    id: string,
    menuItem: MenuItem,
    quantity: int,
    customizations: seq<Choice>,
    specialInstructions: Option<string>)

  datatype OrderStatus = Pending | Confirmed | Preparing | OutForDelivery | Delivered | Failed

  /** The text the storefront stores for an order status; the six texts
      are pairwise distinct (`StatusNameInjective`). */
  function StatusName(status: OrderStatus): (name: string)
    ensures |name| > 0
    ensures '-' in name <==> status == OutForDelivery
  {
    match status
    case Pending => "pending"
    case Confirmed => "confirmed"
    case Preparing => "preparing"
    case OutForDelivery => "out-for-delivery"
    case Delivered => "delivered"
    case Failed => "failed"
  }

  lemma StatusNameInjective(a: OrderStatus, b: OrderStatus)
    requires StatusName(a) == StatusName(b)
    ensures a == b
  {
  }

  datatype Address = Address(
    id: string,
    name: string,
    line1: string,
    line2: Option<string>,
    city: string,
    state: string,
    zipCode: string,
    isDefault: bool)

  /** `createdAt` is a timestamp in milliseconds. */
  datatype Order = Order(
    id: string,
    items: seq<CartItem>,
    subtotal: real,
    tax: real,
    deliveryFee: real,
    discount: real,
    total: real,
    status: OrderStatus,
    deliveryAddress: Option<Address>,
    contactNumber: string,
    paymentMethod: string,
    createdAt: int)
}
