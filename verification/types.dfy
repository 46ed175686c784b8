/**
 * The records of src/types/index.ts that the storefront logic works on.
 * Money amounts are exact reals (the source uses JavaScript numbers); a
 * quantity is an integer; a point in time is an abstract integer.
 */
module Types {
  import opened Wrappers

  /** A product offered in the catalogue (only the fields the logic reads). */
  datatype Product = Product(id: string, name: string, price: real, category: string)

  /** One line of the shopping cart. */
  datatype CartItem = CartItem(productId: string, name: string, price: real, quantity: int)

  /** `discount_type`: anything other than 'percentage' is treated as a fixed amount. */
  datatype DiscountKind = Percentage | Fixed

  /**
   * A discount-code row. `maxUses` is absent when the row has no limit;
   * `expiresAt` is absent when the row has no expiry date (or one that does
   * not parse as a date, which the page treats the same way).
   */
  datatype DiscountCode = DiscountCode(
    id: string,
    code: string,
    kind: DiscountKind,
    value: real,
    minimumPurchase: real,
    maxUses: Option<int>,
    timesUsed: int,
    active: bool,
    expiresAt: Option<int>)
}
