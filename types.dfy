/** The catalogue entities shared by the cart, the product pages and the checkout. */
module Types {
  import opened Wrappers
  import opened Json

  /**
   * A product as the catalogue API delivers it. Only the fields the storefront's logic
   * reads are kept: `stock` is the untyped field the detail page falls back on, and
   * `fields` holds the loosely typed members the list sort looks up by name
   * (`createdAt`, `sold`, `sales`, ...). A missing or `null` member is `None`.
   */
  datatype Product = Product(
    id: string,
    name: Option<string>,
    price: Option<string>,
    storeId: Option<string>,
    quantity: Option<int>,
    stock: Option<int>,
    fields: map<string, Json>)
}
