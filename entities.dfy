/**
 The records the storefront passes around. Prices are integer minor units
 (cents) rather than JavaScript numbers, so sums and comparisons are exact.
 */
module Entities {

  /** A catalog entry (`Product` in src/components/Card.tsx). */
  datatype Product = Product(
    id: string,
    name: string,
    category: string,
    price: nat,
    image: string,
    details: string)

  /** A cart line (`CartItem` in src/Pages/MyCart.tsx): a product snapshot plus a quantity. */
  datatype CartItem = CartItem(
    id: string,
    name: string,
    price: nat,
    image: string,
    details: string,
    quantity: int)
}
