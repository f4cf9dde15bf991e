/**
 * The domain record (JsonLib/Product.cs).  Every property is init-only,
 * so a Product is a value: nothing reassigns a field once it is built.
 * Name, Category and Reviews may be absent (null in the source).
 */
module Products {
  import opened Common

  datatype Product = Product(
    id: int,
    name: Option<string>,
    category: Option<string>,
    price: real,
    quantityInStock: int,
    isDiscounted: bool,
    reviews: Option<seq<string>>)
}
