/** The static product catalog: five read-only records keyed by the integer
    ids 1 to 5. The image URL of each record only feeds rendering and is not
    part of the model. */
module Catalog {

  datatype Option<T> = None | Some(value: T)

  datatype Product = Product(
    name: string,
    price: int,
    description: string,
    size: string,
    category: string)

  function Products(): map<int, Product> {
    map[
      1 := Product("Pineapple Juice", 60, "Tropical sweetness in every sip", "250ml", "tropical"),
      2 := Product("Gold Coffee", 90, "Rich and aromatic coffee blend", "250ml", "coffee"),
      3 := Product("Watermelon Juice", 60, "Refreshing summer hydration", "250ml", "fruit"),
      4 := Product("Lemon+Guava Mixed Juice", 50, "Zesty citrus meets tropical guava", "250ml", "mixed"),
      5 := Product("Mango+Milk Mixed Juice", 70, "Creamy mango delight", "250ml", "mixed")
    ]
  }

  /** The catalog's keys in the order `Object.entries` visits them: integer-like
      property keys come in ascending numeric order. */
  function Ids(): (ids: seq<int>)
    ensures forall i, j :: 0 <= i < j < |ids| ==> ids[i] < ids[j]
    ensures forall id :: id in ids <==> id in Products()
  {
    [1, 2, 3, 4, 5]
  }

  /** `products[id]`: the record with that id, or nothing (JavaScript's
      `undefined`) for an id outside the catalog. */
  function Lookup(id: int): (r: Option<Product>)
    ensures r.Some? <==> 1 <= id <= 5
    ensures r.Some? ==> id in Products() && r.value == Products()[id]
    ensures r.Some? ==> r.value.price > 0 && r.value.name != []
  {
    if id in Products() then Some(Products()[id]) else None
  }
}
