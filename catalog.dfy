/** The product record and the fixed catalog the product list shows. */
module Catalog {

  /** One item of the shop. `price` is a Swift `Double` in the app; here it is
      an exact real, so sums carry no rounding. */
  datatype Product = Product(id: int, name: string, description: string, price: real, image: string)

  /** The ten products the product list offers, in display order. */
  const Products: seq<Product> := [
    Product(1, "Apple iPhone 13", "Latest iPhone", 799.0, "iphone"),
    Product(2, "MacBook Pro", "Apple laptop", 1299.0, "macbook"),
    Product(3, "Samsung Galaxy S21", "Flagship Android", 749.0, "samsung"),
    Product(4, "AirPods Pro", "Wireless Earbuds", 249.0, "airpods"),
    Product(5, "Apple Watch Series 7", "Smartwatch", 399.0, "applewatch"),
    Product(6, "Google Pixel 6", "Latest Android Phone", 599.0, "pixel"),
    Product(7, "Sony WH-1000XM4", "Noise-cancelling headphones", 349.0, "sonyheadphones"),
    Product(8, "Dell XPS 13", "Premium Laptop", 999.0, "dellxps"),
    Product(9, "iPad Pro 12.9", "Tablet for Professionals", 1099.0, "ipad"),
    Product(10, "Beats Studio Buds", "Wireless Earbuds", 149.0, "beats")
  ]

  /** The catalog lists ten products whose ids run 1 to 10 in order (so they
      are distinct, as `Identifiable` needs), each named and priced above zero. */
  lemma CatalogShape()
    ensures |Products| == 10
    ensures forall i :: 0 <= i < |Products| ==>
      Products[i].id == i + 1 && Products[i].name != [] && Products[i].price > 0.0
    ensures forall i, j :: 0 <= i < j < |Products| ==> Products[i].id != Products[j].id
  {
  }
}
