/** The two screens that share the cart: the product list, which owns the
    cart's storage and appends to it, and the cart screen, which is handed a
    binding to that same storage, shows its total and deletes entries. */
module Shop {
  import opened Catalog
  import opened Offsets
  import opened Pricing

  /** The storage behind the product list's `cart` state: an array of
      products, one entry per "Add to Cart" tap, duplicates allowed. */
  class CartState {
    var items: seq<Product>

    constructor ()
      ensures items == []
    {
      items := [];
    }
  }

  /** The product list screen: the fixed catalog and the cart it owns. */
  class ProductListView {
    const userEmail: string
    const products: seq<Product>
    const cart: CartState

    /** A fresh screen shows the catalog and starts with an empty cart. */
    constructor (userEmail: string)
      ensures this.userEmail == userEmail && products == Catalog.Products
      ensures fresh(cart) && cart.items == [] && Total(cart.items) == 0.0
    {
      this.userEmail := userEmail;
      products := Catalog.Products;
      cart := new CartState();
    }

    /** `addToCart`: appends `product` as the last entry. Nothing is merged:
        the length grows by one, earlier entries stay as they were, and the
        total grows by exactly the product's price. */
    method AddToCart(product: Product)
      modifies cart
      ensures cart.items == old(cart.items) + [product]
      ensures |cart.items| == |old(cart.items)| + 1 && cart.items[|cart.items| - 1] == product
      ensures forall i :: 0 <= i < |old(cart.items)| ==> cart.items[i] == old(cart.items)[i]
      ensures Total(cart.items) == old(Total(cart.items)) + product.price
    {
      TotalAppend(cart.items, product);
      cart.items := cart.items + [product];
    }

    /** The toolbar link to the cart screen: it is given a binding to this
        screen's own cart storage, not a copy of it. */
    method OpenCart() returns (view: CartView)
      ensures fresh(view) && view.cart == cart
    {
      view := new CartView(cart);
    }
  }

  /** The cart screen, working on the product list's cart through a binding. */
  class CartView {
    const cart: CartState

    constructor (cart: CartState)
      ensures this.cart == cart
    {
      this.cart := cart;
    }

    /** `totalPrice`: the fold of the prices from 0 equals the sum of the
        price of every entry; an empty cart totals 0. */
    function TotalPrice(): (r: real)
      reads this, cart
      ensures r == Total(cart.items)
      ensures cart.items == [] ==> r == 0.0
    {
      FoldPrices(0.0, cart.items)
    }

    /** `deleteProduct(at:)`: removes exactly the entries at `offsets`, each
        of which must be a valid index (the array traps otherwise). The
        survivors keep their order, the length drops by the number of
        offsets, and the total drops by the prices of the removed entries. */
    method DeleteProduct(offsets: set<nat>)
      requires forall o :: o in offsets ==> o < |cart.items|
      modifies cart
      ensures cart.items == RemoveAt(old(cart.items), offsets)
      ensures |cart.items| == |old(cart.items)| - |offsets|
      ensures TotalPrice() == old(TotalPrice()) - Total(EntriesAt(old(cart.items), offsets))
    {
      RemoveAtSpec(cart.items, offsets);
      RemoveAtTotal(cart.items, offsets);
      cart.items := RemoveAt(cart.items, offsets);
    }
  }

  /** A session through both screens: what one screen does to the cart the
      other sees, a product added twice is kept and priced twice, and deleting
      the first copy leaves the second. */
  method CartWalkthrough(p: Product, q: Product)
  {
    RemoveAtSingle([p, q, p], 0);
    var list := new ProductListView("user@example.com");
    list.AddToCart(p);
    list.AddToCart(q);
    list.AddToCart(p);
    assert list.cart.items == [p, q, p];
    var view := list.OpenCart();
    assert view.TotalPrice() == 2.0 * p.price + q.price;
    view.DeleteProduct({0});
    assert list.cart.items == [q, p];
    assert view.TotalPrice() == q.price + p.price;
  }
}
