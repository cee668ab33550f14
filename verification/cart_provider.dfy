/** The provider's state: one `cart` field that each updater replaces
    wholesale with the updater's result, as `setCart(prev => f(prev))` does. */
module CartProvider {
  import opened CartContext

  class CartStore {
    var cart: Cart

    /** The `useState` initialiser: the cart starts as what the saved slot
        decodes to, or empty when nothing is saved. A saved text the decoder
        throws on makes the provider fail, so it is excluded here. */
    constructor (saved: Option<string>, parse: string -> Option<Cart>)
      requires InitialCart(saved, parse).Ok?
      ensures cart == InitialCart(saved, parse).value
      ensures saved.None? ==> cart == []
    {
      cart := InitialCart(saved, parse).value;
    }

    /** `addToCart(product)`. */
    method AddToCart(product: Product)
      modifies this
      ensures cart == CartContext.AddToCart(old(cart), product)
      ensures Unique(old(cart)) ==> Unique(cart) && Total(cart) == Total(old(cart)) + 1
    {
      if Unique(cart) {
        AddKeepsUnique(cart, product);
        TotalAfterAddUnique(cart, product);
      }
      cart := CartContext.AddToCart(cart, product);
    }

    /** `updateQuantity(id, quantity)`. */
    method UpdateQuantity(id: Id, quantity: int)
      modifies this
      ensures cart == CartContext.UpdateQuantity(old(cart), id, quantity)
      ensures Unique(old(cart)) ==> Unique(cart)
      ensures |cart| == |old(cart)|
    {
      if Unique(cart) {
        UpdateKeepsUnique(cart, id, quantity);
      }
      cart := CartContext.UpdateQuantity(cart, id, quantity);
    }
  }
}
