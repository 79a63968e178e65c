/** The plain list cart of the cart enhancements: products are appended as
    they come, removal takes the first entry with a name, and the badge
    counts entries rather than items. */
module ListCart {
  import opened Common

  function Price(l: Line): int
  {
    l.price
  }

  /** `calculateCartTotal`: the sum of the prices, whatever the quantities. */
  function CartTotal(cart: seq<Line>): int
  {
    SumBy(cart, Price)
  }

  /** `updateCartBadge`: the number shown is the number of entries, and the
      badge is visible exactly when there is one. */
  function BadgeCount(cart: seq<Line>): (r: nat)
    ensures r == 0 <==> cart == []
  {
    |cart|
  }

  /** The total of a cart after a product is appended: its price is added,
      even when the same product is already in the cart. */
  lemma AddRaisesTotal(cart: seq<Line>, p: Line)
    ensures CartTotal(cart + [p]) == CartTotal(cart) + p.price
    ensures BadgeCount(cart + [p]) == BadgeCount(cart) + 1
  {
    SumByAppend(cart, p, Price);
  }

  /** Removing the first entry with a name lowers the total by that entry's
      price and the count by one; an absent name changes neither. */
  lemma RemoveLowersTotal(cart: seq<Line>, name: string)
    ensures HasName(cart, name) ==>
      CartTotal(RemoveFirst(cart, name)) == CartTotal(cart) - cart[FirstIndex(cart, name).value].price &&
      BadgeCount(RemoveFirst(cart, name)) == BadgeCount(cart) - 1
    ensures !HasName(cart, name) ==> RemoveFirst(cart, name) == cart
  {
    if HasName(cart, name) {
      var i := FirstIndex(cart, name).value;
      assert cart == cart[..i] + ([cart[i]] + cart[i + 1..]);
      SumByConcat(cart[..i], [cart[i]] + cart[i + 1..], Price);
      SumByConcat([cart[i]], cart[i + 1..], Price);
      SumByConcat(cart[..i], cart[i + 1..], Price);
      assert SumBy([cart[i]], Price) == cart[i].price by {
        assert [cart[i]][..0] == [];
      }
    }
  }

  /** Adding a product and removing it by name gives back the cart when
      the product was not in it. */
  lemma AddThenRemoveRestores(cart: seq<Line>, p: Line)
    requires !HasName(cart, p.name)
    ensures RemoveFirst(cart + [p], p.name) == cart
  {
    var r := cart + [p];
    assert r[|cart|].name == p.name;
    FirstIndexAppended(cart, p);
    assert r[..|cart|] == cart;
  }

  class CartManager {
    var cart: seq<Line>

    /** `JSON.parse(localStorage.getItem('cart')) || []`. */
    constructor (stored: Option<seq<Line>>)
      ensures cart == if stored.Some? then stored.value else []
    {
      cart := if stored.Some? then stored.value else [];
    }

    /** `addToCart(product)`: always appended, duplicates allowed. */
    method AddToCart(p: Line)
      modifies this
      ensures cart == old(cart) + [p]
    {
      cart := cart + [p];
    }

    /** `removeFromCart(productName)`. */
    method RemoveFromCart(name: string)
      modifies this
      ensures cart == RemoveFirst(old(cart), name)
    {
      var index := FirstIndex(cart, name);
      if index.Some? {
        cart := cart[..index.value] + cart[index.value + 1..];
      }
    }
  }
}
