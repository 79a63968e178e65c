/** The product-page cart and wishlist: two lists kept at module level. The
    cart only grows; the wishlist toggles a product in and out by name, and
    the buttons on a card show whether its name is in either list. */
module PageCart {
  import opened Common

  /** `toggleWishlist(product)`: an absent name is appended; otherwise the
      first entry with the name is spliced out. */
  function Toggled(wishlist: seq<Line>, p: Line): (r: seq<Line>)
    ensures !HasName(wishlist, p.name) ==> r == wishlist + [p]
    ensures HasName(wishlist, p.name) ==> r == RemoveFirst(wishlist, p.name)
  {
    if HasName(wishlist, p.name) then RemoveFirst(wishlist, p.name) else wishlist + [p]
  }

  /** Splicing keeps the names of a list with distinct names distinct, and
      the spliced name is gone. */
  lemma RemoveAtKeepsUnique(w: seq<Line>, i: nat)
    requires i < |w| && UniqueNames(w)
    ensures UniqueNames(RemoveAt(w, i))
    ensures !HasName(RemoveAt(w, i), w[i].name)
  {
    var r := RemoveAt(w, i);
    forall a, b | 0 <= a < b < |r| ensures r[a].name != r[b].name {
      var a' := if a < i then a else a + 1;
      var b' := if b < i then b else b + 1;
      assert r[a] == w[a'] && r[b] == w[b'];
    }
    forall j | 0 <= j < |r| ensures r[j].name != w[i].name {
      var j' := if j < i then j else j + 1;
      assert r[j] == w[j'];
    }
  }

  /** From distinct names, a toggle keeps the names distinct and flips
      whether the product's name is present. */
  lemma ToggleFlips(w: seq<Line>, p: Line)
    requires UniqueNames(w)
    ensures UniqueNames(Toggled(w, p))
    ensures HasName(Toggled(w, p), p.name) <==> !HasName(w, p.name)
  {
    if HasName(w, p.name) {
      RemoveAtKeepsUnique(w, FirstIndex(w, p.name).value);
    } else {
      UniqueSnoc(w, p);
    }
  }

  /** Toggling an absent product twice gives back the list. */
  lemma ToggleTwiceRestores(w: seq<Line>, p: Line)
    requires !HasName(w, p.name)
    ensures Toggled(Toggled(w, p), p) == w
  {
    var r := w + [p];
    assert r[|w|].name == p.name;
    FirstIndexAppended(w, p);
    assert r[..|w|] == w;
  }

  /** Toggling leaves the entries with other names in their order. */
  lemma ToggleKeepsOthers(w: seq<Line>, p: Line)
    ensures WithoutName(Toggled(w, p), p.name) == WithoutName(w, p.name)
  {
    if HasName(w, p.name) {
      var i := FirstIndex(w, p.name).value;
      assert w == w[..i] + ([w[i]] + w[i + 1..]);
      WithoutNameConcat(w[..i], [w[i]] + w[i + 1..], p.name);
      WithoutNameConcat([w[i]], w[i + 1..], p.name);
      WithoutNameConcat(w[..i], w[i + 1..], p.name);
      assert WithoutName([w[i]], p.name) == [] by {
        assert [w[i]][1..] == [];
      }
    } else {
      WithoutNameConcat(w, [p], p.name);
      assert WithoutName([p], p.name) == [] by {
        assert [p][1..] == [];
      }
    }
  }

  const InCartText: string := "In Cart"
  const AddToCartText: string := "Add to Cart"

  /** `updateCartUI`: the text of a card's cart button. */
  function CartButtonText(cart: seq<Line>, cardName: string): (r: string)
    ensures r == InCartText <==> HasName(cart, cardName)
    ensures r == AddToCartText <==> !HasName(cart, cardName)
  {
    if HasName(cart, cardName) then InCartText else AddToCartText
  }

  /** `updateWishlistUI`: whether a card's wishlist button is active. */
  function WishlistActive(wishlist: seq<Line>, cardName: string): (r: bool)
    ensures r <==> exists i :: 0 <= i < |wishlist| && wishlist[i].name == cardName
  {
    HasName(wishlist, cardName)
  }

  /** A name other than `n` is in a list exactly when it is in the list
      without `n`. */
  lemma HasOtherName(w: seq<Line>, n: string, cardName: string)
    requires cardName != n
    ensures HasName(w, cardName) <==> HasName(WithoutName(w, n), cardName)
  {
    var r := WithoutName(w, n);
    if HasName(w, cardName) {
      var i :| 0 <= i < |w| && w[i].name == cardName;
      assert w[i] in r;
      var j :| 0 <= j < |r| && r[j] == w[i];
    }
    if HasName(r, cardName) {
      var j :| 0 <= j < |r| && r[j].name == cardName;
      assert r[j] in w;
      var i :| 0 <= i < |w| && w[i] == r[j];
    }
  }

  /** After a toggle the toggled card's wishlist button flips and every
      other card's button stays as it was. */
  lemma ToggleShowsWishlist(w: seq<Line>, p: Line, cardName: string)
    requires UniqueNames(w)
    ensures WishlistActive(Toggled(w, p), p.name) <==> !WishlistActive(w, p.name)
    ensures cardName != p.name ==>
      (WishlistActive(Toggled(w, p), cardName) <==> WishlistActive(w, cardName))
  {
    ToggleFlips(w, p);
    if cardName != p.name {
      ToggleKeepsOthers(w, p);
      HasOtherName(w, p.name, cardName);
      HasOtherName(Toggled(w, p), p.name, cardName);
    }
  }

  /** After adding a product its card reads "In Cart", and any card that
      read "In Cart" still does. */
  lemma AddShowsInCart(cart: seq<Line>, p: Line, cardName: string)
    ensures CartButtonText(cart + [p], p.name) == InCartText
    ensures CartButtonText(cart, cardName) == InCartText ==> CartButtonText(cart + [p], cardName) == InCartText
  {
    assert (cart + [p])[|cart|].name == p.name;
    if HasName(cart, cardName) {
      var i :| 0 <= i < |cart| && cart[i].name == cardName;
      assert (cart + [p])[i] == cart[i];
    }
  }

  class CartPage {
    var cart: seq<Line>
    var wishlist: seq<Line>

    /** The stored lists, `[]` when nothing is stored. */
    constructor (storedCart: Option<seq<Line>>, storedWishlist: Option<seq<Line>>)
      ensures cart == if storedCart.Some? then storedCart.value else []
      ensures wishlist == if storedWishlist.Some? then storedWishlist.value else []
    {
      cart := if storedCart.Some? then storedCart.value else [];
      wishlist := if storedWishlist.Some? then storedWishlist.value else [];
    }

    /** `addToCart(product)`: always appended. */
    method AddToCart(p: Line)
      modifies this
      ensures cart == old(cart) + [p] && wishlist == old(wishlist)
    {
      cart := cart + [p];
    }

    /** `toggleWishlist(product)`. */
    method ToggleWishlist(p: Line)
      modifies this
      ensures wishlist == Toggled(old(wishlist), p) && cart == old(cart)
    {
      var index := FirstIndex(wishlist, p.name);
      if index.None? {
        wishlist := wishlist + [p];
      } else {
        wishlist := wishlist[..index.value] + wishlist[index.value + 1..];
      }
    }
  }
}
