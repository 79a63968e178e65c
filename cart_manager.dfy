/** The `CartManager` of the cart preview: lines merged by name with a
    quantity, the item count on the badge, the subtotal with its shipping
    threshold, and the adoption of the server's copy of the cart. The
    bundled copy of the class is the same without the server calls. */
module ManagedCart {
  import opened Common

  function LineCost(l: Line): int
  {
    l.price * Qty(l)
  }

  /** `getTotalItems`: every line counts `quantity || 1` items. */
  function TotalItems(cart: seq<Line>): int
  {
    SumBy(cart, Qty)
  }

  /** `calculateSubtotal`: every line costs `price * (quantity || 1)`. */
  function Subtotal(cart: seq<Line>): int
  {
    SumBy(cart, LineCost)
  }

  /** Every line counts at least one item. */
  predicate PositiveQuantities(cart: seq<Line>)
  {
    forall j :: 0 <= j < |cart| ==> Qty(cart[j]) >= 1
  }

  /** With positive quantities the count is at least the number of lines. */
  lemma {:induction false} TotalItemsAtLeastLines(cart: seq<Line>)
    requires PositiveQuantities(cart)
    ensures TotalItems(cart) >= |cart|
    decreases |cart|
  {
    if cart != [] {
      var n := |cart| - 1;
      assert PositiveQuantities(cart[..n]) by {
        forall j | 0 <= j < n ensures Qty(cart[..n][j]) >= 1 {
          assert cart[..n][j] == cart[j];
        }
      }
      TotalItemsAtLeastLines(cart[..n]);
    }
  }

  /** `updateCartBadge`: the badge shows the count when it is positive. */
  function BadgeVisible(cart: seq<Line>): bool
  {
    TotalItems(cart) > 0
  }

  /** With positive quantities, the badge is visible exactly when the cart
      has a line. */
  lemma BadgeVisibleIffLines(cart: seq<Line>)
    requires PositiveQuantities(cart)
    ensures BadgeVisible(cart) <==> cart != []
  {
    TotalItemsAtLeastLines(cart);
  }

  const FreeShippingFrom: int := 10000
  const ShippingFee: int := 499

  /** `subtotal >= 10000 ? 0 : 499`. */
  function Shipping(subtotal: int): (s: int)
    ensures s == 0 <==> subtotal >= FreeShippingFrom
    ensures s != 0 ==> s == ShippingFee
  {
    if subtotal >= FreeShippingFrom then 0 else ShippingFee
  }

  /** What the preview panel shows: the empty view, or the count, the
      subtotal, the shipping, the total and the free-shipping hint. */
  datatype Preview =
    | EmptyView
    | Summary(items: int, subtotal: int, shipping: int, total: int, hint: Option<int>)

  /** `showCartPreview` with `getCartPreviewHTML`. */
  function PreviewOf(cart: seq<Line>): (r: Preview)
    ensures r.EmptyView? <==> cart == []
  {
    if cart == [] then EmptyView
    else
      var sub := Subtotal(cart);
      var ship := Shipping(sub);
      Summary(TotalItems(cart), sub, ship, sub + ship,
        if ship > 0 then Some(FreeShippingFrom - sub) else None)
  }

  /** The summary of a non-empty cart: shipping is free exactly from 10000
      on, the total adds the shipping, and a hint appears exactly when
      shipping is charged. */
  lemma PreviewSummary(cart: seq<Line>)
    requires cart != []
    ensures PreviewOf(cart).Summary?
    ensures PreviewOf(cart).items == TotalItems(cart) && PreviewOf(cart).subtotal == Subtotal(cart)
    ensures PreviewOf(cart).shipping == 0 <==> Subtotal(cart) >= FreeShippingFrom
    ensures PreviewOf(cart).shipping != 0 ==> PreviewOf(cart).shipping == ShippingFee
    ensures PreviewOf(cart).total == Subtotal(cart) + PreviewOf(cart).shipping
    ensures PreviewOf(cart).hint.Some? <==> PreviewOf(cart).shipping > 0
  {
  }

  /** The hinted amount is exactly the least extra spending that makes
      shipping free. */
  lemma HintIsLeastTopUp(cart: seq<Line>, extra: int)
    requires PreviewOf(cart).Summary? && PreviewOf(cart).hint.Some?
    ensures PreviewOf(cart).hint.value > 0
    ensures Shipping(Subtotal(cart) + extra) == 0 <==> extra >= PreviewOf(cart).hint.value
  {
  }

  /** `addToCart(product)`: the first line with that name counts one more;
      otherwise the product is appended with quantity 1. */
  function AddedTo(cart: seq<Line>, p: Line): (r: seq<Line>)
    ensures HasName(r, p.name)
    ensures !HasName(cart, p.name) ==> r == cart + [p.(quantity := Some(1))]
    ensures HasName(cart, p.name) ==> |r| == |cart|
    ensures HasName(cart, p.name) ==>
      var i := FirstIndex(cart, p.name).value;
      r == cart[i := cart[i].(quantity := Some(Qty(cart[i]) + 1))]
  {
    match FirstIndex(cart, p.name)
    case None =>
      assert (cart + [p.(quantity := Some(1))])[|cart|].name == p.name;
      cart + [p.(quantity := Some(1))]
    case Some(i) =>
      var r := cart[i := cart[i].(quantity := Some(Qty(cart[i]) + 1))];
      assert r[i].name == p.name;
      r
  }

  /** Adding keeps the names unique. */
  lemma AddKeepsUnique(cart: seq<Line>, p: Line)
    requires UniqueNames(cart)
    ensures UniqueNames(AddedTo(cart, p))
  {
    match FirstIndex(cart, p.name)
    case None =>
    case Some(i) => SetQuantityKeepsUnique(cart, i, Some(Qty(cart[i]) + 1));
  }

  /** Adding with positive quantities raises the item count by exactly one. */
  lemma AddCountsOneMore(cart: seq<Line>, p: Line)
    requires PositiveQuantities(cart)
    ensures TotalItems(AddedTo(cart, p)) == TotalItems(cart) + 1
  {
    match FirstIndex(cart, p.name)
    case None => SumByAppend(cart, p.(quantity := Some(1)), Qty);
    case Some(i) => SumByUpdate(cart, i, cart[i].(quantity := Some(Qty(cart[i]) + 1)), Qty);
  }

  /** Adding raises the subtotal by the price of the line that grew: the
      existing line's price, or the product's own. */
  lemma AddCostsOneMore(cart: seq<Line>, p: Line)
    requires PositiveQuantities(cart)
    ensures Subtotal(AddedTo(cart, p)) ==
      Subtotal(cart) + if HasName(cart, p.name) then cart[FirstIndex(cart, p.name).value].price else p.price
  {
    match FirstIndex(cart, p.name)
    case None => SumByAppend(cart, p.(quantity := Some(1)), LineCost);
    case Some(i) =>
      var l := cart[i].(quantity := Some(Qty(cart[i]) + 1));
      OneMoreCost(cart[i]);
      SumByUpdate(cart, i, l, LineCost);
  }

  /** One more of a line costs one more price. */
  lemma OneMoreCost(l: Line)
    requires Qty(l) >= 1
    ensures LineCost(l.(quantity := Some(Qty(l) + 1))) == LineCost(l) + l.price
  {
    var q := Qty(l);
    assert Qty(l.(quantity := Some(q + 1))) == q + 1;
    assert l.price * (q + 1) == l.price * q + l.price;
  }

  /** `removeFromCart(name)`: when the line's preview row is on the page,
      every line with the name goes and the others keep their order;
      otherwise nothing happens. */
  function Removed(cart: seq<Line>, name: string, rowShown: bool): (r: seq<Line>)
    ensures !rowShown ==> r == cart
    ensures rowShown ==> !HasName(r, name) && forall l :: l in r <==> l in cart && l.name != name
  {
    if rowShown then WithoutName(cart, name) else cart
  }

  /** `updateQuantity(name, change)`: an unknown name changes nothing;
      otherwise a new quantity below 1 removes the line, and any other sets
      the first line with the name. */
  function QuantityUpdated(cart: seq<Line>, name: string, change: int, rowShown: bool): (r: seq<Line>)
    ensures !HasName(cart, name) ==> r == cart
    ensures HasName(cart, name) ==>
      var i := FirstIndex(cart, name).value;
      if Qty(cart[i]) + change < 1 then r == Removed(cart, name, rowShown)
      else r == cart[i := cart[i].(quantity := Some(Qty(cart[i]) + change))]
  {
    match FirstIndex(cart, name)
    case None => cart
    case Some(i) =>
      var n := Qty(cart[i]) + change;
      if n < 1 then Removed(cart, name, rowShown) else cart[i := cart[i].(quantity := Some(n))]
  }

  /** Updating a quantity keeps the names unique. */
  lemma UpdateKeepsUnique(cart: seq<Line>, name: string, change: int, rowShown: bool)
    requires UniqueNames(cart)
    ensures UniqueNames(QuantityUpdated(cart, name, change, rowShown))
  {
    match FirstIndex(cart, name)
    case None =>
    case Some(i) =>
      if Qty(cart[i]) + change < 1 {
        if rowShown { WithoutNameKeepsUnique(cart, name); }
      } else {
        SetQuantityKeepsUnique(cart, i, Some(Qty(cart[i]) + change));
      }
  }

  /** The minus button is disabled on a line that counts a single item. */
  function MinusDisabled(l: Line): bool
  {
    Qty(l) <= 1
  }

  /** An enabled minus button lowers the first line's count by one and never
      removes a line. */
  lemma EnabledMinusDecrements(cart: seq<Line>, name: string, rowShown: bool)
    requires HasName(cart, name) && !MinusDisabled(cart[FirstIndex(cart, name).value])
    ensures var i := FirstIndex(cart, name).value;
      var r := QuantityUpdated(cart, name, -1, rowShown);
      |r| == |cart| && Qty(r[i]) == Qty(cart[i]) - 1 &&
      forall j :: 0 <= j < |cart| && j != i ==> r[j] == cart[j]
  {
  }

  /** Decrementing a single-item line while its preview row is off the page
      leaves the cart as it was. */
  lemma HiddenRowDecrementKeepsCart(cart: seq<Line>, name: string)
    requires HasName(cart, name) && Qty(cart[FirstIndex(cart, name).value]) == 1
    ensures QuantityUpdated(cart, name, -1, false) == cart
  {
  }

  /** A finished request to the server. */
  datatype Reply =
    | Unreachable
    | Response(ok: bool, cart: Option<seq<Line>>)

  /** `res.ok` and `Array.isArray(data.cart)`: the reply carries a cart. */
  predicate CarriesCart(reply: Reply)
  {
    reply.Response? && reply.ok && reply.cart.Some?
  }

  /** A token is used only when it is truthy. */
  predicate SignedIn(token: Option<string>)
  {
    token.Some? && token.value != ""
  }

  /** The cart after a server round trip: replaced by the server's array
      when signed in and the reply carries one, otherwise kept. */
  function Adopted(cart: seq<Line>, token: Option<string>, reply: Reply): (r: seq<Line>)
    ensures SignedIn(token) && CarriesCart(reply) ==> r == reply.cart.value
    ensures !(SignedIn(token) && CarriesCart(reply)) ==> r == cart
  {
    if SignedIn(token) && CarriesCart(reply) then reply.cart.value else cart
  }

  /** Adopting the same reply twice is the same as adopting it once. */
  lemma AdoptIdempotent(cart: seq<Line>, token: Option<string>, reply: Reply)
    ensures Adopted(Adopted(cart, token, reply), token, reply) == Adopted(cart, token, reply)
  {
  }

  /** How the stored `studentgear_auth` text parses: not JSON at all, or an
      object whose `token` field may be missing. */
  datatype ParsedAuth = NotJson | Parsed(token: Option<string>)

  /** `getAuthToken`: nothing stored (or an empty string) and text that is
      not JSON give no token; otherwise the `token` field. */
  function GetAuthToken(stored: Option<string>, parse: string -> ParsedAuth): (r: Option<string>)
    ensures stored.None? || stored.value == "" ==> r.None?
    ensures stored.Some? && stored.value != "" && parse(stored.value).NotJson? ==> r.None?
    ensures stored.Some? && stored.value != "" && parse(stored.value).Parsed? ==> r == parse(stored.value).token
  {
    if stored.None? || stored.value == "" then None
    else match parse(stored.value)
      case NotJson => None
      case Parsed(t) => t
  }

  /** Without a stored token, no server reply can change the cart. */
  lemma NoAuthKeepsCart(cart: seq<Line>, stored: Option<string>, parse: string -> ParsedAuth, reply: Reply)
    requires stored.None? || stored.value == "" || parse(stored.value).NotJson?
    ensures Adopted(cart, GetAuthToken(stored, parse), reply) == cart
  {
  }

  class CartManager {
    var cart: seq<Line>

    /** `JSON.parse(localStorage.getItem('cart')) || []`. */
    constructor (stored: Option<seq<Line>>)
      ensures cart == if stored.Some? then stored.value else []
    {
      cart := if stored.Some? then stored.value else [];
    }

    method AddToCart(p: Line)
      modifies this
      ensures cart == AddedTo(old(cart), p)
    {
      match FirstIndex(cart, p.name)
      case Some(i) =>
        cart := cart[i := cart[i].(quantity := Some(Qty(cart[i]) + 1))];
      case None =>
        cart := cart + [p.(quantity := Some(1))];
    }

    method RemoveFromCart(name: string, rowShown: bool)
      modifies this
      ensures cart == Removed(old(cart), name, rowShown)
    {
      if rowShown {
        cart := WithoutName(cart, name);
      }
    }

    method UpdateQuantity(name: string, change: int, rowShown: bool)
      modifies this
      ensures cart == QuantityUpdated(old(cart), name, change, rowShown)
    {
      match FirstIndex(cart, name)
      case None =>
      case Some(i) =>
        var n := Qty(cart[i]) + change;
        if n < 1 {
          RemoveFromCart(name, rowShown);
        } else {
          cart := cart[i := cart[i].(quantity := Some(n))];
        }
    }

    /** The end of `fetchCartFromServer` and of the three sync helpers. */
    method AdoptServerReply(token: Option<string>, reply: Reply)
      modifies this
      ensures cart == Adopted(old(cart), token, reply)
    {
      if SignedIn(token) && CarriesCart(reply) {
        cart := reply.cart.value;
      }
    }
  }
}
