/** The demo backend: carts kept in memory per token, a login that makes a
    token from the e-mail address, and the cart routes. Each handler takes
    the request fields it reads, already parsed; an absent field is `None`. */
module Backend {
  import opened Common
  import opened Text
  import opened Utf8
  import ManagedCart

  const Anonymous: string := "anonymous"
  const TokenPrefix: string := "demo-token-"

  /** `header || fallback || 'anonymous'`, where the fallback is the query
      token (GET, DELETE) or the body token (POST, PUT). */
  function ChooseToken(header: Option<string>, fallback: Option<string>): (t: string)
    ensures Truthy(header) ==> t == header.value
    ensures !Truthy(header) && Truthy(fallback) ==> t == fallback.value
    ensures !Truthy(header) && !Truthy(fallback) ==> t == Anonymous
    ensures t != ""
  {
    if Truthy(header) then header.value else if Truthy(fallback) then fallback.value else Anonymous
  }

  /** The demo token of an e-mail address. */
  function TokenFor(email: string): string
  {
    TokenPrefix + Hex(Encode(email))
  }

  /** The e-mail address a demo token was made from, if it is one. */
  function EmailOf(token: string): Option<string>
  {
    if |token| >= |TokenPrefix| && token[..|TokenPrefix|] == TokenPrefix then
      match Unhex(token[|TokenPrefix|..])
      case None => None
      case Some(bs) => Decode(bs)
    else None
  }

  /** A token gives back its e-mail address. */
  lemma EmailOfToken(email: string)
    ensures EmailOf(TokenFor(email)) == Some(email)
  {
    var t := TokenFor(email);
    assert t[..|TokenPrefix|] == TokenPrefix && t[|TokenPrefix|..] == Hex(Encode(email));
    UnhexHex(Encode(email));
    DecodeEncode(email);
  }

  /** Different addresses get different tokens. */
  lemma TokenInjective(a: string, b: string)
    requires TokenFor(a) == TokenFor(b)
    ensures a == b
  {
    EmailOfToken(a);
    EmailOfToken(b);
  }

  datatype User = User(name: string, email: string)

  datatype LoginReply = LoginRejected | LoginAccepted(token: string, user: User)

  /** A handler's reply: an error status, or the token's cart. */
  datatype CartReply = Failure(status: int) | CartBody(cart: seq<Line>)

  const BadRequest: int := 400
  const NotFound: int := 404

  /** `{ ...item, quantity: item.quantity || 1 }` appended, or the first line
      with the item's name counting `(quantity || 1) + (item.quantity || 1)`. */
  function Posted(cart: seq<Line>, item: Line): (r: seq<Line>)
    ensures !HasName(cart, item.name) ==> r == cart + [item.(quantity := Some(Qty(item)))]
    ensures HasName(cart, item.name) ==>
      var i := FirstIndex(cart, item.name).value;
      r == cart[i := cart[i].(quantity := Some(Qty(cart[i]) + Qty(item)))]
  {
    match FirstIndex(cart, item.name)
    case None => cart + [item.(quantity := Some(Qty(item)))]
    case Some(i) => cart[i := cart[i].(quantity := Some(Qty(cart[i]) + Qty(item)))]
  }

  /** The PUT step once the name and number are checked: `None` for an
      absent name (404); a quantity of 0 or less drops every line with the
      name, any other sets the first. */
  function Putted(cart: seq<Line>, name: string, quantity: int): (r: Option<seq<Line>>)
    ensures r.None? <==> !HasName(cart, name)
    ensures r.Some? && quantity <= 0 ==> r.value == WithoutName(cart, name)
    ensures r.Some? && quantity > 0 ==>
      var i := FirstIndex(cart, name).value;
      r.value == cart[i := cart[i].(quantity := Some(quantity))]
  {
    match FirstIndex(cart, name)
    case None => None
    case Some(i) => if quantity <= 0 then Some(WithoutName(cart, name)) else Some(cart[i := cart[i].(quantity := Some(quantity))])
  }

  /** Posting keeps the names of a cart unique and the item's name present. */
  lemma PostKeepsUnique(cart: seq<Line>, item: Line)
    requires UniqueNames(cart)
    ensures UniqueNames(Posted(cart, item)) && HasName(Posted(cart, item), item.name)
  {
    match FirstIndex(cart, item.name)
    case None =>
      UniqueSnoc(cart, item.(quantity := Some(Qty(item))));
    case Some(i) =>
      SetQuantityKeepsUnique(cart, i, Some(Qty(cart[i]) + Qty(item)));
      assert Posted(cart, item)[i].name == item.name;
  }

  /** Posting positive quantities adds the item's count to the cart's. */
  lemma PostAddsCount(cart: seq<Line>, item: Line)
    requires ManagedCart.PositiveQuantities(cart) && Qty(item) >= 1
    ensures ManagedCart.TotalItems(Posted(cart, item)) == ManagedCart.TotalItems(cart) + Qty(item)
  {
    match FirstIndex(cart, item.name)
    case None => SumByAppend(cart, item.(quantity := Some(Qty(item))), Qty);
    case Some(i) => SumByUpdate(cart, i, cart[i].(quantity := Some(Qty(cart[i]) + Qty(item))), Qty);
  }

  /** For an item that counts one, the server's merge is the browser's
      `addToCart`, so a synced reply matches the local cart. */
  lemma PostAgreesWithAdd(cart: seq<Line>, item: Line)
    requires Qty(item) == 1
    ensures Posted(cart, item) == ManagedCart.AddedTo(cart, item)
  {
  }

  /** The quantity the browser sends after `updateQuantity` sets a line is
      what the server stores: the two carts agree. */
  lemma PutAgreesWithUpdate(cart: seq<Line>, name: string, change: int, rowShown: bool)
    requires HasName(cart, name) && Qty(cart[FirstIndex(cart, name).value]) + change >= 1
    ensures Putted(cart, name, Qty(cart[FirstIndex(cart, name).value]) + change) ==
      Some(ManagedCart.QuantityUpdated(cart, name, change, rowShown))
  {
  }

  /** Setting or dropping keeps the names unique. */
  lemma PutKeepsUnique(cart: seq<Line>, name: string, quantity: int)
    requires UniqueNames(cart) && HasName(cart, name)
    ensures UniqueNames(Putted(cart, name, quantity).value)
  {
    var i := FirstIndex(cart, name).value;
    if quantity <= 0 {
      WithoutNameKeepsUnique(cart, name);
    } else {
      SetQuantityKeepsUnique(cart, i, Some(quantity));
    }
  }

  /** Every stored cart has unique names. */
  ghost predicate AllUnique(carts: map<string, seq<Line>>)
  {
    forall t :: t in carts ==> UniqueNames(carts[t])
  }

  class CartServer {
    var carts: map<string, seq<Line>>

    constructor ()
      ensures carts == map[]
    {
      carts := map[];
    }

    /** `carts[token] || []`. */
    function CartOf(token: string): (r: seq<Line>)
      reads this
      ensures token in carts ==> r == carts[token]
      ensures token !in carts ==> r == []
    {
      if token in carts then carts[token] else []
    }

    /** `POST /auth/login`. */
    method Login(email: Option<string>, password: Option<string>) returns (reply: LoginReply)
      modifies this
      ensures !Truthy(email) || !Truthy(password) ==> reply == LoginRejected && carts == old(carts)
      ensures Truthy(email) && Truthy(password) ==>
        reply == LoginAccepted(TokenFor(email.value), User(Before(email.value, '@'), email.value)) &&
        carts == if TokenFor(email.value) in old(carts) then old(carts) else old(carts)[TokenFor(email.value) := []]
    {
      if !Truthy(email) || !Truthy(password) {
        return LoginRejected;
      }
      var token := TokenFor(email.value);
      if token !in carts {
        carts := carts[token := []];
      }
      reply := LoginAccepted(token, User(Before(email.value, '@'), email.value));
    }

    /** `GET /cart`: never creates a cart. */
    method GetCart(header: Option<string>, queryToken: Option<string>) returns (reply: CartReply)
      ensures reply == CartBody(CartOf(ChooseToken(header, queryToken)))
    {
      var token := ChooseToken(header, queryToken);
      reply := CartBody(CartOf(token));
    }

    /** `POST /cart`. */
    method PostCart(header: Option<string>, bodyToken: Option<string>, item: Option<Line>) returns (reply: CartReply)
      modifies this
      ensures item.None? || item.value.name == "" ==> reply == Failure(BadRequest) && carts == old(carts)
      ensures item.Some? && item.value.name != "" ==>
        var token := ChooseToken(header, bodyToken);
        var cart := Posted(old(CartOf(token)), item.value);
        reply == CartBody(cart) && carts == old(carts)[token := cart]
      ensures old(AllUnique(carts)) ==> AllUnique(carts)
    {
      var token := ChooseToken(header, bodyToken);
      if item.None? || item.value.name == "" {
        return Failure(BadRequest);
      }
      var cart := CartOf(token);
      if UniqueNames(cart) { PostKeepsUnique(cart, item.value); }
      cart := Posted(cart, item.value);
      carts := carts[token := cart];
      reply := CartBody(cart);
    }

    /** `PUT /cart`: the 400 check comes before the empty cart is created,
        the 404 after. */
    method PutCart(header: Option<string>, bodyToken: Option<string>, name: Option<string>, quantity: Option<int>)
      returns (reply: CartReply)
      modifies this
      ensures !Truthy(name) || quantity.None? ==> reply == Failure(BadRequest) && carts == old(carts)
      ensures Truthy(name) && quantity.Some? ==>
        var token := ChooseToken(header, bodyToken);
        var cart := old(CartOf(token));
        match Putted(cart, name.value, quantity.value)
        case None => reply == Failure(NotFound) && carts == old(carts)[token := cart]
        case Some(c) => reply == CartBody(c) && carts == old(carts)[token := c]
      ensures old(AllUnique(carts)) ==> AllUnique(carts)
    {
      var token := ChooseToken(header, bodyToken);
      if !Truthy(name) || quantity.None? {
        return Failure(BadRequest);
      }
      var cart := CartOf(token);
      carts := carts[token := cart];
      var index := FirstIndex(cart, name.value);
      if index.None? {
        return Failure(NotFound);
      }
      if UniqueNames(cart) { PutKeepsUnique(cart, name.value, quantity.value); }
      if quantity.value <= 0 {
        cart := WithoutName(cart, name.value);
      } else {
        cart := cart[index.value := cart[index.value].(quantity := Some(quantity.value))];
      }
      carts := carts[token := cart];
      reply := CartBody(cart);
    }

    /** `DELETE /cart/:name`: an absent name is not an error, and the
        token's cart exists afterwards. */
    method DeleteCart(header: Option<string>, queryToken: Option<string>, name: string) returns (reply: CartReply)
      modifies this
      ensures var token := ChooseToken(header, queryToken);
        var cart := WithoutName(old(CartOf(token)), name);
        reply == CartBody(cart) && carts == old(carts)[token := cart]
      ensures old(AllUnique(carts)) ==> AllUnique(carts)
    {
      var token := ChooseToken(header, queryToken);
      var cart := CartOf(token);
      if UniqueNames(cart) { WithoutNameKeepsUnique(cart, name); }
      cart := WithoutName(cart, name);
      carts := carts[token := cart];
      reply := CartBody(cart);
    }
  }
}
