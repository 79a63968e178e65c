/** Values shared by every part of the model. */
module Common {

  /** An optional value: JavaScript's `undefined`/`null` versus a present value. */
  datatype Option<T> = None | Some(value: T)

  /** JavaScript truthiness of an optional string: present and not empty. */
  predicate Truthy(s: Option<string>)
  {
    s.Some? && s.value != ""
  }

  /** A cart line as the browser carts and the backend store it: the product's
      name, its price and, when present, its numeric `quantity` field. */
  datatype Line = Line(name: string, price: int, quantity: Option<int>)

  function Max(a: int, b: int): (r: int)
    ensures r >= a && r >= b && (r == a || r == b)
  {
    if a >= b then a else b
  }

  function Min(a: int, b: int): (r: int)
    ensures r <= a && r <= b && (r == a || r == b)
  {
    if a <= b then a else b
  }

  /** `quantity || 1`: a missing quantity, or the falsy number 0, reads as 1. */
  function Qty(l: Line): (q: int)
    ensures l.quantity.Some? && l.quantity.value != 0 ==> q == l.quantity.value
    ensures l.quantity.None? || l.quantity.value == 0 ==> q == 1
  {
    match l.quantity
    case None => 1
    case Some(v) => if v == 0 then 1 else v
  }

  /** No entry occurs twice. */
  predicate Distinct<T(==)>(s: seq<T>)
  {
    forall i, j :: 0 <= i < j < |s| ==> s[i] != s[j]
  }

  /** No two lines share a name. */
  predicate UniqueNames(cart: seq<Line>)
  {
    forall i, j :: 0 <= i < j < |cart| ==> cart[i].name != cart[j].name
  }

  /** Some line has exactly this name (`Array.prototype.some` over names). */
  predicate HasName(cart: seq<Line>, name: string)
  {
    exists i :: 0 <= i < |cart| && cart[i].name == name
  }

  /** The index of the first line with this name (`findIndex`), if any. */
  function FirstIndex(cart: seq<Line>, name: string): (r: Option<nat>)
    ensures r.None? <==> !HasName(cart, name)
    ensures r.Some? ==> r.value < |cart| && cart[r.value].name == name
    ensures r.Some? ==> forall j :: 0 <= j < r.value ==> cart[j].name != name
  {
    if cart == [] then None
    else if cart[0].name == name then Some(0)
    else
      match FirstIndex(cart[1..], name)
      case None => None
      case Some(k) => Some(k + 1)
  }

  /** `cart.filter(i => i.name !== name)`. */
  function WithoutName(cart: seq<Line>, name: string): (r: seq<Line>)
    ensures |r| <= |cart|
    ensures !HasName(r, name)
    ensures forall l :: l in r <==> l in cart && l.name != name
  {
    if cart == [] then []
    else if cart[0].name == name then WithoutName(cart[1..], name)
    else [cart[0]] + WithoutName(cart[1..], name)
  }

  /** `splice(index, 1)`. */
  function RemoveAt<T>(s: seq<T>, index: nat): (r: seq<T>)
    requires index < |s|
    ensures |r| == |s| - 1
    ensures forall j :: 0 <= j < index ==> r[j] == s[j]
    ensures forall j :: index <= j < |r| ==> r[j] == s[j + 1]
  {
    s[..index] + s[index + 1..]
  }

  /** `arr.reduce((t, l) => t + f(l), 0)`, folded from the last line. */
  function SumBy(cart: seq<Line>, f: Line -> int): int
    decreases |cart|
  {
    if cart == [] then 0 else SumBy(cart[..|cart| - 1], f) + f(cart[|cart| - 1])
  }

  lemma SumByAppend(cart: seq<Line>, l: Line, f: Line -> int)
    ensures SumBy(cart + [l], f) == SumBy(cart, f) + f(l)
  {
    assert (cart + [l])[..|cart|] == cart;
  }

  /** Replacing one line changes the sum by the difference of that line. */
  lemma {:induction false} SumByUpdate(cart: seq<Line>, i: nat, l: Line, f: Line -> int)
    requires i < |cart|
    ensures SumBy(cart[i := l], f) == SumBy(cart, f) - f(cart[i]) + f(l)
    decreases |cart|
  {
    var n := |cart| - 1;
    var c := cart[i := l];
    assert c[..n] == if i < n then cart[..n][i := l] else cart[..n];
    if i < n {
      SumByUpdate(cart[..n], i, l, f);
    }
  }

  /** What the checkout button does. */
  datatype CheckoutStep = PromptLogin | ProcessOrder

  /** `checkout()`: without a login it only asks for one. */
  function Checkout(isLoggedIn: bool): (r: CheckoutStep)
    ensures r == PromptLogin <==> !isLoggedIn
  {
    if isLoggedIn then ProcessOrder else PromptLogin
  }

  /** `findIndex` then `splice(index, 1)`: the first line with the name
      goes; an absent name changes nothing. */
  function RemoveFirst(cart: seq<Line>, name: string): (r: seq<Line>)
    ensures !HasName(cart, name) ==> r == cart
    ensures HasName(cart, name) ==> r == RemoveAt(cart, FirstIndex(cart, name).value)
  {
    match FirstIndex(cart, name)
    case None => cart
    case Some(i) => RemoveAt(cart, i)
  }

  /** Removing the first line with a name takes away exactly that one line. */
  lemma RemoveFirstTakesOne(cart: seq<Line>, name: string)
    requires HasName(cart, name)
    ensures multiset(RemoveFirst(cart, name)) == multiset(cart) - multiset{cart[FirstIndex(cart, name).value]}
  {
    SpliceTakesOne(cart, FirstIndex(cart, name).value);
  }

  lemma SpliceTakesOne<T>(s: seq<T>, i: nat)
    requires i < |s|
    ensures multiset(RemoveAt(s, i)) == multiset(s) - multiset{s[i]}
  {
    var a, b := s[..i], s[i + 1..];
    assert s == a + [s[i]] + b;
    assert multiset(s) == multiset(a) + multiset{s[i]} + multiset(b);
  }

  lemma {:induction false} SumByConcat(a: seq<Line>, b: seq<Line>, f: Line -> int)
    ensures SumBy(a + b, f) == SumBy(a, f) + SumBy(b, f)
    decreases |b|
  {
    if b != [] {
      var n := |b| - 1;
      assert (a + b)[..|a| + n] == a + b[..n];
      SumByConcat(a, b[..n], f);
    } else {
      assert a + b == a;
    }
  }

  /** The filter keeps the order: it distributes over concatenation. */
  lemma {:induction false} WithoutNameConcat(a: seq<Line>, b: seq<Line>, name: string)
    ensures WithoutName(a + b, name) == WithoutName(a, name) + WithoutName(b, name)
    decreases |a|
  {
    if a != [] {
      assert (a + b)[1..] == a[1..] + b;
      WithoutNameConcat(a[1..], b, name);
    } else {
      assert a + b == b;
    }
  }

  /** Filtering out an absent name changes nothing. */
  lemma {:induction false} WithoutNameAbsent(cart: seq<Line>, name: string)
    requires !HasName(cart, name)
    ensures WithoutName(cart, name) == cart
    decreases |cart|
  {
    if cart != [] {
      assert !HasName(cart[1..], name) by {
        forall j | 0 <= j < |cart| - 1 ensures cart[1..][j].name != name {
          assert cart[1..][j] == cart[j + 1];
        }
      }
      WithoutNameAbsent(cart[1..], name);
      assert cart[0].name != name;
      assert cart == [cart[0]] + cart[1..];
    }
  }

  /** A line appended under a new name is the first with that name. */
  lemma FirstIndexAppended(cart: seq<Line>, p: Line)
    requires !HasName(cart, p.name)
    ensures FirstIndex(cart + [p], p.name) == Some(|cart|)
  {
    assert (cart + [p])[|cart|].name == p.name;
  }

  /** Changing one line's quantity keeps the names unique. */
  lemma SetQuantityKeepsUnique(cart: seq<Line>, i: nat, q: Option<int>)
    requires i < |cart| && UniqueNames(cart)
    ensures UniqueNames(cart[i := cart[i].(quantity := q)])
  {
    var r := cart[i := cart[i].(quantity := q)];
    assert forall j :: 0 <= j < |r| ==> r[j].name == cart[j].name;
  }

  /** Filtering keeps the names unique (it keeps a subsequence). */
  lemma {:induction false} WithoutNameKeepsUnique(cart: seq<Line>, name: string)
    requires UniqueNames(cart)
    ensures UniqueNames(WithoutName(cart, name))
    decreases |cart|
  {
    if cart != [] {
      UniqueTail(cart);
      WithoutNameKeepsUnique(cart[1..], name);
      if cart[0].name != name {
        var w := WithoutName(cart[1..], name);
        assert forall l :: l in w ==> l in cart[1..];
        UniqueCons(cart[0], w);
      }
    }
  }

  /** The tail of a list with unique names has unique names, none of them
      the head's. */
  lemma UniqueTail(cart: seq<Line>)
    requires cart != [] && UniqueNames(cart)
    ensures UniqueNames(cart[1..])
    ensures forall l :: l in cart[1..] ==> l.name != cart[0].name
  {
    var rest := cart[1..];
    forall i, j | 0 <= i < j < |rest| ensures rest[i].name != rest[j].name {
      assert rest[i] == cart[i + 1] && rest[j] == cart[j + 1];
    }
    forall l | l in rest ensures l.name != cart[0].name {
      var k :| 0 <= k < |rest| && rest[k] == l;
      assert cart[k + 1] == l;
    }
  }

  /** A line whose name is new in front of a list with unique names. */
  lemma UniqueCons(x: Line, w: seq<Line>)
    requires UniqueNames(w) && forall l :: l in w ==> l.name != x.name
    ensures UniqueNames([x] + w)
  {
    var r := [x] + w;
    forall i, j | 0 <= i < j < |r| ensures r[i].name != r[j].name {
      assert r[j] == w[j - 1];
      if i > 0 { assert r[i] == w[i - 1]; } else { assert r[j] in w; }
    }
  }

  /** A line whose name is new after a list with unique names. */
  lemma UniqueSnoc(w: seq<Line>, x: Line)
    requires UniqueNames(w) && !HasName(w, x.name)
    ensures UniqueNames(w + [x]) && HasName(w + [x], x.name)
  {
    var r := w + [x];
    assert r[|w|].name == x.name;
    forall a, b | 0 <= a < b < |r| ensures r[a].name != r[b].name {
      assert r[a] == w[a];
      if b < |w| { assert r[b] == w[b]; }
    }
  }
}
