/** The product filter panel: three selections (category, brand, a
    `min-max` price range) and the visibility of every product card they
    give. The price shown on a card is read back from its text. */
module Filters {
  import opened Common
  import opened Text
  import opened PriceFormat

  /** The rupee sign as the filter script spells it: the UTF-8 bytes of
      `₹` read as Windows-1252, so it never matches the sign on a card. */
  const MisreadRupee: string := "\U{00E2}\U{201A}\U{00B9}"
  /** The rupee sign `₹` itself, as the bundled copy spells it. */
  const Rupee: string := "\U{20B9}"

  function Pow10(n: nat): (r: nat)
    ensures r >= 1
  {
    if n == 0 then 1 else 10 * Pow10(n - 1)
  }

  /** Where the digits start once white space and one sign are skipped. */
  function NumberStart(s: string): (d: nat)
    ensures d <= |s|
  {
    var i := LeadingSpaces(s);
    if i < |s| && (s[i] == '-' || s[i] == '+') then i + 1 else i
  }

  predicate Negative(s: string)
  {
    LeadingSpaces(s) < |s| && s[LeadingSpaces(s)] == '-'
  }

  /** `parseInt(s)` in base ten: leading white space, an optional sign and
      the longest run of digits after it; `None` is `NaN`. */
  function ParseInt(s: string): (r: Option<int>)
    ensures r.None? <==> DigitRunEnd(s, NumberStart(s)) == NumberStart(s)
  {
    var d := NumberStart(s);
    var e := DigitRunEnd(s, d);
    if e == d then None
    else
      var n: int := ParseDigits(s[d..e]);
      Some(if Negative(s) then -n else n)
  }

  /** `parseFloat(s)` for decimal notation: leading white space, an
      optional sign, digits with an optional fraction, at least one digit
      in all; `None` is `NaN`. */
  function ParseFloat(s: string): (r: Option<real>)
    ensures r.None? ==> DigitRunEnd(s, NumberStart(s)) == NumberStart(s)
  {
    var d := NumberStart(s);
    var e := DigitRunEnd(s, d);
    var point := e < |s| && s[e] == '.';
    var f := if point then DigitRunEnd(s, e + 1) else e;
    if e == d && (!point || f == e + 1) then None
    else
      var whole := ParseDigits(s[d..e]) as real;
      var frac := if point then ParseDigits(s[e + 1..f]) as real / Pow10(f - e - 1) as real else 0.0;
      Some(if Negative(s) then -(whole + frac) else whole + frac)
  }

  /** A price bound: a number, or `Infinity`. */
  datatype Bound = Finite(n: int) | Infinity

  /** `parseInt(p) || Infinity`: `NaN` and `0` both become `Infinity`. */
  function BoundOf(p: Option<string>): (b: Bound)
    ensures b.Finite? ==> b.n != 0
    ensures p.None? ==> b == Infinity
  {
    if p.None? then Infinity
    else match ParseInt(p.value)
      case None => Infinity
      case Some(n) => if n == 0 then Infinity else Finite(n)
  }

  /** The first two pieces of `range.split('-')`; the second is missing
      when there is no `-`. */
  function Pieces(range: string): (Option<string>, Option<string>)
  {
    var first := Before(range, '-');
    if |first| == |range| then (Some(first), None)
    else (Some(first), Some(Before(range[|first| + 1..], '-')))
  }

  function MinOf(range: string): Bound
  {
    BoundOf(Pieces(range).0)
  }

  function MaxOf(range: string): Bound
  {
    BoundOf(Pieces(range).1)
  }

  /** The text of a card, as the filter reads it. */
  datatype Card = Card(category: string, name: string, priceText: string)

  /** The price of a card: the text without the first `symbol` and the first
      comma, read by `parseFloat`. */
  function PriceOf(text: string, symbol: string): Option<real>
  {
    ParseFloat(DeleteFirst(DeleteFirst(text, symbol), ","))
  }

  /** `price < min || (max !== Infinity && price > max)` does not hold. A
      `NaN` price compares false with everything, and a finite price is
      below `Infinity`. */
  predicate PriceAllowed(price: Option<real>, min: Bound, max: Bound)
  {
    price.None? ||
    (!(min.Infinity? || price.value < min.n as real) && !(max.Finite? && price.value > max.n as real))
  }

  /** The three selections; `""` is no selection. */
  datatype Selection = Selection(category: string, brand: string, priceRange: string)

  const NoSelection := Selection("", "", "")

  /** Whether `applyFilters` leaves a card displayed. */
  predicate Visible(f: Selection, card: Card, symbol: string)
  {
    (f.category == "" || ToLower(card.category) == ToLower(f.category)) &&
    (f.brand == "" || Contains(ToLower(card.name), ToLower(f.brand))) &&
    (f.priceRange == "" || PriceAllowed(PriceOf(card.priceText, symbol), MinOf(f.priceRange), MaxOf(f.priceRange)))
  }

  /** With nothing selected every card shows. */
  lemma NothingSelectedShowsAll(card: Card, symbol: string)
    ensures Visible(NoSelection, card, symbol)
  {
  }

  /** A category alone shows exactly the cards of that category, in any
      letter case. */
  lemma CategoryAlone(category: string, card: Card, symbol: string)
    requires category != ""
    ensures Visible(Selection(category, "", ""), card, symbol) <==> ToLower(card.category) == ToLower(category)
  {
  }

  /** A brand alone shows exactly the cards whose lower-cased name contains
      the lower-cased brand. */
  lemma BrandAlone(brand: string, card: Card, symbol: string)
    requires brand != ""
    ensures Visible(Selection("", brand, ""), card, symbol) <==> Contains(ToLower(card.name), ToLower(brand))
  {
  }

  /** A lower bound of `Infinity` (a missing, non-numeric or zero one) hides
      every card with a number for a price. */
  lemma InfiniteMinHidesPriced(price: real, max: Bound)
    ensures !PriceAllowed(Some(price), Infinity, max)
  {
  }

  /** An upper bound of `Infinity` sets no upper limit. */
  lemma InfiniteMaxNoLimit(price: real, m: int)
    ensures PriceAllowed(Some(price), Finite(m), Infinity) <==> price >= m as real
  {
  }

  /** A `min-max` range of digit strings whose minimum reads as zero: the
      minimum is `Infinity`, the maximum its number (or `Infinity` for
      zero). */
  lemma ZeroLowerBound(a: string, b: string)
    requires a != [] && AllDigits(a) && ParseDigits(a) == 0
    requires b != [] && AllDigits(b)
    ensures MinOf(a + "-" + b) == Infinity
    ensures MaxOf(a + "-" + b) == if ParseDigits(b) == 0 then Infinity else Finite(ParseDigits(b))
  {
    var r := a + "-" + b;
    assert '-' !in a && '-' !in b by {
      assert forall i :: 0 <= i < |a| ==> IsDigit(a[i]);
      assert forall i :: 0 <= i < |b| ==> IsDigit(b[i]);
    }
    assert r == a + ['-'] + b;
    BeforeFirst(a, '-', b);
    BeforeAbsent(b, '-');
    assert r[|a| + 1..] == b;
    DigitsRun(a);
    DigitsRun(b);
  }

  /** So `'0-5000'` hides every card with a number for a price. */
  lemma ZeroToFiveThousand(price: real)
    ensures MinOf("0-5000") == Infinity && MaxOf("0-5000") == Finite(5000)
    ensures !PriceAllowed(Some(price), MinOf("0-5000"), MaxOf("0-5000"))
  {
    assert "0-5000" == "0" + "-" + "5000";
    assert ParseDigits("0") == 0;
    assert ParseDigits("5000") == 5000 by {
      assert "5000"[..3] == "500" && "500"[..2] == "50" && "50"[..1] == "5" && "5"[..0] == [];
    }
    ZeroLowerBound("0", "5000");
  }

  /** A string of digits is one whole digit run, read as its number. */
  lemma DigitsRun(s: string)
    requires s != [] && AllDigits(s)
    ensures NumberStart(s) == 0 && !Negative(s) && DigitRunEnd(s, 0) == |s|
    ensures ParseInt(s) == Some(ParseDigits(s))
    ensures ParseFloat(s) == Some(ParseDigits(s) as real)
  {
    assert !IsSpace(s[0]);
    assert s[0..|s|] == s;
  }

  /** Deleting a pattern that does not start with a string's first
      character keeps that character first. */
  lemma DeleteFirstKeepsHead(s: string, t: string)
    requires s != [] && t != [] && t[0] != s[0]
    ensures DeleteFirst(s, t) != [] && DeleteFirst(s, t)[0] == s[0]
  {
    if IndexOf(s, t, 0).Some? {
      var k := IndexOf(s, t, 0).value;
      assert s[k..k + |t|][0] == t[0];
    }
  }

  /** With the misread sign, a card whose text starts with `₹` has no
      number for a price, so no price range can hide it. */
  lemma RupeeTextNeverHidden(text: string, min: Bound, max: Bound)
    requires text != [] && text[0] == '\U{20B9}'
    ensures PriceOf(text, MisreadRupee) == None
    ensures PriceAllowed(PriceOf(text, MisreadRupee), min, max)
  {
    DeleteFirstKeepsHead(text, MisreadRupee);
    var once := DeleteFirst(text, MisreadRupee);
    DeleteFirstKeepsHead(once, ",");
    var twice := DeleteFirst(once, ",");
    assert !IsSpace(twice[0]) && !IsDigit(twice[0]);
  }

  /** With the real sign, `₹` followed by digits and one comma reads as the
      number the digits write. */
  lemma RupeeTextRead(a: string, b: string)
    requires a != [] && AllDigits(a) && AllDigits(b)
    ensures PriceOf(Rupee + a + "," + b, Rupee) == Some(ParseDigits(a + b) as real)
  {
    assert Rupee + a + "," + b == Rupee + (a + "," + b);
    DeleteFirstAtStart(Rupee, a + "," + b);
    DeleteCommaAfterDigits(a, b);
    assert AllDigits(a + b) by {
      forall i | 0 <= i < |a + b| ensures IsDigit((a + b)[i]) {
        if i < |a| { assert (a + b)[i] == a[i]; } else { assert (a + b)[i] == b[i - |a|]; }
      }
    }
    DigitsRun(a + b);
  }

  /** A string of digits has no comma to delete. */
  lemma DeleteNoComma(d: string)
    requires AllDigits(d)
    ensures DeleteFirst(d, ",") == d
  {
    forall i | 0 <= i < |d| ensures !OccursAt(d, ",", i) {
      assert d[i..i + 1][0] == d[i];
    }
  }

  /** `parseFloat` stops at the first comma after the leading digits. */
  lemma ParseFloatStopsAtComma(a: string, b: string)
    requires a != [] && AllDigits(a)
    ensures ParseFloat(a + "," + b) == Some(ParseDigits(a) as real)
  {
    var s := a + "," + b;
    assert s[0] == a[0] && !IsSpace(s[0]);
    assert LeadingSpaces(s) == 0;
    assert NumberStart(s) == 0 && !Negative(s);
    assert forall i :: 0 <= i < |a| ==> s[i] == a[i];
    assert s[|a|] == ',';
    assert DigitRunEnd(s, 0) == |a|;
    assert s[0..|a|] == a;
  }

  /** The writing of a whole number below `Pow10(k)` has at most `k`
      digits. */
  lemma {:induction false} ShowNatBelow(n: nat, k: nat)
    requires 1 <= k && n < Pow10(k)
    ensures |ShowNat(n)| <= k
  {
    if n >= 10 {
      assert k >= 2;
      assert Pow10(k) == 10 * Pow10(k - 1);
      ShowNatBelow(n / 10, k - 1);
    }
  }

  /** A price below one lakh, written by `toLocaleString('en-IN')` after the
      `₹` sign, has at most one comma, and the filter reads it back as the
      price. */
  lemma FormattedPriceRead(price: nat)
    requires price < 100000
    ensures PriceOf(Rupee + FormatInr(price), Rupee) == Some(price as real)
  {
    var d := ShowNat(price);
    ParseShow(price);
    assert Pow10(5) == 100000;
    ShowNatBelow(price, 5);
    assert FormatInr(price) == GroupIndian(d);
    if |d| <= 3 {
      ShortGroupRead(d);
    } else {
      ThousandsGroupRead(d);
    }
  }

  /** Up to three digits are written as they are. */
  lemma ShortGroupRead(d: string)
    requires d != [] && AllDigits(d) && |d| <= 3
    ensures PriceOf(Rupee + GroupIndian(d), Rupee) == Some(ParseDigits(d) as real)
  {
    DeleteFirstAtStart(Rupee, d);
    DeleteNoComma(d);
    DigitsRun(d);
  }

  /** Four or five digits get one comma before the last three. */
  lemma ThousandsGroupRead(d: string)
    requires AllDigits(d) && 3 < |d| <= 5
    ensures PriceOf(Rupee + GroupIndian(d), Rupee) == Some(ParseDigits(d) as real)
  {
    var a, b := d[..|d| - 3], d[|d| - 3..];
    ThousandsGroup(d);
    assert AllDigits(a) && AllDigits(b) by {
      assert forall i :: 0 <= i < |a| ==> a[i] == d[i];
      assert forall i :: 0 <= i < |b| ==> b[i] == d[|d| - 3 + i];
    }
    RupeeTextRead(a, b);
  }

  lemma ThousandsGroup(d: string)
    requires 3 < |d| <= 5
    ensures Rupee + GroupIndian(d) == Rupee + d[..|d| - 3] + "," + d[|d| - 3..]
    ensures d[..|d| - 3] + d[|d| - 3..] == d && d[..|d| - 3] != []
  {
    assert GroupPairs(d[..|d| - 3]) == d[..|d| - 3];
  }

  /** From one lakh on the writing has a second comma, which survives the
      single comma deletion and ends the number: the text reads as the
      digits before the second comma. */
  lemma SecondCommaStops(a: string, b: string, c: string)
    requires a != [] && AllDigits(a) && AllDigits(b) && AllDigits(c)
    ensures PriceOf(Rupee + a + "," + b + "," + c, Rupee) == Some(ParseDigits(a + b) as real)
  {
    var t := b + "," + c;
    var u := a + "," + t;
    assert Rupee + a + "," + b + "," + c == Rupee + u;
    DeleteFirstAtStart(Rupee, u);
    DeleteCommaAfterDigits(a, t);
    var v := a + b;
    assert a + t == v + "," + c;
    DigitsAppend(a, b);
    ParseFloatStopsAtComma(v, c);
  }

  lemma DigitsAppend(a: string, b: string)
    requires AllDigits(a) && AllDigits(b)
    ensures AllDigits(a + b)
  {
    forall i | 0 <= i < |a + b| ensures IsDigit((a + b)[i]) {
      if i < |a| { assert (a + b)[i] == a[i]; } else { assert (a + b)[i] == b[i - |a|]; }
    }
  }

  /** From one lakh up to one crore the writing has a second comma: the
      filter reads the price in thousands, so `₹1,23,456` is read as 123. */
  lemma LakhPriceMisread(price: nat)
    requires 100000 <= price < 10000000
    ensures PriceOf(Rupee + FormatInr(price), Rupee) == Some((price / 1000) as real)
  {
    var d := ShowNat(price);
    assert Pow10(6) == 1000000 && Pow10(7) == 10000000;
    ShowNatBelow(price, 7);
    ShowNatAbove(price, 6);
    var x, y, z := d[..|d| - 5], d[|d| - 5..|d| - 3], d[|d| - 3..];
    LakhGroups(d);
    DigitsSlice(d, 0, |d| - 5);
    DigitsSlice(d, |d| - 5, |d| - 3);
    DigitsSlice(d, |d| - 3, |d|);
    SecondCommaStops(x, y, z);
    ShowNatDropThree(price);
    ParseShow(price / 1000);
  }

  /** Six or seven digits get two commas. */
  lemma LakhGroups(d: string)
    requires 6 <= |d| <= 7
    ensures Rupee + GroupIndian(d) == Rupee + d[..|d| - 5] + "," + d[|d| - 5..|d| - 3] + "," + d[|d| - 3..]
    ensures d[..|d| - 5] + d[|d| - 5..|d| - 3] == d[..|d| - 3]
  {
    var e := d[..|d| - 3];
    assert e[..|e| - 2] == d[..|d| - 5] && e[|e| - 2..] == d[|d| - 5..|d| - 3];
    assert GroupPairs(e[..|e| - 2]) == e[..|e| - 2];
  }

  lemma DigitsSlice(d: string, i: nat, j: nat)
    requires AllDigits(d) && i <= j <= |d|
    ensures AllDigits(d[i..j])
  {
    assert forall k :: 0 <= k < j - i ==> d[i..j][k] == d[i + k];
  }

  /** The writing of a whole number of at least `Pow10(k - 1)` has at least
      `k` digits. */
  lemma {:induction false} ShowNatAbove(n: nat, k: nat)
    requires 1 <= k && n >= Pow10(k - 1)
    ensures |ShowNat(n)| >= k
  {
    if k > 1 {
      assert Pow10(k - 1) == 10 * Pow10(k - 2);
      ShowNatAbove(n / 10, k - 1);
    }
  }

  /** Dropping the last digit of a writing writes the number divided by ten. */
  lemma ShowNatDrop(n: nat)
    requires n >= 10
    ensures ShowNat(n)[..|ShowNat(n)| - 1] == ShowNat(n / 10)
  {
  }

  lemma ShowNatDropTwo(n: nat)
    requires n >= 100
    ensures |ShowNat(n)| >= 2 && ShowNat(n)[..|ShowNat(n)| - 2] == ShowNat(n / 100)
  {
    var s0, s1 := ShowNat(n), ShowNat(n / 10);
    ShowNatDrop(n);
    ShowNatDrop(n / 10);
    assert n / 10 / 10 == n / 100;
    assert s1[..|s1| - 1] == s0[..|s0| - 2];
  }

  lemma ShowNatDropThree(n: nat)
    requires n >= 1000
    ensures |ShowNat(n)| >= 3 && ShowNat(n)[..|ShowNat(n)| - 3] == ShowNat(n / 1000)
  {
    var s0, s2 := ShowNat(n), ShowNat(n / 100);
    ShowNatDropTwo(n);
    ShowNatDrop(n / 100);
    assert n / 100 / 10 == n / 1000;
    assert s2[..|s2| - 1] == s0[..|s0| - 3];
  }

  class FilterPanel {
    var category: string
    var brand: string
    var priceRange: string

    constructor ()
      ensures category == "" && brand == "" && priceRange == ""
    {
      category, brand, priceRange := "", "", "";
    }

    function Current(): Selection
      reads this
    {
      Selection(category, brand, priceRange)
    }

    /** The `change` listeners of the three selects. */
    method SetCategory(v: string)
      modifies this
      ensures category == v && brand == old(brand) && priceRange == old(priceRange)
    {
      category := v;
    }

    method SetBrand(v: string)
      modifies this
      ensures brand == v && category == old(category) && priceRange == old(priceRange)
    {
      brand := v;
    }

    method SetPriceRange(v: string)
      modifies this
      ensures priceRange == v && category == old(category) && brand == old(brand)
    {
      priceRange := v;
    }

    /** `applyFilters`: whether each card is displayed, and whether the
        "no results" message is on the page afterwards. */
    method ApplyFilters(cards: seq<Card>, symbol: string) returns (shown: seq<bool>, noResults: bool)
      ensures |shown| == |cards|
      ensures forall i :: 0 <= i < |cards| ==> shown[i] == Visible(Current(), cards[i], symbol)
      ensures noResults <==> forall i :: 0 <= i < |cards| ==> !shown[i]
    {
      var f := Current();
      shown := [];
      var i := 0;
      while i < |cards|
        invariant 0 <= i <= |cards| && |shown| == i
        invariant forall k :: 0 <= k < i ==> shown[k] == Visible(f, cards[k], symbol)
      {
        shown := shown + [Visible(f, cards[i], symbol)];
        i := i + 1;
      }
      noResults := true !in shown;
    }

    /** `resetFilters`: the selections are cleared, every card shows and
        the message goes. */
    method ResetFilters(cards: seq<Card>) returns (shown: seq<bool>, noResults: bool)
      modifies this
      ensures Current() == NoSelection
      ensures |shown| == |cards| && (forall i :: 0 <= i < |cards| ==> shown[i]) && !noResults
    {
      category, brand, priceRange := "", "", "";
      shown := seq(|cards|, _ => true);
      noResults := false;
    }
  }

  /** After a reset, applying the filters shows the same as the reset. */
  lemma ResetThenApply(cards: seq<Card>, symbol: string)
    ensures forall i :: 0 <= i < |cards| ==> Visible(NoSelection, cards[i], symbol)
  {
  }
}
