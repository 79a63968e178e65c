/** `price.toLocaleString('en-IN')` for whole rupees: the last three digits
    form one group and the digits before them are grouped in pairs
    (1,23,456). */
module PriceFormat {
  import opened Text

  /** Pairs of digits separated by commas, a leading single digit allowed. */
  function GroupPairs(d: string): string
    decreases |d|
  {
    if |d| <= 2 then d else GroupPairs(d[..|d| - 2]) + "," + d[|d| - 2..]
  }

  function GroupIndian(d: string): string
  {
    if |d| <= 3 then d else GroupPairs(d[..|d| - 3]) + "," + d[|d| - 3..]
  }

  function FormatInr(price: int): string
  {
    if price < 0 then "-" + GroupIndian(ShowNat(-price)) else GroupIndian(ShowNat(price))
  }

  function StripCommas(s: string): (r: string)
    ensures forall i :: 0 <= i < |r| ==> r[i] != ','
  {
    if s == [] then [] else if s[0] == ',' then StripCommas(s[1..]) else [s[0]] + StripCommas(s[1..])
  }

  lemma {:induction false} StripAppend(a: string, b: string)
    ensures StripCommas(a + b) == StripCommas(a) + StripCommas(b)
  {
    if a != [] {
      assert (a + b)[1..] == a[1..] + b;
      StripAppend(a[1..], b);
    } else {
      assert a + b == b;
    }
  }

  lemma {:induction false} StripDigits(d: string)
    requires AllDigits(d)
    ensures StripCommas(d) == d
  {
    if d != [] {
      StripDigits(d[1..]);
    }
  }

  lemma {:induction false} StripPairs(d: string)
    requires AllDigits(d)
    ensures StripCommas(GroupPairs(d)) == d
    decreases |d|
  {
    if |d| <= 2 {
      StripDigits(d);
    } else {
      var front, back := d[..|d| - 2], d[|d| - 2..];
      StripPairs(front);
      StripAppend(GroupPairs(front) + ",", back);
      StripAppend(GroupPairs(front), ",");
      StripDigits(back);
      assert front + back == d;
    }
  }

  lemma StripIndian(d: string)
    requires AllDigits(d)
    ensures StripCommas(GroupIndian(d)) == d
  {
    if |d| <= 3 {
      StripDigits(d);
    } else {
      var front, back := d[..|d| - 3], d[|d| - 3..];
      StripPairs(front);
      StripAppend(GroupPairs(front) + ",", back);
      StripAppend(GroupPairs(front), ",");
      StripDigits(back);
      assert front + back == d;
    }
  }

  /** The separators carry no value: dropping the commas from a formatted
      price and reading the digits gives the price back. */
  lemma FormatRoundTrip(price: nat)
    ensures AllDigits(StripCommas(FormatInr(price)))
    ensures ParseDigits(StripCommas(FormatInr(price))) == price
  {
    StripIndian(ShowNat(price));
    ParseShow(price);
  }
}
