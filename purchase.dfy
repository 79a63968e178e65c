/** `buyProduct(productId)`: the product is found through the lookup (by
    its lower-cased name or alias) or, failing that, by its exact name; it
    opens its product-level marketplace links, falling back to its raw
    `affiliates` entries, and reports "Product links not available" when
    neither marketplace has a link. */
module Purchase {
  import opened Common
  import opened Text
  import opened Catalog

  datatype BuyOutcome = LinksUnavailable | OpenLinks(amazon: Option<string>, flipkart: Option<string>)

  /** `affiliates?.[market]` when it is a truthy string. */
  function AffiliateEntry(p: Product, market: string): (r: Option<string>)
    ensures r.Some? <==> p.affiliates.Some? && market in p.affiliates.value && p.affiliates.value[market] != ""
    ensures r.Some? ==> r.value == p.affiliates.value[market]
  {
    match p.affiliates
    case None => None
    case Some(m) => if market in m && m[market] != "" then Some(m[market]) else None
  }

  /** `product.amazonLink || product.affiliates?.amazon || null`. */
  function AmazonLink(p: Product): (r: Option<string>)
    ensures p.amazonLink != "" ==> r == Some(p.amazonLink)
    ensures p.amazonLink == "" ==> r == AffiliateEntry(p, "amazon")
  {
    if p.amazonLink != "" then Some(p.amazonLink) else AffiliateEntry(p, "amazon")
  }

  /** `product.flipkartLink || product.affiliates?.flipkart || null`. */
  function FlipkartLink(p: Product): (r: Option<string>)
    ensures p.flipkartLink != "" ==> r == Some(p.flipkartLink)
    ensures p.flipkartLink == "" ==> r == AffiliateEntry(p, "flipkart")
  {
    if p.flipkartLink != "" then Some(p.flipkartLink) else AffiliateEntry(p, "flipkart")
  }

  /** The first product, in lookup order, whose name is exactly `name`. */
  function FindByName(ps: seq<Product>, ids: seq<nat>, name: string): (r: Option<nat>)
    requires forall i :: 0 <= i < |ids| ==> ids[i] < |ps|
    ensures r.Some? ==> r.value in ids && ps[r.value].name == name
    ensures r.None? <==> forall i :: 0 <= i < |ids| ==> ps[ids[i]].name != name
  {
    if ids == [] then None
    else if ps[ids[0]].name == name then Some(ids[0])
    else FindByName(ps, ids[1..], name)
  }

  /** The product `buyProduct` acts on. */
  function ResolveProduct(ps: seq<Product>, l: Lookup, productId: string): (r: Option<nat>)
    requires ValidLookup(l) && forall k :: k in l.table ==> l.table[k] < |ps|
    ensures r.Some? ==> r.value < |ps|
    ensures productId == "" ==> r.None?
    ensures productId != "" && ToLower(productId) in l.table ==> r == Some(l.table[ToLower(productId)])
    ensures productId != "" && ToLower(productId) !in l.table ==>
      (r.None? <==> forall i :: 0 <= i < |Values(l)| ==> ps[Values(l)[i]].name != productId) &&
      (r.Some? ==> r.value in Values(l) && ps[r.value].name == productId)
  {
    if productId == "" then None
    else if ToLower(productId) in l.table then Some(l.table[ToLower(productId)])
    else FindByName(ps, Values(l), productId)
  }

  /** `buyProduct(productId)`. */
  function BuyProduct(ps: seq<Product>, l: Lookup, productId: string): (r: BuyOutcome)
    requires ValidLookup(l) && forall k :: k in l.table ==> l.table[k] < |ps|
    ensures r.OpenLinks? <==> (ResolveProduct(ps, l, productId).Some?
      && (AmazonLink(ps[ResolveProduct(ps, l, productId).value]).Some?
          || FlipkartLink(ps[ResolveProduct(ps, l, productId).value]).Some?))
    ensures r.OpenLinks? ==> var p := ps[ResolveProduct(ps, l, productId).value];
      r.amazon == AmazonLink(p) && r.flipkart == FlipkartLink(p)
  {
    match ResolveProduct(ps, l, productId)
    case None => LinksUnavailable
    case Some(id) =>
      var amazon, flipkart := AmazonLink(ps[id]), FlipkartLink(ps[id]);
      if amazon.None? && flipkart.None? then LinksUnavailable else OpenLinks(amazon, flipkart)
  }

  /** On the lookup built from the catalog the exact-name fallback is never
      what finds a product: every named product's lower-cased name is a key
      of the lookup, so a name that is not a key names no product there. */
  lemma NameFallbackUnused(ps: seq<Product>, productId: string)
    requires productId != "" && ToLower(productId) !in Build(ps).table
    ensures ResolveProduct(ps, Build(ps), productId).None?
  {
    var l := Build(ps);
    forall i | 0 <= i < |Values(l)| ensures ps[Values(l)[i]].name != productId {
      var id := Values(l)[i];
      BuildLastWriter(ps, l.keys[i]);
      var own := ToLower(ps[id].name);
      assert Writes(ps[id], own);
      BuildHasKey(ps, own);
      assert own != ToLower(productId);
    }
  }
}
