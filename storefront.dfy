/** The storefront's shared state in `script.js`: `PRODUCTS_BY_BRANCH`, the
    product objects it holds, `PRODUCT_LOOKUP` and the `affiliateManager`
    links; how they are built at load time, how `loadCustomProducts`
    merges stored products into them, and how opening a branch fills in
    missing metadata on the shared objects. */
module Storefront {
  import opened Common
  import opened Text
  import opened Catalog
  import opened Affiliates
  import opened Search
  import BranchView

  const Placeholder: string := "assets/placeholder.svg"

  /** The catalog literal: branch codes with their product lists, in
      object key order. */
  type Branches = seq<(string, seq<Product>)>

  function Codes(catalog: Branches): (r: seq<string>)
    ensures |r| == |catalog| && forall i :: 0 <= i < |catalog| ==> r[i] == catalog[i].0
  {
    seq(|catalog|, i requires 0 <= i < |catalog| => catalog[i].0)
  }

  /** `Object.values(PRODUCTS_BY_BRANCH).flat()`. */
  function Flatten(catalog: Branches): (r: seq<Product>)
    decreases |catalog|
  {
    if catalog == [] then [] else Flatten(catalog[..|catalog| - 1]) + catalog[|catalog| - 1].1
  }

  lemma {:induction false} FlattenPrefix(catalog: Branches, i: nat)
    requires i < |catalog|
    ensures |Flatten(catalog[..i])| + |catalog[i].1| <= |Flatten(catalog)|
    ensures Flatten(catalog)[|Flatten(catalog[..i])|..|Flatten(catalog[..i])| + |catalog[i].1|] == catalog[i].1
    decreases |catalog|
  {
    var n := |catalog| - 1;
    assert catalog[..n + 1] == catalog;
    if i < n {
      assert catalog[..n][..i] == catalog[..i];
      FlattenPrefix(catalog[..n], i);
      var a, b := |Flatten(catalog[..i])|, |Flatten(catalog[..i])| + |catalog[i].1|;
      assert Flatten(catalog)[a..b] == Flatten(catalog[..n])[a..b];
    } else {
      assert Flatten(catalog)[|Flatten(catalog[..n])|..] == catalog[n].1;
    }
  }

  /** The positions `lo, lo + 1, .., lo + n - 1`. */
  function Range(lo: nat, n: nat): (r: seq<nat>)
    ensures |r| == n && forall k :: 0 <= k < n ==> r[k] == lo + k
  {
    seq(n, k requires 0 <= k < n => lo + k)
  }

  /** Each branch's products as positions into the flattened catalog. */
  function BranchTable(catalog: Branches): (r: map<string, seq<nat>>)
    ensures r.Keys == set i | 0 <= i < |catalog| :: catalog[i].0
    decreases |catalog|
  {
    if catalog == [] then map[]
    else
      var n := |catalog| - 1;
      var t := BranchTable(catalog[..n]);
      assert (set i | 0 <= i < |catalog| :: catalog[i].0) == (set i | 0 <= i < n :: catalog[..n][i].0) + {catalog[n].0} by {
        forall i | 0 <= i < |catalog|
          ensures catalog[i].0 in (set i | 0 <= i < n :: catalog[..n][i].0) + {catalog[n].0}
        {
          if i < n { assert catalog[..n][i] == catalog[i]; }
        }
      }
      t[catalog[n].0 := Range(|Flatten(catalog[..n])|, |catalog[n].1|)]
  }

  /** Branch `i` holds the positions its products take in the flattened
      catalog. */
  lemma {:induction false} BranchTableAt(catalog: Branches, i: nat)
    requires DistinctKeys(Codes(catalog)) && i < |catalog|
    ensures BranchTable(catalog)[catalog[i].0] == Range(|Flatten(catalog[..i])|, |catalog[i].1|)
    decreases |catalog|
  {
    var n := |catalog| - 1;
    if i < n {
      assert Codes(catalog[..n]) == Codes(catalog)[..n];
      assert catalog[..n][..i] == catalog[..i] && catalog[..n][i] == catalog[i];
      BranchTableAt(catalog[..n], i);
      assert Codes(catalog)[i] != Codes(catalog)[n];
    }
  }

  /** The buildProductLookup pass over one product: a named product with an
      `affiliates` object copies its non-empty `amazon` and `flipkart`
      entries to `amazonLink` and `flipkartLink`, and a named product
      without an image gets the placeholder. */
  function Normalize(p: Product): (r: Product)
    ensures r.name == p.name && r.aliases == p.aliases && r.price == p.price
    ensures r.category == p.category && r.badge == p.badge && r.description == p.description
    ensures r.affiliates == p.affiliates && r.dateAdded == p.dateAdded
    ensures r.rating == p.rating && r.popularity == p.popularity
    ensures !Named(p) ==> r == p
  {
    if !Named(p) then p
    else
      var amazon := if p.affiliates.Some? && "amazon" in p.affiliates.value && p.affiliates.value["amazon"] != ""
        then p.affiliates.value["amazon"] else p.amazonLink;
      var flipkart := if p.affiliates.Some? && "flipkart" in p.affiliates.value && p.affiliates.value["flipkart"] != ""
        then p.affiliates.value["flipkart"] else p.flipkartLink;
      p.(amazonLink := amazon, flipkartLink := flipkart,
         imageUrl := if p.imageUrl == "" then Placeholder else p.imageUrl)
  }

  /** After normalization a named product has an image, and a non-empty
      affiliate entry has become the product-level link. */
  lemma NormalizedLinks(p: Product)
    requires Named(p)
    ensures Normalize(p).imageUrl != ""
    ensures p.affiliates.Some? && "amazon" in p.affiliates.value && p.affiliates.value["amazon"] != "" ==>
      Normalize(p).amazonLink == p.affiliates.value["amazon"]
    ensures p.affiliates.Some? && "flipkart" in p.affiliates.value && p.affiliates.value["flipkart"] != "" ==>
      Normalize(p).flipkartLink == p.affiliates.value["flipkart"]
    ensures Normalize(Normalize(p)) == Normalize(p)
  {
  }

  function NormalizeAll(ps: seq<Product>): (r: seq<Product>)
    ensures |r| == |ps| && forall i :: 0 <= i < |ps| ==> r[i] == Normalize(ps[i])
  {
    seq(|ps|, i requires 0 <= i < |ps| => Normalize(ps[i]))
  }

  /** Normalization writes no lookup key: the lookup of the normalized
      products is that of the literal. */
  lemma {:induction false} NormalizeKeepsLookup(ps: seq<Product>)
    ensures Build(NormalizeAll(ps)) == Build(ps)
    decreases |ps|
  {
    if ps != [] {
      var n := |ps| - 1;
      assert NormalizeAll(ps)[..n] == NormalizeAll(ps[..n]);
      NormalizeKeepsLookup(ps[..n]);
    }
  }

  /** The `updateAffiliateLinks(p.name, p.affiliates)` calls of
      buildProductLookup, in catalog order. */
  function Registrations(ps: seq<Product>): seq<(string, Links)>
    decreases |ps|
  {
    if ps == [] then []
    else
      var n := |ps| - 1;
      var p := ps[n];
      Registrations(ps[..n]) + (if Named(p) && p.affiliates.Some? then [(p.name, p.affiliates.value)] else [])
  }

  lemma LookupStep(ps: seq<Product>, i: nat)
    requires i < |ps|
    ensures Build(ps[..i + 1]) == if Named(ps[i]) then PutAll(Build(ps[..i]), ProductKeys(ps[i]), i) else Build(ps[..i])
    ensures NormalizeAll(ps[..i + 1]) == NormalizeAll(ps[..i]) + [Normalize(ps[i])]
  {
    assert ps[..i + 1][..i] == ps[..i];
  }

  lemma RegistrationsStep(ps: seq<Product>, i: nat)
    requires i < |ps|
    ensures Registrations(ps[..i + 1]) == Registrations(ps[..i])
      + (if Named(ps[i]) && ps[i].affiliates.Some? then [(ps[i].name, ps[i].affiliates.value)] else [])
  {
    assert ps[..i + 1][..i] == ps[..i];
  }

  /** The two overrides registered before the lookup is built, one of them
      under the misspelt name that appears in the page markup. */
  const CasioShortLink: string := "https://amzn.to/4rnIiqW"
  const Overrides: seq<(string, Links)> :=
    [("Casio FX-991CW", map["amazon" := CasioShortLink]),
     ("Casi₹o FX-991CW", map["amazon" := CasioShortLink])]

  /** The affiliate links once the page script has run. */
  function InitialLinks(ps: seq<Product>): map<string, Links>
  {
    UpdateAll(UpdateAll(map[], Overrides), Registrations(ps))
  }

  /** A catalog product with an `affiliates` object, and no later product of
      the same lower-cased name with one, leaves its own links in the
      manager, whatever was registered before. */
  lemma {:induction false} OwnLinksWin(ps: seq<Product>, i: nat)
    requires i < |ps| && Named(ps[i]) && ps[i].affiliates.Some?
    requires forall j :: i < j < |ps| && Named(ps[j]) && ps[j].affiliates.Some? ==> ToLower(ps[j].name) != ToLower(ps[i].name)
    ensures ToLower(ps[i].name) in InitialLinks(ps) && InitialLinks(ps)[ToLower(ps[i].name)] == ps[i].affiliates.value
    decreases |ps|
  {
    var n := |ps| - 1;
    var m := UpdateAll(map[], Overrides);
    var front := Registrations(ps[..n]);
    var k := ToLower(ps[i].name);
    if i < n {
      assert ps[..n][i] == ps[i];
      assert forall j :: i < j < n && Named(ps[..n][j]) && ps[..n][j].affiliates.Some? ==>
        ToLower(ps[..n][j].name) != k by {
        forall j | i < j < n ensures ps[..n][j] == ps[j] { }
      }
      OwnLinksWin(ps[..n], i);
    }
    if Named(ps[n]) && ps[n].affiliates.Some? {
      var mine := (ps[n].name, ps[n].affiliates.value);
      assert Registrations(ps) == front + [mine] by {
        RegistrationsStep(ps, n);
        assert ps[..n + 1] == ps;
      }
      UpdateAllSnoc(m, front, mine);
    } else {
      assert Registrations(ps) == front by {
        RegistrationsStep(ps, n);
        assert ps[..n + 1] == ps;
      }
    }
  }

  /** A stored custom product: its `branch` field (`""` when missing) and
      the product record. */
  datatype CustomProduct = CustomProduct(branch: string, product: Product)

  /** `(p.branch || 'CSE').toUpperCase()`. */
  function BranchOf(c: CustomProduct): (r: string)
    ensures r != ""
  {
    ToUpper(if c.branch != "" then c.branch else "CSE")
  }

  /** The state shared by the page: every product object (a product is its
      position), each branch's list, and the lookup. */
  datatype Shelf = Shelf(products: seq<Product>, branches: map<string, seq<nat>>, lookup: Lookup)

  ghost predicate ShelfValid(s: Shelf)
  {
    LookupInto(s.products, s.lookup) && BranchesBelow(s.branches, |s.products|)
  }

  ghost predicate BranchesBelow(branches: map<string, seq<nat>>, n: nat)
  {
    forall b :: b in branches ==> Below(branches[b], n)
  }

  predicate Below(ids: seq<nat>, n: nat)
  {
    forall i :: 0 <= i < |ids| ==> ids[i] < n
  }

  /** `getBranchProducts(branch)`: the branch's list, `[]` for an unknown
      branch. */
  function BranchProducts(s: Shelf, branch: string): (r: seq<Product>)
    requires ShelfValid(s)
    ensures branch !in s.branches ==> r == []
    ensures branch in s.branches ==>
      |r| == |s.branches[branch]| && forall i :: 0 <= i < |r| ==> r[i] == s.products[s.branches[branch][i]]
  {
    if branch in s.branches then
      var ids := s.branches[branch];
      seq(|ids|, i requires 0 <= i < |ids| => s.products[ids[i]])
    else []
  }

  /** The shared state after the page script has run. */
  function Initial(catalog: Branches): (s: Shelf)
    requires DistinctKeys(Codes(catalog))
    ensures ShelfValid(s)
  {
    var ps := Flatten(catalog);
    var t := BranchTable(catalog);
    assert forall b :: b in t ==> Below(t[b], |ps|) by {
      forall b | b in t ensures Below(t[b], |ps|) {
        var j :| 0 <= j < |catalog| && catalog[j].0 == b;
        FlattenPrefix(catalog, j);
        BranchTableAt(catalog, j);
      }
    }
    Shelf(NormalizeAll(ps), t, Build(ps))
  }

  /** Each branch lists its catalog products (normalized), and an unknown
      branch has none. */
  lemma InitialBranchProducts(catalog: Branches, branch: string)
    requires DistinctKeys(Codes(catalog))
    ensures var s := Initial(catalog);
      forall i :: 0 <= i < |catalog| && catalog[i].0 == branch ==> BranchProducts(s, branch) == NormalizeAll(catalog[i].1)
    ensures branch !in Codes(catalog) ==> BranchProducts(Initial(catalog), branch) == []
  {
    forall i | 0 <= i < |catalog| && catalog[i].0 == branch
      ensures BranchProducts(Initial(catalog), branch) == NormalizeAll(catalog[i].1)
    {
      InitialBranchAt(catalog, i);
    }
    if branch !in Codes(catalog) {
      assert branch !in BranchTable(catalog);
    }
  }

  /** The list of the `i`th branch of the catalog. */
  lemma InitialBranchAt(catalog: Branches, i: nat)
    requires DistinctKeys(Codes(catalog)) && i < |catalog|
    ensures BranchProducts(Initial(catalog), catalog[i].0) == NormalizeAll(catalog[i].1)
  {
    FlattenPrefix(catalog, i);
    BranchTableAt(catalog, i);
    var s := Initial(catalog);
    assert s.products == NormalizeAll(Flatten(catalog)) && s.branches == BranchTable(catalog);
    RangeProducts(s, catalog[i].0, |Flatten(catalog[..i])|, Flatten(catalog), catalog[i].1);
  }

  /** A branch listing a run of consecutive positions shows the normalized
      products of that run. */
  lemma RangeProducts(s: Shelf, b: string, lo: nat, ps: seq<Product>, own: seq<Product>)
    requires ShelfValid(s) && b in s.branches && s.branches[b] == Range(lo, |own|)
    requires s.products == NormalizeAll(ps) && lo + |own| <= |ps| && ps[lo..lo + |own|] == own
    ensures BranchProducts(s, b) == NormalizeAll(own)
  {
    var r := BranchProducts(s, b);
    var want := NormalizeAll(own);
    forall k | 0 <= k < |own| ensures r[k] == want[k] {
      SliceAt(ps, lo, own, k);
      assert r[k] == s.products[lo + k];
    }
  }

  lemma SliceAt(ps: seq<Product>, lo: nat, own: seq<Product>, k: nat)
    requires lo + |own| <= |ps| && ps[lo..lo + |own|] == own && k < |own|
    ensures ps[lo + k] == own[k]
  {
    assert ps[lo..lo + |own|][k] == own[k];
  }

  /** Whether `c` is pushed: its branch has no product of exactly its name. */
  predicate Pushed(s: Shelf, c: CustomProduct)
  {
    BranchOf(c) in s.branches ==> NoneNamed(s.products, s.branches[BranchOf(c)], c.product.name)
  }

  /** No product at the positions `ids` is called `name`. */
  predicate NoneNamed(ps: seq<Product>, ids: seq<nat>, name: string)
  {
    forall i :: 0 <= i < |ids| && ids[i] < |ps| ==> ps[ids[i]].name != name
  }

  /** One `custom.forEach` step of `loadCustomProducts`: the branch is
      created when missing; the product is pushed unless the branch already
      has a product of exactly its name; and the product's keys are written
      to the lookup whether it was pushed or not. */
  function AddCustom(s: Shelf, c: CustomProduct): (r: Shelf)
    ensures r.products == s.products + [c.product]
    ensures BranchOf(c) in r.branches
    ensures r.lookup == PutAll(s.lookup, ProductKeys(c.product), |s.products|)
  {
    var b := BranchOf(c);
    var list := if b in s.branches then s.branches[b] else [];
    Shelf(s.products + [c.product],
      s.branches[b := if Pushed(s, c) then list + [|s.products|] else list],
      PutAll(s.lookup, ProductKeys(c.product), |s.products|))
  }

  lemma AddCustomParts(s: Shelf, c: CustomProduct, b: string, list: seq<nat>, pushed: bool)
    requires b == BranchOf(c) && list == (if b in s.branches then s.branches[b] else [])
    requires pushed <==> forall i :: 0 <= i < |list| && list[i] < |s.products| ==> s.products[list[i]].name != c.product.name
    ensures AddCustom(s, c) == Shelf(s.products + [c.product],
      s.branches[b := if pushed then list + [|s.products|] else list],
      PutAll(s.lookup, ProductKeys(c.product), |s.products|))
  {
  }

  lemma AddCustomValid(s: Shelf, c: CustomProduct)
    requires ShelfValid(s)
    ensures ShelfValid(AddCustom(s, c))
  {
    var b := BranchOf(c);
    var n := |s.products|;
    var list := if b in s.branches then s.branches[b] else [];
    var r := AddCustom(s, c);
    assert r.branches == s.branches[b := if Pushed(s, c) then list + [n] else list] by {
      AddCustomParts(s, c, b, list, Pushed(s, c));
    }
    BelowPush(s.branches, b, list, n, Pushed(s, c));
    LookupGrow(s.products, s.lookup, c.product);
  }

  /** Adding position `n` to one list keeps every list below `n + 1`. */
  lemma BelowPush(bs: map<string, seq<nat>>, b: string, list: seq<nat>, n: nat, pushed: bool)
    requires BranchesBelow(bs, n) && list == (if b in bs then bs[b] else [])
    ensures BranchesBelow(bs[b := if pushed then list + [n] else list], n + 1)
  {
    var t := bs[b := if pushed then list + [n] else list];
    forall b' | b' in t ensures Below(t[b'], n + 1) {
      if b' != b {
        assert Below(bs[b'], n);
      } else if b in bs {
        assert Below(bs[b], n);
      }
    }
  }

  /** Writing the keys of a new last product keeps the lookup inside the
      products. */
  lemma LookupGrow(ps: seq<Product>, l: Lookup, p: Product)
    requires LookupInto(ps, l)
    ensures LookupInto(ps + [p], PutAll(l, ProductKeys(p), |ps|))
  {
  }

  /** The branch of `c` gains the new product exactly when it is pushed. */
  lemma AddCustomOwnBranch(s: Shelf, c: CustomProduct)
    requires ShelfValid(s)
    ensures ShelfValid(AddCustom(s, c))
    ensures Pushed(s, c) <==> forall p :: p in BranchProducts(s, BranchOf(c)) ==> p.name != c.product.name
    ensures BranchProducts(AddCustom(s, c), BranchOf(c)) ==
      BranchProducts(s, BranchOf(c)) + (if Pushed(s, c) then [c.product] else [])
  {
    AddCustomValid(s, c);
    PushedMeansNoneNamed(s, c);
    var b := BranchOf(c);
    var list := if b in s.branches then s.branches[b] else [];
    AddCustomParts(s, c, b, list, Pushed(s, c));
    PushProducts(s, AddCustom(s, c), b, c.product, Pushed(s, c));
  }

  /** `!branch.some(x => x.name === p.name)` on the branch's products. */
  lemma PushedMeansNoneNamed(s: Shelf, c: CustomProduct)
    requires ShelfValid(s)
    ensures Pushed(s, c) <==> forall p :: p in BranchProducts(s, BranchOf(c)) ==> p.name != c.product.name
  {
    var b := BranchOf(c);
    var before := BranchProducts(s, b);
    if b in s.branches {
      var ids := s.branches[b];
      assert Below(ids, |s.products|);
      if Pushed(s, c) {
        forall p | p in before ensures p.name != c.product.name {
          var i :| 0 <= i < |before| && before[i] == p;
        }
      } else {
        var i :| 0 <= i < |ids| && ids[i] < |s.products| && s.products[ids[i]].name == c.product.name;
        assert before[i] in before;
      }
    }
  }

  /** A new last product appended, or not, to the list of branch `b`. */
  lemma PushProducts(s: Shelf, r: Shelf, b: string, p: Product, pushed: bool)
    requires ShelfValid(s) && ShelfValid(r) && r.products == s.products + [p]
    requires var list := if b in s.branches then s.branches[b] else [];
      b in r.branches && r.branches[b] == if pushed then list + [|s.products|] else list
    ensures BranchProducts(r, b) == BranchProducts(s, b) + (if pushed then [p] else [])
  {
    var list := if b in s.branches then s.branches[b] else [];
    var before := BranchProducts(s, b);
    var after := BranchProducts(r, b);
    assert |before| == |list| && forall i :: 0 <= i < |list| ==> before[i] == r.products[list[i]] by {
      assert Below(list, |s.products|);
    }
    if pushed {
      assert |after| == |before| + 1 && after[|before|] == p;
      assert after == before + [p];
    } else {
      assert after == before;
    }
  }

  /** Every other branch keeps its list. */
  lemma AddCustomOtherBranch(s: Shelf, c: CustomProduct, b: string)
    requires ShelfValid(s) && b != BranchOf(c)
    ensures ShelfValid(AddCustom(s, c))
    ensures BranchProducts(AddCustom(s, c), b) == BranchProducts(s, b)
  {
    AddCustomValid(s, c);
    var list := if BranchOf(c) in s.branches then s.branches[BranchOf(c)] else [];
    AddCustomParts(s, c, BranchOf(c), list, Pushed(s, c));
    KeepProducts(s, AddCustom(s, c), b, c.product);
  }

  /** A branch whose list is untouched shows the same products. */
  lemma KeepProducts(s: Shelf, r: Shelf, b: string, p: Product)
    requires ShelfValid(s) && ShelfValid(r) && r.products == s.products + [p]
    requires (b in r.branches <==> b in s.branches) && (b in s.branches ==> r.branches[b] == s.branches[b])
    ensures BranchProducts(r, b) == BranchProducts(s, b)
  {
    if b in s.branches {
      assert Below(s.branches[b], |s.products|);
    }
  }

  /** The name and every alias of `c` now lead to the new product object,
      even when it was not pushed into its branch; other keys keep theirs. */
  lemma AddCustomLookup(s: Shelf, c: CustomProduct)
    requires ShelfValid(s)
    ensures var r := AddCustom(s, c);
      forall k :: k in ProductKeys(c.product) ==> k in r.lookup.table && r.lookup.table[k] == |s.products|
    ensures var r := AddCustom(s, c);
      forall k :: k in s.lookup.table && k !in ProductKeys(c.product) ==> k in r.lookup.table && r.lookup.table[k] == s.lookup.table[k]
  {
  }

  /** Distinct names in each branch stay distinct. */
  lemma AddCustomUnique(s: Shelf, c: CustomProduct)
    requires ShelfValid(s)
    requires forall b :: b in s.branches ==> UniqueProducts(BranchProducts(s, b))
    ensures ShelfValid(AddCustom(s, c))
    ensures var r := AddCustom(s, c);
      forall b :: b in r.branches ==> UniqueProducts(BranchProducts(r, b))
  {
    AddCustomValid(s, c);
    var r := AddCustom(s, c);
    var b := BranchOf(c);
    AddCustomKeys(s, c);
    forall b' | b' in r.branches && b' != b ensures BranchProducts(r, b') == BranchProducts(s, b') {
      AddCustomOtherBranch(s, c, b');
    }
    assert UniqueProducts(BranchProducts(s, b)) by {
      if b !in s.branches { assert BranchProducts(s, b) == []; }
    }
    AddCustomOwnUnique(s, c);
    UniqueEverywhere(s, r, b);
  }

  /** The branches after a step are those before and the product's own. */
  lemma AddCustomKeys(s: Shelf, c: CustomProduct)
    ensures AddCustom(s, c).branches.Keys == s.branches.Keys + {BranchOf(c)}
  {
    var b := BranchOf(c);
    var list := if b in s.branches then s.branches[b] else [];
    AddCustomParts(s, c, b, list, Pushed(s, c));
  }

  /** Distinct names in the one changed branch and in all the kept ones. */
  lemma UniqueEverywhere(s: Shelf, r: Shelf, b: string)
    requires ShelfValid(s) && ShelfValid(r)
    requires r.branches.Keys == s.branches.Keys + {b}
    requires forall b' :: b' in r.branches && b' != b ==> BranchProducts(r, b') == BranchProducts(s, b')
    requires UniqueProducts(BranchProducts(r, b))
    requires forall b' :: b' in s.branches ==> UniqueProducts(BranchProducts(s, b'))
    ensures forall b' :: b' in r.branches ==> UniqueProducts(BranchProducts(r, b'))
  {
  }

  /** The branch of `c` keeps distinct names. */
  lemma AddCustomOwnUnique(s: Shelf, c: CustomProduct)
    requires ShelfValid(s) && UniqueProducts(BranchProducts(s, BranchOf(c)))
    ensures ShelfValid(AddCustom(s, c))
    ensures UniqueProducts(BranchProducts(AddCustom(s, c), BranchOf(c)))
  {
    AddCustomOwnBranch(s, c);
    UniqueAfterPush(BranchProducts(s, BranchOf(c)), c.product, Pushed(s, c));
  }

  /** Appending a product whose name the list lacks keeps names distinct. */
  lemma UniqueAfterPush(before: seq<Product>, p: Product, pushed: bool)
    requires UniqueProducts(before)
    requires pushed ==> forall q :: q in before ==> q.name != p.name
    ensures UniqueProducts(before + (if pushed then [p] else []))
  {
    var after := before + (if pushed then [p] else []);
    forall i, j | 0 <= i < j < |after| ensures after[i].name != after[j].name {
      if j < |before| {
        assert after[i] == before[i] && after[j] == before[j];
      } else {
        assert after[i] == before[i] && before[i] in before;
      }
    }
  }

  /** No two products of a list share a name. */
  predicate UniqueProducts(ps: seq<Product>)
  {
    forall i, j :: 0 <= i < j < |ps| ==> ps[i].name != ps[j].name
  }

  /** `custom.forEach(...)` over the stored list. */
  function AddAllCustom(s: Shelf, cs: seq<CustomProduct>): (r: Shelf)
    requires ShelfValid(s)
    ensures ShelfValid(r)
    decreases |cs|
  {
    if cs == [] then s
    else
      var n := |cs| - 1;
      var front := AddAllCustom(s, cs[..n]);
      AddCustomValid(front, cs[n]);
      AddCustom(front, cs[n])
  }

  lemma AddAllStep(s: Shelf, cs: seq<CustomProduct>, i: nat)
    requires ShelfValid(s) && i < |cs|
    ensures AddAllCustom(s, cs[..i + 1]) == AddCustom(AddAllCustom(s, cs[..i]), cs[i])
  {
    assert cs[..i + 1][..i] == cs[..i];
  }

  /** The default metadata `showProducts` writes into the product at
      position `idx` of a branch list when opened at time `now`: the date
      `idx` days before now, the rating `3 + (idx % 20) / 10`, and the
      popularity `max(1, 1000 - 3 idx)`. Present fields are kept. */
  function WithDefaults(p: Product, idx: nat, now: int): (r: Product)
    ensures r.dateAdded.Some? && r.rating.Some? && r.popularity.Some?
    ensures p.dateAdded.Some? ==> r.dateAdded == p.dateAdded
    ensures p.rating.Some? ==> r.rating == p.rating
    ensures p.popularity.Some? ==> r.popularity == p.popularity
    ensures r.name == p.name && r.aliases == p.aliases
    ensures p.rating.None? ==> 3.0 <= r.rating.value <= 4.9
    ensures p.popularity.None? ==> 1 <= r.popularity.value <= 1000
  {
    p.(dateAdded := if p.dateAdded.None? then Some(now - idx * Day) else p.dateAdded,
       rating := if p.rating.None? then Some((30 + idx % 20) as real / 10.0) else p.rating,
       popularity := if p.popularity.None? then Some(Max(1, 1000 - 3 * idx)) else p.popularity)
  }

  /** The defaults switch the search boosts on: a product of the opened
      branch without its own data becomes popular for the first 167
      positions and counts as recent, at the opening time, for the first
      30. */
  lemma DefaultsBoost(p: Product, idx: nat, now: int)
    requires p.dateAdded.None? && p.popularity.None?
    ensures Popular(WithDefaults(p, idx, now)) <==> idx <= 166
    ensures Recent(WithDefaults(p, idx, now), now) <==> idx < 30
  {
  }

  /** `products.forEach((p, idx) => ...)` on the shared objects of a branch
      list `ids`. */
  function ApplyDefaults(ps: seq<Product>, ids: seq<nat>, now: int): (r: seq<Product>)
    requires forall i :: 0 <= i < |ids| ==> ids[i] < |ps|
    ensures |r| == |ps|
    ensures forall i :: 0 <= i < |ps| && i !in ids ==> r[i] == ps[i]
    ensures forall i :: 0 <= i < |ps| ==> r[i].name == ps[i].name && r[i].aliases == ps[i].aliases
    decreases |ids|
  {
    if ids == [] then ps
    else
      var n := |ids| - 1;
      var front := ApplyDefaults(ps, ids[..n], now);
      front[ids[n] := WithDefaults(front[ids[n]], n, now)]
  }

  /** With distinct positions, each product of the list gets the defaults
      for its own index. */
  lemma {:induction false} ApplyDefaultsAt(ps: seq<Product>, ids: seq<nat>, now: int, k: nat)
    requires forall i :: 0 <= i < |ids| ==> ids[i] < |ps|
    requires Distinct(ids) && k < |ids|
    ensures ApplyDefaults(ps, ids, now)[ids[k]] == WithDefaults(ps[ids[k]], k, now)
    decreases |ids|
  {
    var n := |ids| - 1;
    if k < n {
      ApplyDefaultsAt(ps, ids[..n], now, k);
      assert ids[..n][k] == ids[k];
    } else {
      assert ids[k] !in ids[..n];
    }
  }

  /** Names and aliases do not change, so neither does what the lookup
      finds. */
  lemma {:induction false} DefaultsKeepLookup(ps: seq<Product>, ids: seq<nat>, now: int)
    requires forall i :: 0 <= i < |ids| ==> ids[i] < |ps|
    ensures Build(ApplyDefaults(ps, ids, now)) == Build(ps)
  {
    BuildSameKeys(ps, ApplyDefaults(ps, ids, now));
  }

  lemma {:induction false} BuildSameKeys(ps: seq<Product>, qs: seq<Product>)
    requires |ps| == |qs| && forall i :: 0 <= i < |ps| ==> ps[i].name == qs[i].name && ps[i].aliases == qs[i].aliases
    ensures Build(qs) == Build(ps)
    decreases |ps|
  {
    if ps != [] {
      var n := |ps| - 1;
      BuildSameKeys(ps[..n], qs[..n]);
    }
  }

  /** The inner `forEach` of buildProductLookup and loadCustomProducts:
      `obj[k] = v` for every key `k` of `ks`. */
  method WriteKeys(l: Lookup, ks: seq<string>, v: nat) returns (r: Lookup)
    ensures r == PutAll(l, ks, v)
  {
    r := l;
    var j := 0;
    while j < |ks|
      invariant 0 <= j <= |ks|
      invariant PutAll(r, ks[j..], v) == PutAll(l, ks, v)
    {
      PutAllStep(r, ks, j, v);
      r := Put(r, ks[j], v);
      j := j + 1;
    }
    assert ks[j..] == [];
  }

  lemma PutAllStep(l: Lookup, ks: seq<string>, j: nat, v: nat)
    requires j < |ks|
    ensures PutAll(l, ks[j..], v) == PutAll(Put(l, ks[j], v), ks[j + 1..], v)
  {
    assert ks[j..][0] == ks[j] && ks[j..][1..] == ks[j + 1..];
  }

  /** buildProductLookup over the flattened catalog `ps`: returns the
      lookup and the normalized products, registering affiliates with
      `am` on the way. */
  method BuildProductLookup(ps: seq<Product>, am: AffiliateManager) returns (lk: Lookup, norm: seq<Product>)
    modifies am
    ensures lk == Build(ps) && norm == NormalizeAll(ps)
    ensures am.links == UpdateAll(old(am.links), Registrations(ps))
  {
    lk := Lookup([], map[]);
    norm := [];
    ghost var done: seq<(string, Links)> := [];
    var i := 0;
    while i < |ps|
      invariant 0 <= i <= |ps|
      invariant lk == Build(ps[..i])
      invariant norm == NormalizeAll(ps[..i])
      invariant done == Registrations(ps[..i])
      invariant am.links == UpdateAll(old(am.links), done)
    {
      var p := ps[i];
      assert ps[..i + 1][..i] == ps[..i];
      RegistrationsStep(ps, i);
      LookupStep(ps, i);
      if Named(p) {
        if p.affiliates.Some? {
          UpdateAllSnoc(old(am.links), done, (p.name, p.affiliates.value));
          am.UpdateAffiliateLinks(p.name, p.affiliates.value);
          done := done + [(p.name, p.affiliates.value)];
        }
        lk := WriteKeys(lk, ProductKeys(p), i);
      }
      norm := norm + [Normalize(p)];
      i := i + 1;
    }
    assert ps[..i] == ps;
  }

  /** The page's shared state as an object. */
  class Storefront {
    var products: seq<Product>
    var branches: map<string, seq<nat>>
    var lookup: Lookup
    const affiliates: AffiliateManager

    function State(): Shelf
      reads this
    {
      Shelf(products, branches, lookup)
    }

    ghost predicate Valid()
      reads this
    {
      ShelfValid(State())
    }

    /** The page script: the overrides are registered, then
        buildProductLookup walks the flattened catalog once, normalizing
        each named product, registering its affiliates and writing its
        name and aliases. */
    constructor (catalog: Branches)
      requires DistinctKeys(Codes(catalog))
      ensures Valid()
      ensures State() == Initial(catalog)
      ensures fresh(affiliates) && affiliates.links == InitialLinks(Flatten(catalog))
    {
      var am := new AffiliateManager();
      am.BulkUpdateAffiliateLinks(Overrides);
      var lk, norm := BuildProductLookup(Flatten(catalog), am);
      products := norm;
      branches := BranchTable(catalog);
      lookup := lk;
      affiliates := am;
      new;
      assert State() == Initial(catalog);
    }

    /** `getBranchProducts(branch)`. */
    function GetBranchProducts(branch: string): (r: seq<Product>)
      reads this
      requires Valid()
      ensures branch !in branches ==> r == []
      ensures branch in branches ==> |r| == |branches[branch]|
      ensures branch in branches ==> forall i :: 0 <= i < |r| ==> r[i] == products[branches[branch][i]]
    {
      BranchProducts(State(), branch)
    }

    /** One stored product merged in. */
    method AddCustomProduct(c: CustomProduct)
      requires Valid()
      modifies this
      ensures State() == AddCustom(old(State()), c)
    {
      var b := BranchOf(c);
      var list := if b in branches then branches[b] else [];
      // `!branch.some(x => x.name === p.name)`
      var pushed := forall i :: 0 <= i < |list| ==> products[list[i]].name != c.product.name;
      var id := |products|;
      AddCustomParts(State(), c, b, list, pushed);
      var lk := WriteKeys(lookup, ProductKeys(c.product), id);
      branches, products, lookup :=
        branches[b := if pushed then list + [id] else list],
        products + [c.product],
        lk;
    }

    /** `loadCustomProducts()`, given what `localStorage` held:
        `None` when nothing was stored or it was not a JSON array. */
    method LoadCustomProducts(stored: Option<seq<CustomProduct>>)
      requires Valid()
      modifies this
      ensures Valid()
      ensures stored.None? ==> State() == old(State())
      ensures stored.Some? ==> State() == AddAllCustom(old(State()), stored.value)
    {
      if stored.None? {
        return;
      }
      var custom := stored.value;
      ghost var s0 := State();
      var i := 0;
      while i < |custom|
        invariant 0 <= i <= |custom|
        invariant ShelfValid(s0)
        invariant State() == AddAllCustom(s0, custom[..i])
      {
        AddAllStep(s0, custom, i);
        AddCustomProduct(custom[i]);
        i := i + 1;
      }
      assert custom[..i] == custom;
    }

    /** Opening a branch: the defaults are written into the branch's shared
        product objects, and the view starts on the branch's products. */
    method OpenBranch(branch: string, now: int, collation: string -> real) returns (view: BranchView.BranchView)
      requires Valid()
      modifies this
      ensures Valid()
      ensures branch in old(branches) ==> products == ApplyDefaults(old(products), old(branches)[branch], now)
      ensures branch !in old(branches) ==> products == old(products)
      ensures branches == old(branches) && lookup == old(lookup)
      ensures fresh(view) && view.Valid() && view.products == GetBranchProducts(branch)
      ensures view.currentItems == BranchView.SortProducts(BranchView.InitialItems(branch, GetBranchProducts(branch)), "newest", collation)
    {
      if branch in branches {
        products := ApplyDefaults(products, branches[branch], now);
      }
      view := new BranchView.BranchView(branch, GetBranchProducts(branch), collation);
    }
  }
}
