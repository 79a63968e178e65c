/** The product records and `PRODUCT_LOOKUP`, the object that maps every
    lower-cased product name and alias to a product. An assignment to an
    existing key of a JavaScript object keeps that key's position, so the
    lookup is a key sequence, in insertion order, plus a table.
    Products are referred to by their position in the flattened catalog,
    which stands for object identity. */
module Catalog {
  import opened Common
  import opened Text

  /** A product record. Missing optional strings are `""` (every use reads
      them through `x || ''`); `rating` is the one-decimal rating; `dateAdded`
      is the instant, in milliseconds, of the product's (non-empty) date
      string. */
  datatype Product = Product(
    name: string,
    price: int,
    description: string,
    category: string,
    badge: string,
    aliases: seq<string>,
    affiliates: Option<map<string, string>>,
    amazonLink: string,
    flipkartLink: string,
    imageUrl: string,
    dateAdded: Option<int>,
    rating: Option<real>,
    popularity: Option<int>)

  /** `if (p && p.name)`: only products with a (truthy) name are indexed. */
  predicate Named(p: Product)
  {
    p.name != ""
  }

  function LowerAll(ss: seq<string>): (r: seq<string>)
    ensures |r| == |ss|
    ensures forall i :: 0 <= i < |ss| ==> r[i] == ToLower(ss[i])
  {
    seq(|ss|, i requires 0 <= i < |ss| => ToLower(ss[i]))
  }

  /** The keys one product writes: its lower-cased name, then its
      lower-cased aliases in order. */
  function ProductKeys(p: Product): (r: seq<string>)
    ensures |r| == 1 + |p.aliases| && r[0] == ToLower(p.name)
  {
    [ToLower(p.name)] + LowerAll(p.aliases)
  }

  predicate Writes(p: Product, k: string)
  {
    Named(p) && k in ProductKeys(p)
  }

  /** An insertion-ordered string-keyed object whose values are product
      positions. */
  datatype Lookup = Lookup(keys: seq<string>, table: map<string, nat>)

  predicate DistinctKeys(keys: seq<string>)
  {
    forall i, j :: 0 <= i < j < |keys| ==> keys[i] != keys[j]
  }

  ghost predicate ValidLookup(l: Lookup)
  {
    DistinctKeys(l.keys) && (forall k :: k in l.table <==> k in l.keys)
  }

  /** `obj[k] = v`. */
  function Put(l: Lookup, k: string, v: nat): (r: Lookup)
    ensures ValidLookup(l) ==> ValidLookup(r)
    ensures r.table == l.table[k := v]
    ensures k in l.table ==> r.keys == l.keys
    ensures k !in l.table ==> r.keys == l.keys + [k]
  {
    if k in l.table then Lookup(l.keys, l.table[k := v])
    else Lookup(l.keys + [k], l.table[k := v])
  }

  /** The assignments `obj[k] = v` for every `k` of `ks`, in order. */
  function PutAll(l: Lookup, ks: seq<string>, v: nat): (r: Lookup)
    ensures ValidLookup(l) ==> ValidLookup(r)
    ensures forall k :: k in r.table <==> k in l.table || k in ks
    ensures forall k :: k in r.table ==> r.table[k] == if k in ks then v else l.table[k]
    ensures |l.keys| <= |r.keys| && r.keys[..|l.keys|] == l.keys
    decreases |ks|
  {
    if ks == [] then l
    else
      var l1 := Put(l, ks[0], v);
      var r := PutAll(l1, ks[1..], v);
      assert r.keys[..|l.keys|] == l1.keys[..|l.keys|] == l.keys;
      assert forall k :: k in ks <==> k == ks[0] || k in ks[1..] by {
        assert ks == [ks[0]] + ks[1..];
      }
      r
  }

  /** `buildProductLookup`: every named product of the flattened catalog
      writes its keys, in catalog order. */
  function Build(ps: seq<Product>): (r: Lookup)
    ensures ValidLookup(r)
    ensures forall k :: k in r.table ==> r.table[k] < |ps|
    decreases |ps|
  {
    if ps == [] then Lookup([], map[])
    else
      var l := Build(ps[..|ps| - 1]);
      var p := ps[|ps| - 1];
      if Named(p) then PutAll(l, ProductKeys(p), |ps| - 1) else l
  }

  /** One catalog entry on top of the lookup of the entries before it. */
  lemma BuildStep(ps: seq<Product>, k: string)
    requires ps != []
    ensures k in Build(ps).table <==> k in Build(ps[..|ps| - 1]).table || Writes(ps[|ps| - 1], k)
    ensures k in Build(ps).table ==>
      Build(ps).table[k] == if Writes(ps[|ps| - 1], k) then |ps| - 1 else Build(ps[..|ps| - 1]).table[k]
  {
  }

  /** A key is present exactly when some named product writes it. */
  lemma BuildHasKey(ps: seq<Product>, k: string)
    ensures k in Build(ps).table <==> exists i :: 0 <= i < |ps| && Writes(ps[i], k)
  {
    if k in Build(ps).table {
      BuildLastWriter(ps, k);
    }
    if exists i :: 0 <= i < |ps| && Writes(ps[i], k) {
      var i :| 0 <= i < |ps| && Writes(ps[i], k);
      BuildWritten(ps, k, i);
    }
  }

  /** A key some named product writes stays in the lookup. */
  lemma {:induction false} BuildWritten(ps: seq<Product>, k: string, i: nat)
    requires i < |ps| && Writes(ps[i], k)
    ensures k in Build(ps).table
    decreases |ps|
  {
    var n := |ps| - 1;
    if i < n {
      assert Writes(ps[..n][i], k) by {
        assert ps[..n][i] == ps[i];
      }
      BuildWritten(ps[..n], k, i);
    }
    BuildStep(ps, k);
  }

  /** Last write wins: a present key names the last named product that
      writes it. */
  lemma {:induction false} BuildLastWriter(ps: seq<Product>, k: string)
    requires k in Build(ps).table
    ensures Writes(ps[Build(ps).table[k]], k)
    ensures forall j :: Build(ps).table[k] < j < |ps| ==> !Writes(ps[j], k)
    decreases |ps|
  {
    var n := |ps| - 1;
    var front := ps[..n];
    BuildStep(ps, k);
    if !Writes(ps[n], k) {
      var w := Build(front).table[k];
      assert Build(ps).table[k] == w;
      BuildLastWriter(front, k);
      assert Writes(ps[w], k) by {
        assert front[w] == ps[w];
      }
      NoLaterWriter(ps, front, k, w);
    }
  }

  /** No writer after `w` in the catalog without its last entry, nor in
      that entry: no writer after `w` at all. */
  lemma NoLaterWriter(ps: seq<Product>, front: seq<Product>, k: string, w: nat)
    requires ps != [] && front == ps[..|ps| - 1] && !Writes(ps[|ps| - 1], k)
    requires forall j :: w < j < |front| ==> !Writes(front[j], k)
    ensures forall j :: w < j < |ps| ==> !Writes(ps[j], k)
  {
    forall j | w < j < |front| ensures !Writes(ps[j], k) {
      assert front[j] == ps[j];
    }
  }

  /** Extending the catalog never moves a key: the keys of a prefix of the
      catalog are a prefix of the keys of the whole catalog. */
  lemma {:induction false} BuildKeysGrow(ps: seq<Product>, m: nat)
    requires m <= |ps|
    ensures |Build(ps[..m]).keys| <= |Build(ps).keys|
    ensures Build(ps).keys[..|Build(ps[..m]).keys|] == Build(ps[..m]).keys
    decreases |ps|
  {
    if m < |ps| {
      var n := |ps| - 1;
      assert ps[..n][..m] == ps[..m];
      BuildKeysGrow(ps[..n], m);
    } else {
      assert ps[..m] == ps;
    }
  }

  /** `Object.values(PRODUCT_LOOKUP)`: the product of every key, in key order. */
  function Values(l: Lookup): (r: seq<nat>)
    requires ValidLookup(l)
    ensures |r| == |l.keys|
    ensures forall i :: 0 <= i < |r| ==> r[i] == l.table[l.keys[i]]
  {
    seq(|l.keys|, i requires 0 <= i < |l.keys| => l.table[l.keys[i]])
  }

  /** `Array.from(new Set(s))`: first occurrences, in order. */
  function Dedup(s: seq<nat>): (r: seq<nat>)
    ensures Distinct(r)
    ensures forall x :: x in r <==> x in s
    ensures |r| <= |s|
    decreases |s|
  {
    if s == [] then []
    else
      var d := Dedup(s[..|s| - 1]);
      assert forall x :: x in s <==> x in s[..|s| - 1] || x == s[|s| - 1] by {
        assert s == s[..|s| - 1] + [s[|s| - 1]];
      }
      if s[|s| - 1] in d then d else d + [s[|s| - 1]]
  }

  /** Removing duplicates from a duplicate-free sequence changes nothing. */
  lemma {:induction false} DedupDistinct(s: seq<nat>)
    requires Distinct(s)
    ensures Dedup(s) == s
    decreases |s|
  {
    if s != [] {
      DedupDistinct(s[..|s| - 1]);
      assert s == s[..|s| - 1] + [s[|s| - 1]];
    }
  }

  /** The distinct products the lookup reaches, in the order of their first key. */
  function Candidates(l: Lookup): (r: seq<nat>)
    requires ValidLookup(l)
    ensures Distinct(r)
    ensures forall id :: id in r <==> exists k :: k in l.table && l.table[k] == id
  {
    var vs := Values(l);
    assert forall id :: (exists k :: k in l.table && l.table[k] == id) ==> id in vs by {
      forall id | exists k :: k in l.table && l.table[k] == id ensures id in vs {
        var k :| k in l.table && l.table[k] == id;
        var i :| 0 <= i < |l.keys| && l.keys[i] == k;
        assert vs[i] == id;
      }
    }
    Dedup(vs)
  }

  /** A product is reachable through the built lookup exactly when it is
      named and some key of its own is written by no later product. */
  lemma Reachable(ps: seq<Product>, id: nat)
    requires id < |ps|
    ensures id in Candidates(Build(ps)) <==>
      exists k :: Writes(ps[id], k) && forall j :: id < j < |ps| ==> !Writes(ps[j], k)
  {
    var l := Build(ps);
    if id in Candidates(l) {
      var k :| k in l.table && l.table[k] == id;
      BuildLastWriter(ps, k);
    }
    if exists k :: Writes(ps[id], k) && forall j :: id < j < |ps| ==> !Writes(ps[j], k) {
      var k :| Writes(ps[id], k) && forall j :: id < j < |ps| ==> !Writes(ps[j], k);
      BuildHasKey(ps, k);
      BuildLastWriter(ps, k);
      var w := l.table[k];
      assert w == id;
    }
  }
}
