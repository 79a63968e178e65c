/** `affiliateManager`: marketplace links kept apart from the products, in
    a `Map` keyed by lower-cased product name, with marketplace search
    URLs as the fallback. */
module Affiliates {
  import opened Text

  /** A links object such as `{ amazon: url, flipkart: url }`. */
  type Links = map<string, string>

  const AmazonSearch: string := "https://www.amazon.in/s?k="
  const FlipkartSearch: string := "https://www.flipkart.com/search?q="

  /** The search URLs for a product without stored links; `encodedName` is
      `encodeURIComponent(productName)`. */
  function DefaultLinks(encodedName: string): (r: Links)
    ensures r.Keys == {"amazon", "flipkart"}
    ensures r["amazon"] == AmazonSearch + encodedName && r["flipkart"] == FlipkartSearch + encodedName
  {
    map["amazon" := AmazonSearch + encodedName, "flipkart" := FlipkartSearch + encodedName]
  }

  /** Some update is for the lower-cased name `k`. */
  predicate Mentions(updates: seq<(string, Links)>, k: string)
  {
    exists i :: 0 <= i < |updates| && ToLower(updates[i].0) == k
  }

  /** The map after the updates `(name, links)` in order. */
  function UpdateAll(m: map<string, Links>, updates: seq<(string, Links)>): (r: map<string, Links>)
    ensures forall k :: k in r <==> k in m || Mentions(updates, k)
    decreases |updates|
  {
    if updates == [] then m
    else
      var n := |updates| - 1;
      var r := UpdateAll(m, updates[..n]);
      assert forall k :: Mentions(updates, k) <==> Mentions(updates[..n], k) || ToLower(updates[n].0) == k by {
        forall k ensures Mentions(updates, k) <==> Mentions(updates[..n], k) || ToLower(updates[n].0) == k {
          if Mentions(updates, k) {
            var i :| 0 <= i < |updates| && ToLower(updates[i].0) == k;
            if i < n { assert updates[..n][i] == updates[i]; }
          }
          if Mentions(updates[..n], k) {
            var i :| 0 <= i < n && ToLower(updates[..n][i].0) == k;
            assert updates[i] == updates[..n][i];
          }
        }
      }
      r[ToLower(updates[n].0) := updates[n].1]
  }

  /** One more update on top of the others. */
  lemma UpdateAllSnoc(m: map<string, Links>, updates: seq<(string, Links)>, u: (string, Links))
    ensures UpdateAll(m, updates + [u]) == UpdateAll(m, updates)[ToLower(u.0) := u.1]
  {
    assert (updates + [u])[..|updates|] == updates;
  }

  /** A name that no update mentions keeps its links. */
  lemma {:induction false} UpdateAllUntouched(m: map<string, Links>, updates: seq<(string, Links)>, k: string)
    requires k in m && !Mentions(updates, k)
    ensures k in UpdateAll(m, updates) && UpdateAll(m, updates)[k] == m[k]
    decreases |updates|
  {
    if updates != [] {
      var n := |updates| - 1;
      assert !Mentions(updates[..n], k) by {
        forall i | 0 <= i < n ensures ToLower(updates[..n][i].0) != k {
          assert updates[..n][i] == updates[i];
        }
      }
      UpdateAllUntouched(m, updates[..n], k);
      assert ToLower(updates[n].0) != k;
    }
  }

  /** The last update for a name decides its links. */
  lemma {:induction false} UpdateAllLast(m: map<string, Links>, updates: seq<(string, Links)>, i: nat)
    requires i < |updates|
    requires forall j :: i < j < |updates| ==> ToLower(updates[j].0) != ToLower(updates[i].0)
    ensures UpdateAll(m, updates)[ToLower(updates[i].0)] == updates[i].1
    decreases |updates|
  {
    var n := |updates| - 1;
    var front := updates[..n];
    assert UpdateAll(m, updates) == UpdateAll(m, front)[ToLower(updates[n].0) := updates[n].1];
    if i < n {
      assert front[i] == updates[i];
      assert forall j :: i < j < n ==> ToLower(front[j].0) != ToLower(front[i].0) by {
        forall j | i < j < n ensures ToLower(front[j].0) != ToLower(front[i].0) {
          assert front[j] == updates[j];
        }
      }
      UpdateAllLast(m, front, i);
    }
  }

  class AffiliateManager {
    var links: map<string, Links>

    constructor ()
      ensures links == map[]
    {
      links := map[];
    }

    /** `updateAffiliateLinks(productName, links)`. */
    method UpdateAffiliateLinks(productName: string, newLinks: Links)
      modifies this
      ensures links == old(links)[ToLower(productName) := newLinks]
    {
      links := links[ToLower(productName) := newLinks];
    }

    /** `bulkUpdateAffiliateLinks(updates)`, the entries in object order. */
    method BulkUpdateAffiliateLinks(updates: seq<(string, Links)>)
      modifies this
      ensures links == UpdateAll(old(links), updates)
    {
      var i := 0;
      while i < |updates|
        invariant 0 <= i <= |updates|
        invariant links == UpdateAll(old(links), updates[..i])
      {
        assert updates[..i + 1][..i] == updates[..i];
        UpdateAffiliateLinks(updates[i].0, updates[i].1);
        i := i + 1;
      }
      assert updates[..i] == updates;
    }

    /** `getAffiliateLinks(productName)`: the stored links, else the search
        URLs for the encoded name. */
    function GetAffiliateLinks(productName: string, encodedName: string): (r: Links)
      reads this
      ensures ToLower(productName) in links ==> r == links[ToLower(productName)]
      ensures ToLower(productName) !in links ==> r == DefaultLinks(encodedName)
    {
      if ToLower(productName) in links then links[ToLower(productName)] else DefaultLinks(encodedName)
    }
  }
}
