/** The tail of `findProducts`: `map` each candidate to its score, keep
    those above zero, and sort them on descending score with the stable
    `Array.prototype.sort`. Stated for any score function, which
    `Search` then instantiates. */
module Ranking {
  import opened Common
  import opened Sorting

  datatype Ranked = Ranked(id: nat, score: real)

  function Descending(x: Ranked): real
  {
    -x.score
  }

  /** `unique.map(p => ({ product: p, score }))`. */
  function RankAll(ids: seq<nat>, score: nat -> real): (r: seq<Ranked>)
    ensures |r| == |ids|
    ensures forall i :: 0 <= i < |ids| ==> r[i] == Ranked(ids[i], score(ids[i]))
  {
    seq(|ids|, i requires 0 <= i < |ids| => Ranked(ids[i], score(ids[i])))
  }

  /** `.filter(x => x.score > 0)`. */
  function Positive(rs: seq<Ranked>): (r: seq<Ranked>)
    ensures forall x :: x in r <==> x in rs && x.score > 0.0
    ensures |r| <= |rs|
  {
    if rs == [] then []
    else if rs[0].score > 0.0 then [rs[0]] + Positive(rs[1..])
    else Positive(rs[1..])
  }

  /** `.sort((a, b) => b.score - a.score)` after the filter. */
  function Rank(ids: seq<nat>, score: nat -> real): (r: seq<Ranked>)
    ensures |r| <= |ids|
  {
    Sort(Positive(RankAll(ids, score)), Descending)
  }

  /** `.map(x => x.product)`. */
  function Ids(rs: seq<Ranked>): (r: seq<nat>)
    ensures |r| == |rs|
    ensures forall i :: 0 <= i < |rs| ==> r[i] == rs[i].id
  {
    seq(|rs|, i requires 0 <= i < |rs| => rs[i].id)
  }

  /** The ranked entries are exactly the candidates with a positive score,
      each paired with its own score. */
  lemma RankMembers(ids: seq<nat>, score: nat -> real)
    ensures forall x :: x in Rank(ids, score) <==> x.id in ids && x.score == score(x.id) && x.score > 0.0
  {
    var all := RankAll(ids, score);
    var r := Rank(ids, score);
    forall x: Ranked ensures x in r <==> x in Positive(all) {
      assert x in r <==> x in multiset(r);
      assert x in Positive(all) <==> x in multiset(Positive(all));
    }
    forall x: Ranked | x.id in ids && x.score == score(x.id) ensures x in all {
      var i :| 0 <= i < |ids| && ids[i] == x.id;
      assert all[i] == x;
    }
  }

  /** The returned ids are the candidates with a positive score. */
  lemma RankIds(ids: seq<nat>, score: nat -> real)
    ensures forall id :: id in Ids(Rank(ids, score)) <==> id in ids && score(id) > 0.0
  {
    RankMembers(ids, score);
    var r := Rank(ids, score);
    forall id ensures id in Ids(r) <==> id in ids && score(id) > 0.0 {
      if id in Ids(r) {
        var i :| 0 <= i < |r| && Ids(r)[i] == id;
        assert r[i] in r;
      }
      if id in ids && score(id) > 0.0 {
        assert Ranked(id, score(id)) in r;
        var i :| 0 <= i < |r| && r[i] == Ranked(id, score(id));
        assert Ids(r)[i] == id;
      }
    }
  }

  /** Each ranked entry carries its own product's score. */
  lemma RankEntry(ids: seq<nat>, score: nat -> real, i: nat)
    requires i < |Rank(ids, score)|
    ensures Rank(ids, score)[i].score == score(Rank(ids, score)[i].id)
    ensures Rank(ids, score)[i].id in ids
  {
    RankMembers(ids, score);
    assert Rank(ids, score)[i] in Rank(ids, score);
  }

  /** The returned ids come in descending score. */
  lemma RankOrdered(ids: seq<nat>, score: nat -> real)
    ensures var r := Ids(Rank(ids, score));
      forall i, j :: 0 <= i < j < |r| ==> score(r[i]) >= score(r[j])
  {
    var rk := Rank(ids, score);
    SortSorted(Positive(RankAll(ids, score)), Descending);
    forall i, j | 0 <= i < j < |rk| ensures score(rk[i].id) >= score(rk[j].id) {
      RankEntry(ids, score, i);
      RankEntry(ids, score, j);
      assert Descending(rk[i]) <= Descending(rk[j]);
    }
  }

  /** Distinct candidates give distinct results. */
  lemma RankDistinct(ids: seq<nat>, score: nat -> real)
    requires Distinct(ids)
    ensures Distinct(Ids(Rank(ids, score)))
  {
    var r := Ids(Rank(ids, score));
    var rk := Rank(ids, score);
    forall i, j | 0 <= i < j < |r| ensures r[i] != r[j] {
      RankEntry(ids, score, i);
      RankEntry(ids, score, j);
      if r[i] == r[j] {
        assert rk[i] == rk[j];
        RepeatedEntry(rk, i, j);
        RankAllOnce(ids, score, rk[i]);
        assert multiset(rk) == multiset(Positive(RankAll(ids, score)));
        PositiveAtMost(RankAll(ids, score), rk[i]);
      }
    }
  }

  lemma RepeatedEntry(s: seq<Ranked>, i: nat, j: nat)
    requires i < j < |s| && s[i] == s[j]
    ensures multiset(s)[s[i]] >= 2
  {
    assert s == s[..i] + [s[i]] + s[i + 1..j] + [s[j]] + s[j + 1..];
  }

  /** A filter never adds copies. */
  lemma {:induction false} PositiveAtMost(rs: seq<Ranked>, x: Ranked)
    ensures multiset(Positive(rs))[x] <= multiset(rs)[x]
  {
    if rs != [] {
      PositiveAtMost(rs[1..], x);
      assert rs == [rs[0]] + rs[1..];
    }
  }

  /** With distinct candidates every entry occurs at most once. */
  lemma RankAllOnce(ids: seq<nat>, score: nat -> real, x: Ranked)
    requires Distinct(ids)
    ensures multiset(RankAll(ids, score))[x] <= 1
  {
    RankAllOnceFrom(ids, score, x);
  }

  lemma {:induction false} RankAllOnceFrom(ids: seq<nat>, score: nat -> real, x: Ranked)
    requires Distinct(ids)
    ensures multiset(RankAll(ids, score))[x] <= 1
    ensures x.id !in ids ==> multiset(RankAll(ids, score))[x] == 0
    decreases |ids|
  {
    if ids != [] {
      var n := |ids| - 1;
      RankAllOnceFrom(ids[..n], score, x);
      assert RankAll(ids, score) == RankAll(ids[..n], score) + [Ranked(ids[n], score(ids[n]))];
      if x.id == ids[n] {
        assert x.id !in ids[..n];
      } else {
        assert x.id in ids[..n] || x.id !in ids;
      }
    }
  }

  /** The ids among `ids` whose score is `v`, in order. */
  function WithScore(ids: seq<nat>, score: nat -> real, v: real): (r: seq<nat>)
  {
    if ids == [] then []
    else if score(ids[0]) == v then [ids[0]] + WithScore(ids[1..], score, v)
    else WithScore(ids[1..], score, v)
  }

  lemma {:induction false} PositiveWithKey(ids: seq<nat>, score: nat -> real, v: real)
    requires v > 0.0
    ensures Ids(WithKey(Positive(RankAll(ids, score)), Descending, -v)) == WithScore(ids, score, v)
  {
    if ids != [] {
      PositiveWithKey(ids[1..], score, v);
      var all := RankAll(ids, score);
      assert all[1..] == RankAll(ids[1..], score);
      if score(ids[0]) > 0.0 {
        assert Positive(all) == [all[0]] + Positive(all[1..]);
        assert ([all[0]] + Positive(all[1..]))[1..] == Positive(all[1..]);
        if score(ids[0]) == v {
          assert Ids([all[0]] + WithKey(Positive(all[1..]), Descending, -v))
              == [ids[0]] + Ids(WithKey(Positive(all[1..]), Descending, -v));
        }
      }
    }
  }

  /** Stability: products with equal scores keep their candidate order. */
  lemma RankStable(ids: seq<nat>, score: nat -> real, v: real)
    requires v > 0.0
    ensures WithScore(Ids(Rank(ids, score)), score, v) == WithScore(ids, score, v)
  {
    var pos := Positive(RankAll(ids, score));
    var sorted := Sort(pos, Descending);
    assert Rank(ids, score) == sorted;
    assert forall x :: x in sorted ==> x.score == score(x.id) by {
      RankMembers(ids, score);
    }
    assert WithScore(Ids(sorted), score, v) == Ids(WithKey(sorted, Descending, -v)) by {
      IdsWithScore(sorted, score, v);
    }
    assert WithKey(sorted, Descending, -v) == WithKey(pos, Descending, -v) by {
      SortStable(pos, Descending, -v);
    }
    assert Ids(WithKey(pos, Descending, -v)) == WithScore(ids, score, v) by {
      PositiveWithKey(ids, score, v);
    }
  }

  /** On entries carrying their own scores, selecting a score commutes
      with taking ids. */
  lemma {:induction false} IdsWithScore(rs: seq<Ranked>, score: nat -> real, v: real)
    requires forall x :: x in rs ==> x.score == score(x.id)
    ensures WithScore(Ids(rs), score, v) == Ids(WithKey(rs, Descending, -v))
  {
    if rs != [] {
      IdsWithScore(rs[1..], score, v);
      assert Ids(rs)[1..] == Ids(rs[1..]);
      assert rs[0] in rs;
      if rs[0].score == v {
        assert Ids([rs[0]] + WithKey(rs[1..], Descending, -v)) == [rs[0].id] + Ids(WithKey(rs[1..], Descending, -v));
      }
    }
  }
}
