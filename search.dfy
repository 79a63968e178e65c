/** `findProducts(query)`: every distinct product the lookup reaches is
    scored against each white-space separated term of the lower-cased,
    trimmed query; boosts multiply the score; products scoring above zero
    come back in descending score, ties in lookup order. */
module Search {
  import opened Common
  import opened Text
  import opened Levenshtein
  import opened Ranking
  import opened Catalog

  /** `query.toLowerCase().trim().split(/\s+/)`. */
  function Terms(query: string): (r: seq<string>)
    ensures |r| >= 1
    ensures forall i :: 0 <= i < |r| ==> NoSpace(r[i])
    ensures AllSpace(query) ==> r == [""]
    ensures !AllSpace(query) ==> forall i :: 0 <= i < |r| ==> r[i] != ""
  {
    var lowered := ToLower(query);
    assert AllSpace(lowered) <==> AllSpace(query) by {
      forall i | 0 <= i < |query| ensures IsSpace(lowered[i]) <==> IsSpace(query[i]) {
        LowerKeepsSpaces(query[i]);
      }
    }
    var t := Trim(lowered);
    assert t != [] ==> forall i :: 0 <= i < |Split(t)| ==> Split(t)[i] != [] by {
      if t != [] {
        SplitTrimmedNonEmpty(t);
      }
    }
    Split(t)
  }

  /** +100 for a term equal to the name or an alias; +80 for one equal to
      the category or the badge. */
  function ExactBonus(p: Product, term: string): (b: int)
    ensures 0 <= b <= 180
  {
    (if ToLower(p.name) == term || term in LowerAll(p.aliases) then 100 else 0)
    + (if ToLower(p.category) == term || ToLower(p.badge) == term then 80 else 0)
  }

  /** +70 for `\bterm\b` in the name and +40 for it in the description. */
  function WordBonus(p: Product, term: string): (b: int)
    ensures 0 <= b <= 110
  {
    (if ContainsWord(ToLower(p.name), term) then 70 else 0)
    + (if ContainsWord(ToLower(p.description), term) then 40 else 0)
  }

  /** +60 for the term inside the name, +50 inside the category or badge,
      +30 inside the description. */
  function SubstringBonus(p: Product, term: string): (b: int)
    ensures 0 <= b <= 140
  {
    (if Contains(ToLower(p.name), term) then 60 else 0)
    + (if Contains(ToLower(p.category), term) || Contains(ToLower(p.badge), term) then 50 else 0)
    + (if Contains(ToLower(p.description), term) then 30 else 0)
  }

  /** +45 when a term containing "under" or "below" carries a number the
      price does not exceed; the number is the term's first digit run. */
  function PriceBonus(p: Product, term: string): (b: int)
    ensures b == 0 || b == 45
    ensures b == 45 ==> Contains(term, "under") || Contains(term, "below")
    ensures b == 45 ==> exists i :: 0 <= i < |term| && IsDigit(term[i])
  {
    if Contains(term, "under") || Contains(term, "below") then
      match FirstDigitRun(term)
      case None => 0
      case Some(digits) => if p.price <= ParseDigits(digits) then 45 else 0
    else 0
  }

  /** +40 for the price keywords of `specialCategories` when the price
      fits the keyword's band. */
  function SpecialBonus(p: Product, term: string): (b: int)
    ensures b == 0 || b == 40
  {
    if (term == "cheap" && p.price < 5000)
      || (term == "expensive" && p.price > 50000)
      || (term == "affordable" && p.price < 15000)
      || (term == "premium" && p.price > 30000)
      || (term == "budget" && p.price < 10000)
    then 40 else 0
  }

  /** The same lookup as the source writes it: `specialCategories[term]` on
      an object literal also finds the inherited `constructor`, which is
      `Object`, and `Object(p)` is the product itself, a truthy value. */
  function SpecialBonusAsWritten(p: Product, term: string): (b: int)
    ensures b == 0 || b == 40
  {
    if term == "constructor" then 40 else SpecialBonus(p, term)
  }

  /** As written, the term "constructor" earns the price-keyword bonus for
      every product, whatever its price; with the lookup restricted to the
      five keywords it earns nothing. */
  lemma ConstructorTermFinding(p: Product)
    ensures SpecialBonusAsWritten(p, "constructor") == 40
    ensures SpecialBonus(p, "constructor") == 0
  {
  }

  /** The five keywords select exactly the documented price bands. */
  lemma SpecialBands(p: Product)
    ensures SpecialBonus(p, "cheap") == 40 <==> p.price < 5000
    ensures SpecialBonus(p, "budget") == 40 <==> p.price < 10000
    ensures SpecialBonus(p, "affordable") == 40 <==> p.price < 15000
    ensures SpecialBonus(p, "premium") == 40 <==> p.price > 30000
    ensures SpecialBonus(p, "expensive") == 40 <==> p.price > 50000
    ensures forall t :: t !in ["cheap", "budget", "affordable", "premium", "expensive"] ==> SpecialBonus(p, t) == 0
  {
  }

  /** Fuzzy name match: a distance within `max(2, floor(|name| * 0.2))`
      earns `max(0, 40 - 10 * distance)`. */
  function FuzzyBonus(p: Product, term: string): (b: int)
    ensures 0 <= b <= 40
  {
    var name := ToLower(p.name);
    match Dist(term, name)
    case Infinity => 0
    case Finite(d) => if d <= Max(2, |name| / 5) then Max(0, 40 - 10 * d) else 0
  }

  /** The score one term contributes. */
  function TermScore(p: Product, term: string): (s: int)
    ensures 0 <= s <= 180 + 110 + 140 + 45 + 40 + 40
  {
    ExactBonus(p, term) + WordBonus(p, term) + SubstringBonus(p, term)
    + PriceBonus(p, term) + SpecialBonus(p, term) + FuzzyBonus(p, term)
  }

  /** The unboosted score: the contributions of all terms added up. */
  function Score(p: Product, terms: seq<string>): (s: int)
    ensures s >= 0
  {
    if terms == [] then 0 else TermScore(p, terms[0]) + Score(p, terms[1..])
  }

  /** The score of a query is the sum of the scores of its parts. */
  lemma {:induction false} ScoreAdditive(p: Product, t1: seq<string>, t2: seq<string>)
    ensures Score(p, t1 + t2) == Score(p, t1) + Score(p, t2)
  {
    if t1 != [] {
      assert (t1 + t2)[0] == t1[0];
      assert (t1 + t2)[1..] == t1[1..] + t2;
      ScoreAdditive(p, t1[1..], t2);
    } else {
      assert t1 + t2 == t2;
    }
  }

  const Day: int := 1000 * 60 * 60 * 24

  predicate AffiliateBoosted(p: Product)
  {
    p.affiliates.Some? && |p.affiliates.value| > 0
  }

  /** A `dateAdded` less than 30 days before `now`. */
  predicate Recent(p: Product, now: int)
  {
    p.dateAdded.Some? && now - p.dateAdded.value < 30 * Day
  }

  predicate Popular(p: Product)
  {
    p.popularity.Some? && p.popularity.value > 500
  }

  /** The multiplier: 1.1 for affiliate links, 1.05 for a recent product,
      1.05 for a popular one. */
  function Boost(p: Product, now: int): (m: real)
    ensures 1.0 <= m <= 1.1 * 1.05 * 1.05
  {
    (if AffiliateBoosted(p) then 1.1 else 1.0)
    * (if Recent(p, now) then 1.05 else 1.0)
    * (if Popular(p) then 1.05 else 1.0)
  }

  /** The boosted score: positive exactly when some term matched, and
      never below the unboosted score. */
  function FinalScore(p: Product, terms: seq<string>, now: int): (s: real)
    ensures s >= Score(p, terms) as real
    ensures s > 0.0 <==> Score(p, terms) > 0
  {
    ScaleBy(Score(p, terms), Boost(p, now))
  }

  function ScaleBy(x: int, m: real): (s: real)
    requires x >= 0 && m >= 1.0
    ensures s >= x as real
    ensures s > 0.0 <==> x > 0
  {
    BoostScales(x as real, m);
    x as real * m
  }

  lemma BoostScales(x: real, m: real)
    requires x >= 0.0 && m >= 1.0
    ensures x * m >= x
    ensures x * m > 0.0 <==> x > 0.0
  {
    assert x * m - x == x * (m - 1.0);
    assert x * (m - 1.0) >= 0.0;
  }

  ghost predicate LookupInto(ps: seq<Product>, l: Lookup)
  {
    ValidLookup(l) && forall k :: k in l.table ==> l.table[k] < |ps|
  }

  /** The score of the product at each position. */
  function ScoreOf(ps: seq<Product>, terms: seq<string>, now: int): nat -> real
  {
    (id: nat) => if id < |ps| then FinalScore(ps[id], terms, now) else 0.0
  }

  /** `findProducts(query)` over the products `ps` and the lookup `l`. */
  function FindProducts(ps: seq<Product>, l: Lookup, query: string, now: int): (r: seq<nat>)
    requires LookupInto(ps, l)
    requires NoRegexSyntax(query)
    ensures |r| <= |Candidates(l)|
    ensures query == [] ==> r == []
  {
    if query == [] then []
    else Ids(Rank(Candidates(l), ScoreOf(ps, Terms(query), now)))
  }

  /** A product is returned exactly when the lookup reaches it and its
      score is positive, that is, when some term matched it somewhere. */
  lemma FindProductsMembers(ps: seq<Product>, l: Lookup, query: string, now: int)
    requires LookupInto(ps, l) && NoRegexSyntax(query)
    ensures forall id :: id in FindProducts(ps, l, query, now) <==>
      query != [] && id in Candidates(l) && Score(ps[id], Terms(query)) > 0
  {
    if query != [] {
      RankIds(Candidates(l), ScoreOf(ps, Terms(query), now));
    }
  }

  /** The results come in descending final score. */
  lemma FindProductsOrdered(ps: seq<Product>, l: Lookup, query: string, now: int)
    requires LookupInto(ps, l) && NoRegexSyntax(query)
    ensures var r := FindProducts(ps, l, query, now);
      var score := ScoreOf(ps, Terms(query), now);
      forall i, j :: 0 <= i < j < |r| ==> score(r[i]) >= score(r[j])
  {
    if query != [] {
      RankOrdered(Candidates(l), ScoreOf(ps, Terms(query), now));
    }
  }

  /** `ScoreOf` is the final score of every returned product. */
  lemma FindProductsScores(ps: seq<Product>, l: Lookup, query: string, now: int)
    requires LookupInto(ps, l) && NoRegexSyntax(query)
    ensures var r := FindProducts(ps, l, query, now);
      forall i :: 0 <= i < |r| ==> r[i] < |ps| && ScoreOf(ps, Terms(query), now)(r[i]) == FinalScore(ps[r[i]], Terms(query), now)
  {
    var r := FindProducts(ps, l, query, now);
    FindProductsMembers(ps, l, query, now);
    forall i | 0 <= i < |r| ensures r[i] < |ps| {
      assert r[i] in r;
    }
  }

  /** No product is returned twice. */
  lemma FindProductsDistinct(ps: seq<Product>, l: Lookup, query: string, now: int)
    requires LookupInto(ps, l) && NoRegexSyntax(query)
    ensures Distinct(FindProducts(ps, l, query, now))
  {
    if query != [] {
      RankDistinct(Candidates(l), ScoreOf(ps, Terms(query), now));
    }
  }

  /** Equal scores keep the order of the candidates, that is, of the first
      lookup key of each product. */
  lemma FindProductsStable(ps: seq<Product>, l: Lookup, query: string, now: int, v: real)
    requires LookupInto(ps, l) && NoRegexSyntax(query) && query != [] && v > 0.0
    ensures var score := ScoreOf(ps, Terms(query), now);
      WithScore(FindProducts(ps, l, query, now), score, v) == WithScore(Candidates(l), score, v)
  {
    RankStable(Candidates(l), ScoreOf(ps, Terms(query), now), v);
  }

  /** Any term matches every product through the empty-string rules, so a
      query of white space only, which splits into the single empty term,
      returns every reachable product. */
  lemma BlankQueryReturnsAll(ps: seq<Product>, l: Lookup, query: string, now: int)
    requires LookupInto(ps, l) && NoRegexSyntax(query)
    requires query != [] && AllSpace(query)
    ensures forall id :: id in FindProducts(ps, l, query, now) <==> id in Candidates(l)
  {
    FindProductsMembers(ps, l, query, now);
    forall id | id in Candidates(l) ensures Score(ps[id], Terms(query)) > 0 {
      var p := ps[id];
      assert OccursAt(ToLower(p.name), "", 0) && OccursAt(ToLower(p.category), "", 0)
        && OccursAt(ToLower(p.description), "", 0);
      assert SubstringBonus(p, "") == 140;
      assert Terms(query) == [""];
      assert Score(p, [""]) == TermScore(p, "") + Score(p, []);
    }
  }

  /** A term equal to the lower-cased name earns at least the exact-name,
      substring and zero-distance fuzzy bonuses. */
  lemma NameTermScore(p: Product)
    requires Named(p)
    ensures TermScore(p, ToLower(p.name)) >= 100 + 60 + 40
  {
    var name := ToLower(p.name);
    ContainsSelf(name);
    DistFacts(name, name);
  }

  /** A term made of "under" and a number earns the price bonus exactly
      for products priced at most that number. */
  lemma UnderPriceTerm(p: Product)
    ensures PriceBonus(p, "under40000") == if p.price <= 40000 then 45 else 0
  {
    var t := "under40000";
    assert OccursAt(t, "under", 0);
    assert NextDigit(t, 5) == 5;
    assert NextDigit(t, 4) == 5 && NextDigit(t, 3) == 5 && NextDigit(t, 2) == 5;
    assert NextDigit(t, 1) == 5 && NextDigit(t, 0) == 5;
    assert DigitRunEnd(t, 10) == 10 && DigitRunEnd(t, 9) == 10 && DigitRunEnd(t, 8) == 10;
    assert DigitRunEnd(t, 7) == 10 && DigitRunEnd(t, 6) == 10 && DigitRunEnd(t, 5) == 10;
    var d := t[5..10];
    assert d == "40000";
    assert d[..1] == "4" && ParseDigits("4") == 4;
    assert d[..2] == "40" && "40"[..1] == "4";
    assert ParseDigits("40") == 40;
    assert d[..3] == "400" && "400"[..2] == "40";
    assert ParseDigits("400") == 400;
    assert d[..4] == "4000" && "4000"[..3] == "400";
    assert ParseDigits("4000") == 4000;
    assert "40000"[..4] == "4000";
    assert ParseDigits(d) == 40000;
  }

  /** Lower-case words joined by single spaces are the query's terms. */
  lemma TermsOfWords(ws: seq<string>)
    requires |ws| >= 1
    requires forall i :: 0 <= i < |ws| ==> ws[i] != [] && NoSpace(ws[i]) && ToLower(ws[i]) == ws[i]
    ensures Terms(JoinWords(ws)) == ws
  {
    var q := JoinWords(ws);
    JoinFacts(ws);
    var last := ws[|ws| - 1];
    assert !IsSpace(q[0]) && !IsSpace(q[|q| - 1]) by {
      assert NoSpace(ws[0]) && NoSpace(last);
    }
    assert Trim(q) == q by {
      TrimNoop(q);
    }
    assert Split(q) == ws by {
      SplitJoin(ws);
    }
    assert Terms(q) == Split(Trim(ToLower(q)));
  }

  lemma {:induction false} JoinFacts(ws: seq<string>)
    requires |ws| >= 1
    requires forall i :: 0 <= i < |ws| ==> ws[i] != [] && NoSpace(ws[i]) && ToLower(ws[i]) == ws[i]
    ensures var q := JoinWords(ws);
      q != [] && ToLower(q) == q && q[0] == ws[0][0] && q[|q| - 1] == ws[|ws| - 1][|ws[|ws| - 1]| - 1]
  {
    if |ws| > 1 {
      JoinFacts(ws[1..]);
      var rest := JoinWords(ws[1..]);
      var q := ws[0] + " " + rest;
      assert q == JoinWords(ws);
      forall i | 0 <= i < |q| ensures LowerChar(q[i]) == q[i] {
        if i < |ws[0]| {
          assert LowerChar(ws[0][i]) == ToLower(ws[0])[i];
        } else if i > |ws[0]| {
          assert q[i] == rest[i - |ws[0]| - 1];
          assert LowerChar(rest[i - |ws[0]| - 1]) == ToLower(rest)[i - |ws[0]| - 1];
        }
      }
    } else {
      assert forall i :: 0 <= i < |ws[0]| ==> LowerChar(ws[0][i]) == ToLower(ws[0])[i];
    }
  }

  /** Written with a space, the same query splits into two terms. */
  lemma SeparatedPriceQuery()
    ensures Terms("under 40000") == ["under", "40000"]
  {
    assert JoinWords(["under", "40000"]) == "under 40000";
    TermsOfWords(["under", "40000"]);
  }

  /** Neither of the two terms earns the price bonus: the keyword lacks a
      number and the number lacks a keyword. */
  lemma SeparatedPriceTerms(p: Product)
    ensures PriceBonus(p, "under") == 0 && PriceBonus(p, "40000") == 0
  {
    MissingCharNotContained("40000", "under", 'u');
    MissingCharNotContained("40000", "below", 'b');
    assert FirstDigitRun("under").None?;
  }
}
