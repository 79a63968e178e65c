/** The search box: the suggestions offered while typing, and where a
    submitted query leads. A query naming a branch code, in any letter case,
    opens that branch; any other query goes to `findProducts`, and no match,
    one match and several matches each lead somewhere of their own. */
module SearchPage {
  import opened Common
  import opened Text
  import opened Catalog
  import opened Ranking
  import opened Search
  import opened Storefront

  const MinSuggestLength: nat := 2
  const MaxSuggestions: nat := 3

  /** Upper-casing a lower-cased string is upper-casing the string. */
  lemma UpperOfLower(s: string)
    ensures ToUpper(ToLower(s)) == ToUpper(s)
  {
    assert forall i :: 0 <= i < |s| ==> ToUpper(ToLower(s))[i] == ToUpper(s)[i];
  }

  /** The query `handleSearchInput` works with. */
  function SuggestQuery(input: string): string
  {
    ToLower(Trim(input))
  }

  /** `handleSearchInput`: the suggested products, or `None` when the
      suggestions are hidden. */
  function Suggestions(s: Shelf, input: string, now: int): (r: Option<seq<nat>>)
    requires LookupInto(s.products, s.lookup)
    requires |Trim(input)| >= MinSuggestLength ==> NoRegexSyntax(SuggestQuery(input))
    ensures |Trim(input)| < MinSuggestLength ==> r.None?
    ensures |Trim(input)| >= MinSuggestLength ==>
      var found := FindProducts(s.products, s.lookup, SuggestQuery(input), now);
      (r.None? <==> found == []) &&
      (r.Some? ==> |r.value| == Min(MaxSuggestions, |found|) && r.value == found[..|r.value|])
    ensures r.Some? ==> 1 <= |r.value| <= MaxSuggestions
  {
    var query := SuggestQuery(input);
    if |query| < MinSuggestLength then None
    else
      var found := FindProducts(s.products, s.lookup, query, now);
      var quick := found[..Min(MaxSuggestions, |found|)];
      if |quick| > 0 then Some(quick) else None
  }

  /** The suggestions are the best-ranked results: no product twice, and
      none scores below a result that was left out. */
  lemma SuggestionsAreTop(s: Shelf, input: string, now: int)
    requires LookupInto(s.products, s.lookup)
    requires |Trim(input)| >= MinSuggestLength ==> NoRegexSyntax(SuggestQuery(input))
    ensures var r := Suggestions(s, input, now);
      r.Some? ==>
        var query := SuggestQuery(input);
        var found := FindProducts(s.products, s.lookup, query, now);
        var score := ScoreOf(s.products, Terms(query), now);
        Distinct(r.value) &&
        (forall i, j :: 0 <= i < |r.value| <= j < |found| ==> score(r.value[i]) >= score(found[j]))
  {
    var r := Suggestions(s, input, now);
    if r.Some? {
      var query := SuggestQuery(input);
      var found := FindProducts(s.products, s.lookup, query, now);
      FindProductsOrdered(s.products, s.lookup, query, now);
      FindProductsDistinct(s.products, s.lookup, query, now);
      TopOfRanked(found, |r.value|, ScoreOf(s.products, Terms(query), now));
    }
  }

  /** Every suggestion is a product the lookup reaches that some term of
      the query matched. */
  lemma SuggestionsMatch(s: Shelf, input: string, now: int)
    requires LookupInto(s.products, s.lookup)
    requires |Trim(input)| >= MinSuggestLength ==> NoRegexSyntax(SuggestQuery(input))
    ensures var r := Suggestions(s, input, now);
      r.Some? ==>
        forall i :: 0 <= i < |r.value| ==>
          r.value[i] in Candidates(s.lookup) && Score(s.products[r.value[i]], Terms(SuggestQuery(input))) > 0
  {
    var r := Suggestions(s, input, now);
    if r.Some? {
      var query := SuggestQuery(input);
      var found := FindProducts(s.products, s.lookup, query, now);
      forall i | 0 <= i < |r.value|
        ensures r.value[i] in Candidates(s.lookup) && Score(s.products[r.value[i]], Terms(query)) > 0
      {
        assert r.value[i] == found[i];
        FoundIff(s, query, now, found[i]);
      }
    }
  }

  /** `FindProductsMembers` for one product. */
  lemma FoundIff(s: Shelf, query: string, now: int, id: nat)
    requires LookupInto(s.products, s.lookup) && NoRegexSyntax(query)
    ensures id in FindProducts(s.products, s.lookup, query, now) <==>
      query != [] && id in Candidates(s.lookup) && Score(s.products[id], Terms(query)) > 0
  {
    FindProductsMembers(s.products, s.lookup, query, now);
  }

  /** The first `k` entries of a list without repeats in descending score:
      taken from the list, without repeats, none below a later entry. */
  lemma TopOfRanked(found: seq<nat>, k: nat, score: nat -> real)
    requires k <= |found| && Distinct(found)
    requires forall i, j :: 0 <= i < j < |found| ==> score(found[i]) >= score(found[j])
    ensures Distinct(found[..k])
    ensures forall i :: 0 <= i < k ==> found[..k][i] in found
    ensures forall i, j :: 0 <= i < k <= j < |found| ==> score(found[..k][i]) >= score(found[j])
  {
    assert forall i :: 0 <= i < k ==> found[..k][i] == found[i];
  }

  /** Where a submitted query leads. */
  datatype Outcome =
    | Prompt                              // asks for a product name or branch
    | OpenBranch(code: string)            // `showProducts(code)`
    | NoMatches(raw: string)              // `No products found for "raw"`
    | OneMatch(id: nat)                   // the only match is offered for buying
    | ResultsList(ids: seq<nat>, raw: string)  // a list with a Buy button per match

  /** `initialQuery || searchInput.value.trim()`: a query passed in is used
      as it is, untrimmed. */
  function RawQuery(initial: Option<string>, input: string): (r: string)
    ensures Truthy(initial) ==> r == initial.value
    ensures !Truthy(initial) ==> r == Trim(input)
  {
    if Truthy(initial) then initial.value else Trim(input)
  }

  /** A non-empty query that names no branch, in any letter case: the only
      kind that reaches `findProducts`. */
  predicate Searches(s: Shelf, raw: string)
  {
    raw != [] && ToUpper(raw) !in s.branches
  }

  /** `performSearch(initialQuery)`: the branch check on the upper-cased
      term comes before any product search. */
  function PerformSearch(s: Shelf, initial: Option<string>, input: string, now: int): (r: Outcome)
    requires LookupInto(s.products, s.lookup)
    requires Searches(s, RawQuery(initial, input)) ==> NoRegexSyntax(ToLower(RawQuery(initial, input)))
    ensures var raw := RawQuery(initial, input);
      (r == Prompt <==> raw == []) &&
      (r.OpenBranch? <==> raw != [] && ToUpper(raw) in s.branches) &&
      (r.OpenBranch? ==> r.code == ToUpper(raw))
    ensures var raw := RawQuery(initial, input);
      Searches(s, raw) ==>
        var found := FindProducts(s.products, s.lookup, ToLower(raw), now);
        (r.NoMatches? <==> found == []) && (r.NoMatches? ==> r.raw == raw) &&
        (r.OneMatch? <==> |found| == 1) && (r.OneMatch? ==> r.id == found[0]) &&
        (r.ResultsList? <==> |found| >= 2) && (r.ResultsList? ==> r.ids == found && r.raw == raw)
  {
    var raw := RawQuery(initial, input);
    if raw == [] then Prompt
    else
      var term := ToLower(raw);
      UpperOfLower(raw);
      if ToUpper(term) in s.branches then OpenBranch(ToUpper(term))
      else
        var found := FindProducts(s.products, s.lookup, term, now);
        if |found| == 0 then NoMatches(raw)
        else if |found| == 1 then OneMatch(found[0])
        else ResultsList(found, raw)
  }

  /** Typed or passed in, a branch code in any letter case opens its branch,
      whatever the products and the lookup hold. */
  lemma BranchCodeInAnyCase(s: Shelf, q: string, input: string, now: int)
    requires LookupInto(s.products, s.lookup)
    requires q != [] && ToUpper(q) in s.branches
    ensures PerformSearch(s, Some(q), input, now) == OpenBranch(ToUpper(q))
    ensures Trim(input) == q ==> PerformSearch(s, None, input, now) == OpenBranch(ToUpper(q))
  {
  }

  /** An empty box with nothing passed in only prompts. */
  lemma BlankInputPrompts(s: Shelf, initial: Option<string>, input: string, now: int)
    requires LookupInto(s.products, s.lookup)
    requires !Truthy(initial) && AllSpace(input)
    ensures PerformSearch(s, initial, input, now) == Prompt
  {
  }

  /** A non-empty term that finds nothing (`NoMatches`) matches no
      product the lookup reaches. */
  lemma NoMatchesScoreNothing(s: Shelf, term: string, now: int)
    requires LookupInto(s.products, s.lookup) && NoRegexSyntax(term)
    requires term != [] && FindProducts(s.products, s.lookup, term, now) == []
    ensures forall id :: id in Candidates(s.lookup) ==> Score(s.products[id], Terms(term)) <= 0
  {
    forall id | id in Candidates(s.lookup)
      ensures Score(s.products[id], Terms(term)) <= 0
    {
      FoundIff(s, term, now, id);
    }
  }

  /** A term that finds one product (`OneMatch`) matches that product and
      no other the lookup reaches. */
  lemma OneMatchOnlyScorer(s: Shelf, term: string, now: int)
    requires LookupInto(s.products, s.lookup) && NoRegexSyntax(term)
    requires |FindProducts(s.products, s.lookup, term, now)| == 1
    ensures var id := FindProducts(s.products, s.lookup, term, now)[0];
      id in Candidates(s.lookup) && Score(s.products[id], Terms(term)) > 0 &&
      forall other :: other in Candidates(s.lookup) && other != id ==> Score(s.products[other], Terms(term)) <= 0
  {
    var found := FindProducts(s.products, s.lookup, term, now);
    assert found == [found[0]];
    FoundIff(s, term, now, found[0]);
    forall other | other in Candidates(s.lookup) && other != found[0]
      ensures Score(s.products[other], Terms(term)) <= 0
    {
      FoundIff(s, term, now, other);
    }
  }

  /** A passed-in query of white space only is not trimmed: it splits into
      the empty term, which every product matches, so every reachable
      product is listed. */
  lemma BlankPassedQueryListsAll(s: Shelf, q: string, input: string, now: int)
    requires LookupInto(s.products, s.lookup)
    requires q != [] && AllSpace(q) && ToUpper(q) !in s.branches
    requires |Candidates(s.lookup)| >= 2
    ensures var r := PerformSearch(s, Some(q), input, now);
      r.ResultsList? && forall id :: id in r.ids <==> id in Candidates(s.lookup)
  {
    var term := ToLower(q);
    assert AllSpace(term) by {
      forall i | 0 <= i < |q| ensures IsSpace(term[i]) {
        LowerKeepsSpaces(q[i]);
      }
    }
    BlankQueryReturnsAll(s.products, s.lookup, term, now);
    var found := FindProducts(s.products, s.lookup, term, now);
    FindProductsDistinct(s.products, s.lookup, term, now);
    DistinctSubsetLength(Candidates(s.lookup), found);
  }

  /** A list holding every entry of a list without repeats is at least
      as long. */
  lemma {:induction false} DistinctSubsetLength(a: seq<nat>, b: seq<nat>)
    requires Distinct(a)
    requires forall x :: x in a ==> x in b
    ensures |b| >= |a|
    decreases |a|
  {
    if a != [] {
      var x := a[|a| - 1];
      var init := a[..|a| - 1];
      assert x in a;
      var k :| 0 <= k < |b| && b[k] == x;
      var rest := RemoveAt(b, k);
      forall y | y in init
        ensures y in rest
      {
        var i :| 0 <= i < |init| && init[i] == y;
        assert a[i] == y && y != x;
        assert y in a;
        var j :| 0 <= j < |b| && b[j] == y;
        assert rest[if j < k then j else j - 1] == y;
      }
      assert Distinct(init) by {
        assert forall i :: 0 <= i < |init| ==> init[i] == a[i];
      }
      DistinctSubsetLength(init, rest);
    }
  }

  /** The product the Buy button at `index` of the results list opens
      (`matches[index]`), if there is such a button. */
  function BuyTarget(r: Outcome, index: nat): (id: Option<nat>)
    ensures id.Some? <==> r.ResultsList? && index < |r.ids|
    ensures id.Some? ==> id.value == r.ids[index]
  {
    if r.ResultsList? && index < |r.ids| then Some(r.ids[index]) else None
  }

  /** Different Buy buttons open different products, and a button higher in
      the list never opens a product ranked below one opened further down. */
  lemma BuyButtonsFollowRank(s: Shelf, initial: Option<string>, input: string, now: int, i: nat, j: nat)
    requires LookupInto(s.products, s.lookup)
    requires Searches(s, RawQuery(initial, input)) ==> NoRegexSyntax(ToLower(RawQuery(initial, input)))
    requires var r := PerformSearch(s, initial, input, now);
      BuyTarget(r, i).Some? && BuyTarget(r, j).Some? && i < j
    ensures var r := PerformSearch(s, initial, input, now);
      var score := ScoreOf(s.products, Terms(ToLower(RawQuery(initial, input))), now);
      BuyTarget(r, i) != BuyTarget(r, j) &&
      score(BuyTarget(r, i).value) >= score(BuyTarget(r, j).value)
  {
    var raw := RawQuery(initial, input);
    var term := ToLower(raw);
    FindProductsDistinct(s.products, s.lookup, term, now);
    FindProductsOrdered(s.products, s.lookup, term, now);
  }
}
