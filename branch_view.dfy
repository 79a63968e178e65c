/** The branch modal of `showProducts(branch)`: category buttons, the sort
    selector, and a grid paged twelve products at a time. */
module BranchView {
  import opened Common
  import opened Text
  import opened Sorting
  import opened Catalog

  const PageSize: nat := 12

  /** `Math.max(1, Math.ceil(n / pageSize))`. */
  function TotalPages(n: nat): (t: nat)
    ensures t >= 1
    ensures n == 0 ==> t == 1
    ensures n > 0 ==> (t - 1) * PageSize < n <= t * PageSize
  {
    Max(1, (n + PageSize - 1) / PageSize)
  }

  /** `items.slice((page - 1) * pageSize, (page - 1) * pageSize + pageSize)`. */
  function PageItems<T>(items: seq<T>, page: nat): (r: seq<T>)
    requires page >= 1
    ensures |r| == Max(0, Min(PageSize, |items| - (page - 1) * PageSize))
    ensures forall i :: 0 <= i < |r| ==> r[i] == items[(page - 1) * PageSize + i]
  {
    var start := (page - 1) * PageSize;
    if start >= |items| then [] else items[start..Min(start + PageSize, |items|)]
  }

  /** The pages `1 .. k` shown one after the other. */
  function FirstPages<T>(items: seq<T>, k: nat): seq<T>
  {
    if k == 0 then [] else FirstPages(items, k - 1) + PageItems(items, k)
  }

  /** Paging loses and repeats nothing: pages `1 .. k` are the first `k`
      pages' worth of items, so all the pages together are the list. */
  lemma {:induction false} FirstPagesPrefix<T>(items: seq<T>, k: nat)
    ensures FirstPages(items, k) == items[..Min(k * PageSize, |items|)]
  {
    if k > 0 {
      FirstPagesPrefix(items, k - 1);
      var a, b := Min((k - 1) * PageSize, |items|), Min(k * PageSize, |items|);
      assert PageItems(items, k) == items[a..b];
      assert items[..b] == items[..a] + items[a..b];
    }
  }

  lemma AllPages<T>(items: seq<T>)
    ensures FirstPages(items, TotalPages(|items|)) == items
  {
    FirstPagesPrefix(items, TotalPages(|items|));
    assert items[..|items|] == items;
  }

  /** `page <= 1`: the Prev button's `disabled`. */
  predicate PrevDisabled(page: nat)
  {
    page <= 1
  }

  /** `page >= totalPages`: the Next button's `disabled`. */
  predicate NextDisabled(page: nat, n: nat)
  {
    page >= TotalPages(n)
  }

  /** Next is disabled exactly when no item lies beyond the current page. */
  lemma NextDisabledMeansLastPage(page: nat, n: nat)
    requires page >= 1
    ensures NextDisabled(page, n) <==> page * PageSize >= n
  {
  }

  /** The category label of a product: `p.category || p.badge || 'Other'`. */
  function Label(p: Product): (r: string)
    ensures r != ""
  {
    if p.category != "" then p.category else if p.badge != "" then p.badge else "Other"
  }

  /** `products.map(label)`. */
  function Labels(ps: seq<Product>): (r: seq<string>)
    ensures |r| == |ps| && forall i :: 0 <= i < |ps| ==> r[i] == Label(ps[i])
  {
    seq(|ps|, i requires 0 <= i < |ps| => Label(ps[i]))
  }

  /** `Array.from(new Set(products.map(label)))`: each label once, in the
      order of first appearance. */
  function Categories(ps: seq<Product>): (r: seq<string>)
    ensures forall i, j :: 0 <= i < j < |r| ==> r[i] != r[j]
    ensures forall c :: c in r <==> c in Labels(ps)
    decreases |ps|
  {
    if ps == [] then []
    else
      var n := |ps| - 1;
      var front := Categories(ps[..n]);
      assert Labels(ps) == Labels(ps[..n]) + [Label(ps[n])];
      if Label(ps[n]) in front then front else front + [Label(ps[n])]
  }

  /** `products.filter(p => label(p) === sel)`. */
  function WithLabel(ps: seq<Product>, sel: string): (r: seq<Product>)
    ensures forall p :: p in r <==> p in ps && Label(p) == sel
    ensures |r| <= |ps|
  {
    if ps == [] then []
    else if Label(ps[0]) == sel then [ps[0]] + WithLabel(ps[1..], sel)
    else WithLabel(ps[1..], sel)
  }

  /** Every category button selects at least one product. */
  lemma CategoryNonEmpty(ps: seq<Product>, c: string)
    requires c in Categories(ps)
    ensures WithLabel(ps, c) != []
  {
    var i :| 0 <= i < |ps| && Labels(ps)[i] == c;
    assert ps[i] in WithLabel(ps, c);
  }

  /** The sort key of each selector value, for an ascending stable sort;
      `collation` ranks names the way `localeCompare` orders them. A
      missing or zero field counts as 0, as `x || 0` does. */
  function SortKey(mode: string, collation: string -> real): Option<Product -> real>
  {
    if mode == "newest" then Some((p: Product) => -(if p.dateAdded.Some? then p.dateAdded.value else 0) as real)
    else if mode == "rating" then Some((p: Product) => -(if p.rating.Some? then p.rating.value else 0.0))
    else if mode == "popularity" then Some((p: Product) => -(if p.popularity.Some? then p.popularity.value else 0) as real)
    else if mode == "price-asc" then Some((p: Product) => p.price as real)
    else if mode == "price-desc" then Some((p: Product) => -p.price as real)
    else if mode == "name" then Some((p: Product) => collation(p.name))
    else None
  }

  /** `sortProducts(items, mode)`: a sorted copy for the six selector
      values, the items unchanged for anything else. */
  function SortProducts(items: seq<Product>, mode: string, collation: string -> real): (r: seq<Product>)
    ensures multiset(r) == multiset(items)
    ensures SortKey(mode, collation).None? ==> r == items
    ensures SortKey(mode, collation).Some? ==> SortedBy(r, SortKey(mode, collation).value)
  {
    match SortKey(mode, collation)
    case None => items
    case Some(key) => SortSorted(items, key); Sort(items, key)
  }

  /** Price: Low to High orders by non-decreasing price. */
  lemma PriceAscending(items: seq<Product>, collation: string -> real)
    ensures var r := SortProducts(items, "price-asc", collation);
      forall i, j :: 0 <= i < j < |r| ==> r[i].price <= r[j].price
  {
    var r := SortProducts(items, "price-asc", collation);
    var key := SortKey("price-asc", collation).value;
    forall i, j | 0 <= i < j < |r| ensures r[i].price <= r[j].price {
      assert key(r[i]) <= key(r[j]);
    }
  }

  /** Price: High to Low orders by non-increasing price. */
  lemma PriceDescending(items: seq<Product>, collation: string -> real)
    ensures var r := SortProducts(items, "price-desc", collation);
      forall i, j :: 0 <= i < j < |r| ==> r[i].price >= r[j].price
  {
    var r := SortProducts(items, "price-desc", collation);
    var key := SortKey("price-desc", collation).value;
    forall i, j | 0 <= i < j < |r| ensures r[i].price >= r[j].price {
      assert key(r[i]) <= key(r[j]);
    }
  }

  /** Sorting is stable: products of one price keep their relative order. */
  lemma PriceStable(items: seq<Product>, collation: string -> real, v: int)
    ensures var key := SortKey("price-asc", collation).value;
      WithKey(SortProducts(items, "price-asc", collation), key, v as real) == WithKey(items, key, v as real)
  {
    SortStable(items, SortKey("price-asc", collation).value, v as real);
  }

  /** The items the grid starts with: for CSE the first thirty laptops when
      there are any, otherwise every product of the branch. */
  function InitialItems(branch: string, ps: seq<Product>): (r: seq<Product>)
    ensures forall p :: p in r ==> p in ps
    ensures branch != "CSE" ==> r == ps
    ensures branch == "CSE" && (forall p :: p in ps ==> !IsLaptop(p)) ==> r == ps
    ensures branch == "CSE" && (exists p :: p in ps && IsLaptop(p)) ==>
      |r| == Min(30, |Laptops(ps)|) && forall p :: p in r ==> IsLaptop(p)
  {
    if branch == "CSE" && Laptops(ps) != [] then
      var l := Laptops(ps);
      assert l[0] in ps && IsLaptop(l[0]);
      l[..Min(30, |l|)]
    else ps
  }

  predicate IsLaptop(p: Product)
  {
    ToLower(p.category) == "laptops" || ToLower(p.badge) == "laptop"
  }

  function Laptops(ps: seq<Product>): (r: seq<Product>)
    ensures forall p :: p in r <==> p in ps && IsLaptop(p)
  {
    if ps == [] then []
    else if IsLaptop(ps[0]) then [ps[0]] + Laptops(ps[1..])
    else Laptops(ps[1..])
  }

  /** The items a category click shows: the products of the category (all
      of them for "All") in the order of the selected sort. */
  function CategoryItems(ps: seq<Product>, sel: string, mode: string, collation: string -> real): (r: seq<Product>)
    ensures multiset(r) == multiset(if sel == "All" then ps else WithLabel(ps, sel))
    ensures SortKey(mode, collation).Some? ==> SortedBy(r, SortKey(mode, collation).value)
  {
    SortProducts(if sel == "All" then ps else WithLabel(ps, sel), mode, collation)
  }

  /** The category click as written: after sorting by the selected mode it
      calls `initializeGrid`, which sorts again by "newest". */
  function CategoryItemsAsWritten(ps: seq<Product>, sel: string, mode: string, collation: string -> real): (r: seq<Product>)
    ensures multiset(r) == multiset(if sel == "All" then ps else WithLabel(ps, sel))
    ensures SortedBy(r, SortKey("newest", collation).value)
  {
    SortProducts(CategoryItems(ps, sel, mode, collation), "newest", collation)
  }

  function Sample(price: int, date: int): Product
  {
    Product("p", price, "", "", "", [], None, "", "", "", Some(date), None, None)
  }

  /** With "Price: Low to High" selected, clicking "All" as written shows
      the newer, dearer product first. */
  lemma CategorySortFinding(collation: string -> real)
    ensures var cheapOld, dearNew := Sample(100, 1), Sample(200, 2);
      CategoryItemsAsWritten([cheapOld, dearNew], "All", "price-asc", collation) == [dearNew, cheapOld]
      && CategoryItems([cheapOld, dearNew], "All", "price-asc", collation) == [cheapOld, dearNew]
  {
    var cheapOld, dearNew := Sample(100, 1), Sample(200, 2);
    var asc := SortKey("price-asc", collation).value;
    var newest := SortKey("newest", collation).value;
    assert Insert(cheapOld, [dearNew], asc) == [cheapOld, dearNew];
    assert Sort([dearNew], asc) == [dearNew];
    assert Sort([cheapOld, dearNew], asc) == [cheapOld, dearNew];
    assert Sort([dearNew], newest) == [dearNew];
    assert Insert(cheapOld, [dearNew], newest) == [dearNew] + Insert(cheapOld, [], newest);
    assert Sort([cheapOld, dearNew], newest) == [dearNew, cheapOld];
  }

  class BranchView {
    /** The branch's products, copied when the modal opens. */
    const products: seq<Product>
    const collation: string -> real
    /** The sort selector's value. */
    var sortMode: string
    var currentItems: seq<Product>
    var currentPage: nat

    ghost predicate Valid()
      reads this
    {
      1 <= currentPage <= TotalPages(|currentItems|)
      && forall p :: p in currentItems ==> p in products
    }

    /** The grid after opening: the initial items sorted newest first, on
        page 1, with the selector on "newest". */
    constructor (branch: string, ps: seq<Product>, names: string -> real)
      ensures Valid()
      ensures products == ps && collation == names && sortMode == "newest" && currentPage == 1
      ensures currentItems == SortProducts(InitialItems(branch, ps), "newest", names)
    {
      products := ps;
      collation := names;
      sortMode := "newest";
      currentPage := 1;
      currentItems := SortProducts(InitialItems(branch, ps), "newest", names);
      new;
      assert forall p :: p in currentItems ==> p in multiset(InitialItems(branch, ps));
    }

    /** A click on the category button `sel`. */
    method SelectCategory(sel: string)
      requires Valid()
      modifies this
      ensures Valid()
      ensures currentItems == CategoryItems(products, sel, old(sortMode), collation)
      ensures currentPage == 1 && sortMode == old(sortMode)
    {
      currentItems := CategoryItems(products, sel, sortMode, collation);
      currentPage := 1;
      assert forall p :: p in currentItems ==> p in multiset(if sel == "All" then products else WithLabel(products, sel));
    }

    /** A change of the sort selector: the shown items are re-sorted and
        the grid returns to page 1. */
    method ChangeSort(mode: string)
      requires Valid()
      modifies this
      ensures Valid()
      ensures sortMode == mode && currentPage == 1
      ensures currentItems == SortProducts(old(currentItems), mode, collation)
    {
      sortMode := mode;
      var before := currentItems;
      currentItems := SortProducts(currentItems, mode, collation);
      currentPage := 1;
      assert forall p :: p in currentItems ==> p in multiset(before);
    }

    /** The Next button: moves on unless this is the last page. */
    method NextPage()
      requires Valid()
      modifies this
      ensures Valid()
      ensures currentItems == old(currentItems) && sortMode == old(sortMode)
      ensures currentPage == if old(currentPage) < TotalPages(|currentItems|) then old(currentPage) + 1 else old(currentPage)
    {
      if currentPage < TotalPages(|currentItems|) {
        currentPage := currentPage + 1;
      }
    }

    /** The Prev button: moves back unless this is the first page. */
    method PrevPage()
      requires Valid()
      modifies this
      ensures Valid()
      ensures currentItems == old(currentItems) && sortMode == old(sortMode)
      ensures currentPage == if old(currentPage) > 1 then old(currentPage) - 1 else old(currentPage)
    {
      if currentPage > 1 {
        currentPage := currentPage - 1;
      }
    }

    /** The products on the grid. */
    function Shown(): (r: seq<Product>)
      reads this
      requires Valid()
      ensures |r| <= PageSize
      ensures currentItems != [] ==> r != []
      ensures forall p :: p in r ==> p in currentItems
    {
      PageItems(currentItems, currentPage)
    }
  }
}
