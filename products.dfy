/**
 The filter engine of src/Pages/Products.tsx: the category list, the category
 and price-sort toggles, the applied-filter tags, and the derivation of the
 visible products (category filter, then stable price sort). `ProductsPage`
 holds the component's state fields and runs `handleApply` and
 `handleRemoveFilter` step by step.
 */
module Products {
  import opened Wrappers
  import opened Seqs
  import opened Entities
  import opened PriceSort

  /** The eight hard-coded catalog products, prices in cents. */
  const Fixture: seq<Product> := [
    Product("1", "Wireless Headphones", "Electronics", 8999,
      "https://images.unsplash.com/photo-1505740420928-5e560c06d30e?w=400&h=300&fit=crop",
      "Premium sound quality with noise cancellation"),
    Product("2", "Smart Watch", "Electronics", 24999,
      "https://images.unsplash.com/photo-1523275335684-37898b6baf30?w=400&h=300&fit=crop",
      "Track your fitness and stay connected"),
    Product("3", "Leather Wallet", "Accessories", 4500,
      "https://images.unsplash.com/photo-1627123424574-724758594e93?w=400&h=300&fit=crop",
      "Genuine leather with RFID protection"),
    Product("4", "Running Shoes", "Footwear", 12999,
      "https://images.unsplash.com/photo-1542291026-7eec264c27ff?w=400&h=300&fit=crop",
      "Lightweight and breathable for maximum comfort"),
    Product("5", "Backpack", "Accessories", 6500,
      "https://images.unsplash.com/photo-1553062407-98eeb64c6a62?w=400&h=300&fit=crop",
      "Durable and spacious with laptop compartment"),
    Product("6", "Bluetooth Speaker", "Electronics", 7999,
      "https://images.unsplash.com/photo-1608043152269-423dbba4e7e1?w=400&h=300&fit=crop",
      "Portable with 20-hour battery life"),
    Product("7", "Sunglasses", "Accessories", 15999,
      "https://images.unsplash.com/photo-1572635196237-14b3f281503f?w=400&h=300&fit=crop",
      "UV protection with polarized lenses"),
    Product("8", "Desk Lamp", "Home", 3999,
      "https://images.unsplash.com/photo-1507473885765-e6ed057f782c?w=400&h=300&fit=crop",
      "Adjustable LED with USB charging port")
  ]

  // ---------------------------------------------------------------------------
  // Category list
  // ---------------------------------------------------------------------------

  /** `allProducts.map(p => p.category)`. */
  function CategoryColumn(catalog: seq<Product>): (r: seq<string>)
    ensures |r| == |catalog|
    ensures forall i :: 0 <= i < |catalog| ==> r[i] == catalog[i].category
  {
    seq(|catalog|, i requires 0 <= i < |catalog| => catalog[i].category)
  }

  /** `categories`: every category of the catalog exactly once. */
  function Categories(catalog: seq<Product>): (r: seq<string>)
    ensures NoDup(r)
    ensures forall c :: c in r <==> exists i :: 0 <= i < |catalog| && catalog[i].category == c
  {
    var column := CategoryColumn(catalog);
    assert forall c :: c in column <==> exists i :: 0 <= i < |catalog| && catalog[i].category == c by {
      forall c | c in column ensures exists i :: 0 <= i < |catalog| && catalog[i].category == c {
        var i :| 0 <= i < |column| && column[i] == c;
      }
    }
    Dedupe(column)
  }

  /** The category list follows the order in which categories first appear in the catalog. */
  lemma CategoriesInFirstOccurrenceOrder(catalog: seq<Product>)
    ensures forall i, j :: 0 <= i < j < |Categories(catalog)| ==>
      FirstIndex(CategoryColumn(catalog), Categories(catalog)[i])
        < FirstIndex(CategoryColumn(catalog), Categories(catalog)[j])
  {
    DedupeFirstOccurrenceOrder(CategoryColumn(catalog));
  }

  // ---------------------------------------------------------------------------
  // Selection toggles
  // ---------------------------------------------------------------------------

  /** handleCategoryToggle: drop the category if selected, else append it. */
  function ToggleCategory(selected: seq<string>, category: string): (r: seq<string>)
    ensures category in r <==> category !in selected
    ensures forall c :: c != category ==> (c in r <==> c in selected)
    ensures category !in selected ==> r == selected + [category]
    ensures category in selected ==> r == Without(selected, category)
  {
    if category in selected then Without(selected, category) else selected + [category]
  }

  /** The selection stays duplicate-free under toggling. */
  lemma TogglePreservesNoDup(selected: seq<string>, category: string)
    requires NoDup(selected)
    ensures NoDup(ToggleCategory(selected, category))
  {
    if category in selected {
      WithoutPreservesNoDup(selected, category);
    }
  }

  /** Toggling a selected category removes exactly its position and keeps the rest in order. */
  lemma ToggleRemovesAt(selected: seq<string>, k: nat)
    requires NoDup(selected) && k < |selected|
    ensures ToggleCategory(selected, selected[k]) == selected[..k] + selected[k + 1..]
  {
    WithoutAt(selected, k);
  }

  /** Toggling an unselected category twice restores the selection. */
  lemma ToggleTwiceRestores(selected: seq<string>, category: string)
    requires category !in selected
    ensures ToggleCategory(ToggleCategory(selected, category), category) == selected
  {
    WithoutAppend(selected, [category], category);
    assert Without([category], category) == [];
  }

  /** handlePriceSortChange: picking the current direction clears it, any other sets it. */
  function ChangePriceSort(prev: Option<SortOrder>, sort: SortOrder): (r: Option<SortOrder>)
    ensures r == None <==> prev == Some(sort)
    ensures r != None ==> r == Some(sort)
  {
    if prev == Some(sort) then None else Some(sort)
  }

  /** Picking the same direction twice restores the state, unless the other direction was set. */
  lemma ChangePriceSortTwice(prev: Option<SortOrder>, sort: SortOrder)
    requires prev == None || prev == Some(sort)
    ensures ChangePriceSort(ChangePriceSort(prev, sort), sort) == prev
  {
  }

  // ---------------------------------------------------------------------------
  // Applied-filter tags
  // ---------------------------------------------------------------------------

  /** The `type` of an `AppliedFilter`. */
  datatype FilterKind = CategoryFilter | PriceFilter

  /** A removable tag naming one committed criterion (`caption` is the source's `label`). */
  datatype AppliedFilter = AppliedFilter(kind: FilterKind, value: string, caption: string)

  /** The `value` of the price tag: the `priceSort` string itself. */
  function SortValue(order: SortOrder): string {
    match order
    case Asc => "asc"
    case Desc => "desc"
  }

  /** The label of the price tag. */
  function SortLabel(order: SortOrder): string {
    match order
    case Asc => "Price: Low to High"
    case Desc => "Price: High to Low"
  }

  /** `selectedCategories.map(cat => ({ type: 'category', value: cat, label: cat }))`. */
  function CategoryTags(selected: seq<string>): (r: seq<AppliedFilter>)
    ensures |r| == |selected|
    ensures forall i :: 0 <= i < |selected| ==> r[i] == AppliedFilter(CategoryFilter, selected[i], selected[i])
  {
    if selected == [] then []
    else [AppliedFilter(CategoryFilter, selected[0], selected[0])] + CategoryTags(selected[1..])
  }

  /** The price tag, present exactly when a direction is set. */
  function PriceTags(priceSort: Option<SortOrder>): (r: seq<AppliedFilter>)
    ensures |r| == (if priceSort.Some? then 1 else 0)
    ensures forall t :: t in r ==> t.kind == PriceFilter && ParseSort(t.value) == priceSort
  {
    match priceSort
    case None => []
    case Some(order) => [AppliedFilter(PriceFilter, SortValue(order), SortLabel(order))]
  }

  /** The `filters` array built by handleApply. */
  function BuildTags(selected: seq<string>, priceSort: Option<SortOrder>): seq<AppliedFilter> {
    CategoryTags(selected) + PriceTags(priceSort)
  }

  /** Apply builds one category tag per selected category, then at most one price tag. */
  lemma BuildTagsShape(selected: seq<string>, priceSort: Option<SortOrder>)
    ensures |BuildTags(selected, priceSort)| == |selected| + (if priceSort.Some? then 1 else 0)
    ensures forall i :: 0 <= i < |selected| ==> BuildTags(selected, priceSort)[i].kind == CategoryFilter
    ensures forall i :: |selected| <= i < |BuildTags(selected, priceSort)| ==>
      BuildTags(selected, priceSort)[i].kind == PriceFilter
  {
    var tags := BuildTags(selected, priceSort);
    forall i | |selected| <= i < |tags| ensures tags[i].kind == PriceFilter {
      assert tags[i] == PriceTags(priceSort)[i - |selected|];
      assert tags[i] in PriceTags(priceSort);
    }
  }

  /** Reads a direction back from a price tag's value. */
  function ParseSort(value: string): Option<SortOrder> {
    if value == "asc" then Some(Asc) else if value == "desc" then Some(Desc) else None
  }

  /** The selection a tag list names: its category values in order, and its first price tag. */
  function SelectionOf(tags: seq<AppliedFilter>): (seq<string>, Option<SortOrder>) {
    if tags == [] then ([], None)
    else
      var (categories, priceSort) := SelectionOf(tags[1..]);
      match tags[0].kind
      case CategoryFilter => ([tags[0].value] + categories, priceSort)
      case PriceFilter => (categories, ParseSort(tags[0].value))
  }

  /** The tags name exactly the selection they were built from. */
  lemma {:induction false} TagsRoundTrip(selected: seq<string>, priceSort: Option<SortOrder>)
    ensures SelectionOf(BuildTags(selected, priceSort)) == (selected, priceSort)
  {
    if selected == [] {
      assert BuildTags(selected, priceSort) == PriceTags(priceSort);
      if priceSort.Some? {
        assert PriceTags(priceSort)[1..] == [];
      }
    } else {
      var tags := BuildTags(selected, priceSort);
      TagsRoundTrip(selected[1..], priceSort);
      assert tags[0] == AppliedFilter(CategoryFilter, selected[0], selected[0]);
      assert tags[1..] == BuildTags(selected[1..], priceSort);
      assert [selected[0]] + selected[1..] == selected;
    }
  }

  /** `prev.filter(f => !(f.type === kind && f.value === value))`. */
  function DropTags(tags: seq<AppliedFilter>, kind: FilterKind, value: string): (r: seq<AppliedFilter>)
    ensures |r| <= |tags|
    ensures forall t :: t in r ==> t in tags && !(t.kind == kind && t.value == value)
  {
    if tags == [] then []
    else if tags[0].kind == kind && tags[0].value == value then DropTags(tags[1..], kind, value)
    else [tags[0]] + DropTags(tags[1..], kind, value)
  }

  lemma {:induction false} DropTagsAppend(a: seq<AppliedFilter>, b: seq<AppliedFilter>, kind: FilterKind, value: string)
    ensures DropTags(a + b, kind, value) == DropTags(a, kind, value) + DropTags(b, kind, value)
  {
    if a == [] {
      assert a + b == b;
    } else {
      assert (a + b)[1..] == a[1..] + b;
      DropTagsAppend(a[1..], b, kind, value);
    }
  }

  /** Tag removal keeps every tag that does not match and drops every tag that does. */
  lemma {:induction false} DropTagsMembers(tags: seq<AppliedFilter>, kind: FilterKind, value: string, t: AppliedFilter)
    ensures t in DropTags(tags, kind, value) <==> t in tags && !(t.kind == kind && t.value == value)
  {
    if tags != [] {
      DropTagsMembers(tags[1..], kind, value, t);
      assert t in tags <==> t == tags[0] || t in tags[1..];
    }
  }

  /** Removing a tag that nothing matches is a no-op. */
  lemma {:induction false} DropTagsAbsent(tags: seq<AppliedFilter>, kind: FilterKind, value: string)
    requires forall i :: 0 <= i < |tags| ==> !(tags[i].kind == kind && tags[i].value == value)
    ensures DropTags(tags, kind, value) == tags
  {
    if tags != [] {
      DropTagsAbsent(tags[1..], kind, value);
    }
  }

  /** Dropping a category's tag from in-sync tags gives the tags of the selection without it. */
  lemma {:induction false} DropCategoryTag(selected: seq<string>, priceSort: Option<SortOrder>, category: string)
    ensures DropTags(BuildTags(selected, priceSort), CategoryFilter, category)
         == BuildTags(Without(selected, category), priceSort)
  {
    DropTagsAppend(CategoryTags(selected), PriceTags(priceSort), CategoryFilter, category);
    DropTagsAbsent(PriceTags(priceSort), CategoryFilter, category);
    DropCategoryTags(selected, category);
  }

  lemma {:induction false} DropCategoryTags(selected: seq<string>, category: string)
    ensures DropTags(CategoryTags(selected), CategoryFilter, category) == CategoryTags(Without(selected, category))
  {
    if selected != [] {
      DropCategoryTags(selected[1..], category);
      assert CategoryTags(selected)[1..] == CategoryTags(selected[1..]);
    }
  }

  /** Dropping the price tag from in-sync tags gives the tags with no direction. */
  lemma DropPriceTag(selected: seq<string>, order: SortOrder)
    ensures DropTags(BuildTags(selected, Some(order)), PriceFilter, SortValue(order))
         == BuildTags(selected, None)
  {
    var cats := CategoryTags(selected);
    DropTagsAppend(cats, PriceTags(Some(order)), PriceFilter, SortValue(order));
    DropTagsAbsent(cats, PriceFilter, SortValue(order));
    assert PriceTags(Some(order))[1..] == [];
    assert cats + [] == cats;
  }

  /** A price tag among in-sync tags names the current direction. */
  lemma PriceTagNamesSort(selected: seq<string>, priceSort: Option<SortOrder>, tag: AppliedFilter)
    requires tag in BuildTags(selected, priceSort) && tag.kind == PriceFilter
    ensures priceSort.Some? && tag.value == SortValue(priceSort.value)
  {
    var cats := CategoryTags(selected);
    forall t | t in cats
      ensures t.kind == CategoryFilter
    {
      var i :| 0 <= i < |cats| && cats[i] == t;
    }
  }

  // ---------------------------------------------------------------------------
  // Visible products
  // ---------------------------------------------------------------------------

  /** `filtered.filter(p => selected.includes(p.category))`. */
  function InCategories(catalog: seq<Product>, selected: seq<string>): (r: seq<Product>)
    ensures |r| <= |catalog|
    ensures forall p :: p in r ==> p in catalog && p.category in selected
  {
    if catalog == [] then []
    else if catalog[0].category in selected then [catalog[0]] + InCategories(catalog[1..], selected)
    else InCategories(catalog[1..], selected)
  }

  /** The category filter keeps every catalog product of a selected category. */
  lemma {:induction false} InCategoriesMembers(catalog: seq<Product>, selected: seq<string>, p: Product)
    ensures p in InCategories(catalog, selected) <==> p in catalog && p.category in selected
  {
    if catalog != [] {
      InCategoriesMembers(catalog[1..], selected, p);
      assert p in catalog <==> p == catalog[0] || p in catalog[1..];
    }
  }

  /** The category filter distributes over concatenation, so it keeps catalog order. */
  lemma {:induction false} InCategoriesAppend(a: seq<Product>, b: seq<Product>, selected: seq<string>)
    ensures InCategories(a + b, selected) == InCategories(a, selected) + InCategories(b, selected)
  {
    if a == [] {
      assert a + b == b;
    } else {
      assert (a + b)[1..] == a[1..] + b;
      InCategoriesAppend(a[1..], b, selected);
    }
  }

  /** The products the page shows for a selection: category filter, then the stable price sort. */
  function Visible(catalog: seq<Product>, selected: seq<string>, priceSort: Option<SortOrder>): seq<Product> {
    var filtered := if |selected| > 0 then InCategories(catalog, selected) else catalog;
    match priceSort
    case None => filtered
    case Some(order) => Sort(order, filtered)
  }

  /** A product is visible iff it is in the catalog and in a selected category (any, when none is). */
  lemma VisibleMembers(catalog: seq<Product>, selected: seq<string>, priceSort: Option<SortOrder>, p: Product)
    ensures p in Visible(catalog, selected, priceSort)
        <==> p in catalog && (|selected| == 0 || p.category in selected)
  {
    var filtered := Visible(catalog, selected, None);
    InCategoriesMembers(catalog, selected, p);
    if priceSort.Some? {
      SortPermutes(priceSort.value, filtered);
      assert p in Visible(catalog, selected, priceSort) <==> p in multiset(Sort(priceSort.value, filtered));
    }
  }

  /** With nothing selected and no direction, the page shows the whole catalog in its order. */
  lemma VisibleUnfiltered(catalog: seq<Product>)
    ensures Visible(catalog, [], None) == catalog
  {
  }

  /** With a direction set, the visible products are ordered by price in that direction. */
  lemma VisibleOrdered(catalog: seq<Product>, selected: seq<string>, order: SortOrder)
    ensures Ordered(order, Visible(catalog, selected, Some(order)))
  {
    SortOrdered(order, Visible(catalog, selected, None));
  }

  /**
   The sorted view is a permutation of the category-filtered view, and products
   of equal price keep their catalog order.
   */
  lemma VisibleStable(catalog: seq<Product>, selected: seq<string>, order: SortOrder, p: nat)
    ensures multiset(Visible(catalog, selected, Some(order))) == multiset(Visible(catalog, selected, None))
    ensures WithPrice(Visible(catalog, selected, Some(order)), p) == WithPrice(Visible(catalog, selected, None), p)
  {
    SortPermutes(order, Visible(catalog, selected, None));
    SortStable(order, Visible(catalog, selected, None), p);
  }

  /** Filtering a list whose products are all in selected categories keeps it as it is. */
  lemma {:induction false} InCategoriesAll(s: seq<Product>, selected: seq<string>)
    requires forall i :: 0 <= i < |s| ==> s[i].category in selected
    ensures InCategories(s, selected) == s
  {
    if s != [] {
      InCategoriesAll(s[1..], selected);
      assert [s[0]] + s[1..] == s;
    }
  }

  /** Deriving the visible list again from the visible list changes nothing. */
  lemma VisibleIdempotent(catalog: seq<Product>, selected: seq<string>, priceSort: Option<SortOrder>)
    ensures Visible(Visible(catalog, selected, priceSort), selected, priceSort) == Visible(catalog, selected, priceSort)
  {
    var v := Visible(catalog, selected, priceSort);
    if |selected| > 0 {
      forall i | 0 <= i < |v| ensures v[i].category in selected {
        VisibleMembers(catalog, selected, priceSort, v[i]);
      }
      InCategoriesAll(v, selected);
    }
    if priceSort.Some? {
      VisibleOrdered(catalog, selected, priceSort.value);
      SortIsUnique(priceSort.value, v, v);
    }
  }

  /** One step of the category filter, at position `k`. */
  lemma InCategoriesAt(catalog: seq<Product>, selected: seq<string>, k: nat)
    requires k < |catalog|
    ensures InCategories(catalog[k..], selected)
         == (if catalog[k].category in selected then [catalog[k]] else []) + InCategories(catalog[k + 1..], selected)
  {
    assert catalog[k..][0] == catalog[k];
    assert catalog[k..][1..] == catalog[k + 1..];
  }

  /** Ascending insertion of a cheapest third product in front of two ordered ones. */
  lemma SortThreeAscending(a: Product, b: Product, c: Product)
    requires a.price <= b.price && c.price < a.price
    ensures Sort(Asc, [a, b, c]) == [c, a, b]
  {
    assert [a, b, c][..2] == [a, b] && [a, b][..1] == [a] && [a][..0] == [];
    assert Sort(Asc, [a]) == [a];
    assert Sort(Asc, [a, b]) == [a, b];
    assert Insert(Asc, [a], c) == Insert(Asc, [], c) + [a];
  }

  /** The category filter over the last six of eight products keeps only the one at position 5. */
  lemma FilterTailOfEight(f: seq<Product>, selected: seq<string>)
    requires |f| == 8 && f[5].category in selected
    requires f[2].category !in selected && f[3].category !in selected && f[4].category !in selected
    requires f[6].category !in selected && f[7].category !in selected
    ensures InCategories(f[2..], selected) == [f[5]]
  {
    assert f[8..] == [];
    InCategoriesAt(f, selected, 7);
    InCategoriesAt(f, selected, 6);
    InCategoriesAt(f, selected, 5);
    assert InCategories(f[5..], selected) == [f[5]];
    InCategoriesAt(f, selected, 4);
    InCategoriesAt(f, selected, 3);
    InCategoriesAt(f, selected, 2);
  }

  /** The filter and sort for a catalog shaped like the fixture in the positions that matter. */
  lemma ThreeOfEightAscending(f: seq<Product>, selected: seq<string>)
    requires |f| == 8
    requires f[0].category in selected && f[1].category in selected && f[5].category in selected
    requires f[2].category !in selected && f[3].category !in selected && f[4].category !in selected
    requires f[6].category !in selected && f[7].category !in selected
    requires f[0].price <= f[1].price && f[5].price < f[0].price
    ensures Visible(f, selected, Some(Asc)) == [f[5], f[0], f[1]]
  {
    FilterOfEight(f, selected);
    assert |selected| > 0;
    SortThreeAscending(f[0], f[1], f[5]);
  }

  /** The category filter over eight products keeps those at positions 0, 1 and 5. */
  lemma FilterOfEight(f: seq<Product>, selected: seq<string>)
    requires |f| == 8
    requires f[0].category in selected && f[1].category in selected && f[5].category in selected
    requires f[2].category !in selected && f[3].category !in selected && f[4].category !in selected
    requires f[6].category !in selected && f[7].category !in selected
    ensures InCategories(f, selected) == [f[0], f[1], f[5]]
  {
    FilterTailOfEight(f, selected);
    InCategoriesAt(f, selected, 1);
    assert InCategories(f[1..], selected) == [f[1]] + [f[5]];
    InCategoriesAt(f, selected, 0);
    assert f[0..] == f;
    assert InCategories(f, selected) == [f[0]] + [f[1], f[5]];
  }

  /** On the fixture, Electronics ascending shows the speaker, the headphones, then the watch. */
  lemma ElectronicsAscending()
    ensures Visible(Fixture, ["Electronics"], Some(Asc)) == [Fixture[5], Fixture[0], Fixture[1]]
  {
    ThreeOfEightAscending(Fixture, ["Electronics"]);
  }

  /**
   Removing a category tag re-filters by the current, possibly unapplied,
   selection: with Electronics applied and Home toggled on afterwards, removing
   the Electronics tag leaves no tag at all while the list shows only Home.
   */
  lemma RemoveTagWithUnappliedToggle()
    ensures DropTags(BuildTags(["Electronics"], None), CategoryFilter, "Electronics") == []
    ensures Without(["Electronics", "Home"], "Electronics") == ["Home"]
    ensures Visible(Fixture, ["Home"], None) != Fixture
  {
    DropCategoryTag(["Electronics"], None, "Electronics");
    assert Without(["Electronics"], "Electronics") == [];
    assert Without(["Home"], "Electronics") == ["Home"];
    assert ["Electronics", "Home"][1..] == ["Home"];
    var f := Fixture;
    assert f[0] in f && f[0].category !in ["Home"];
  }

  /**
   The same scenario run through the page's handlers: apply Electronics, toggle
   Home on without applying, then remove the Electronics tag.
   */
  method UnappliedToggleScenario() returns (tags: seq<AppliedFilter>, visible: seq<Product>)
    ensures tags == []
    ensures visible == Visible(Fixture, ["Home"], None) && visible != Fixture
  {
    var page := new ProductsPage(Fixture);
    page.CategoryToggle("Electronics");
    page.Apply();
    assert page.appliedFilters == [AppliedFilter(CategoryFilter, "Electronics", "Electronics")];
    page.CategoryToggle("Home");
    RemoveTagWithUnappliedToggle();
    page.RemoveFilter(AppliedFilter(CategoryFilter, "Electronics", "Electronics"));
    tags, visible := page.appliedFilters, page.filteredProducts;
  }

  /** The visible list for a selection, computed as the handlers do: copy, filter, sort the copy in place. */
  method Refilter(catalog: seq<Product>, categories: seq<string>, priceSort: Option<SortOrder>)
    returns (visible: seq<Product>)
    ensures visible == Visible(catalog, categories, priceSort)
  {
    var filtered := catalog;
    if |categories| > 0 {
      filtered := InCategories(filtered, categories);
    }
    match priceSort {
      case None =>
      case Some(order) =>
        var a := new Product[|filtered|](i requires 0 <= i < |filtered| => filtered[i]);
        assert a[..] == filtered;
        SortInPlace(a, order);
        filtered := a[..];
    }
    visible := filtered;
  }

  // ---------------------------------------------------------------------------
  // The page's state
  // ---------------------------------------------------------------------------

  /** The Products component's state: catalog, visible list, uncommitted selection and tags. */
  class ProductsPage {
    const allProducts: seq<Product>
    var filteredProducts: seq<Product>
    var selectedCategories: seq<string>
    var priceSort: Option<SortOrder>
    var appliedFilters: seq<AppliedFilter>

    /** The selection never names a category twice. */
    ghost predicate Valid()
      reads this
    {
      NoDup(selectedCategories)
    }

    /** The tags and the visible list reflect the current selection (true after every apply). */
    ghost predicate Synced()
      reads this
    {
      && appliedFilters == BuildTags(selectedCategories, priceSort)
      && filteredProducts == Visible(allProducts, selectedCategories, priceSort)
    }

    /** The initial state: the whole catalog visible, nothing selected, no tags. */
    constructor (catalog: seq<Product>)
      ensures allProducts == catalog && filteredProducts == catalog
      ensures selectedCategories == [] && priceSort == None && appliedFilters == []
      ensures Valid() && Synced()
    {
      allProducts := catalog;
      filteredProducts := catalog;
      selectedCategories := [];
      priceSort := None;
      appliedFilters := [];
    }

    /** The category options offered in the dropdown. */
    function CategoryOptions(): (r: seq<string>)
      ensures NoDup(r)
    {
      Categories(allProducts)
    }

    /** handleCategoryToggle. */
    method CategoryToggle(category: string)
      requires Valid()
      modifies this`selectedCategories
      ensures Valid()
      ensures selectedCategories == ToggleCategory(old(selectedCategories), category)
    {
      TogglePreservesNoDup(selectedCategories, category);
      selectedCategories := ToggleCategory(selectedCategories, category);
    }

    /** handlePriceSortChange. */
    method PriceSortChange(sort: SortOrder)
      modifies this`priceSort
      ensures priceSort == ChangePriceSort(old(priceSort), sort)
    {
      priceSort := ChangePriceSort(priceSort, sort);
    }

    /** handleApply: commit the selection as tags and re-derive the visible list. */
    method Apply()
      modifies this`appliedFilters, this`filteredProducts
      ensures appliedFilters == BuildTags(selectedCategories, priceSort)
      ensures filteredProducts == Visible(allProducts, selectedCategories, priceSort)
      ensures Synced()
    {
      appliedFilters := BuildTags(selectedCategories, priceSort);
      filteredProducts := Refilter(allProducts, selectedCategories, priceSort);
    }

    /**
     handleRemoveFilter: drop one criterion from the CURRENT selection, re-derive
     the visible list from it, and drop the matching tags.
     */
    method RemoveFilter(filter: AppliedFilter)
      requires Valid() && filter in appliedFilters
      modifies this`selectedCategories, this`priceSort, this`filteredProducts, this`appliedFilters
      ensures Valid()
      ensures filter.kind == CategoryFilter ==>
        selectedCategories == Without(old(selectedCategories), filter.value) && priceSort == old(priceSort)
      ensures filter.kind == PriceFilter ==>
        selectedCategories == old(selectedCategories) && priceSort == None
      ensures filteredProducts == Visible(allProducts, selectedCategories, priceSort)
      ensures appliedFilters == DropTags(old(appliedFilters), filter.kind, filter.value)
      ensures old(Synced()) ==> Synced()
    {
      ghost var wasSynced := Synced();
      if filter.kind == CategoryFilter {
        var newCategories := Without(selectedCategories, filter.value);
        WithoutPreservesNoDup(selectedCategories, filter.value);
        if wasSynced {
          DropCategoryTag(selectedCategories, priceSort, filter.value);
        }
        selectedCategories := newCategories;
        filteredProducts := Refilter(allProducts, newCategories, priceSort);
      } else {
        if wasSynced {
          PriceTagNamesSort(selectedCategories, priceSort, filter);
          DropPriceTag(selectedCategories, priceSort.value);
        }
        priceSort := None;
        filteredProducts := Refilter(allProducts, selectedCategories, None);
      }
      appliedFilters := DropTags(appliedFilters, filter.kind, filter.value);
    }
  }
}
