/**
 * The public catalogue page (`src/pages/Products.tsx`): the products fetched from the
 * `products` collection are narrowed to the available ones, and the page shows either
 * all of them or those of the selected category.
 */
module Products {
  import opened Types
  import opened Seqs

  /** The filter buttons, in display order; `"all"` is labelled "Tous". */
  const Categories: seq<string> := ["all", "Cookies", "Crêpes", "Gâteaux", "Pains"]

  function IsAvailable(p: Product): bool
  {
    p.available
  }

  function InCategory(category: string): Product -> bool
  {
    (p: Product) => p.category == category
  }

  /** `loadProducts`: exactly the available products, in fetch order. */
  function LoadProducts(fetched: seq<Product>): (r: seq<Product>)
    ensures forall i :: 0 <= i < |r| ==> r[i].available
    ensures forall p :: p in r <==> p in fetched && p.available
    ensures forall p :: multiset(r)[p] == if p.available then multiset(fetched)[p] else 0
    ensures IsSubsequence(r, fetched)
  {
    FilterIsSubsequence(fetched, IsAvailable);
    forall p
      ensures p in Seqs.Filter(fetched, IsAvailable) <==> p in fetched && p.available
      ensures multiset(Seqs.Filter(fetched, IsAvailable))[p] == if p.available then multiset(fetched)[p] else 0
    {
      FilterMembership(fetched, IsAvailable, p);
      FilterMultiset(fetched, IsAvailable, p);
    }
    Seqs.Filter(fetched, IsAvailable)
  }

  /** `filteredProducts`: under `"all"` the loaded list itself, otherwise exactly the
      loaded products of the selected category, in loaded order. */
  function FilteredProducts(products: seq<Product>, selected: string): (r: seq<Product>)
    ensures selected == "all" ==> r == products
    ensures selected != "all" ==> forall p :: p in r <==> p in products && p.category == selected
    ensures selected != "all" ==> forall i :: 0 <= i < |r| ==> r[i].category == selected
    ensures selected != "all" ==>
      forall p :: multiset(r)[p] == if p.category == selected then multiset(products)[p] else 0
    ensures IsSubsequence(r, products)
  {
    if selected == "all" then
      SubsequenceReflexive(products);
      products
    else
      FilterIsSubsequence(products, InCategory(selected));
      forall p
        ensures p in Seqs.Filter(products, InCategory(selected)) <==> p in products && p.category == selected
        ensures multiset(Seqs.Filter(products, InCategory(selected)))[p]
                == if p.category == selected then multiset(products)[p] else 0
      {
        FilterMembership(products, InCategory(selected), p);
        FilterMultiset(products, InCategory(selected), p);
      }
      Seqs.Filter(products, InCategory(selected))
  }

  /** Applying the same category filter again changes nothing. */
  lemma FilteredProductsIdempotent(products: seq<Product>, selected: string)
    ensures FilteredProducts(FilteredProducts(products, selected), selected) == FilteredProducts(products, selected)
  {
    if selected != "all" {
      FilterIdempotent(products, InCategory(selected));
    }
  }

  /** What the page shows is drawn, in fetch order, from the available fetched products. */
  lemma DisplayedFromFetched(fetched: seq<Product>, selected: string)
    ensures IsSubsequence(FilteredProducts(LoadProducts(fetched), selected), fetched)
    ensures forall p :: p in FilteredProducts(LoadProducts(fetched), selected) ==> p in fetched && p.available
  {
    SubsequenceTransitive(FilteredProducts(LoadProducts(fetched), selected), LoadProducts(fetched), fetched);
  }

  /** The category values the administration form stores (`'pain'`, `'viennoiserie'`,
      `'gâteau'`, `'pâtisserie'`, `'autre'`) are none of the buttons' values, so such a
      product is listed under "Tous" and under no category button. */
  lemma AdminCategoryListedOnlyUnderAll(products: seq<Product>, p: Product, selected: string)
    requires p.category in ["pain", "viennoiserie", "gâteau", "pâtisserie", "autre"]
    requires p in products && p.available
    requires selected in Categories
    ensures p in FilteredProducts(LoadProducts(products), selected) <==> selected == "all"
  {
    assert p.category != selected by {
      assert p.category[0] != selected[0] || |p.category| != |selected|;
    }
  }

  /** The page state: the loaded list, the loading flag and the selected button. */
  datatype Page = Page(products: seq<Product>, loading: bool, selected: string)

  const Initial: Page := Page([], true, "all")

  /** The selection is always one of the five buttons. */
  predicate SelectionValid(page: Page)
  {
    page.selected in Categories
  }

  /** The end of `loadProducts`: the available list is stored and loading stops. */
  function Loaded(page: Page, fetched: seq<Product>): (r: Page)
    ensures r.products == LoadProducts(fetched) && !r.loading && r.selected == page.selected
    ensures SelectionValid(page) ==> SelectionValid(r)
  {
    page.(products := LoadProducts(fetched), loading := false)
  }

  /** A click on a filter button. */
  function SelectCategory(page: Page, category: string): (r: Page)
    requires category in Categories
    ensures r.selected == category && SelectionValid(r)
    ensures r.products == page.products && r.loading == page.loading
  {
    page.(selected := category)
  }

  /** The list the page renders once loaded. */
  function Displayed(page: Page): seq<Product>
  {
    FilteredProducts(page.products, page.selected)
  }

  /** On first load the page shows every available product, "all" being preselected. */
  lemma FirstLoadShowsAllAvailable(fetched: seq<Product>)
    ensures SelectionValid(Initial)
    ensures Displayed(Loaded(Initial, fetched)) == LoadProducts(fetched)
  {
  }
}
