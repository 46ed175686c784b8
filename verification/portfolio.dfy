/**
 * The catalogue page of src/pages/PortfolioPage.tsx: the category filter
 * over the fetched products and the empty-state rule.
 */
module Portfolio {
  import opened Wrappers
  import opened Types
  import Seqs

  /** `selectedCategory === 'All' || product.category === selectedCategory` */
  function Shows(selected: string, p: Product): (r: bool)
    ensures selected == "All" ==> r
    ensures selected != "All" ==> (r <==> p.category == selected)
  {
    selected == "All" || p.category == selected
  }

  /** `products.filter(...)` once the products are loaded. */
  function FilterProducts(products: seq<Product>, selected: string): (r: seq<Product>)
    ensures selected != "All" ==> forall i :: 0 <= i < |r| ==> r[i].category == selected
    ensures forall i :: 0 <= i < |products| && Shows(selected, products[i]) ==> products[i] in r
    ensures forall i :: 0 <= i < |r| ==> r[i] in products
    ensures Seqs.IsSubsequence(r, products)
  {
    Seqs.Filter(products, p => Shows(selected, p))
  }

  /** 'All' shows the fetched list itself, in its order. */
  lemma AllShowsEverything(products: seq<Product>)
    ensures FilterProducts(products, "All") == products
  {
    Seqs.FilterKeepsAll(products, p => Shows("All", p));
  }

  /** `products?.filter(...)`: nothing to filter until the products are loaded. */
  function FilteredProducts(products: Option<seq<Product>>, selected: string): (r: Option<seq<Product>>)
    ensures r.Some? <==> products.Some?
    ensures r.Some? ==> r.value == FilterProducts(products.value, selected)
  {
    match products
    case None => None
    case Some(ps) => Some(FilterProducts(ps, selected))
  }

  /** The "No products found in this category" message. */
  predicate ShowsEmptyState(products: Option<seq<Product>>, selected: string) {
    var filtered := FilteredProducts(products, selected);
    filtered.Some? && |filtered.value| == 0
  }

  /** The empty state appears exactly when the loaded list has no product in the category. */
  lemma EmptyStateIffNoneInCategory(products: Option<seq<Product>>, selected: string)
    ensures ShowsEmptyState(products, selected) <==>
      products.Some? && forall i :: 0 <= i < |products.value| ==> !Shows(selected, products.value[i])
  {
    if products.Some? {
      var r := FilterProducts(products.value, selected);
      if |r| > 0 {
        assert r[0] in products.value;
      }
    }
  }
}
