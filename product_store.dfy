/**
 * The product store: one state record (product list, loading flag, error, filters)
 * changed by action methods, and selectors that are pure functions of that record.
 */
module ProductStores {
  import opened Optional
  import opened Seqs
  import opened Text
  import opened ProductModel
  import opened AppConstants

  // ---- selectors --------------------------------------------------------------

  /**
   * Whether a product passes every filter that is set. A filter counts as set only
   * when its value is truthy: an empty name, category 0 or a price bound of 0
   * filters nothing, and the low-stock filter acts only when it is `true`.
   */
  predicate PassesFilters(p: Product, f: ProductFilters) {
    && (f.name.Some? && f.name.value != "" ==> Contains(ToLower(p.name), ToLower(f.name.value)))
    && (f.categoryId.Some? && f.categoryId.value != 0 ==> p.categoryId == f.categoryId.value)
    && (f.minPrice.Some? && f.minPrice.value != 0.0 ==> p.price >= f.minPrice.value)
    && (f.maxPrice.Some? && f.maxPrice.value != 0.0 ==> p.price <= f.maxPrice.value)
    && (f.lowStock == Some(true) ==> p.quantity < LowStockThreshold)
  }

  /** No field of `f` holds a truthy value. */
  predicate Inactive(f: ProductFilters) {
    && (f.name.None? || f.name.value == "")
    && (f.categoryId.None? || f.categoryId.value == 0)
    && (f.minPrice.None? || f.minPrice.value == 0.0)
    && (f.maxPrice.None? || f.maxPrice.value == 0.0)
    && f.lowStock != Some(true)
  }

  /** `filteredProducts`: the products that pass the filters, in store order. */
  function FilteredProducts(s: ProductState): (r: seq<Product>)
    ensures IsSubsequence(r, s.products)
    ensures forall i :: 0 <= i < |r| ==> PassesFilters(r[i], s.filters)
    ensures forall i :: 0 <= i < |s.products| && PassesFilters(s.products[i], s.filters) ==> s.products[i] in r
    ensures forall p :: multiset(r)[p] == if PassesFilters(p, s.filters) then multiset(s.products)[p] else 0
  {
    FilterIsSubsequence(s.products, p => PassesFilters(p, s.filters));
    FilterCounts(s.products, p => PassesFilters(p, s.filters));
    Filter(s.products, p => PassesFilters(p, s.filters))
  }

  /** With no filter set, and in particular with the empty filter record, nothing is filtered out. */
  lemma InactiveFiltersKeepAll(s: ProductState)
    requires Inactive(s.filters)
    ensures FilteredProducts(s) == s.products
  {
    FilterAll(s.products, p => PassesFilters(p, s.filters));
  }

  lemma NoFiltersKeepAll(s: ProductState)
    requires s.filters == NoFilters
    ensures FilteredProducts(s) == s.products
  {
    InactiveFiltersKeepAll(s);
  }

  /** `isProductLowStock`: the empty shelf counts as low. */
  function IsProductLowStock(p: Product): (r: bool)
    ensures p.quantity <= 0 ==> r
    ensures r <==> p.quantity <= 4
  {
    p.quantity < LowStockThreshold
  }

  /** `lowStockProducts`: exactly the products with fewer than five units, in store order. */
  function LowStockProducts(s: ProductState): (r: seq<Product>)
    ensures IsSubsequence(r, s.products)
    ensures forall i :: 0 <= i < |r| ==> r[i].quantity < LowStockThreshold
    ensures forall i :: 0 <= i < |s.products| && s.products[i].quantity < LowStockThreshold ==> s.products[i] in r
    ensures forall p :: multiset(r)[p] == if p.quantity < LowStockThreshold then multiset(s.products)[p] else 0
  {
    FilterIsSubsequence(s.products, IsProductLowStock);
    FilterCounts(s.products, IsProductLowStock);
    Filter(s.products, IsProductLowStock)
  }

  function TotalProducts(s: ProductState): (n: nat)
    ensures n == |s.products|
    ensures n == 0 <==> s.products == []
  {
    |s.products|
  }

  function HasProducts(s: ProductState): (r: bool)
    ensures r <==> s.products != []
  {
    TotalProducts(s) > 0
  }

  function StockValue(p: Product): real {
    p.price * p.quantity as real
  }

  /** `totalValue`: price times quantity, summed over all products. */
  function TotalValue(s: ProductState): (r: real)
    ensures s.products == [] ==> r == 0.0
    ensures |s.products| == 1 ==> r == s.products[0].price * s.products[0].quantity as real
  {
    assert |s.products| == 1 ==> s.products[1..] == [] && Sum(s.products, StockValue) == StockValue(s.products[0]) + Sum([], StockValue);
    Sum(s.products, StockValue)
  }

  /** The value of the store grows by price times quantity of an appended product. */
  lemma TotalValueAppend(s: ProductState, p: Product)
    ensures TotalValue(s.(products := s.products + [p])) == TotalValue(s) + p.price * p.quantity as real
  {
    SumAppend(s.products, [p], StockValue);
    assert [p][1..] == [];
  }

  /** With non-negative prices and quantities the total value is non-negative. */
  lemma TotalValueNonNegative(s: ProductState)
    requires forall i :: 0 <= i < |s.products| ==> s.products[i].price >= 0.0 && s.products[i].quantity >= 0
    ensures TotalValue(s) >= 0.0
  {
    SumNonNegative(s.products, StockValue);
  }

  /** `getProductById`: the first product with that id, or nothing when there is none. */
  function GetProductById(s: ProductState, id: int): (r: Option<Product>)
    ensures r.None? <==> forall i :: 0 <= i < |s.products| ==> s.products[i].id != id
    ensures r.Some? ==> r.value.id == id
    ensures r.Some? ==> exists i :: 0 <= i < |s.products| && s.products[i] == r.value
                                 && forall j :: 0 <= j < i ==> s.products[j].id != id
  {
    Find(s.products, (p: Product) => p.id == id)
  }

  // ---- list updates -----------------------------------------------------------

  /** `products.map(p => p.id === u.id ? u : p)`. */
  function Replaced(ps: seq<Product>, u: Product): (r: seq<Product>)
    ensures |r| == |ps|
    ensures forall i :: 0 <= i < |ps| && ps[i].id == u.id ==> r[i] == u
    ensures forall i :: 0 <= i < |ps| && ps[i].id != u.id ==> r[i] == ps[i]
  {
    Map(ps, (p: Product) => if p.id == u.id then u else p)
  }

  /** `products.filter(p => p.id !== id)`. */
  function Removed(ps: seq<Product>, id: int): (r: seq<Product>)
    ensures IsSubsequence(r, ps)
    ensures forall i :: 0 <= i < |r| ==> r[i].id != id
    ensures forall i :: 0 <= i < |ps| && ps[i].id != id ==> ps[i] in r
    ensures forall p :: multiset(r)[p] == if p.id != id then multiset(ps)[p] else 0
  {
    FilterIsSubsequence(ps, (p: Product) => p.id != id);
    FilterCounts(ps, (p: Product) => p.id != id);
    Filter(ps, (p: Product) => p.id != id)
  }

  /** Replacing twice with the same product is replacing once. */
  lemma ReplacedIdempotent(ps: seq<Product>, u: Product)
    ensures Replaced(Replaced(ps, u), u) == Replaced(ps, u)
  {
  }

  /** After an update of a stored id, looking that id up gives the new product. */
  lemma ReplacedThenFound(s: ProductState, u: Product)
    requires GetProductById(s, u.id).Some?
    ensures GetProductById(s.(products := Replaced(s.products, u)), u.id) == Some(u)
  {
    var t := s.(products := Replaced(s.products, u));
    var i :| 0 <= i < |s.products| && s.products[i].id == u.id;
    assert t.products[i] == u;
  }

  /** An update of an id that is not stored changes nothing. */
  lemma ReplacedAbsent(ps: seq<Product>, u: Product)
    requires forall i :: 0 <= i < |ps| ==> ps[i].id != u.id
    ensures Replaced(ps, u) == ps
  {
  }

  /** After a removal the id is no longer found. */
  lemma RemovedNotFound(s: ProductState, id: int)
    ensures GetProductById(s.(products := Removed(s.products, id)), id).None?
  {
  }

  /** After appending a product whose id is new, looking its id up gives that product. */
  lemma AppendedFound(s: ProductState, p: Product)
    requires GetProductById(s, p.id).None?
    ensures GetProductById(s.(products := s.products + [p]), p.id) == Some(p)
  {
    var t := s.(products := s.products + [p]);
    assert t.products[|s.products|] == p;
  }

  // ---- filters ----------------------------------------------------------------

  /** `{ ...old, ...given }`: the fields `given` supplies override, the others keep their value. */
  function MergeFilters(current: ProductFilters, given: ProductFilters): (r: ProductFilters)
    ensures given.name.Some? ==> r.name == given.name
    ensures given.name.None? ==> r.name == current.name
    ensures given.categoryId.Some? ==> r.categoryId == given.categoryId
    ensures given.categoryId.None? ==> r.categoryId == current.categoryId
    ensures given.minPrice.Some? ==> r.minPrice == given.minPrice
    ensures given.minPrice.None? ==> r.minPrice == current.minPrice
    ensures given.maxPrice.Some? ==> r.maxPrice == given.maxPrice
    ensures given.maxPrice.None? ==> r.maxPrice == current.maxPrice
    ensures given.lowStock.Some? ==> r.lowStock == given.lowStock
    ensures given.lowStock.None? ==> r.lowStock == current.lowStock
  {
    ProductFilters(
      if given.name.Some? then given.name else current.name,
      if given.categoryId.Some? then given.categoryId else current.categoryId,
      if given.minPrice.Some? then given.minPrice else current.minPrice,
      if given.maxPrice.Some? then given.maxPrice else current.maxPrice,
      if given.lowStock.Some? then given.lowStock else current.lowStock)
  }

  /** Merging the empty record changes nothing, merging into it gives the record, and merging twice is merging once. */
  lemma MergeFiltersLaws(a: ProductFilters, b: ProductFilters)
    ensures MergeFilters(a, NoFilters) == a
    ensures MergeFilters(NoFilters, b) == b
    ensures MergeFilters(MergeFilters(a, b), b) == MergeFilters(a, b)
  {
  }

  // ---- the store --------------------------------------------------------------

  class ProductStore {
    var state: ProductState

    constructor ()
      ensures state == InitialProductState
    {
      state := InitialProductState;
    }

    /** Starting an operation clears the error; finishing one keeps it. */
    method SetLoading(loading: bool)
      modifies this
      ensures state == old(state).(loading := loading, error := if loading then None else old(state).error)
    {
      state := state.(loading := loading, error := if loading then None else state.error);
    }

    /** Recording an error also ends the operation. */
    method SetError(error: Option<string>)
      modifies this
      ensures state == old(state).(error := error, loading := false)
    {
      state := state.(error := error, loading := false);
    }

    /** Replaces the list wholesale and ends the operation without error; the filters stay. */
    method SetProducts(products: seq<Product>)
      modifies this
      ensures state == old(state).(products := products, loading := false, error := None)
    {
      state := state.(products := products, loading := false, error := None);
    }

    method AddProduct(product: Product)
      modifies this
      ensures state == old(state).(products := old(state).products + [product])
      ensures |state.products| == |old(state).products| + 1 && state.products[|state.products| - 1] == product
      ensures state.products[..|old(state).products|] == old(state).products
    {
      state := state.(products := state.products + [product]);
    }

    method UpdateProduct(updated: Product)
      modifies this
      ensures state == old(state).(products := Replaced(old(state).products, updated))
    {
      state := state.(products := Replaced(state.products, updated));
    }

    method RemoveProduct(id: int)
      modifies this
      ensures state == old(state).(products := Removed(old(state).products, id))
    {
      state := state.(products := Removed(state.products, id));
    }

    method SetFilters(filters: ProductFilters)
      modifies this
      ensures state == old(state).(filters := MergeFilters(old(state).filters, filters))
    {
      state := state.(filters := MergeFilters(state.filters, filters));
    }

    method ClearFilters()
      modifies this
      ensures state == old(state).(filters := NoFilters)
    {
      state := state.(filters := NoFilters);
    }

    method Reset()
      modifies this
      ensures state == InitialProductState
    {
      state := InitialProductState;
    }
  }
}
