/**
 * The product table: a case-insensitive name filter over its input list, the
 * totals shown under the table, and the three-way stock classification that
 * drives each row's label, tag colour and row class.
 */
module ProductTables {
  import opened Optional
  import opened Seqs
  import opened Text
  import opened ProductModel
  import opened ProductStores

  /** The name matches the filter, ignoring case. */
  function NameMatches(p: Product, nameFilter: string): (r: bool)
    ensures nameFilter == "" ==> r
    ensures r ==> |nameFilter| <= |p.name|
  {
    ContainsEmpty(ToLower(p.name));
    if Contains(ToLower(p.name), ToLower(nameFilter)) then
      ContainsNoLonger(ToLower(p.name), ToLower(nameFilter));
      true
    else false
  }

  /** `filteredProducts`: the input list itself for an empty filter, else the matching products in order. */
  function TableFilteredProducts(products: seq<Product>, nameFilter: string): (r: seq<Product>)
    ensures nameFilter == "" ==> r == products
    ensures IsSubsequence(r, products)
    ensures forall i :: 0 <= i < |r| ==> NameMatches(r[i], nameFilter)
    ensures forall i :: 0 <= i < |products| && NameMatches(products[i], nameFilter) ==> products[i] in r
    ensures forall p :: multiset(r)[p] == if NameMatches(p, nameFilter) then multiset(products)[p] else 0
  {
    FilterIsSubsequence(products, (p: Product) => NameMatches(p, nameFilter));
    FilterCounts(products, (p: Product) => NameMatches(p, nameFilter));
    if nameFilter == "" then
      IsSubsequenceRefl(products);
      forall i | 0 <= i < |products| ensures NameMatches(products[i], nameFilter) {
        ContainsEmpty(ToLower(products[i].name));
      }
      products
    else Filter(products, (p: Product) => NameMatches(p, nameFilter))
  }

  /** `isLowStock`: some units left, but fewer than five. */
  function IsLowStock(p: Product): (r: bool)
    ensures r <==> IsProductLowStock(p) && p.quantity > 0
  {
    p.quantity > 0 && p.quantity < 5
  }

  /** `isOutOfStock`. */
  function IsOutOfStock(p: Product): (r: bool)
    ensures r <==> p.quantity == 0
    ensures r ==> IsProductLowStock(p) && !IsLowStock(p)
  {
    p.quantity == 0
  }

  /** `totalValue`: price times quantity over the displayed products. */
  function TableTotalValue(products: seq<Product>, nameFilter: string): (r: real)
    ensures r == TotalValue(InitialProductState.(products := TableFilteredProducts(products, nameFilter)))
    ensures nameFilter == "" ==> r == TotalValue(InitialProductState.(products := products))
    ensures TableFilteredProducts(products, nameFilter) == [] ==> r == 0.0
  {
    Sum(TableFilteredProducts(products, nameFilter), StockValue)
  }

  /** `lowStockCount`: how many displayed products are low on stock. */
  function LowStockCount(products: seq<Product>, nameFilter: string): (r: nat)
    ensures products == [] ==> r == 0
    ensures r <= |TableFilteredProducts(products, nameFilter)|
    ensures r <= |LowStockProducts(InitialProductState.(products := products))|
  {
    var shown := TableFilteredProducts(products, nameFilter);
    var low := Filter(shown, IsLowStock);
    var storeLow := LowStockProducts(InitialProductState.(products := products));
    FilterCounts(shown, IsLowStock);
    forall x ensures multiset(low)[x] <= multiset(storeLow)[x] {
      LowWithinStoreLow(products, shown, low, storeLow, x);
    }
    SubMultisetNoLarger(multiset(low), multiset(storeLow));
    |low|
  }

  /** A product the table counts as low is counted, as often, by the store's low-stock list. */
  lemma LowWithinStoreLow(products: seq<Product>, shown: seq<Product>, low: seq<Product>, storeLow: seq<Product>, x: Product)
    requires multiset(shown)[x] <= multiset(products)[x]
    requires multiset(low)[x] == if IsLowStock(x) then multiset(shown)[x] else 0
    requires multiset(storeLow)[x] == if x.quantity < 5 then multiset(products)[x] else 0
    ensures multiset(low)[x] <= multiset(storeLow)[x]
  {
  }

  datatype Severity = Success | Warn | Danger

  function StockLabel(p: Product): (r: string)
    ensures r == "Agotado" <==> p.quantity == 0
    ensures r == "Stock Bajo" <==> 0 < p.quantity < 5
    ensures r == "Disponible" <==> p.quantity < 0 || p.quantity >= 5
  {
    if IsOutOfStock(p) then "Agotado" else if IsLowStock(p) then "Stock Bajo" else "Disponible"
  }

  function StockSeverity(p: Product): (r: Severity)
    ensures r == Danger <==> p.quantity == 0
    ensures r == Warn <==> 0 < p.quantity < 5
    ensures r == Success <==> p.quantity < 0 || p.quantity >= 5
  {
    if IsOutOfStock(p) then Danger else if IsLowStock(p) then Warn else Success
  }

  function RowClass(p: Product): (r: string)
    ensures r == "out-of-stock" <==> p.quantity == 0
    ensures r == "low-stock" <==> 0 < p.quantity < 5
    ensures r == "" <==> p.quantity < 0 || p.quantity >= 5
  {
    if IsOutOfStock(p) then "out-of-stock" else if IsLowStock(p) then "low-stock" else ""
  }

  /** `onFilterChange()`: the emitted `{ name }`, without a name for the empty filter. */
  function FilterChangePayload(nameFilter: string): (r: Option<string>)
    ensures r.None? <==> nameFilter == ""
    ensures r.Some? ==> r.value == nameFilter
  {
    if nameFilter == "" then None else Some(nameFilter)
  }

  /** The shown list grows by an appended product exactly when it matches the filter. */
  lemma TableFilteredAppend(products: seq<Product>, p: Product, nameFilter: string)
    ensures TableFilteredProducts(products + [p], nameFilter) ==
      TableFilteredProducts(products, nameFilter) + (if NameMatches(p, nameFilter) then [p] else [])
  {
    if nameFilter != "" {
      var m := (q: Product) => NameMatches(q, nameFilter);
      FilterAppend(products, [p], m);
      assert [p][1..] == [];
      assert Filter([p], m) == (if m(p) then [p] else []) + Filter([], m);
    } else {
      ContainsEmpty(ToLower(p.name));
    }
  }

  /** Appending a product adds one to the count exactly when it is shown and low on stock. */
  lemma LowStockCountAppend(products: seq<Product>, p: Product, nameFilter: string)
    ensures LowStockCount(products + [p], nameFilter) ==
      LowStockCount(products, nameFilter) + (if NameMatches(p, nameFilter) && IsLowStock(p) then 1 else 0)
  {
    var shown := TableFilteredProducts(products, nameFilter);
    var extra: seq<Product> := if NameMatches(p, nameFilter) then [p] else [];
    TableFilteredAppend(products, p, nameFilter);
    FilterAppend(shown, extra, IsLowStock);
    if NameMatches(p, nameFilter) {
      assert extra[1..] == [];
      assert Filter(extra, IsLowStock) == (if IsLowStock(p) then [p] else []) + Filter([], IsLowStock);
    }
  }

  // ---- properties ------------------------------------------------------------------

  /** A product is never both out of stock and low on stock. */
  lemma StockClassesExclusive(p: Product)
    ensures !(IsOutOfStock(p) && IsLowStock(p))
  {
  }

  /** Label, severity and row class always name the same one of the three classes. */
  lemma ClassificationConsistent(p: Product)
    ensures StockLabel(p) == "Agotado" <==> StockSeverity(p) == Danger
    ensures StockSeverity(p) == Danger <==> RowClass(p) == "out-of-stock"
    ensures RowClass(p) == "out-of-stock" <==> p.quantity == 0
    ensures StockLabel(p) == "Stock Bajo" <==> StockSeverity(p) == Warn
    ensures StockSeverity(p) == Warn <==> RowClass(p) == "low-stock"
    ensures RowClass(p) == "low-stock" <==> 0 < p.quantity < 5
    ensures StockLabel(p) == "Disponible" <==> StockSeverity(p) == Success
    ensures StockSeverity(p) == Success <==> RowClass(p) == ""
    ensures RowClass(p) == "" <==> (p.quantity < 0 || p.quantity >= 5)
  {
  }

  /** The table's "low" leaves out the empty shelf that the store's low-stock selector counts. */
  lemma TableLowStockVersusStore(p: Product)
    ensures IsLowStock(p) ==> IsProductLowStock(p)
    ensures IsOutOfStock(p) ==> IsProductLowStock(p) && !IsLowStock(p)
  {
  }

  /** The low-stock count never exceeds the number of displayed products. */
  lemma LowStockCountBounded(products: seq<Product>, nameFilter: string)
    ensures LowStockCount(products, nameFilter) <= |TableFilteredProducts(products, nameFilter)|
    ensures |TableFilteredProducts(products, nameFilter)| <= |products|
  {
    SubsequenceNoLonger(TableFilteredProducts(products, nameFilter), products);
  }

  /** Nothing displayed, no value; and non-negative prices and stock give a non-negative value. */
  lemma TableTotalValueFacts(products: seq<Product>, nameFilter: string)
    ensures TableFilteredProducts(products, nameFilter) == [] ==> TableTotalValue(products, nameFilter) == 0.0
    ensures (forall i :: 0 <= i < |products| ==> products[i].price >= 0.0 && products[i].quantity >= 0) ==>
      TableTotalValue(products, nameFilter) >= 0.0
  {
    if forall i :: 0 <= i < |products| ==> products[i].price >= 0.0 && products[i].quantity >= 0 {
      SubsequenceValueNonNegative(TableFilteredProducts(products, nameFilter), products);
    }
  }

  /** Stock values over a sub-list of products with non-negative prices and stock add up to a non-negative value. */
  lemma SubsequenceValueNonNegative(shown: seq<Product>, products: seq<Product>)
    requires IsSubsequence(shown, products)
    requires forall i :: 0 <= i < |products| ==> products[i].price >= 0.0 && products[i].quantity >= 0
    ensures Sum(shown, StockValue) >= 0.0
  {
    forall i | 0 <= i < |shown| ensures StockValue(shown[i]) >= 0.0 {
      SubsequenceElements(shown, products, i);
    }
    SumNonNegative(shown, StockValue);
  }
}
