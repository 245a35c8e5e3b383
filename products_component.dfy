/**
 * The older products view: it reads the backend's records under either of two
 * field spellings, filters the rows by name and category, marks the rows that
 * are low on stock, and drives a dialog whose form either creates a product or
 * updates the one being edited. Replies of the HTTP calls are parameters; the
 * toasts and the confirmation dialog are not modelled (the dialog's answer is
 * a parameter).
 */
module LegacyProducts {
  import opened Optional
  import opened Seqs
  import opened Text
  import opened AppConstants
  import opened ProductModel
  import opened Http
  import opened Forms
  import opened WebStorage
  import opened AuthServices
  import ProductStores
  import ProductTables
  import ProductForms

  // ---- records -----------------------------------------------------------------------

  /** A record as the backend sends it: either spelling of each aliased field may be present. */
  datatype RawProduct = RawProduct(
    productId: Value, id: Value, productName: Value, name: Value, description: Value,
    price: Value, quantity: Value, category: Value, categoryId: Value)

  /** A displayed row: the view's own product shape. */
  datatype Row = Row(id: Value, name: Value, description: Value, price: Value, quantity: Value, category: Value)

  /**
   * The mapping of `load` and `edit`: `productId`, `productName` and `category`
   * win over `id`, `name` and `categoryId` unless they are `null` or missing.
   */
  function Aliased(raw: RawProduct): (r: Row)
    ensures !(raw.productId.Null? || raw.productId.Undefined?) ==> r.id == raw.productId
    ensures raw.productId.Null? || raw.productId.Undefined? ==> r.id == raw.id
    ensures !(raw.productName.Null? || raw.productName.Undefined?) ==> r.name == raw.productName
    ensures raw.productName.Null? || raw.productName.Undefined? ==> r.name == raw.name
    ensures !(raw.category.Null? || raw.category.Undefined?) ==> r.category == raw.category
    ensures raw.category.Null? || raw.category.Undefined? ==> r.category == raw.categoryId
    ensures r.description == raw.description && r.price == raw.price && r.quantity == raw.quantity
  {
    Row(Coalesce(raw.productId, raw.id), Coalesce(raw.productName, raw.name), raw.description,
        raw.price, raw.quantity, Coalesce(raw.category, raw.categoryId))
  }

  /** A displayed row seen as a record: it has none of the alternative spellings. */
  function AsRaw(r: Row): RawProduct {
    RawProduct(Undefined, r.id, Undefined, r.name, r.description, r.price, r.quantity, r.category, Undefined)
  }

  /** `null` becomes `undefined` when it goes through `??` with a missing alternative. */
  function Settled(v: Value): Value {
    if v.Null? then Undefined else v
  }

  /** What the backend's own record looks like to this view. */
  function FromDto(dto: ProductDto): RawProduct {
    RawProduct(Num(dto.productId as real), Undefined, Str(dto.productName), Undefined, Str(dto.description),
               Num(dto.price), Num(dto.quantity as real), Undefined, Num(dto.categoryId as real))
  }

  /**
   * Mapping a displayed row again (as `edit` does) changes nothing but a `null`
   * category, which becomes the missing `categoryId`, that is `undefined`.
   */
  lemma RemapRow(r: Row)
    ensures Aliased(AsRaw(r)) == r.(category := Settled(r.category))
    ensures !r.category.Null? ==> Aliased(AsRaw(r)) == r
  {
  }

  /** The backend's records are shown with their id, name and category id. */
  lemma BackendRecordShown(dto: ProductDto)
    ensures Aliased(FromDto(dto)) == Row(Num(dto.productId as real), Str(dto.productName), Str(dto.description),
                                         Num(dto.price), Num(dto.quantity as real), Num(dto.categoryId as real))
  {
  }

  /** A record carrying both spellings is shown with the backend's names, whatever the other ones say. */
  lemma BackendSpellingWins(raw: RawProduct, other: RawProduct)
    requires !(raw.productId.Null? || raw.productId.Undefined?)
    requires !(raw.productName.Null? || raw.productName.Undefined?)
    requires !(raw.category.Null? || raw.category.Undefined?)
    ensures Aliased(raw) == Aliased(raw.(id := other.id, name := other.name, categoryId := other.categoryId))
  {
  }

  // ---- filtering and row classes -----------------------------------------------------

  /** The text a filter compares against: `null` and missing values count as `''`. */
  function FilterText(v: Value): (r: string)
    ensures v.Null? || v.Undefined? ==> r == ""
    ensures v.Str? ==> r == v.text
  {
    ValueText(Coalesce(v, Str("")))
  }

  /** Kept by `filteredProducts`: each non-empty filter occurs in its field, ignoring case. */
  predicate RowMatches(r: Row, filterName: string, filterCategory: string) {
    && (filterName == "" || Contains(ToLower(FilterText(r.name)), ToLower(filterName)))
    && (filterCategory == "" || Contains(ToLower(FilterText(r.category)), ToLower(filterCategory)))
  }

  /** `filteredProducts`: the matching rows in their order; every row with both filters empty. */
  function FilteredRows(rows: seq<Row>, filterName: string, filterCategory: string): (r: seq<Row>)
    ensures IsSubsequence(r, rows)
    ensures forall i :: 0 <= i < |r| ==> RowMatches(r[i], filterName, filterCategory)
    ensures forall i :: 0 <= i < |rows| && RowMatches(rows[i], filterName, filterCategory) ==> rows[i] in r
    ensures forall row :: multiset(r)[row] == if RowMatches(row, filterName, filterCategory) then multiset(rows)[row] else 0
    ensures filterName == "" && filterCategory == "" ==> r == rows
  {
    var keep := (row: Row) => RowMatches(row, filterName, filterCategory);
    FilterIsSubsequence(rows, keep);
    FilterCounts(rows, keep);
    if filterName == "" && filterCategory == "" then
      FilterAll(rows, keep);
      Filter(rows, keep)
    else Filter(rows, keep)
  }

  /** A row as the view would show a store product. */
  function RowOf(p: Product): Row {
    Row(Num(p.id as real), Str(p.name), Str(p.description), Num(p.price), Num(p.quantity as real), Num(p.categoryId as real))
  }

  /** The name filter here and the product table's filter keep the same products. */
  lemma NameFilterAgreesWithTable(p: Product, filterName: string)
    ensures RowMatches(RowOf(p), filterName, "") <==> ProductTables.NameMatches(p, filterName)
  {
    if filterName == "" {
      ContainsEmpty(ToLower(p.name));
    }
  }

  /** `quantity < 5` in JavaScript's loose comparison, for the values a row can hold. */
  function BelowFive(v: Value): (r: bool)
    ensures v.Num? ==> (r <==> v.number < 5.0)
    ensures v.Null? || v.Bool? ==> r
    ensures v.Undefined? ==> !r
    ensures v.Str? && Trim(v.text) == "" ==> r
  {
    match v
    case Num(x) => x < 5.0
    case Null => true
    case Bool(_) => true
    case Undefined => false
    case Str(s) => Trim(s) == ""
  }

  /** `lowStockClass`. */
  function LowStockClass(r: Row): (c: string)
    ensures c == "low-stock-row" || c == ""
  {
    if BelowFive(r.quantity) then "low-stock-row" else ""
  }

  /**
   * A product's row is marked exactly when the store counts it as low on stock,
   * so the empty shelf is marked too, unlike the product table's "low" class.
   */
  lemma LowStockRowVersusOthers(p: Product)
    ensures LowStockClass(RowOf(p)) == "low-stock-row" <==> ProductStores.IsProductLowStock(p)
    ensures LowStockClass(RowOf(p)) == "low-stock-row" <==> p.quantity < 5
    ensures ProductTables.IsOutOfStock(p) ==> LowStockClass(RowOf(p)) == "low-stock-row" && !ProductTables.IsLowStock(p)
  {
  }

  // ---- the dialog form ---------------------------------------------------------------

  const NameRules := [RequiredRule, MaxLengthRule(120)]
  const DescriptionRules := [MaxLengthRule(300)]
  const PriceRules := [RequiredRule, MinRule(0.0)]
  const QuantityRules := [RequiredRule, MinRule(0.0)]
  const CategoryRules := [RequiredRule, MaxLengthRule(60)]

  /** The form built in the constructor; the id control (display only, disabled) has no validators. */
  function InitialForm(): seq<Entry> {
    FreshForm(Str(""), Str(""), Str(""), Num(0.0), Num(0.0), Str(""))
  }

  /** Six new controls holding the given values under the declared validators. */
  function FreshForm(id: Value, name: Value, description: Value, price: Value, quantity: Value, category: Value): seq<Entry> {
    [ Entry("id", NewField(id, [])),
      Entry("name", NewField(name, NameRules)),
      Entry("description", NewField(description, DescriptionRules)),
      Entry("price", NewField(price, PriceRules)),
      Entry("quantity", NewField(quantity, QuantityRules)),
      Entry("category", NewField(category, CategoryRules)) ]
  }

  /** The six declared controls, in order, each with its declared validators. */
  predicate Shaped(cs: seq<Entry>) {
    && |cs| == 6
    && ProductForms.Declared(cs[0], "id", []) && ProductForms.Declared(cs[1], "name", NameRules)
    && ProductForms.Declared(cs[2], "description", DescriptionRules) && ProductForms.Declared(cs[3], "price", PriceRules)
    && ProductForms.Declared(cs[4], "quantity", QuantityRules) && ProductForms.Declared(cs[5], "category", CategoryRules)
  }

  /** Shaped, with every control's errors those of its validators on its value. */
  predicate WellFormed(cs: seq<Entry>) {
    && Shaped(cs)
    && ProductForms.Checked(cs[0].control) && ProductForms.Checked(cs[1].control)
    && ProductForms.Checked(cs[2].control) && ProductForms.Checked(cs[3].control)
    && ProductForms.Checked(cs[4].control) && ProductForms.Checked(cs[5].control)
  }

  /** A well-formed form is invalid exactly when one of its values breaks one of its rules. */
  lemma InvalidIffRuleBroken(cs: seq<Entry>)
    requires WellFormed(cs)
    ensures Invalid(Group(cs)) <==>
      || Validate(NameRules, cs[1].control.value) != []
      || Validate(DescriptionRules, cs[2].control.value) != []
      || Validate(PriceRules, cs[3].control.value) != []
      || Validate(QuantityRules, cs[4].control.value) != []
      || Validate(CategoryRules, cs[5].control.value) != []
  {
    assert Validate([], cs[0].control.value) == [];
    if Invalid(Group(cs)) {
      var i :| 0 <= i < |cs| && Invalid(cs[i].control);
      assert i != 0;
    }
    if Validate(NameRules, cs[1].control.value) != [] { assert Invalid(cs[1].control); }
    if Validate(DescriptionRules, cs[2].control.value) != [] { assert Invalid(cs[2].control); }
    if Validate(PriceRules, cs[3].control.value) != [] { assert Invalid(cs[3].control); }
    if Validate(QuantityRules, cs[4].control.value) != [] { assert Invalid(cs[4].control); }
    if Validate(CategoryRules, cs[5].control.value) != [] { assert Invalid(cs[5].control); }
  }

  lemma FreshFormWellFormed(id: Value, name: Value, description: Value, price: Value, quantity: Value, category: Value)
    ensures var f := FreshForm(id, name, description, price, quantity, category);
      WellFormed(f) && Pristine(f)
  {
  }

  lemma InitialWellFormed()
    ensures WellFormed(InitialForm()) && Pristine(InitialForm())
  {
    FreshFormWellFormed(Str(""), Str(""), Str(""), Num(0.0), Num(0.0), Str(""));
  }

  /** The form as built cannot be saved: the name is required. */
  lemma InitialInvalid()
    ensures Invalid(Group(InitialForm()))
  {
    InitialWellFormed();
    EmptyNameInvalid(InitialForm());
  }

  /** A well-formed form with an empty name is invalid. */
  lemma EmptyNameInvalid(cs: seq<Entry>)
    requires WellFormed(cs) && cs[1].control.value == Str("")
    ensures Invalid(Group(cs))
  {
    assert Check(NameRules[0], Str("")) == Some(Required);
    assert Invalid(cs[1].control);
  }

  /** The value sent by `save`: the raw values, with `null` and missing ones defaulted; no id. */
  datatype Payload = Payload(name: Value, description: Value, price: Value, quantity: Value, category: Value)

  function PayloadOf(cs: seq<Entry>): (r: Payload)
    requires Shaped(cs)
    ensures r.name == (if Missing(cs[1].control.value) then Str("") else cs[1].control.value)
    ensures r.description == (if Missing(cs[2].control.value) then Str("") else cs[2].control.value)
    ensures r.price == (if Missing(cs[3].control.value) then Num(0.0) else cs[3].control.value)
    ensures r.quantity == (if Missing(cs[4].control.value) then Num(0.0) else cs[4].control.value)
    ensures r.category == (if Missing(cs[5].control.value) then Str("") else cs[5].control.value)
    ensures !r.name.Null? && !r.name.Undefined? && !r.price.Null? && !r.price.Undefined?
  {
    Payload(Coalesce(cs[1].control.value, Str("")), Coalesce(cs[2].control.value, Str("")),
            Coalesce(cs[3].control.value, Num(0.0)), Coalesce(cs[4].control.value, Num(0.0)),
            Coalesce(cs[5].control.value, Str("")))
  }

  /** `null` or `undefined`, the values `??` replaces. */
  predicate Missing(v: Value) {
    v.Null? || v.Undefined?
  }

  /** What `save` asks the backend to do. */
  datatype SaveRequest = NoRequest | Create(payload: Payload) | Update(id: Value, payload: Payload)

  /** `save`: nothing for an invalid form; an update when the edited row has a truthy id; else a create. */
  function SaveRequestOf(cs: seq<Entry>, editing: Option<Row>): (r: SaveRequest)
    requires Shaped(cs)
    ensures r.NoRequest? <==> Invalid(Group(cs))
    ensures r.Update? <==> !Invalid(Group(cs)) && editing.Some? && Truthy(editing.value.id)
    ensures r.Update? ==> r.id == editing.value.id
    ensures !r.NoRequest? ==> r.payload == PayloadOf(cs)
  {
    if Invalid(Group(cs)) then NoRequest
    else if editing.Some? && Truthy(editing.value.id) then Update(editing.value.id, PayloadOf(cs))
    else Create(PayloadOf(cs))
  }

  /** A row with id 0, or without an id, is saved as a new product. */
  lemma FalsyIdCreates(cs: seq<Entry>, r: Row)
    requires Shaped(cs) && !Invalid(Group(cs))
    requires r.id == Num(0.0) || r.id.Null? || r.id.Undefined?
    ensures SaveRequestOf(cs, Some(r)).Create?
    ensures SaveRequestOf(cs, None) == SaveRequestOf(cs, Some(r))
  {
  }

  /**
   * What a valid well-formed form sends: the name, price, quantity and category
   * as entered (the validators exclude the defaults), and only the description
   * can fall back to `''`.
   */
  lemma ValidPayload(cs: seq<Entry>)
    requires WellFormed(cs) && !Invalid(Group(cs))
    ensures var p := PayloadOf(cs);
      && p.name == cs[1].control.value && p.price == cs[3].control.value
      && p.quantity == cs[4].control.value && p.category == cs[5].control.value
      && (p.name.Str? ==> 0 < |p.name.text| <= 120)
      && (p.category.Str? ==> 0 < |p.category.text| <= 60)
      && (p.price.Num? ==> p.price.number >= 0.0)
      && (p.quantity.Num? ==> p.quantity.number >= 0.0)
      && (p.description.Str? ==> |p.description.text| <= 300)
  {
    InvalidIffRuleBroken(cs);
    var name, price, quantity, category := cs[1].control.value, cs[3].control.value, cs[4].control.value, cs[5].control.value;
    assert Check(NameRules[0], name).None? && Check(NameRules[1], name).None?;
    assert Check(PriceRules[0], price).None? && Check(PriceRules[1], price).None?;
    assert Check(QuantityRules[0], quantity).None? && Check(QuantityRules[1], quantity).None?;
    assert Check(CategoryRules[0], category).None? && Check(CategoryRules[1], category).None?;
    assert Check(DescriptionRules[0], cs[2].control.value).None?;
  }

  /** `openNew`'s `reset({ id: '', price: 0, quantity: 0 })`: every other control becomes `null`. */
  function OpenNewForm(cs: seq<Entry>): seq<Entry> {
    ResetGroup(cs, NewFormValues)
  }

  const NewFormValues := map["id" := Str(""), "price" := Num(0.0), "quantity" := Num(0.0)]

  lemma NewFormLookups()
    ensures "id" in NewFormValues && NewFormValues["id"] == Str("")
    ensures "price" in NewFormValues && NewFormValues["price"] == Num(0.0)
    ensures "quantity" in NewFormValues && NewFormValues["quantity"] == Num(0.0)
    ensures "name" !in NewFormValues && "description" !in NewFormValues && "category" !in NewFormValues
  {
  }

  /** The controls after `openNew`'s reset, one by one. */
  lemma OpenNewControls(cs: seq<Entry>)
    requires Shaped(cs)
    ensures var f := OpenNewForm(cs);
      && |f| == 6 && (forall i :: 0 <= i < 6 ==> f[i].key == cs[i].key)
      && f[0].control == ResetWith(cs[0].control, Str("")) && f[1].control == ResetWith(cs[1].control, Null)
      && f[2].control == ResetWith(cs[2].control, Null) && f[3].control == ResetWith(cs[3].control, Num(0.0))
      && f[4].control == ResetWith(cs[4].control, Num(0.0)) && f[5].control == ResetWith(cs[5].control, Null)
  {
    NewFormLookups();
  }

  /** The values after `openNew`'s reset. */
  predicate ShowsNew(f: seq<Entry>)
    requires Shaped(f)
  {
    && f[0].control.value == Str("") && f[1].control.value == Null && f[2].control.value == Null
    && f[3].control.value == Num(0.0) && f[4].control.value == Num(0.0) && f[5].control.value == Null
  }

  /** The entries of `openNew`'s reset: the id is emptied, price and quantity zeroed, the rest nulled. */
  lemma OpenNewFacts(cs: seq<Entry>)
    requires WellFormed(cs)
    ensures var f := OpenNewForm(cs);
      WellFormed(f) && ShowsNew(f) && Pristine(f)
  {
    OpenNewControls(cs);
  }

  /** None of the six fields is touched or dirty. */
  predicate Pristine(cs: seq<Entry>)
    requires Shaped(cs)
  {
    && !cs[0].control.touched && !cs[0].control.dirty && !cs[1].control.touched && !cs[1].control.dirty
    && !cs[2].control.touched && !cs[2].control.dirty && !cs[3].control.touched && !cs[3].control.dirty
    && !cs[4].control.touched && !cs[4].control.dirty && !cs[5].control.touched && !cs[5].control.dirty
  }

  /** A form of six fields with no flag raised is untouched and pristine. */
  lemma UnflaggedSix(cs: seq<Entry>)
    requires Shaped(cs) && Pristine(cs)
    ensures !Touched(Group(cs)) && !Dirty(Group(cs))
  {
    assert forall i :: 0 <= i < 6 ==> !Touched(cs[i].control) && !Dirty(cs[i].control);
  }

  /**
   * The new-product form keeps its shape and starts untouched, with an empty
   * name and category, so it cannot be saved before they are entered.
   */
  lemma OpenNewBlocksSave(cs: seq<Entry>)
    requires WellFormed(cs)
    ensures WellFormed(OpenNewForm(cs))
    ensures !Touched(Group(OpenNewForm(cs))) && !Dirty(Group(OpenNewForm(cs)))
    ensures SaveRequestOf(OpenNewForm(cs), None) == NoRequest
  {
    OpenNewFacts(cs);
    var f := OpenNewForm(cs);
    UnflaggedSix(f);
    assert Check(NameRules[0], Null) == Some(Required);
    assert Invalid(f[1].control);
  }

  /** The values `edit` patches into the form. */
  function EditValues(mapped: Row): map<string, Value> {
    map["name" := mapped.name, "description" := mapped.description, "price" := mapped.price,
        "quantity" := mapped.quantity, "category" := mapped.category]
  }

  /** `edit`'s id control: the id as text when there is one (`setValue`), else `reset()`. */
  function ShowId(cs: seq<Entry>, id: Value): seq<Entry> {
    if !(id.Null? || id.Undefined?) then PatchValue(cs, IdValue(id))
    else ResetField(cs, "id")
  }

  function IdValue(id: Value): map<string, Value> {
    map["id" := Str(ValueText(id))]
  }

  lemma IdValueLookups(id: Value)
    ensures "id" in IdValue(id) && IdValue(id)["id"] == Str(ValueText(id))
    ensures "name" !in IdValue(id) && "description" !in IdValue(id) && "price" !in IdValue(id)
    ensures "quantity" !in IdValue(id) && "category" !in IdValue(id)
  {
  }

  lemma EditValuesLookups(mapped: Row)
    ensures var m := EditValues(mapped);
      && "id" !in m
      && "name" in m && m["name"] == mapped.name && "description" in m && m["description"] == mapped.description
      && "price" in m && m["price"] == mapped.price && "quantity" in m && m["quantity"] == mapped.quantity
      && "category" in m && m["category"] == mapped.category
  {
  }

  /** `edit`'s form: the row's values, then its id. */
  function EditForm(cs: seq<Entry>, mapped: Row): seq<Entry> {
    ShowId(PatchValue(cs, EditValues(mapped)), mapped.id)
  }

  /** What the id control shows for an id: its text, or `null` after a reset. */
  function IdShown(id: Value): Value {
    if id.Null? || id.Undefined? then Null else Str(ValueText(id))
  }

  /** The form shows the row's values, and its id as `IdShown` says. */
  predicate ShowsRow(f: seq<Entry>, mapped: Row)
    requires Shaped(f)
  {
    && f[0].control.value == IdShown(mapped.id)
    && f[1].control.value == mapped.name && f[2].control.value == mapped.description
    && f[3].control.value == mapped.price && f[4].control.value == mapped.quantity
    && f[5].control.value == mapped.category
  }

  /** The five data fields keep their flags. */
  predicate DataFlagsKept(f: seq<Entry>, cs: seq<Entry>)
    requires Shaped(f) && Shaped(cs)
  {
    && f[1].control.touched == cs[1].control.touched && f[1].control.dirty == cs[1].control.dirty
    && f[2].control.touched == cs[2].control.touched && f[2].control.dirty == cs[2].control.dirty
    && f[3].control.touched == cs[3].control.touched && f[3].control.dirty == cs[3].control.dirty
    && f[4].control.touched == cs[4].control.touched && f[4].control.dirty == cs[4].control.dirty
    && f[5].control.touched == cs[5].control.touched && f[5].control.dirty == cs[5].control.dirty
  }

  /** The id control keeps its flags when set and loses them when reset. */
  predicate IdFlags(f: seq<Entry>, cs: seq<Entry>, id: Value)
    requires Shaped(f) && Shaped(cs)
  {
    if id.Null? || id.Undefined? then !f[0].control.touched && !f[0].control.dirty
    else f[0].control.touched == cs[0].control.touched && f[0].control.dirty == cs[0].control.dirty
  }

  lemma EditPatchFacts(cs: seq<Entry>, mapped: Row)
    requires WellFormed(cs)
    ensures var p := PatchValue(cs, EditValues(mapped));
      && WellFormed(p) && p[0] == cs[0] && DataFlagsKept(p, cs)
      && p[1].control.value == mapped.name && p[2].control.value == mapped.description
      && p[3].control.value == mapped.price && p[4].control.value == mapped.quantity
      && p[5].control.value == mapped.category
  {
    EditValuesLookups(mapped);
    var p := PatchValue(cs, EditValues(mapped));
    assert p[1].control == WithValue(cs[1].control, mapped.name);
    assert p[2].control == WithValue(cs[2].control, mapped.description);
    assert p[3].control == WithValue(cs[3].control, mapped.price);
    assert p[4].control == WithValue(cs[4].control, mapped.quantity);
    assert p[5].control == WithValue(cs[5].control, mapped.category);
  }

  /** The five data controls are the same entries in both forms. */
  predicate DataKept(f: seq<Entry>, cs: seq<Entry>)
    requires |f| == 6 && |cs| == 6
  {
    f[1] == cs[1] && f[2] == cs[2] && f[3] == cs[3] && f[4] == cs[4] && f[5] == cs[5]
  }

  lemma ShowIdFacts(cs: seq<Entry>, id: Value)
    requires WellFormed(cs)
    ensures var f := ShowId(cs, id);
      && WellFormed(f)
      && f[0].control.value == IdShown(id) && IdFlags(f, cs, id)
      && DataKept(f, cs)
  {
    if !(id.Null? || id.Undefined?) {
      IdSetFacts(cs, id);
    } else {
      IdResetFacts(cs);
    }
  }

  /** `setValue` on the id control: its text, with its flags. */
  lemma IdSetFacts(cs: seq<Entry>, id: Value)
    requires WellFormed(cs)
    ensures var f := PatchValue(cs, IdValue(id));
      && WellFormed(f) && DataKept(f, cs)
      && f[0].control == WithValue(cs[0].control, Str(ValueText(id)))
  {
    IdValueLookups(id);
    var f := PatchValue(cs, IdValue(id));
    assert f[0] == Entry("id", WithValue(cs[0].control, Str(ValueText(id))));
    assert f[1] == cs[1] && f[2] == cs[2] && f[3] == cs[3] && f[4] == cs[4] && f[5] == cs[5];
    IdReplaced(cs, f);
  }

  /** `reset()` on the id control: `null`, untouched and pristine. */
  lemma IdResetFacts(cs: seq<Entry>)
    requires WellFormed(cs)
    ensures var f := ResetField(cs, "id");
      && WellFormed(f) && DataKept(f, cs)
      && f[0].control == ResetWith(cs[0].control, Null)
  {
    var f := ResetField(cs, "id");
    assert f[0] == Entry("id", ResetWith(cs[0].control, Null));
    assert f[1] == cs[1] && f[2] == cs[2] && f[3] == cs[3] && f[4] == cs[4] && f[5] == cs[5];
    IdReplaced(cs, f);
  }

  /** Replacing the id control by another checked field without validators keeps the form well formed. */
  lemma IdReplaced(cs: seq<Entry>, f: seq<Entry>)
    requires WellFormed(cs) && |f| == 6
    requires f[0].key == "id" && f[0].control.Field? && f[0].control.rules == [] && ProductForms.Checked(f[0].control)
    requires f[1] == cs[1] && f[2] == cs[2] && f[3] == cs[3] && f[4] == cs[4] && f[5] == cs[5]
    ensures WellFormed(f) && DataKept(f, cs)
  {
    assert Shaped(f);
    assert ProductForms.Checked(f[1].control) && ProductForms.Checked(f[2].control) && ProductForms.Checked(f[3].control);
    assert ProductForms.Checked(f[4].control) && ProductForms.Checked(f[5].control);
  }

  /**
   * The edited form keeps its shape and shows the row; the data fields keep
   * their flags, and the id control keeps its own only when it is set.
   */
  lemma EditShowsRow(cs: seq<Entry>, mapped: Row)
    requires WellFormed(cs)
    ensures WellFormed(EditForm(cs, mapped))
    ensures ShowsRow(EditForm(cs, mapped), mapped)
    ensures DataFlagsKept(EditForm(cs, mapped), cs) && IdFlags(EditForm(cs, mapped), cs, mapped.id)
  {
    EditPatchFacts(cs, mapped);
    var p := PatchValue(cs, EditValues(mapped));
    ShowIdFacts(p, mapped.id);
    var f := ShowId(p, mapped.id);
  }

  /**
   * `openNew`'s `reset` of the form object. A well-formed form is determined by
   * its values and flags, so this states the whole new form.
   */
  method ClearForNew(form: FormGroup)
    requires WellFormed(form.controls)
    modifies form
    ensures WellFormed(form.controls) && ShowsNew(form.controls) && Pristine(form.controls)
  {
    OpenNewFacts(form.controls);
    form.controls := OpenNewForm(form.controls);
  }

  /**
   * `edit`'s updates of the form object: `patchValue`, then the id control. A
   * well-formed form is determined by its values and flags, so this states
   * the whole new form.
   */
  method FillForm(form: FormGroup, mapped: Row)
    requires WellFormed(form.controls)
    modifies form
    ensures WellFormed(form.controls) && ShowsRow(form.controls, mapped)
    ensures DataFlagsKept(form.controls, old(form.controls)) && IdFlags(form.controls, old(form.controls), mapped.id)
  {
    EditShowsRow(form.controls, mapped);
    form.controls := EditForm(form.controls, mapped);
  }

  /** A string without lower-case letters is its own upper-case form. */
  lemma UpperUnchanged(s: string)
    requires forall i :: 0 <= i < |s| ==> !IsAsciiLower(s[i])
    ensures ToUpper(s) == s
  {
    var u := ToUpper(s);
    assert forall i :: 0 <= i < |s| ==> u[i] == s[i];
  }

  /**
   * The admin flag of `ngOnInit`: the role asked for under either of its two
   * spellings, set exactly when `ROLE_ADMIN` or `ADMIN` is stored as written.
   */
  function IsAdminUser(items: map<string, string>): (r: bool)
    ensures r <==> "ROLE_ADMIN" in GetRoles(items) || "ADMIN" in GetRoles(items)
  {
    UpperUnchanged("ROLE_ADMIN");
    UpperUnchanged("ADMIN");
    HasRole(items, "ROLE_ADMIN") || HasRole(items, "ADMIN")
  }

  // ---- the view ----------------------------------------------------------------------

  class ProductsComponent {
    var products: seq<Row>
    var loading: bool
    var dialog: bool
    var editing: Option<Row>
    var isAdmin: bool
    var filterName: string
    var filterCategory: string
    const form: FormGroup

    ghost predicate Valid()
      reads this, form
    {
      WellFormed(form.controls)
    }

    constructor ()
      ensures Valid() && fresh(form) && form.controls == InitialForm()
      ensures products == [] && !loading && !dialog && editing.None? && !isAdmin
      ensures filterName == "" && filterCategory == ""
    {
      products := [];
      loading := false;
      dialog := false;
      editing := None;
      isAdmin := false;
      filterName := "";
      filterCategory := "";
      InitialWellFormed();
      form := new FormGroup(InitialForm());
    }

    /** `ngOnInit`: the admin flag from either spelling of the role, then a load. */
    method OnInit(auth: AuthService, reply: Result<seq<RawProduct>, HttpError>)
      modifies this
      ensures isAdmin == IsAdminUser(auth.local.items)
      ensures reply.Ok? ==> products == Map(reply.value, Aliased) && !loading
      ensures reply.Err? ==> products == old(products) && loading
      ensures dialog == old(dialog) && editing == old(editing)
      ensures filterName == old(filterName) && filterCategory == old(filterCategory)
    {
      isAdmin := IsAdminUser(auth.local.items);
      Load(reply);
    }

    /**
     * `load`: the mapped records replace the rows and loading ends; a failed
     * request never completes, so loading stays on and the rows stay.
     */
    method Load(reply: Result<seq<RawProduct>, HttpError>)
      modifies this
      ensures reply.Ok? ==> products == Map(reply.value, Aliased) && !loading
      ensures reply.Err? ==> products == old(products) && loading
      ensures dialog == old(dialog) && editing == old(editing) && isAdmin == old(isAdmin)
      ensures filterName == old(filterName) && filterCategory == old(filterCategory)
    {
      loading := true;
      match reply {
        case Ok(records) =>
          products := Map(records, Aliased);
          loading := false;
        case Err(_) =>
      }
    }

    /** `openNew`. */
    method OpenNew()
      requires Valid()
      modifies this, form
      ensures Valid()
      ensures editing.None? && dialog && ShowsNew(form.controls) && Pristine(form.controls)
      ensures unchanged(this`products, this`loading, this`isAdmin, this`filterName, this`filterCategory)
    {
      ClearForNew(form);
      ghost var after := form.controls;
      editing := None;
      dialog := true;
      assert form.controls == after;
    }

    /** `edit(p)`: the row, mapped again, becomes the edited product and fills the form. */
    method Edit(p: Row)
      requires Valid()
      modifies this, form
      ensures Valid()
      ensures editing == Some(Aliased(AsRaw(p))) && dialog && ShowsRow(form.controls, editing.value)
      ensures DataFlagsKept(form.controls, old(form.controls)) && IdFlags(form.controls, old(form.controls), editing.value.id)
      ensures unchanged(this`products, this`loading, this`isAdmin, this`filterName, this`filterCategory)
    {
      var mapped := Aliased(AsRaw(p));
      editing := Some(mapped);
      dialog := true;
      ghost var before := form.controls;
      FillForm(form, mapped);
      assert editing.value == mapped && before == old(form.controls);
    }

    /**
     * `save`: the request it sends; on success the dialog closes and the list
     * is loaded again, and on failure (or without a request) nothing changes.
     */
    method Save(reply: Result<(), HttpError>, reloaded: Result<seq<RawProduct>, HttpError>) returns (request: SaveRequest)
      requires Valid()
      modifies this
      ensures request == SaveRequestOf(form.controls, old(editing))
      ensures Valid() && editing == old(editing) && isAdmin == old(isAdmin)
      ensures filterName == old(filterName) && filterCategory == old(filterCategory)
      ensures request.NoRequest? || reply.Err? ==>
        products == old(products) && loading == old(loading) && dialog == old(dialog)
      ensures !request.NoRequest? && reply.Ok? ==> !dialog
      ensures !request.NoRequest? && reply.Ok? && reloaded.Ok? ==> products == Map(reloaded.value, Aliased) && !loading
      ensures !request.NoRequest? && reply.Ok? && reloaded.Err? ==> products == old(products) && loading
    {
      request := SaveRequestOf(form.controls, editing);
      if !request.NoRequest? && reply.Ok? {
        dialog := false;
        Load(reloaded);
      }
    }

    /** `remove(p)`: once confirmed, the row's id is deleted and the list loaded again. */
    method Remove(p: Row, accepted: bool, reply: Result<(), HttpError>, reloaded: Result<seq<RawProduct>, HttpError>)
      returns (deleted: Option<Value>)
      requires Valid()
      modifies this
      ensures deleted == (if accepted then Some(Aliased(AsRaw(p)).id) else None)
      ensures Valid() && editing == old(editing) && dialog == old(dialog) && isAdmin == old(isAdmin)
      ensures filterName == old(filterName) && filterCategory == old(filterCategory)
      ensures !(accepted && reply.Ok?) ==> products == old(products) && loading == old(loading)
      ensures accepted && reply.Ok? && reloaded.Ok? ==> products == Map(reloaded.value, Aliased) && !loading
      ensures accepted && reply.Ok? && reloaded.Err? ==> products == old(products) && loading
    {
      deleted := None;
      if accepted {
        deleted := Some(Aliased(AsRaw(p)).id);
        if reply.Ok? {
          Load(reloaded);
        }
      }
    }
  }
}
