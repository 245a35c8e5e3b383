/**
 * The product form component: five fields with their validators, filled from
 * the product being edited or reset for a new one, and the request it emits on
 * submit.
 */
module ProductForms {
  import opened Optional
  import opened Seqs
  import opened Text
  import opened Numerals
  import opened AppConstants
  import opened ProductModel
  import opened Forms

  const NameRules := [RequiredRule, MinLengthRule(2), MaxLengthRule(100)]
  const DescriptionRules := [MaxLengthRule(500)]
  const PriceRules := [RequiredRule, MinRule(0.01)]
  const QuantityRules := [RequiredRule, MinRule(0.0)]
  const CategoryRules := [RequiredRule]

  /** The controls in declaration order, and their validators. */
  const FormKeys := ["name", "description", "price", "quantity", "categoryId"]
  const FormRules := [NameRules, DescriptionRules, PriceRules, QuantityRules, CategoryRules]

  /** The form's value, field by field (`getRawValue()`). */
  datatype FormValue = FormValue(name: Value, description: Value, price: Value, quantity: Value, categoryId: Value)

  /** The same value as an object keyed by control name. */
  function AsMap(fv: FormValue): map<string, Value> {
    map["name" := fv.name, "description" := fv.description, "price" := fv.price,
        "quantity" := fv.quantity, "categoryId" := fv.categoryId]
  }

  /** What `patchValue` puts into the form for a product. */
  function ProductValue(p: Product): FormValue {
    FormValue(Str(p.name), Str(p.description), Num(p.price), Num(p.quantity as real), Num(p.categoryId as real))
  }

  /** What `reset` puts into the form when there is no product. */
  const EmptyValue := FormValue(Str(""), Str(""), Num(0.0), Num(0.0), Null)

  /** The five declared controls holding `fv`, untouched and pristine. */
  function FreshControls(fv: FormValue): seq<Entry> {
    [ Entry("name", Field(fv.name, NameRules, Validate(NameRules, fv.name), false, false)),
      Entry("description", Field(fv.description, DescriptionRules, Validate(DescriptionRules, fv.description), false, false)),
      Entry("price", Field(fv.price, PriceRules, Validate(PriceRules, fv.price), false, false)),
      Entry("quantity", Field(fv.quantity, QuantityRules, Validate(QuantityRules, fv.quantity), false, false)),
      Entry("categoryId", Field(fv.categoryId, CategoryRules, Validate(CategoryRules, fv.categoryId), false, false)) ]
  }

  /** The controls as `initializeForm` declares them (the same values as the reset for a new product). */
  function InitialControls(): seq<Entry> {
    FreshControls(EmptyValue)
  }

  /** The entry is the declared field `key` with the declared validators. */
  predicate Declared(e: Entry, key: string, rules: seq<Validator>) {
    e.key == key && e.control.Field? && e.control.rules == rules
  }

  /** The five declared fields, in order. */
  predicate Shaped(cs: seq<Entry>) {
    && |cs| == 5
    && Declared(cs[0], "name", NameRules) && Declared(cs[1], "description", DescriptionRules)
    && Declared(cs[2], "price", PriceRules) && Declared(cs[3], "quantity", QuantityRules)
    && Declared(cs[4], "categoryId", CategoryRules)
  }

  function ValueOf(cs: seq<Entry>): FormValue
    requires Shaped(cs)
  {
    FormValue(cs[0].control.value, cs[1].control.value, cs[2].control.value, cs[3].control.value, cs[4].control.value)
  }

  /** Text inputs hold text; the number inputs and the category drop-down hold a number or nothing. */
  predicate KindsOk(fv: FormValue) {
    && fv.name.Str? && fv.description.Str?
    && (fv.price.Num? || fv.price.Null?)
    && (fv.quantity.Num? || fv.quantity.Null?)
    && (fv.categoryId.Num? || fv.categoryId.Null?)
  }

  /** The field holds exactly the errors its validators report for its value. */
  predicate Checked(c: Control) {
    c.Field? && c.errors == Validate(c.rules, c.value)
  }

  /**
   * The form as the component keeps it: the declared fields with their declared
   * validators, each holding the errors those validators report for its value.
   */
  predicate WellFormed(cs: seq<Entry>) {
    && Shaped(cs)
    && Checked(cs[0].control) && Checked(cs[1].control) && Checked(cs[2].control)
    && Checked(cs[3].control) && Checked(cs[4].control)
    && KindsOk(ValueOf(cs))
  }

  // ---- the errors of each field ---------------------------------------------------

  /** The name field's errors: at most one, by the first validator that fails. */
  lemma NameErrors(s: string)
    ensures Validate(NameRules, Str(s)) ==
      if s == "" then [Required]
      else if |s| < 2 then [MinLength(2, |s|)]
      else if |s| > 100 then [MaxLength(100, |s|)]
      else []
  {
    var v := Str(s);
    var last := if |s| > 100 then [MaxLength(100, |s|)] else [];
    assert Validate([MaxLengthRule(100)], v) == last by {
      assert [MaxLengthRule(100)][1..] == [];
    }
    var tail := if s != "" && |s| < 2 then [MinLength(2, |s|)] + last else last;
    assert Validate([MinLengthRule(2), MaxLengthRule(100)], v) == tail by {
      assert [MinLengthRule(2), MaxLengthRule(100)][1..] == [MaxLengthRule(100)];
    }
    assert NameRules[1..] == [MinLengthRule(2), MaxLengthRule(100)];
  }

  lemma DescriptionErrors(s: string)
    ensures Validate(DescriptionRules, Str(s)) == if |s| > 500 then [MaxLength(500, |s|)] else []
  {
    assert DescriptionRules[1..] == [];
  }

  lemma MinimumErrors(rules: seq<Validator>, min: real, v: Value)
    requires rules == [RequiredRule, MinRule(min)]
    requires v.Num? || v.Null?
    ensures Validate(rules, v) ==
      if v.Null? then [Required] else if v.number < min then [MinValue(min, v.number)] else []
  {
    var last := if v.Num? && v.number < min then [MinValue(min, v.number)] else [];
    assert Validate([MinRule(min)], v) == last by {
      assert [MinRule(min)][1..] == [];
    }
    assert rules[1..] == [MinRule(min)];
  }

  lemma CategoryErrors(v: Value)
    requires v.Num? || v.Null?
    ensures Validate(CategoryRules, v) == if v.Null? then [Required] else []
  {
    assert CategoryRules[1..] == [];
  }

  /** The errors of every field of a well-formed form, written out: each field has at most one. */
  lemma FieldErrors(cs: seq<Entry>)
    requires WellFormed(cs)
    ensures var fv := ValueOf(cs); var n := fv.name.text; var d := fv.description.text;
      && cs[0].control.errors ==
           (if n == "" then [Required] else if |n| < 2 then [MinLength(2, |n|)]
            else if |n| > 100 then [MaxLength(100, |n|)] else [])
      && cs[1].control.errors == (if |d| > 500 then [MaxLength(500, |d|)] else [])
      && cs[2].control.errors ==
           (if fv.price.Null? then [Required] else if fv.price.number < 0.01 then [MinValue(0.01, fv.price.number)] else [])
      && cs[3].control.errors ==
           (if fv.quantity.Null? then [Required] else if fv.quantity.number < 0.0 then [MinValue(0.0, fv.quantity.number)] else [])
      && cs[4].control.errors == (if fv.categoryId.Null? then [Required] else [])
  {
    var fv := ValueOf(cs);
    NameErrors(fv.name.text);
    DescriptionErrors(fv.description.text);
    MinimumErrors(PriceRules, 0.01, fv.price);
    MinimumErrors(QuantityRules, 0.0, fv.quantity);
    CategoryErrors(fv.categoryId);
  }

  /** A form of five fields is invalid exactly when one of the five has errors. */
  lemma InvalidFive(cs: seq<Entry>)
    requires Shaped(cs)
    ensures Invalid(Group(cs)) <==>
      cs[0].control.errors != [] || cs[1].control.errors != [] || cs[2].control.errors != [] ||
      cs[3].control.errors != [] || cs[4].control.errors != []
  {
    if Invalid(Group(cs)) {
      var i :| 0 <= i < |cs| && Invalid(cs[i].control);
      assert i == 0 || i == 1 || i == 2 || i == 3 || i == 4;
    }
    if cs[0].control.errors != [] { assert Invalid(cs[0].control); }
    if cs[1].control.errors != [] { assert Invalid(cs[1].control); }
    if cs[2].control.errors != [] { assert Invalid(cs[2].control); }
    if cs[3].control.errors != [] { assert Invalid(cs[3].control); }
    if cs[4].control.errors != [] { assert Invalid(cs[4].control); }
  }

  /** The field rules, stated directly on the values. */
  function RulesHold(fv: FormValue): (r: bool)
    ensures r ==> !IsEmptyInput(fv.name) && !IsEmptyInput(fv.price) && !IsEmptyInput(fv.quantity) && !IsEmptyInput(fv.categoryId)
    ensures r ==> fv.price.Num? && fv.price.number > 0.0
  {
    && fv.name.Str? && 2 <= |fv.name.text| <= 100
    && (fv.description.Str? ==> |fv.description.text| <= 500)
    && fv.price.Num? && fv.price.number >= 0.01
    && fv.quantity.Num? && fv.quantity.number >= 0.0
    && !IsEmptyInput(fv.categoryId)
  }

  /** `formValue.description?.trim() || ''`. */
  function DescriptionText(v: Value): (r: string)
    ensures !v.Str? ==> r == ""
    ensures v.Str? ==> r == Trim(v.text)
    ensures v.Str? ==> Contains(v.text, r)
    ensures r != [] ==> !IsWhitespace(r[0]) && !IsWhitespace(r[|r| - 1])
  {
    if v.Str? then
      TrimSpec(v.text);
      TrimContained(v.text);
      Trim(v.text)
    else ""
  }

  /** The request `onSubmit` emits for a valid form's value. */
  function BuildRequest(fv: FormValue): (r: CreateProductRequest)
    requires RulesHold(fv) && KindsOk(fv)
    ensures r.name == Trim(fv.name.text) && r.description == DescriptionText(fv.description)
    ensures r.price == NumberText(fv.price.number)
    ensures r.quantity == fv.quantity.number && r.category == fv.categoryId.number
  {
    CreateProductRequest(Trim(fv.name.text), DescriptionText(fv.description), NumberText(fv.price.number),
                         fv.quantity.number, fv.categoryId.number)
  }

  /**
   * `getFieldError`'s own priority: required, then minimum length, maximum
   * length, minimum value; anything else is the generic message.
   */
  function PriorityMessage(errors: seq<ValidationError>): (r: string)
    ensures Required in errors ==> r == RequiredMessage
    ensures (forall i :: 0 <= i < |errors| ==> !errors[i].Required? && !errors[i].MinLength? && !errors[i].MaxLength? && !errors[i].MinValue?) ==>
      r == InvalidFieldMessage
    ensures forall i :: 0 <= i < |errors| && errors[i].MinLength? && Required !in errors
                        && (forall j :: 0 <= j < i ==> !errors[j].MinLength?) ==>
      r == MinLengthMessage(errors[i].requiredLength)
    ensures forall i :: 0 <= i < |errors| && errors[i].MaxLength? && Required !in errors
                        && (forall j :: 0 <= j < |errors| ==> !errors[j].MinLength?)
                        && (forall j :: 0 <= j < i ==> !errors[j].MaxLength?) ==>
      r == MaxLengthMessage(errors[i].requiredLength)
    ensures forall i :: 0 <= i < |errors| && errors[i].MinValue? && Required !in errors
                        && (forall j :: 0 <= j < |errors| ==> !errors[j].MinLength? && !errors[j].MaxLength?)
                        && (forall j :: 0 <= j < i ==> !errors[j].MinValue?) ==>
      r == MinValueMessage(errors[i].min)
  {
    if Required in errors then RequiredMessage
    else match Find(errors, (e: ValidationError) => e.MinLength?)
      case Some(e) => MinLengthMessage(e.requiredLength)
      case None =>
        match Find(errors, (e: ValidationError) => e.MaxLength?)
        case Some(e) => MaxLengthMessage(e.requiredLength)
        case None =>
          match Find(errors, (e: ValidationError) => e.MinValue?)
          case Some(e) => MinValueMessage(e.min)
          case None => InvalidFieldMessage
  }

  /** The component's `getFieldError(name)`: nothing unless the field shows as invalid. */
  function FieldError(cs: seq<Entry>, name: string): (r: Option<string>)
    ensures r.Some? ==> IsFieldInvalid(cs, name)
  {
    if !IsFieldInvalid(cs, name) then None
    else match Get(cs, name).value
      case Group(_) => None
      case Field(_, _, errors, _, _) => if errors == [] then None else Some(PriorityMessage(errors))
  }

  // ---- properties ------------------------------------------------------------------

  /** For a well-formed form the form is valid exactly when the field rules hold. */
  lemma ValidIffRulesHold(cs: seq<Entry>)
    requires WellFormed(cs)
    ensures !Invalid(Group(cs)) <==> RulesHold(ValueOf(cs))
  {
    FieldErrors(cs);
    InvalidFive(cs);
  }

  /** No error, or exactly one of the kinds the declared validators report. */
  predicate SingleDeclared(errors: seq<ValidationError>) {
    |errors| <= 1 &&
    (errors != [] ==> errors[0].Required? || errors[0].MinLength? || errors[0].MaxLength? || errors[0].MinValue?)
  }

  /** A single error from the declared validators gives the same message under either priority. */
  lemma SingleErrorAgrees(errors: seq<ValidationError>, name: string)
    requires errors != [] && SingleDeclared(errors)
    ensures PriorityMessage(errors) == ErrorMessage(errors, Some(name))
  {
    var e := errors[0];
    assert Required in errors <==> e.Required?;
    if !e.Required? {
      assert Find(errors, (x: ValidationError) => x.MinLength?) == if e.MinLength? then Some(e) else None;
      assert Find(errors, (x: ValidationError) => x.MaxLength?) == if e.MaxLength? then Some(e) else None;
      assert Find(errors, (x: ValidationError) => x.MinValue?) == if e.MinValue? then Some(e) else None;
    }
  }

  /** The errors a control carries itself; a group carries none of its own. */
  function OwnErrors(c: Control): seq<ValidationError> {
    if c.Field? then c.errors else []
  }

  /** The errors any field of a well-formed form can hold: none, or one from its validators. */
  lemma DeclaredErrorsOnly(cs: seq<Entry>, i: nat)
    requires WellFormed(cs) && i < 5
    ensures SingleDeclared(OwnErrors(cs[i].control))
  {
    if i == 0 {
      NameErrors(cs[0].control.value.text);
    } else if i == 1 {
      DescriptionErrors(cs[1].control.value.text);
    } else if i == 2 {
      MinimumErrors(PriceRules, 0.01, cs[2].control.value);
    } else if i == 3 {
      MinimumErrors(QuantityRules, 0.0, cs[3].control.value);
    } else {
      CategoryErrors(cs[4].control.value);
    }
  }

  /** The component's messages agree with the form service's on this form. */
  lemma ComponentMessageAgrees(cs: seq<Entry>, name: string)
    requires WellFormed(cs)
    ensures FieldError(cs, name) == GetFieldError(cs, name)
  {
    if IsFieldInvalid(cs, name) {
      TopLevelOnly(cs, name);
      var c := Get(cs, name).value;
      var i :| 0 <= i < 5 && c == cs[i].control;
      DeclaredErrorsOnly(cs, i);
      if OwnErrors(c) != [] {
        SingleErrorAgrees(OwnErrors(c), name);
      }
    }
  }

  /** On a form of fields only, a name finds one of the form's own fields or nothing. */
  lemma TopLevelOnly(cs: seq<Entry>, name: string)
    requires Shaped(cs)
    ensures Get(cs, name).Some? ==> exists i :: 0 <= i < 5 && Get(cs, name).value == cs[i].control
  {
    var path := Split(name, '.');
    match Lookup(cs, path[0])
    case None =>
    case Some(child) =>
      var i :| 0 <= i < |cs| && cs[i].key == path[0] && cs[i].control == child;
      if |path| == 1 {
        assert path[1..] == [];
        assert FindIn(child, []) == Some(child);
      } else {
        assert FindIn(child, path[1..]).None?;
      }
  }

  /** A form loaded from a product is valid exactly when the product meets the field rules. */
  lemma ProductFormValidIff(p: Product)
    ensures RulesHold(ProductValue(p)) <==>
      2 <= |p.name| <= 100 && |p.description| <= 500 && p.price >= 0.01 && p.quantity >= 0
  {
  }

  /** A fresh form for a new product cannot be submitted: the name is empty and no category is chosen. */
  lemma EmptyFormRejected()
    ensures !RulesHold(EmptyValue)
    ensures Validate(NameRules, Str("")) == [Required] && Validate(CategoryRules, Null) == [Required]
    ensures Validate(PriceRules, Num(0.0)) == [MinValue(0.01, 0.0)]
  {
  }

  /** The declared form starts invalid, yet no field shows as invalid or has a message until it is edited or visited. */
  lemma InitialShowsNothing(name: string)
    ensures Invalid(Group(InitialControls()))
    ensures !IsFieldInvalid(InitialControls(), name) && FieldError(InitialControls(), name).None?
  {
    InitialWellFormed();
    EmptyFormRejected();
    ValidIffRulesHold(InitialControls());
    PristineFormShowsNothing(InitialControls(), name);
  }

  /** The submitted name and description carry no blanks at either end. */
  lemma RequestTrimmed(fv: FormValue)
    requires RulesHold(fv) && KindsOk(fv)
    ensures var r := BuildRequest(fv);
      Trim(r.name) == r.name && Trim(r.description) == r.description
  {
    TrimIdempotent(fv.name.text);
    TrimIdempotent(fv.description.text);
  }

  /** The object `m` gives each control name the value `fv` has for it. */
  predicate Holds(m: map<string, Value>, fv: FormValue) {
    && "name" in m && m["name"] == fv.name
    && "description" in m && m["description"] == fv.description
    && "price" in m && m["price"] == fv.price
    && "quantity" in m && m["quantity"] == fv.quantity
    && "categoryId" in m && m["categoryId"] == fv.categoryId
  }

  lemma AsMapLookups(fv: FormValue)
    ensures Holds(AsMap(fv), fv)
  {
  }

  /** No field of the form has been visited or edited. */
  predicate Pristine(cs: seq<Entry>)
    requires Shaped(cs)
  {
    && !cs[0].control.touched && !cs[0].control.dirty && !cs[1].control.touched && !cs[1].control.dirty
    && !cs[2].control.touched && !cs[2].control.dirty && !cs[3].control.touched && !cs[3].control.dirty
    && !cs[4].control.touched && !cs[4].control.dirty
  }

  /** Every field of `r` has the flags of the same field of `cs`. */
  predicate FlagsKept(r: seq<Entry>, cs: seq<Entry>)
    requires Shaped(r) && Shaped(cs)
  {
    && r[0].control.touched == cs[0].control.touched && r[0].control.dirty == cs[0].control.dirty
    && r[1].control.touched == cs[1].control.touched && r[1].control.dirty == cs[1].control.dirty
    && r[2].control.touched == cs[2].control.touched && r[2].control.dirty == cs[2].control.dirty
    && r[3].control.touched == cs[3].control.touched && r[3].control.dirty == cs[3].control.dirty
    && r[4].control.touched == cs[4].control.touched && r[4].control.dirty == cs[4].control.dirty
  }

  /** Patching a well-formed form with values of the right kinds keeps it well formed, with exactly those values and the same flags. */
  lemma PatchKeepsWellFormed(cs: seq<Entry>, fv: FormValue)
    requires WellFormed(cs) && KindsOk(fv)
    ensures var r := PatchValue(cs, AsMap(fv));
      WellFormed(r) && ValueOf(r) == fv && FlagsKept(r, cs)
  {
    AsMapLookups(fv);
    PatchHolds(cs, fv, AsMap(fv));
  }

  lemma PatchHolds(cs: seq<Entry>, fv: FormValue, m: map<string, Value>)
    requires WellFormed(cs) && KindsOk(fv) && Holds(m, fv)
    ensures var r := PatchValue(cs, m);
      WellFormed(r) && ValueOf(r) == fv && FlagsKept(r, cs)
  {
    var r := PatchValue(cs, m);
    assert r[0] == Entry("name", WithValue(cs[0].control, fv.name));
    assert r[1] == Entry("description", WithValue(cs[1].control, fv.description));
    assert r[2] == Entry("price", WithValue(cs[2].control, fv.price));
    assert r[3] == Entry("quantity", WithValue(cs[3].control, fv.quantity));
    assert r[4] == Entry("categoryId", WithValue(cs[4].control, fv.categoryId));
    PatchedFive(cs, fv, r);
  }

  /** The five fields given their new values keep their declarations, checks and flags. */
  lemma PatchedFive(cs: seq<Entry>, fv: FormValue, r: seq<Entry>)
    requires WellFormed(cs) && KindsOk(fv) && |r| == 5
    requires r[0] == Entry("name", WithValue(cs[0].control, fv.name))
    requires r[1] == Entry("description", WithValue(cs[1].control, fv.description))
    requires r[2] == Entry("price", WithValue(cs[2].control, fv.price))
    requires r[3] == Entry("quantity", WithValue(cs[3].control, fv.quantity))
    requires r[4] == Entry("categoryId", WithValue(cs[4].control, fv.categoryId))
    ensures WellFormed(r) && ValueOf(r) == fv && FlagsKept(r, cs)
  {
    assert Shaped(r);
    assert Checked(r[0].control) && Checked(r[1].control) && Checked(r[2].control);
    assert Checked(r[3].control) && Checked(r[4].control);
  }

  /** Resetting a well-formed form to values of the right kinds keeps it well formed, with those values, untouched and pristine. */
  lemma ResetKeepsWellFormed(cs: seq<Entry>, fv: FormValue)
    requires WellFormed(cs) && KindsOk(fv)
    ensures var r := ResetGroup(cs, AsMap(fv));
      WellFormed(r) && ValueOf(r) == fv && Pristine(r)
  {
    AsMapLookups(fv);
    ResetHolds(cs, fv, AsMap(fv));
  }

  lemma ResetHolds(cs: seq<Entry>, fv: FormValue, m: map<string, Value>)
    requires WellFormed(cs) && KindsOk(fv) && Holds(m, fv)
    ensures var r := ResetGroup(cs, m);
      WellFormed(r) && ValueOf(r) == fv && Pristine(r)
  {
    var r := ResetGroup(cs, m);
    assert r[0] == Entry("name", ResetWith(cs[0].control, fv.name));
    assert r[1] == Entry("description", ResetWith(cs[1].control, fv.description));
    assert r[2] == Entry("price", ResetWith(cs[2].control, fv.price));
    assert r[3] == Entry("quantity", ResetWith(cs[3].control, fv.quantity));
    assert r[4] == Entry("categoryId", ResetWith(cs[4].control, fv.categoryId));
    ResetFive(cs, fv, r);
  }

  /** The five fields reset to new values keep their declarations and checks, with no flag raised. */
  lemma ResetFive(cs: seq<Entry>, fv: FormValue, r: seq<Entry>)
    requires WellFormed(cs) && KindsOk(fv) && |r| == 5
    requires r[0] == Entry("name", ResetWith(cs[0].control, fv.name))
    requires r[1] == Entry("description", ResetWith(cs[1].control, fv.description))
    requires r[2] == Entry("price", ResetWith(cs[2].control, fv.price))
    requires r[3] == Entry("quantity", ResetWith(cs[3].control, fv.quantity))
    requires r[4] == Entry("categoryId", ResetWith(cs[4].control, fv.categoryId))
    ensures WellFormed(r) && ValueOf(r) == fv && Pristine(r)
  {
    assert Shaped(r);
    assert Checked(r[0].control) && Checked(r[1].control) && Checked(r[2].control);
    assert Checked(r[3].control) && Checked(r[4].control);
  }

  /** Field flags decide the form's flags. */
  lemma FlagsOfFive(cs: seq<Entry>, ds: seq<Entry>)
    requires Shaped(cs) && Shaped(ds) && FlagsKept(ds, cs)
    ensures Touched(Group(ds)) <==> Touched(Group(cs))
    ensures Dirty(Group(ds)) <==> Dirty(Group(cs))
  {
    assert forall i :: 0 <= i < 5 ==> (Touched(ds[i].control) <==> Touched(cs[i].control));
    assert forall i :: 0 <= i < 5 ==> (Dirty(ds[i].control) <==> Dirty(cs[i].control));
  }

  /** A form of five fields with no flag raised is untouched and pristine. */
  lemma UnflaggedFive(cs: seq<Entry>)
    requires Shaped(cs) && Pristine(cs)
    ensures !Touched(Group(cs)) && !Dirty(Group(cs))
  {
    assert forall i :: 0 <= i < 5 ==> !Touched(cs[i].control) && !Dirty(cs[i].control);
  }

  /** Fresh controls holding values of the right kinds form a well-formed, pristine form. */
  lemma FreshControlsWellFormed(fv: FormValue)
    requires KindsOk(fv)
    ensures var cs := FreshControls(fv);
      WellFormed(cs) && ValueOf(cs) == fv && Pristine(cs)
  {
    var cs := FreshControls(fv);
    FreshShaped(fv);
    assert Checked(cs[0].control) && Checked(cs[1].control) && Checked(cs[2].control);
    assert Checked(cs[3].control) && Checked(cs[4].control);
  }

  lemma FreshShaped(fv: FormValue)
    ensures Shaped(FreshControls(fv)) && ValueOf(FreshControls(fv)) == fv && Pristine(FreshControls(fv))
  {
  }

  /** The declared controls form a well-formed form. */
  lemma InitialWellFormed()
    ensures WellFormed(InitialControls())
    ensures !Touched(Group(InitialControls())) && !Dirty(Group(InitialControls()))
  {
    FreshControlsWellFormed(EmptyValue);
    UnflaggedFive(InitialControls());
  }

  /** Touching every field changes no value, validator or error. */
  lemma TouchKeepsWellFormed(cs: seq<Entry>)
    requires WellFormed(cs)
    ensures WellFormed(Touch(Group(cs)).controls)
  {
    var t := Touch(Group(cs)).controls;
    assert t[0] == Entry("name", Touch(cs[0].control)) && t[1] == Entry("description", Touch(cs[1].control));
    assert t[2] == Entry("price", Touch(cs[2].control)) && t[3] == Entry("quantity", Touch(cs[3].control));
    assert t[4] == Entry("categoryId", Touch(cs[4].control));
    assert Shaped(t);
    assert Checked(t[0].control) && Checked(t[1].control) && Checked(t[2].control);
    assert Checked(t[3].control) && Checked(t[4].control);
  }

  // ---- the component -----------------------------------------------------------------

  class ProductFormComponent {
    var product: Option<Product>
    var isEditMode: bool
    var productForm: FormGroup

    ghost predicate Valid()
      reads this, productForm
    {
      WellFormed(productForm.controls)
    }

    /** Creation followed by `ngOnInit`: `initializeForm` declares the fields, then the product is applied. */
    constructor (product: Option<Product>)
      ensures Valid() && fresh(productForm)
      ensures this.product == product && (isEditMode <==> product.Some?)
      ensures ValueOf(productForm.controls) == if product.Some? then ProductValue(product.value) else EmptyValue
      ensures !Touched(Group(productForm.controls)) && !Dirty(Group(productForm.controls))
    {
      var controls := InitialControls();
      InitialWellFormed();
      this.product := product;
      isEditMode := false;
      productForm := new FormGroup(controls);
      new;
      UpdateFormWithProduct();
    }

    /** `updateFormWithProduct`: patch the product's fields in, or reset the form for a new product. */
    method UpdateFormWithProduct()
      requires WellFormed(productForm.controls)
      modifies this, productForm
      ensures Valid() && productForm == old(productForm) && product == old(product)
      ensures isEditMode <==> product.Some?
      ensures product.Some? ==> productForm.controls == PatchValue(old(productForm.controls), AsMap(ProductValue(product.value)))
      ensures product.None? ==> productForm.controls == ResetGroup(old(productForm.controls), AsMap(EmptyValue))
      ensures ValueOf(productForm.controls) == if product.Some? then ProductValue(product.value) else EmptyValue
      ensures product.None? ==> !Touched(Group(productForm.controls)) && !Dirty(Group(productForm.controls))
      ensures product.Some? ==>
        (Touched(Group(productForm.controls)) <==> Touched(Group(old(productForm.controls)))) &&
        (Dirty(Group(productForm.controls)) <==> Dirty(Group(old(productForm.controls))))
    {
      isEditMode := product.Some?;
      var cs := productForm.controls;
      if product.Some? {
        PatchKeepsWellFormed(cs, ProductValue(product.value));
        productForm.controls := PatchValue(cs, AsMap(ProductValue(product.value)));
        FlagsOfFive(cs, productForm.controls);
      } else {
        ResetKeepsWellFormed(cs, EmptyValue);
        productForm.controls := ResetGroup(cs, AsMap(EmptyValue));
        UnflaggedFive(productForm.controls);
      }
    }

    /** `ngOnChanges` for a new product input. */
    method OnProductChange(product: Option<Product>)
      requires Valid()
      modifies this, productForm
      ensures Valid() && productForm == old(productForm) && this.product == product
      ensures isEditMode <==> product.Some?
      ensures ValueOf(productForm.controls) == if product.Some? then ProductValue(product.value) else EmptyValue
      ensures product.None? ==> !Touched(Group(productForm.controls)) && !Dirty(Group(productForm.controls))
      ensures product.Some? ==>
        (Touched(Group(productForm.controls)) <==> Touched(Group(old(productForm.controls)))) &&
        (Dirty(Group(productForm.controls)) <==> Dirty(Group(old(productForm.controls))))
    {
      this.product := product;
      UpdateFormWithProduct();
    }

    /** The component's own `markAllFieldsAsTouched`: each of the form's own controls. */
    method MarkAllFieldsAsTouched()
      requires Valid()
      modifies productForm
      ensures Valid()
      ensures productForm.controls == Touch(Group(old(productForm.controls))).controls
    {
      var cs := productForm.controls;
      var ds := cs;
      var i := 0;
      while i < |ds|
        invariant 0 <= i <= 5 && |ds| == 5
        invariant forall j :: 0 <= j < i ==> ds[j] == Entry(cs[j].key, Touch(cs[j].control))
        invariant forall j :: i <= j < 5 ==> ds[j] == cs[j]
      {
        ds := ds[i := Entry(cs[i].key, ds[i].control.(touched := true))];
        i := i + 1;
      }
      TouchKeepsWellFormed(cs);
      assert ds == Touch(Group(cs)).controls;
      productForm.controls := ds;
    }

    /** `onSubmit`: a valid form emits one request; an invalid one emits nothing and shows its errors. */
    method OnSubmit() returns (request: Option<CreateProductRequest>)
      requires Valid()
      modifies productForm
      ensures Valid()
      ensures request.Some? <==> RulesHold(ValueOf(old(productForm.controls)))
      ensures request.Some? ==>
        request.value == BuildRequest(ValueOf(old(productForm.controls))) && productForm.controls == old(productForm.controls)
      ensures request.None? ==> productForm.controls == Touch(Group(old(productForm.controls))).controls
    {
      ValidIffRulesHold(productForm.controls);
      if !Invalid(Group(productForm.controls)) {
        request := Some(BuildRequest(ValueOf(productForm.controls)));
      } else {
        MarkAllFieldsAsTouched();
        request := None;
      }
    }
  }
}
