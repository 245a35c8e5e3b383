/**
 * Reactive forms as the application uses them: control values, the built-in
 * validators it declares, a form as a tree of controls, and path lookup
 * (`form.get('a.b')`).
 */
module Forms {
  import opened Optional
  import opened Seqs
  import opened Text
  import opened Numerals
  import opened AppConstants

  /** A control value as JavaScript holds it. */
  datatype Value = Null | Undefined | Str(text: string) | Num(number: real) | Bool(flag: bool)

  /** JavaScript truthiness (`NaN` is not modelled). */
  predicate Truthy(v: Value) {
    match v
    case Null => false
    case Undefined => false
    case Str(s) => s != ""
    case Num(x) => x != 0.0
    case Bool(b) => b
  }

  /** `${v}` in a template literal. */
  function ValueText(v: Value): string {
    match v
    case Null => "null"
    case Undefined => "undefined"
    case Str(s) => s
    case Num(x) => NumberText(x)
    case Bool(b) => if b then "true" else "false"
  }

  /** `v ?? d`: the default replaces `null` and `undefined` only. */
  function Coalesce(v: Value, d: Value): (r: Value)
    ensures v.Null? || v.Undefined? ==> r == d
    ensures !(v.Null? || v.Undefined?) ==> r == v
  {
    if v.Null? || v.Undefined? then d else v
  }

  /**
   * One entry of a `ValidationErrors` object, by key. `Other` stands for a key
   * outside the message table; `Server` is the key the server-error helper sets.
   */
  datatype ValidationError =
    | Required
    | Email
    | MinLength(requiredLength: int, actualLength: int)
    | MaxLength(requiredLength: int, actualLength: int)
    | MinValue(min: real, actual: real)
    | MaxValue(max: real, actual: real)
    | Pattern
    | OnlyWhitespace
    | PositiveNumber
    | Integer
    | Duplicate(resource: string, field: string, value: Value)
    | Custom(message: Option<string>)
    | Server(serverMessage: string)
    | Other(key: string)

  // ---- validators ---------------------------------------------------------------

  /** The built-in validators the forms declare. */
  datatype Validator = RequiredRule | MinLengthRule(minLength: nat) | MaxLengthRule(maxLength: nat) | MinRule(min: real)

  /** `null`, `undefined` and the empty string are empty; `0` is not. */
  predicate IsEmptyInput(v: Value) {
    v.Null? || v.Undefined? || v == Str("")
  }

  /**
   * What one validator reports. The length rules only look at values that have a
   * length (strings), and `minLength` leaves the empty value to `required`; the
   * `min` rule compares numbers only (a numeric string is not parsed).
   */
  function Check(rule: Validator, v: Value): (r: Option<ValidationError>)
    ensures rule == RequiredRule ==> (r.Some? <==> IsEmptyInput(v))
    ensures rule != RequiredRule && IsEmptyInput(v) ==> r.None?
  {
    match rule
    case RequiredRule => if IsEmptyInput(v) then Some(Required) else None
    case MinLengthRule(n) =>
      if v.Str? && v.text != "" && |v.text| < n then Some(MinLength(n, |v.text|)) else None
    case MaxLengthRule(n) =>
      if v.Str? && |v.text| > n then Some(MaxLength(n, |v.text|)) else None
    case MinRule(m) =>
      if v.Num? && v.number < m then Some(MinValue(m, v.number)) else None
  }

  /** The errors of a value under a list of validators, in the order of the list. */
  function Validate(rules: seq<Validator>, v: Value): (r: seq<ValidationError>)
    ensures r == [] <==> forall i :: 0 <= i < |rules| ==> Check(rules[i], v).None?
    ensures forall e :: e in r ==> exists i :: 0 <= i < |rules| && Check(rules[i], v) == Some(e)
    ensures forall i :: 0 <= i < |rules| && Check(rules[i], v).Some? ==> Check(rules[i], v).value in r
  {
    if rules == [] then []
    else
      var rest := Validate(rules[1..], v);
      assert forall i :: 1 <= i < |rules| ==> rules[i] == rules[1..][i - 1];
      match Check(rules[0], v)
      case Some(e) => [e] + rest
      case None => rest
  }

  // ---- controls -------------------------------------------------------------------

  /**
   * A form control: a field with its value, its validators, its errors (in key
   * order) and its flags, or a group of named controls in insertion order. A group's validity
   * and flags are derived from its children.
   */
  datatype Control =
    | Field(value: Value, rules: seq<Validator>, errors: seq<ValidationError>, touched: bool, dirty: bool)
    | Group(controls: seq<Entry>)

  datatype Entry = Entry(key: string, control: Control)

  /** `control.invalid`: a field with errors, or a group with an invalid child. */
  predicate Invalid(c: Control) {
    match c
    case Field(_, _, errors, _, _) => errors != []
    case Group(cs) => exists i :: 0 <= i < |cs| && Invalid(cs[i].control)
  }

  predicate Touched(c: Control) {
    match c
    case Field(_, _, _, touched, _) => touched
    case Group(cs) => exists i :: 0 <= i < |cs| && Touched(cs[i].control)
  }

  predicate Dirty(c: Control) {
    match c
    case Field(_, _, _, _, dirty) => dirty
    case Group(cs) => exists i :: 0 <= i < |cs| && Dirty(cs[i].control)
  }

  /** `group.controls[key]`. */
  function Lookup(cs: seq<Entry>, key: string): (r: Option<Control>)
    ensures r.None? <==> forall i :: 0 <= i < |cs| ==> cs[i].key != key
    ensures r.Some? ==> exists i :: 0 <= i < |cs| && cs[i].key == key && cs[i].control == r.value
  {
    match FirstIndex(cs, (e: Entry) => e.key == key)
    case None => None
    case Some(i) => Some(cs[i].control)
  }

  /** Follows a path of keys from a control; a field has no children. */
  function FindIn(c: Control, path: seq<string>): Option<Control>
    decreases path
  {
    if path == [] then Some(c)
    else match c
      case Field(_, _, _, _, _) => None
      case Group(cs) =>
        match Lookup(cs, path[0])
        case None => None
        case Some(child) => FindIn(child, path[1..])
  }

  /** `form.get(name)`: the name is a dot-separated path. */
  function Get(form: seq<Entry>, name: string): (r: Option<Control>)
    ensures r.Some? ==> exists i :: 0 <= i < |form| && form[i].key == Split(name, '.')[0]
  {
    FindIn(Group(form), Split(name, '.'))
  }

  /** A plain name (without dots) is looked up among the form's own controls. */
  lemma GetPlainName(form: seq<Entry>, name: string)
    requires '.' !in name
    ensures Get(form, name) == Lookup(form, name)
  {
    SplitPrefix(name, '.', "");
    assert Split(name, '.') == [name];
    assert [name][1..] == [];
    match Lookup(form, name)
    case None =>
    case Some(child) => assert FindIn(child, []) == Some(child);
  }

  /**
   * A dotted name `a.b` with a dot-free first segment: the rest of the name is
   * looked up inside the group named `a`; without such a group nothing is found.
   */
  lemma GetDottedName(form: seq<Entry>, a: string, b: string)
    requires '.' !in a
    ensures Lookup(form, a).Some? && Lookup(form, a).value.Group? ==>
      Get(form, a + "." + b) == Get(Lookup(form, a).value.controls, b)
    ensures Lookup(form, a).None? || Lookup(form, a).value.Field? ==> Get(form, a + "." + b).None?
  {
    SplitPrefix(a, '.', b);
    var path := Split(a + "." + b, '.');
    assert path == [a] + Split(b, '.');
    assert path[0] == a && path[1..] == Split(b, '.');
    match Lookup(form, a)
    case None =>
    case Some(child) =>
      assert Get(form, a + "." + b) == FindIn(child, Split(b, '.'));
      if child.Field? {
        assert |Split(b, '.')| >= 1;
      }
  }

  /** A field whose errors are those its validators report for its value. */
  function NewField(v: Value, rules: seq<Validator>): (r: Control)
    ensures r.Field? && r.value == v && r.rules == rules && !r.touched && !r.dirty
    ensures Invalid(r) <==> exists i :: 0 <= i < |rules| && Check(rules[i], v).Some?
  {
    Field(v, rules, Validate(rules, v), false, false)
  }

  /** `field.setValue(v)` and the field's part of `patchValue`: the validators run again; the flags stay. */
  function WithValue(c: Control, v: Value): (r: Control)
    requires c.Field?
    ensures r.Field? && r.value == v && r.rules == c.rules && r.touched == c.touched && r.dirty == c.dirty
    ensures r.errors == [] <==> forall i :: 0 <= i < |c.rules| ==> Check(c.rules[i], v).None?
  {
    Field(v, c.rules, Validate(c.rules, v), c.touched, c.dirty)
  }

  /** `field.reset(v)`: the validators run again, and the field is untouched and pristine. */
  function ResetWith(c: Control, v: Value): (r: Control)
    requires c.Field?
    ensures r.Field? && r.value == v && r.rules == c.rules && !r.touched && !r.dirty
    ensures r.errors == [] <==> forall i :: 0 <= i < |c.rules| ==> Check(c.rules[i], v).None?
  {
    NewField(v, c.rules)
  }

  /** `group.patchValue(values)`: the fields named in `values` take their new values; the rest is left alone. */
  function PatchValue(cs: seq<Entry>, values: map<string, Value>): (r: seq<Entry>)
    ensures |r| == |cs|
    ensures forall i :: 0 <= i < |cs| ==> r[i].key == cs[i].key
    ensures forall i :: 0 <= i < |cs| && cs[i].control.Field? && cs[i].key in values ==>
      r[i].control == WithValue(cs[i].control, values[cs[i].key])
    ensures forall i :: 0 <= i < |cs| && !(cs[i].control.Field? && cs[i].key in values) ==> r[i] == cs[i]
  {
    seq(|cs|, i requires 0 <= i < |cs| =>
      if cs[i].control.Field? && cs[i].key in values then Entry(cs[i].key, WithValue(cs[i].control, values[cs[i].key]))
      else cs[i])
  }

  /**
   * `group.reset(values)`: every field takes the value given for it, or `null`
   * when none is given, and is untouched and pristine.
   */
  function ResetGroup(cs: seq<Entry>, values: map<string, Value>): (r: seq<Entry>)
    ensures |r| == |cs|
    ensures forall i :: 0 <= i < |cs| ==> r[i].key == cs[i].key
    ensures forall i :: 0 <= i < |cs| && cs[i].control.Field? ==>
      r[i].control == ResetWith(cs[i].control, ResetValue(values, cs[i].key))
    ensures forall i :: 0 <= i < |cs| && cs[i].control.Group? ==> r[i] == cs[i]
  {
    seq(|cs|, i requires 0 <= i < |cs| =>
      if cs[i].control.Field? then Entry(cs[i].key, ResetWith(cs[i].control, ResetValue(values, cs[i].key)))
      else cs[i])
  }

  /** The value `reset(values)` gives a field: the one supplied, or `null` when it is missing or `undefined`. */
  function ResetValue(values: map<string, Value>, key: string): (r: Value)
    ensures !r.Undefined?
    ensures key in values && !values[key].Undefined? ==> r == values[key]
  {
    if key in values && !values[key].Undefined? then values[key] else Null
  }

  /** `group.get(key)?.reset()` for fields of the group itself: value `null`, untouched, pristine. */
  function ResetField(cs: seq<Entry>, key: string): (r: seq<Entry>)
    ensures |r| == |cs|
    ensures forall i :: 0 <= i < |cs| ==> r[i].key == cs[i].key
    ensures forall i :: 0 <= i < |cs| && cs[i].control.Field? && cs[i].key == key ==> r[i].control == ResetWith(cs[i].control, Null)
    ensures forall i :: 0 <= i < |cs| && !(cs[i].control.Field? && cs[i].key == key) ==> r[i] == cs[i]
  {
    seq(|cs|, i requires 0 <= i < |cs| =>
      if cs[i].control.Field? && cs[i].key == key then Entry(key, ResetWith(cs[i].control, Null)) else cs[i])
  }

  // ---- error messages -----------------------------------------------------------

  const InvalidFieldMessage := "Campo inválido"

  /**
   * `getErrorMessage(errors, fieldName)`: the message for the first error key
   * only; a key outside the table (the server key among them) gives the
   * generic message.
   */
  function ErrorMessage(errors: seq<ValidationError>, fieldName: Option<string>): (r: string)
    ensures r != ""
    ensures errors == [] || errors[0].Server? || errors[0].Other? ==> r == InvalidFieldMessage
  {
    if errors == [] then InvalidFieldMessage
    else match errors[0]
      case Required => RequiredMessage
      case Email => InvalidEmailMessage
      case MinLength(n, _) => MinLengthMessage(n)
      case MaxLength(n, _) => MaxLengthMessage(n)
      case MinValue(m, _) => MinValueMessage(m)
      case MaxValue(m, _) => MaxValueMessage(m)
      case Pattern =>
        "Formato inválido" + (if fieldName.Some? && fieldName.value != "" then " para " + fieldName.value else "")
      case OnlyWhitespace => "No puede contener solo espacios en blanco"
      case PositiveNumber => "Debe ser un número positivo"
      case Integer => "Debe ser un número entero"
      case Duplicate(resource, field, value) => resource + " con " + field + " '" + ValueText(value) + "' ya existe"
      case Custom(message) => if message.Some? && message.value != "" then message.value else InvalidFieldMessage
      case Server(_) => InvalidFieldMessage
      case Other(_) => InvalidFieldMessage
  }

  /** The message a failing built-in validator leads to. */
  function RuleMessage(rule: Validator): string {
    match rule
    case RequiredRule => RequiredMessage
    case MinLengthRule(n) => MinLengthMessage(n)
    case MaxLengthRule(n) => MaxLengthMessage(n)
    case MinRule(m) => MinValueMessage(m)
  }

  /** Only the first error matters: later errors never change the message. */
  lemma FirstErrorDecides(e: ValidationError, rest: seq<ValidationError>, more: seq<ValidationError>, fieldName: Option<string>)
    ensures ErrorMessage([e] + rest, fieldName) == ErrorMessage([e] + more, fieldName)
  {
  }

  /** The first error reported is the one of the first validator that fails. */
  lemma {:induction false} FirstFailingRule(rules: seq<Validator>, v: Value, i: nat)
    requires i < |rules| && Check(rules[i], v).Some?
    requires forall j :: 0 <= j < i ==> Check(rules[j], v).None?
    ensures Validate(rules, v) != [] && Validate(rules, v)[0] == Check(rules[i], v).value
  {
    if i > 0 {
      FirstFailingRule(rules[1..], v, i - 1);
    }
  }

  /** A field's message names the first of its validators that fails, with that validator's bound. */
  lemma ValidationMessage(rules: seq<Validator>, v: Value, i: nat, fieldName: Option<string>)
    requires i < |rules| && Check(rules[i], v).Some?
    requires forall j :: 0 <= j < i ==> Check(rules[j], v).None?
    ensures ErrorMessage(Validate(rules, v), fieldName) == RuleMessage(rules[i])
  {
    FirstFailingRule(rules, v, i);
    CheckedMessage(rules[i], v, Validate(rules, v), fieldName);
  }

  /** The message of a list of errors led by what `rule` reports. */
  lemma CheckedMessage(rule: Validator, v: Value, errors: seq<ValidationError>, fieldName: Option<string>)
    requires errors != [] && Check(rule, v) == Some(errors[0])
    ensures ErrorMessage(errors, fieldName) == RuleMessage(rule)
  {
    match rule
    case RequiredRule =>
    case MinLengthRule(n) =>
    case MaxLengthRule(n) =>
    case MinRule(m) =>
  }

  /** `pattern` names the field only when a non-empty name is given; `custom` falls back to the generic message. */
  lemma PatternAndCustomMessages(name: string, rest: seq<ValidationError>)
    ensures name != "" ==> ErrorMessage([Pattern] + rest, Some(name)) == "Formato inválido para " + name
    ensures ErrorMessage([Pattern] + rest, None) == "Formato inválido"
    ensures ErrorMessage([Pattern] + rest, Some("")) == "Formato inválido"
    ensures ErrorMessage([Custom(None)] + rest, None) == InvalidFieldMessage
    ensures ErrorMessage([Custom(Some(""))] + rest, None) == InvalidFieldMessage
  {
    assert ([Pattern] + rest)[0] == Pattern;
    assert "Formato inválido" + "" == "Formato inválido";
    assert ([Custom(None)] + rest)[0] == Custom(None);
    assert ([Custom(Some(""))] + rest)[0] == Custom(Some(""));
  }

  // ---- field state queries ---------------------------------------------------------

  /** `isFieldInvalid(form, name)`: the control exists, is invalid, and was edited or visited. */
  function IsFieldInvalid(form: seq<Entry>, name: string): (r: bool)
    ensures r <==> Get(form, name).Some? && Invalid(Get(form, name).value)
                   && (Dirty(Get(form, name).value) || Touched(Get(form, name).value))
    ensures r ==> HasField(Get(form, name).value)
  {
    match Get(form, name)
    case None => false
    case Some(c) =>
      if Invalid(c) then
        InvalidHasField(c);
        Dirty(c) || Touched(c)
      else false
  }

  /**
   * `getFieldError(form, name)`: nothing unless the field shows as invalid; then
   * the message of its first error. A group carries no errors of its own.
   */
  function GetFieldError(form: seq<Entry>, name: string): (r: Option<string>)
    ensures r.Some? ==> IsFieldInvalid(form, name)
    ensures Get(form, name).Some? && Get(form, name).value.Field? ==>
      (r.Some? <==> IsFieldInvalid(form, name))
    ensures r.Some? ==> Get(form, name).value.Field? && r == Some(ErrorMessage(Get(form, name).value.errors, Some(name)))
  {
    if !IsFieldInvalid(form, name) then None
    else match Get(form, name).value
      case Group(_) => None
      case Field(_, _, errors, _, _) => if errors == [] then None else Some(ErrorMessage(errors, Some(name)))
  }

  /** The duplicate check of `createDuplicateValidator(checkFn)`, applied to a value. */
  function DuplicateCheck(checkFn: Value -> bool, v: Value): (r: Option<ValidationError>)
    ensures r.Some? <==> Truthy(v) && checkFn(v)
    ensures r.Some? ==> r.value.Duplicate? && r.value.value == v
  {
    if Truthy(v) && checkFn(v) then Some(Duplicate("Elemento", "valor", v)) else None
  }

  /** A duplicate is reported exactly for a truthy value the check flags, and reads back with the value. */
  lemma DuplicateReported(checkFn: Value -> bool, v: Value, fieldName: Option<string>)
    ensures DuplicateCheck(checkFn, v).Some? <==> Truthy(v) && checkFn(v)
    ensures DuplicateCheck(checkFn, v).Some? ==>
      ErrorMessage([DuplicateCheck(checkFn, v).value], fieldName) == "Elemento con valor '" + ValueText(v) + "' ya existe"
    ensures !Truthy(v) ==> DuplicateCheck(checkFn, v).None?
  {
    if DuplicateCheck(checkFn, v).Some? {
      assert "Elemento" + " con " + "valor" + " '" == "Elemento con valor '";
    }
  }

  // ---- whole-tree updates -------------------------------------------------------------

  /** Some field exists below (or at) the control. */
  predicate HasField(c: Control) {
    match c
    case Field(_, _, _, _, _) => true
    case Group(cs) => exists i :: 0 <= i < |cs| && HasField(cs[i].control)
  }

  /** Every field of the tree marked as touched. */
  function Touch(c: Control): (r: Control)
    ensures r.Group? <==> c.Group?
    ensures c.Group? ==> |r.controls| == |c.controls| && forall i :: 0 <= i < |c.controls| ==> r.controls[i].key == c.controls[i].key
  {
    match c
    case Field(v, rules, errors, _, dirty) => Field(v, rules, errors, true, dirty)
    case Group(cs) => Group(seq(|cs|, i requires 0 <= i < |cs| => Entry(cs[i].key, Touch(cs[i].control))))
  }

  /** Every field of the tree without errors, untouched and pristine. */
  function Clear(c: Control): (r: Control)
    ensures r.Group? <==> c.Group?
    ensures c.Group? ==> |r.controls| == |c.controls| && forall i :: 0 <= i < |c.controls| ==> r.controls[i].key == c.controls[i].key
  {
    match c
    case Field(v, rules, _, _, _) => Field(v, rules, [], false, false)
    case Group(cs) => Group(seq(|cs|, i requires 0 <= i < |cs| => Entry(cs[i].key, Clear(cs[i].control))))
  }

  /** Touching keeps validity and dirtiness, touches every field, and is idempotent. */
  lemma {:induction false} TouchFacts(c: Control)
    ensures Invalid(Touch(c)) <==> Invalid(c)
    ensures Dirty(Touch(c)) <==> Dirty(c)
    ensures Touched(Touch(c)) <==> HasField(c)
    ensures Touch(Touch(c)) == Touch(c)
    ensures Clear(Touch(c)) == Clear(c)
  {
    match c
    case Field(_, _, _, _, _) =>
    case Group(cs) =>
      var ts := Touch(c).controls;
      forall i | 0 <= i < |cs|
        ensures ts[i].control == Touch(cs[i].control)
        ensures Invalid(ts[i].control) <==> Invalid(cs[i].control)
        ensures Dirty(ts[i].control) <==> Dirty(cs[i].control)
        ensures Touched(ts[i].control) <==> HasField(cs[i].control)
        ensures Touch(ts[i].control) == ts[i].control
        ensures Clear(ts[i].control) == Clear(cs[i].control)
      {
        TouchFacts(cs[i].control);
      }
      assert Touch(Touch(c)).controls == ts;
      assert Clear(Touch(c)).controls == Clear(c).controls;
  }

  /**
   * A cleared tree is valid, untouched and pristine whatever its values (the
   * validators are not re-run), keeps its values, and clearing is idempotent.
   */
  lemma {:induction false} ClearFacts(c: Control)
    ensures !Invalid(Clear(c)) && !Touched(Clear(c)) && !Dirty(Clear(c))
    ensures Clear(Clear(c)) == Clear(c)
    ensures c.Field? ==> Clear(c).value == c.value && Clear(c).rules == c.rules
  {
    match c
    case Field(_, _, _, _, _) =>
    case Group(cs) =>
      var ks := Clear(c).controls;
      forall i | 0 <= i < |cs|
        ensures ks[i].control == Clear(cs[i].control)
        ensures !Invalid(ks[i].control) && !Touched(ks[i].control) && !Dirty(ks[i].control)
        ensures Clear(ks[i].control) == ks[i].control
      {
        ClearFacts(cs[i].control);
      }
      assert Clear(Clear(c)).controls == ks;
  }

  /** An invalid control has a field somewhere below it. */
  lemma {:induction false} InvalidHasField(c: Control)
    requires Invalid(c)
    ensures HasField(c)
  {
    match c
    case Field(_, _, _, _, _) =>
    case Group(cs) =>
      var i :| 0 <= i < |cs| && Invalid(cs[i].control);
      InvalidHasField(cs[i].control);
  }

  /** Lists with the same keys in the same places find a key at the same place. */
  lemma SameKeysSameIndex(cs: seq<Entry>, ds: seq<Entry>, key: string)
    requires |cs| == |ds| && forall i :: 0 <= i < |cs| ==> cs[i].key == ds[i].key
    ensures FirstIndex(cs, (e: Entry) => e.key == key) == FirstIndex(ds, (e: Entry) => e.key == key)
  {
    var p := (e: Entry) => e.key == key;
    assert forall j :: 0 <= j < |cs| ==> (p(cs[j]) <==> p(ds[j]));
  }

  /** Looking a path up in a touched tree finds the touched control; likewise for a cleared tree. */
  lemma {:induction false} FindInTouchAndClear(c: Control, path: seq<string>)
    ensures FindIn(Touch(c), path).Some? <==> FindIn(c, path).Some?
    ensures FindIn(c, path).Some? ==> FindIn(Touch(c), path).value == Touch(FindIn(c, path).value)
    ensures FindIn(Clear(c), path).Some? <==> FindIn(c, path).Some?
    ensures FindIn(c, path).Some? ==> FindIn(Clear(c), path).value == Clear(FindIn(c, path).value)
    decreases path
  {
    if path != [] && c.Group? {
      var cs := c.controls;
      var p := (e: Entry) => e.key == path[0];
      SameKeysSameIndex(cs, Touch(c).controls, path[0]);
      SameKeysSameIndex(cs, Clear(c).controls, path[0]);
      match FirstIndex(cs, p)
      case None =>
      case Some(i) =>
        assert Lookup(cs, path[0]) == Some(cs[i].control);
        assert Lookup(Touch(c).controls, path[0]) == Some(Touch(cs[i].control));
        assert Lookup(Clear(c).controls, path[0]) == Some(Clear(cs[i].control));
        FindInTouchAndClear(cs[i].control, path[1..]);
    }
  }

  /** Once every field is touched, a field shows as invalid exactly when it is invalid. */
  lemma TouchedFormShowsInvalid(form: seq<Entry>, name: string)
    ensures IsFieldInvalid(Touch(Group(form)).controls, name) <==> Get(form, name).Some? && Invalid(Get(form, name).value)
  {
    var path := Split(name, '.');
    FindInTouchAndClear(Group(form), path);
    assert Group(Touch(Group(form)).controls) == Touch(Group(form));
    if Get(form, name).Some? {
      var c := Get(form, name).value;
      TouchFacts(c);
      if Invalid(c) {
        InvalidHasField(c);
      }
    }
  }

  /** Below an untouched, pristine control every control found is untouched and pristine. */
  lemma {:induction false} FindInPristine(c: Control, path: seq<string>)
    requires !Dirty(c) && !Touched(c)
    ensures FindIn(c, path).Some? ==> !Dirty(FindIn(c, path).value) && !Touched(FindIn(c, path).value)
    decreases path
  {
    if path != [] && c.Group? {
      match Lookup(c.controls, path[0])
      case None =>
      case Some(child) =>
        var i :| 0 <= i < |c.controls| && c.controls[i].key == path[0] && c.controls[i].control == child;
        FindInPristine(child, path[1..]);
    }
  }

  /** In a form nobody has edited or visited, no field shows as invalid, however invalid it is. */
  lemma PristineFormShowsNothing(form: seq<Entry>, name: string)
    requires !Dirty(Group(form)) && !Touched(Group(form))
    ensures !IsFieldInvalid(form, name)
    ensures GetFieldError(form, name).None?
  {
    FindInPristine(Group(form), Split(name, '.'));
  }

  /** After clearing, no field shows as invalid and no field has a message. */
  lemma ClearedFormShowsNothing(form: seq<Entry>, name: string)
    ensures !IsFieldInvalid(Clear(Group(form)).controls, name)
    ensures GetFieldError(Clear(Group(form)).controls, name).None?
  {
    var path := Split(name, '.');
    FindInTouchAndClear(Group(form), path);
    assert Group(Clear(Group(form)).controls) == Clear(Group(form));
    if Get(form, name).Some? {
      ClearFacts(Get(form, name).value);
    }
  }

  // ---- server errors -------------------------------------------------------------------

  /**
   * The control at `path` gets the single `server` error and is touched, when it
   * is a field; a missing control, or a group, leaves the tree as it is.
   */
  function ServerErrorAt(c: Control, path: seq<string>, message: string): (r: Control)
    ensures r.Group? <==> c.Group?
    ensures c.Group? ==> |r.controls| == |c.controls| && forall i :: 0 <= i < |c.controls| ==> r.controls[i].key == c.controls[i].key
    decreases path
  {
    if path == [] then
      match c
      case Field(v, rules, _, _, dirty) => Field(v, rules, [Server(message)], true, dirty)
      case Group(_) => c
    else match c
      case Field(_, _, _, _, _) => c
      case Group(cs) =>
        match FirstIndex(cs, (e: Entry) => e.key == path[0])
        case None => c
        case Some(i) => Group(cs[i := Entry(cs[i].key, ServerErrorAt(cs[i].control, path[1..], message))])
  }

  /** The field at the path now holds just the server error and is touched; a path that finds no field changes nothing. */
  lemma {:induction false} ServerErrorTarget(c: Control, path: seq<string>, message: string)
    ensures FindIn(c, path).Some? && FindIn(c, path).value.Field? ==>
      var f := FindIn(c, path).value;
      FindIn(ServerErrorAt(c, path, message), path) == Some(Field(f.value, f.rules, [Server(message)], true, f.dirty))
    ensures !(FindIn(c, path).Some? && FindIn(c, path).value.Field?) ==> ServerErrorAt(c, path, message) == c
    decreases path
  {
    if path != [] && c.Group? {
      var cs := c.controls;
      var r := ServerErrorAt(c, path, message);
      SameKeysSameIndex(cs, r.controls, path[0]);
      match FirstIndex(cs, (e: Entry) => e.key == path[0])
      case None =>
      case Some(i) =>
        assert Lookup(cs, path[0]) == Some(cs[i].control);
        assert Lookup(r.controls, path[0]) == Some(ServerErrorAt(cs[i].control, path[1..], message));
        ServerErrorTarget(cs[i].control, path[1..], message);
        if !(FindIn(cs[i].control, path[1..]).Some? && FindIn(cs[i].control, path[1..]).value.Field?) {
          assert cs[i := Entry(cs[i].key, cs[i].control)] == cs;
        }
    }
  }

  /** A server error never makes an invalid tree valid, and a field it reaches makes the tree invalid. */
  lemma {:induction false} ServerErrorInvalidates(c: Control, path: seq<string>, message: string)
    ensures Invalid(c) ==> Invalid(ServerErrorAt(c, path, message))
    ensures FindIn(c, path).Some? && FindIn(c, path).value.Field? ==> Invalid(ServerErrorAt(c, path, message))
    decreases path
  {
    if path != [] && c.Group? {
      var cs := c.controls;
      var r := ServerErrorAt(c, path, message);
      match FirstIndex(cs, (e: Entry) => e.key == path[0])
      case None =>
      case Some(i) =>
        assert Lookup(cs, path[0]) == Some(cs[i].control);
        ServerErrorInvalidates(cs[i].control, path[1..], message);
        assert r.controls[i].control == ServerErrorAt(cs[i].control, path[1..], message);
        if Invalid(c) {
          var j :| 0 <= j < |cs| && Invalid(cs[j].control);
          if j != i {
            assert r.controls[j] == cs[j];
          }
        }
    }
  }

  /** The server's message itself is never shown: the message table has no `server` entry. */
  lemma ServerMessageNotShown(form: seq<Entry>, name: string, message: string)
    requires Get(form, name).Some? && Get(form, name).value.Field?
    ensures GetFieldError(ServerErrorAt(Group(form), Split(name, '.'), message).controls, name) == Some(InvalidFieldMessage)
  {
    var r := ServerErrorAt(Group(form), Split(name, '.'), message);
    ServerErrorTarget(Group(form), Split(name, '.'), message);
    assert Group(r.controls) == r;
  }

  /** `applyServerErrors` over the name/message pairs, in order. */
  function ServerErrorsApplied(c: Control, serverErrors: seq<(string, string)>): (r: Control)
    ensures r.Group? <==> c.Group?
  {
    if serverErrors == [] then c
    else
      var last := serverErrors[|serverErrors| - 1];
      ServerErrorAt(ServerErrorsApplied(c, serverErrors[..|serverErrors| - 1]), Split(last.0, '.'), last.1)
  }

  /** Applying server errors never turns an invalid form valid. */
  lemma {:induction false} ServerErrorsKeepInvalid(c: Control, serverErrors: seq<(string, string)>)
    requires Invalid(c)
    ensures Invalid(ServerErrorsApplied(c, serverErrors))
  {
    if serverErrors != [] {
      var last := serverErrors[|serverErrors| - 1];
      ServerErrorsKeepInvalid(c, serverErrors[..|serverErrors| - 1]);
      ServerErrorInvalidates(ServerErrorsApplied(c, serverErrors[..|serverErrors| - 1]), Split(last.0, '.'), last.1);
    }
  }

  // ---- the error summary ----------------------------------------------------------------

  /** The summary key of entry `k` inside the group `prefix`. */
  function NestedKey(prefix: string, k: string): string {
    prefix + "." + k
  }

  /** Different entries of one group have different summary keys. */
  lemma NestedKeyInjective(prefix: string, a: string, b: string)
    ensures NestedKey(prefix, a) == NestedKey(prefix, b) ==> a == b
  {
    if NestedKey(prefix, a) == NestedKey(prefix, b) {
      assert a == NestedKey(prefix, a)[|prefix| + 1..];
      assert b == NestedKey(prefix, b)[|prefix| + 1..];
    }
  }

  /** `k` is one of the nested keys `key.…`. */
  predicate Under(k: string, key: string) {
    |k| > |key| && k[..|key|] == key && k[|key|] == '.'
  }

  /** The nested entries of `m` under `prefix.`. */
  function Prefixed(prefix: string, m: map<string, string>): (r: map<string, string>)
    ensures forall k :: k in m ==> NestedKey(prefix, k) in r && r[NestedKey(prefix, k)] == m[k]
    ensures forall k :: k in r ==> exists n :: n in m && k == NestedKey(prefix, n)
    ensures forall k :: k in r ==> Under(k, prefix)
  {
    forall a, b ensures NestedKey(prefix, a) == NestedKey(prefix, b) ==> a == b {
      NestedKeyInjective(prefix, a, b);
    }
    map k | k in m :: NestedKey(prefix, k) := m[k]
  }

  /**
   * `getAllErrors`: for each entry in order, the message of an invalid field
   * under its key, and the entries of a group's own summary under `key.`.
   */
  function AllErrors(cs: seq<Entry>): (r: map<string, string>)
    ensures forall k :: k in r ==> r[k] != ""
    decreases cs
  {
    if cs == [] then map[]
    else
      var before := AllErrors(cs[..|cs| - 1]);
      var e := cs[|cs| - 1];
      match e.control
      case Group(sub) => before + Prefixed(e.key, AllErrors(sub))
      case Field(_, _, errors, _, _) => if errors != [] then before[e.key := ErrorMessage(errors, Some(e.key))] else before
  }

  /** A path of keys from the entries down to a field that carries errors. */
  ghost predicate ErrorPath(cs: seq<Entry>, path: seq<string>)
    decreases cs
  {
    && |path| >= 1
    && exists i :: 0 <= i < |cs| && cs[i].key == path[0] && ErrorPathAt(cs[i].control, path)
  }

  /** The path continues from this control: it ends at a field with errors, or goes on inside a group. */
  ghost predicate ErrorPathAt(c: Control, path: seq<string>)
    requires |path| >= 1
    decreases c
  {
    match c
    case Field(_, _, errors, _, _) => |path| == 1 && errors != []
    case Group(sub) => |path| >= 2 && ErrorPath(sub, path[1..])
  }

  lemma JoinCons(key: string, rest: seq<string>)
    requires |rest| >= 1
    ensures Join([key] + rest, '.') == NestedKey(key, Join(rest, '.'))
  {
    assert ([key] + rest)[1..] == rest;
  }

  /** A path among the leading entries is a path among all of them. */
  lemma ErrorPathExtends(cs: seq<Entry>, path: seq<string>)
    requires cs != [] && ErrorPath(cs[..|cs| - 1], path)
    ensures ErrorPath(cs, path)
  {
    var init := cs[..|cs| - 1];
    var i :| 0 <= i < |init| && init[i].key == path[0] && ErrorPathAt(init[i].control, path);
    assert cs[i] == init[i];
  }

  /** A path through the last entry. */
  lemma ErrorPathLast(cs: seq<Entry>, path: seq<string>)
    requires cs != [] && |path| >= 1 && cs[|cs| - 1].key == path[0] && ErrorPathAt(cs[|cs| - 1].control, path)
    ensures ErrorPath(cs, path)
  {
  }

  /** Every summary key is the dotted path of a field with errors. */
  lemma {:induction false} AllErrorsSound(cs: seq<Entry>, k: string)
    requires k in AllErrors(cs)
    ensures exists path :: ErrorPath(cs, path) && Join(path, '.') == k
    decreases cs
  {
    var init := cs[..|cs| - 1];
    var e := cs[|cs| - 1];
    var before := AllErrors(init);
    var path: seq<string>;
    match e.control
    case Field(_, _, errors, _, _) =>
      if errors != [] && k == e.key {
        path := [e.key];
        ErrorPathLast(cs, path);
      } else {
        AllErrorsSound(init, k);
        path :| ErrorPath(init, path) && Join(path, '.') == k;
        ErrorPathExtends(cs, path);
      }
    case Group(sub) =>
      if k in Prefixed(e.key, AllErrors(sub)) {
        var m :| m in AllErrors(sub) && k == NestedKey(e.key, m);
        AllErrorsSound(sub, m);
        var rest :| ErrorPath(sub, rest) && Join(rest, '.') == m;
        path := [e.key] + rest;
        assert path[1..] == rest;
        JoinCons(e.key, rest);
        ErrorPathLast(cs, path);
      } else {
        AllErrorsSound(init, k);
        path :| ErrorPath(init, path) && Join(path, '.') == k;
        ErrorPathExtends(cs, path);
      }
  }

  /** The summary's keys only grow along the entries. */
  lemma AllErrorsGrow(cs: seq<Entry>, k: string)
    requires cs != [] && k in AllErrors(cs[..|cs| - 1])
    ensures k in AllErrors(cs)
  {
  }

  /** Every field with errors is in the summary under its dotted path. */
  lemma {:induction false} AllErrorsComplete(cs: seq<Entry>, path: seq<string>)
    requires ErrorPath(cs, path)
    ensures Join(path, '.') in AllErrors(cs)
    decreases cs
  {
    var i :| 0 <= i < |cs| && cs[i].key == path[0] && ErrorPathAt(cs[i].control, path);
    var init := cs[..|cs| - 1];
    if i < |cs| - 1 {
      assert init[i] == cs[i];
      assert ErrorPath(init, path);
      AllErrorsComplete(init, path);
      AllErrorsGrow(cs, Join(path, '.'));
    } else {
      match cs[i].control
      case Field(_, _, _, _, _) =>
      case Group(sub) =>
        AllErrorsComplete(sub, path[1..]);
        JoinCons(path[0], path[1..]);
        assert [path[0]] + path[1..] == path;
    }
  }

  /** `getAllErrors` has an entry for exactly the fields with errors, keyed by their dotted paths. */
  lemma AllErrorsKeys(cs: seq<Entry>, k: string)
    ensures k in AllErrors(cs) <==> exists path :: ErrorPath(cs, path) && Join(path, '.') == k
  {
    if k in AllErrors(cs) {
      AllErrorsSound(cs, k);
    }
    if exists path :: ErrorPath(cs, path) && Join(path, '.') == k {
      var path :| ErrorPath(cs, path) && Join(path, '.') == k;
      AllErrorsComplete(cs, path);
    }
  }

  /**
   * Keys that are distinct within each group and contain no dot, as the
   * control names of a form declared with an object literal are.
   */
  ghost predicate PlainKeys(cs: seq<Entry>)
    decreases cs
  {
    && (forall i, j :: 0 <= i < j < |cs| ==> cs[i].key != cs[j].key)
    && (forall i :: 0 <= i < |cs| ==> '.' !in cs[i].key)
    && (forall i :: 0 <= i < |cs| && cs[i].control.Group? ==> PlainKeys(cs[i].control.controls))
  }

  /** The part of a key before its first dot. */
  function Head(s: string): (r: string)
    ensures |r| <= |s|
  {
    if s == [] || s[0] == '.' then [] else [s[0]] + Head(s[1..])
  }

  /** A dot-free segment followed by nothing or by a dot is the head of the key. */
  lemma {:induction false} HeadOfSegment(a: string, t: string)
    requires '.' !in a && (t == [] || t[0] == '.')
    ensures Head(a + t) == a
  {
    if a != [] {
      assert (a + t)[1..] == a[1..] + t;
      HeadOfSegment(a[1..], t);
    } else {
      assert a + t == t;
    }
  }

  /** The head of a joined path is its first key. */
  lemma HeadOfPath(path: seq<string>)
    requires |path| >= 1 && '.' !in path[0]
    ensures Head(Join(path, '.')) == path[0]
  {
    if |path| == 1 {
      HeadOfSegment(path[0], []);
      assert path[0] + [] == path[0];
    } else {
      assert Join(path, '.') == path[0] + ("." + Join(path[1..], '.'));
      HeadOfSegment(path[0], "." + Join(path[1..], '.'));
    }
  }

  /** A nested key of a dot-free key has that key as its head. */
  lemma HeadNotUnder(k: string, key: string)
    requires '.' !in key && Head(k) != key
    ensures !Under(k, key)
  {
    if Under(k, key) {
      assert k == key + k[|key|..];
      HeadOfSegment(key, k[|key|..]);
    }
  }

  /** A path whose first key differs from a dot-free key is neither that key nor one of its nested keys. */
  lemma OtherKeyDisjoint(path: seq<string>, key: string)
    requires |path| >= 1 && '.' !in path[0] && '.' !in key && path[0] != key
    ensures Join(path, '.') != key && !Under(Join(path, '.'), key)
  {
    HeadOfPath(path);
    HeadOfSegment(key, []);
    assert key + [] == key;
    HeadNotUnder(Join(path, '.'), key);
  }

  /** Distinct keys make `Lookup` find the one entry with the key. */
  lemma LookupDistinct(cs: seq<Entry>, i: int)
    requires 0 <= i < |cs|
    requires forall a, b :: 0 <= a < b < |cs| ==> cs[a].key != cs[b].key
    ensures Lookup(cs, cs[i].key) == Some(cs[i].control)
  {
    var j :| 0 <= j < |cs| && cs[j].key == cs[i].key && cs[j].control == Lookup(cs, cs[i].key).value;
    assert j == i;
  }

  /** The leading entries of plain entries are plain. */
  lemma PlainKeysPrefix(cs: seq<Entry>)
    requires cs != [] && PlainKeys(cs)
    ensures PlainKeys(cs[..|cs| - 1])
  {
    var init := cs[..|cs| - 1];
    assert forall m :: 0 <= m < |init| ==> init[m] == cs[m];
  }

  /**
   * The message `getAllErrors` stores under a field's dotted path is the
   * message of that field's errors, named by its own key; keys are assumed
   * distinct and dot-free, so no later entry overwrites it.
   */
  lemma {:induction false} AllErrorsMessage(cs: seq<Entry>, path: seq<string>)
    requires PlainKeys(cs) && ErrorPath(cs, path)
    ensures FindIn(Group(cs), path).Some? && FindIn(Group(cs), path).value.Field?
    ensures Join(path, '.') in AllErrors(cs)
    ensures AllErrors(cs)[Join(path, '.')] == ErrorMessage(FindIn(Group(cs), path).value.errors, Some(path[|path| - 1]))
    decreases cs, 1
  {
    var i :| 0 <= i < |cs| && cs[i].key == path[0] && ErrorPathAt(cs[i].control, path);
    LookupDistinct(cs, i);
    assert FindIn(Group(cs), path) == FindIn(cs[i].control, path[1..]);
    if i == |cs| - 1 {
      AllErrorsMessageLast(cs, path);
    } else {
      AllErrorsMessageEarlier(cs, path, i);
    }
  }

  /** The path goes through the last entry, whose own contribution holds the message. */
  lemma {:induction false} AllErrorsMessageLast(cs: seq<Entry>, path: seq<string>)
    requires cs != [] && PlainKeys(cs) && |path| >= 1
    requires cs[|cs| - 1].key == path[0] && ErrorPathAt(cs[|cs| - 1].control, path)
    ensures FindIn(cs[|cs| - 1].control, path[1..]).Some? && FindIn(cs[|cs| - 1].control, path[1..]).value.Field?
    ensures Join(path, '.') in AllErrors(cs)
    ensures AllErrors(cs)[Join(path, '.')] == ErrorMessage(FindIn(cs[|cs| - 1].control, path[1..]).value.errors, Some(path[|path| - 1]))
    decreases cs, 0
  {
    var before := AllErrors(cs[..|cs| - 1]);
    var e := cs[|cs| - 1];
    match e.control
    case Field(_, _, errors, _, _) =>
      assert path[1..] == [] && Join(path, '.') == e.key;
      assert AllErrors(cs) == before[e.key := ErrorMessage(errors, Some(e.key))];
    case Group(sub) =>
      var rest, inner := path[1..], AllErrors(sub);
      AllErrorsMessage(sub, rest);
      var n := Join(rest, '.');
      assert Prefixed(e.key, inner)[NestedKey(e.key, n)] == inner[n];
      assert AllErrors(cs) == before + Prefixed(e.key, inner);
      JoinCons(path[0], rest);
      assert [path[0]] + rest == path;
      assert Join(path, '.') == NestedKey(e.key, n);
      assert path[|path| - 1] == rest[|rest| - 1];
  }

  /** The path goes through an earlier entry; the last entry has another, dot-free key and leaves the message alone. */
  lemma {:induction false} AllErrorsMessageEarlier(cs: seq<Entry>, path: seq<string>, i: int)
    requires PlainKeys(cs) && |path| >= 1 && 0 <= i < |cs| - 1
    requires cs[i].key == path[0] && ErrorPathAt(cs[i].control, path)
    ensures FindIn(cs[i].control, path[1..]).Some? && FindIn(cs[i].control, path[1..]).value.Field?
    ensures Join(path, '.') in AllErrors(cs)
    ensures AllErrors(cs)[Join(path, '.')] == ErrorMessage(FindIn(cs[i].control, path[1..]).value.errors, Some(path[|path| - 1]))
    decreases cs, 0
  {
    var init := cs[..|cs| - 1];
    var e := cs[|cs| - 1];
    var k := Join(path, '.');
    assert init[i] == cs[i];
    assert ErrorPath(init, path);
    PlainKeysPrefix(cs);
    AllErrorsMessage(init, path);
    LookupDistinct(init, i);
    assert FindIn(Group(init), path) == FindIn(cs[i].control, path[1..]);
    assert e.key != path[0];
    OtherKeyDisjoint(path, e.key);
    AllErrorsKeepsOther(cs, k);
  }

  /** The last entry leaves alone a key that is neither its own key nor nested under it. */
  lemma {:induction false} AllErrorsKeepsOther(cs: seq<Entry>, k: string)
    requires cs != [] && k != cs[|cs| - 1].key && !Under(k, cs[|cs| - 1].key)
    requires k in AllErrors(cs[..|cs| - 1])
    ensures k in AllErrors(cs) && AllErrors(cs)[k] == AllErrors(cs[..|cs| - 1])[k]
  {
    var before := AllErrors(cs[..|cs| - 1]);
    var e := cs[|cs| - 1];
    match e.control
    case Field(_, _, errors, _, _) =>
      assert AllErrors(cs) == if errors != [] then before[e.key := ErrorMessage(errors, Some(e.key))] else before;
    case Group(sub) =>
      assert AllErrors(cs) == before + Prefixed(e.key, AllErrors(sub));
  }

  /** A valid form has an empty summary. */
  lemma {:induction false} ValidFormNoErrors(cs: seq<Entry>)
    requires !Invalid(Group(cs))
    ensures AllErrors(cs) == map[]
    decreases cs
  {
    if cs != [] {
      var init := cs[..|cs| - 1];
      assert forall i :: 0 <= i < |init| ==> init[i] == cs[i];
      ValidFormNoErrors(init);
      match cs[|cs| - 1].control
      case Field(_, _, _, _, _) =>
      case Group(sub) =>
        assert !Invalid(cs[|cs| - 1].control);
        ValidFormNoErrors(sub);
    }
  }

  // ---- sanitising ---------------------------------------------------------------------

  /** What `sanitizeFormData` keeps of one value: a trimmed string, anything else but `null` and `undefined`. */
  function SanitizedValue(v: Value): Value {
    if v.Str? then Str(Trim(v.text)) else v
  }

  predicate KeptValue(v: Value) {
    !(v.Null? || v.Undefined?)
  }

  function SanitizedOn(m: map<string, Value>, keys: set<string>): map<string, Value> {
    map k | k in keys && k in m && KeptValue(m[k]) :: SanitizedValue(m[k])
  }

  /** One more key: its value joins the sanitised object unless it is `null` or `undefined`. */
  lemma SanitizedOnStep(m: map<string, Value>, done: set<string>, key: string)
    requires key in m
    ensures SanitizedOn(m, done + {key}) ==
      if KeptValue(m[key]) then SanitizedOn(m, done)[key := SanitizedValue(m[key])] else SanitizedOn(m, done)
  {
  }

  /** The sanitised object: the same keys except those holding `null` or `undefined`, strings trimmed. */
  function Sanitized(m: map<string, Value>): (r: map<string, Value>)
    ensures r.Keys <= m.Keys
    ensures forall k :: k in m ==> (k in r <==> KeptValue(m[k]))
    ensures forall k :: k in r && m[k].Str? ==> r[k] == Str(Trim(m[k].text))
    ensures forall k :: k in r && !m[k].Str? ==> r[k] == m[k]
  {
    SanitizedOn(m, m.Keys)
  }

  /** Sanitising twice is sanitising once. */
  lemma SanitizeIdempotent(m: map<string, Value>)
    ensures Sanitized(Sanitized(m)) == Sanitized(m)
  {
    var s := Sanitized(m);
    var t := Sanitized(s);
    forall k | k in s
      ensures KeptValue(s[k])
      ensures k in t && t[k] == s[k]
    {
      if m[k].Str? {
        TrimIdempotent(m[k].text);
        assert s[k] == Str(Trim(m[k].text));
      }
    }
    assert t.Keys == s.Keys;
  }

  /** `sanitizeFormData(formValue)`, one key at a time. */
  method SanitizeFormData(formValue: map<string, Value>) returns (sanitized: map<string, Value>)
    ensures sanitized == Sanitized(formValue)
  {
    sanitized := map[];
    var pending := formValue.Keys;
    while pending != {}
      invariant pending <= formValue.Keys
      invariant sanitized == SanitizedOn(formValue, formValue.Keys - pending)
      decreases pending
    {
      var key :| key in pending;
      var value := formValue[key];
      SanitizedOnStep(formValue, formValue.Keys - pending, key);
      assert formValue.Keys - (pending - {key}) == (formValue.Keys - pending) + {key};
      if value.Str? {
        sanitized := sanitized[key := Str(Trim(value.text))];
      } else if KeptValue(value) {
        sanitized := sanitized[key := value];
      }
      pending := pending - {key};
    }
  }

  // ---- the service's operations on a form ---------------------------------------------

  /** A reactive form group: its controls in insertion order. */
  class FormGroup {
    var controls: seq<Entry>

    constructor (controls: seq<Entry>)
      ensures this.controls == controls
    {
      this.controls := controls;
    }
  }

  /** The entries with every field touched, recursing into groups. */
  method TouchEntries(cs: seq<Entry>) returns (r: seq<Entry>)
    ensures r == Touch(Group(cs)).controls
    decreases cs
  {
    r := cs;
    var i := 0;
    while i < |cs|
      invariant 0 <= i <= |cs| && |r| == |cs|
      invariant forall j :: 0 <= j < i ==> r[j] == Entry(cs[j].key, Touch(cs[j].control))
      invariant forall j :: i <= j < |cs| ==> r[j] == cs[j]
    {
      match cs[i].control {
        case Group(sub) =>
          var touched := TouchEntries(sub);
          r := r[i := Entry(cs[i].key, Group(touched))];
        case Field(v, rules, errors, _, dirty) =>
          r := r[i := Entry(cs[i].key, Field(v, rules, errors, true, dirty))];
      }
      i := i + 1;
    }
  }

  /** The entries with every field cleared, recursing into groups. */
  method ClearEntries(cs: seq<Entry>) returns (r: seq<Entry>)
    ensures r == Clear(Group(cs)).controls
    decreases cs
  {
    r := cs;
    var i := 0;
    while i < |cs|
      invariant 0 <= i <= |cs| && |r| == |cs|
      invariant forall j :: 0 <= j < i ==> r[j] == Entry(cs[j].key, Clear(cs[j].control))
      invariant forall j :: i <= j < |cs| ==> r[j] == cs[j]
    {
      match cs[i].control {
        case Group(sub) =>
          var cleared := ClearEntries(sub);
          r := r[i := Entry(cs[i].key, Group(cleared))];
        case Field(v, rules, _, _, _) =>
          r := r[i := Entry(cs[i].key, Field(v, rules, [], false, false))];
      }
      i := i + 1;
    }
  }

  /** `markAllFieldsAsTouched(form)`. */
  method MarkAllFieldsAsTouched(form: FormGroup)
    modifies form
    ensures form.controls == Touch(Group(old(form.controls))).controls
  {
    form.controls := TouchEntries(form.controls);
  }

  /** `clearFormErrors(form)`. */
  method ClearFormErrors(form: FormGroup)
    modifies form
    ensures form.controls == Clear(Group(old(form.controls))).controls
  {
    form.controls := ClearEntries(form.controls);
  }

  /** `isFormValid(form)`: a valid form is left alone; an invalid one has every field touched. */
  method IsFormValid(form: FormGroup) returns (valid: bool)
    modifies form
    ensures valid <==> !Invalid(Group(old(form.controls)))
    ensures valid ==> form.controls == old(form.controls)
    ensures !valid ==> form.controls == Touch(Group(old(form.controls))).controls
  {
    if !Invalid(Group(form.controls)) {
      return true;
    }
    MarkAllFieldsAsTouched(form);
    return false;
  }

  /** `applyServerErrors(form, serverErrors)`, the pairs in the order of the error object's keys. */
  method ApplyServerErrors(form: FormGroup, serverErrors: seq<(string, string)>)
    modifies form
    ensures form.controls == ServerErrorsApplied(Group(old(form.controls)), serverErrors).controls
  {
    var i := 0;
    while i < |serverErrors|
      invariant 0 <= i <= |serverErrors|
      invariant Group(form.controls) == ServerErrorsApplied(Group(old(form.controls)), serverErrors[..i])
    {
      assert serverErrors[..i + 1][..i] == serverErrors[..i];
      var (fieldName, message) := serverErrors[i];
      form.controls := ServerErrorAt(Group(form.controls), Split(fieldName, '.'), message).controls;
      i := i + 1;
    }
    assert serverErrors[..i] == serverErrors;
  }

  /** Adding an entry to a nested summary adds its prefixed key. */
  lemma PrefixedUpdate(prefix: string, m: map<string, string>, k: string, v: string)
    ensures Prefixed(prefix, m[k := v]) == Prefixed(prefix, m)[NestedKey(prefix, k) := v]
  {
    var a := Prefixed(prefix, m[k := v]);
    var b := Prefixed(prefix, m)[NestedKey(prefix, k) := v];
    PrefixedUpdateKeys(prefix, m, k, v);
    forall x | x in a ensures a[x] == b[x] {
      var n :| n in m[k := v] && x == NestedKey(prefix, n);
      NestedKeyInjective(prefix, n, k);
    }
  }

  lemma PrefixedUpdateKeys(prefix: string, m: map<string, string>, k: string, v: string)
    ensures Prefixed(prefix, m[k := v]).Keys == Prefixed(prefix, m)[NestedKey(prefix, k) := v].Keys
  {
    var a := Prefixed(prefix, m[k := v]);
    var b := Prefixed(prefix, m)[NestedKey(prefix, k) := v];
    forall x | x in a ensures x in b {
      var n :| n in m[k := v] && x == NestedKey(prefix, n);
    }
    forall x | x in b ensures x in a {
      if x != NestedKey(prefix, k) {
        var n :| n in m && x == NestedKey(prefix, n);
        assert n in m[k := v];
      }
    }
  }

  lemma MinusStep<K, V>(m: map<K, V>, pending: set<K>, k: K)
    requires k in pending && k in m
    ensures m - (pending - {k}) == (m - pending)[k := m[k]]
  {
  }

  lemma UnionUpdate<K, V>(m: map<K, V>, p: map<K, V>, k: K, v: V)
    ensures (m + p)[k := v] == m + p[k := v]
  {
  }

  lemma PrefixedStep(errors: map<string, string>, key: string, nested: map<string, string>, pending: set<string>, k: string)
    requires k in pending && pending <= nested.Keys
    ensures (errors + Prefixed(key, nested - pending))[NestedKey(key, k) := nested[k]] ==
      errors + Prefixed(key, nested - (pending - {k}))
  {
    MinusStep(nested, pending, k);
    PrefixedUpdate(key, nested - pending, k, nested[k]);
    UnionUpdate(errors, Prefixed(key, nested - pending), NestedKey(key, k), nested[k]);
  }

  /** Copies a nested summary into `errors` under `key.`, one nested key at a time. */
  method CopyNested(errors: map<string, string>, key: string, nested: map<string, string>) returns (r: map<string, string>)
    ensures r == errors + Prefixed(key, nested)
  {
    r := errors;
    var pending := nested.Keys;
    assert nested - pending == map[];
    while pending != {}
      invariant pending <= nested.Keys
      invariant r == errors + Prefixed(key, nested - pending)
      decreases pending
    {
      var nestedKey :| nestedKey in pending;
      PrefixedStep(errors, key, nested, pending, nestedKey);
      r := r[NestedKey(key, nestedKey) := nested[nestedKey]];
      pending := pending - {nestedKey};
    }
    assert nested - pending == nested;
  }

  /** `getAllErrors(form)`, one entry at a time. */
  method GetAllErrors(cs: seq<Entry>) returns (errors: map<string, string>)
    ensures errors == AllErrors(cs)
    decreases cs
  {
    errors := map[];
    var i := 0;
    while i < |cs|
      invariant 0 <= i <= |cs|
      invariant errors == AllErrors(cs[..i])
    {
      assert cs[..i + 1][..i] == cs[..i] && cs[..i + 1][i] == cs[i];
      var key := cs[i].key;
      match cs[i].control {
        case Group(sub) =>
          var nested := GetAllErrors(sub);
          errors := CopyNested(errors, key, nested);
        case Field(_, _, fieldErrors, _, _) =>
          if fieldErrors != [] {
            errors := errors[key := ErrorMessage(fieldErrors, Some(key))];
          }
      }
      i := i + 1;
    }
    assert cs[..i] == cs;
  }
}
