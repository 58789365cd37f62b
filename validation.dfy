/**
 * The storage layer's data validation: one field against its rules, a data
 * object against required fields and a schema, and dotted-path property
 * lookup.
 * Source: desktop/src/database/utils/validation.js
 */
module Validation {
  import opened Wrappers
  import opened Strings
  import opened JsValues

  /**
   * The rules of one field. An absent rule is None (or "" for type, false for
   * required). The pattern and the custom validator are code the model does
   * not see: they are given as the outcome they produce for a value.
   */
  datatype Rules = Rules(
    required: bool,
    fieldType: string,
    minLength: Option<int>,
    maxLength: Option<int>,
    min: Option<int>,
    max: Option<int>,
    enumValues: Option<seq<Value>>,
    pattern: Option<string -> bool>,
    validator: Option<Value -> Value>)

  datatype FieldResult = Valid | Invalid(error: string)

  predicate Missing(v: Value) {
    v.Undefined? || v.Null?
  }

  /** Array.isArray(value) ? 'array' : typeof value */
  function ActualType(v: Value): string {
    if v.Arr? then "array" else TypeOf(v)
  }

  /** value < bound for a number value. */
  predicate Below(v: Value, bound: int) {
    match v
    case Num(n) => n < bound
    case Infinity(positive) => !positive
    case _ => false
  }

  /** value > bound for a number value. */
  predicate Above(v: Value, bound: int) {
    match v
    case Num(n) => n > bound
    case Infinity(positive) => positive
    case _ => false
  }

  function FieldLabel(fieldName: string): string {
    "Field '" + fieldName + "'"
  }

  /** validateField: the checks run in the source's order and the first failing one reports. */
  function ValidateField(value: Value, fieldName: string, rules: Rules): (r: FieldResult)
    ensures rules.required && (Missing(value) || value == Str("")) ==> r == Invalid(FieldLabel(fieldName) + " is required")
    ensures !rules.required && Missing(value) ==> r == Valid
  {
    if rules.required && (Missing(value) || value == Str("")) then Invalid(FieldLabel(fieldName) + " is required")
    else if Missing(value) then Valid
    else if rules.fieldType != "" && rules.fieldType != "any" && rules.fieldType != ActualType(value) then
      Invalid(FieldLabel(fieldName) + " expects " + rules.fieldType + ", got " + ActualType(value))
    else if rules.minLength.Some? && value.Str? && Utf16Length(value.s) < rules.minLength.value then
      Invalid(FieldLabel(fieldName) + " must be at least " + IntToString(rules.minLength.value) + " characters")
    else if rules.maxLength.Some? && value.Str? && Utf16Length(value.s) > rules.maxLength.value then
      Invalid(FieldLabel(fieldName) + " must be at most " + IntToString(rules.maxLength.value) + " characters")
    else if rules.min.Some? && IsNumber(value) && Below(value, rules.min.value) then
      Invalid(FieldLabel(fieldName) + " must be at least " + IntToString(rules.min.value))
    else if rules.max.Some? && IsNumber(value) && Above(value, rules.max.value) then
      Invalid(FieldLabel(fieldName) + " must be at most " + IntToString(rules.max.value))
    else if rules.enumValues.Some? && !Includes(rules.enumValues.value, value) then
      Invalid(FieldLabel(fieldName) + " must be one of: " + JoinItems(rules.enumValues.value, ", "))
    else if rules.pattern.Some? && value.Str? && !rules.pattern.value(value.s) then
      Invalid(FieldLabel(fieldName) + " format is invalid")
    else if rules.validator.Some? && rules.validator.value(value) != Bool(true) then
      var result := rules.validator.value(value);
      Invalid(if result.Str? then result.s else FieldLabel(fieldName) + " validation failed")
    else Valid
  }

  /** Every rule holds of a present value, stated rule by rule. */
  predicate SatisfiesRules(value: Value, rules: Rules) {
    && (rules.fieldType == "" || rules.fieldType == "any" || rules.fieldType == ActualType(value))
    && (rules.minLength.Some? && value.Str? ==> Utf16Length(value.s) >= rules.minLength.value)
    && (rules.maxLength.Some? && value.Str? ==> Utf16Length(value.s) <= rules.maxLength.value)
    && (rules.min.Some? && IsNumber(value) ==> !Below(value, rules.min.value))
    && (rules.max.Some? && IsNumber(value) ==> !Above(value, rules.max.value))
    && (rules.enumValues.Some? ==> Includes(rules.enumValues.value, value))
    && (rules.pattern.Some? && value.Str? ==> rules.pattern.value(value.s))
    && (rules.validator.Some? ==> rules.validator.value(value) == Bool(true))
  }

  /** A field is valid exactly when it is absent and optional, or present and satisfying every rule. */
  lemma ValidateFieldMeaning(value: Value, fieldName: string, rules: Rules)
    ensures ValidateField(value, fieldName, rules) == Valid <==>
      if Missing(value) then !rules.required
      else !(rules.required && value == Str("")) && SatisfiesRules(value, rules)
  {
  }

  /**
   * The length rules count UTF-16 code units, as `value.length` does: a
   * single character outside the Basic Multilingual Plane is two units
   * long, so a maxLength of 1 rejects it.
   */
  lemma AstralCharacterTooLong(fieldName: string)
    ensures var rules := Rules(false, "string", None, Some(1), None, None, None, None, None);
      ValidateField(Str("\U{1F600}"), fieldName, rules) != Valid
  {
    assert Utf16Length("\U{1F600}") == 2 by {
      assert "\U{1F600}"[1..] == [];
    }
  }

  /** A number with only a min rule below it is rejected; NaN is never below a min. */
  lemma MinRule(fieldName: string, n: int, lo: int)
    ensures var rules := Rules(false, "number", None, None, Some(lo), None, None, None, None);
      (ValidateField(Num(n), fieldName, rules) == Valid <==> n >= lo)
      && ValidateField(NaN, fieldName, rules) == Valid
  {
  }

  /** The outcome of validateData. */
  datatype DataResult = DataValid | DataInvalid(message: string, errors: seq<string>)

  /** data[field] === undefined || data[field] === null || data[field] === '' */
  predicate Blank(v: Value) {
    Missing(v) || v == Str("")
  }

  /** The errors of the required-fields loop. */
  function RequiredErrors(data: Value, fields: seq<string>): (r: seq<string>)
    requires data.Obj? || data.Arr?
    ensures |r| <= |fields|
    ensures r == [] <==> forall k :: 0 <= k < |fields| ==> !Blank(Get(data, fields[k]))
    decreases |fields|
  {
    if fields == [] then []
    else
      var init := RequiredErrors(data, fields[..|fields| - 1]);
      var f := fields[|fields| - 1];
      assert forall k :: 0 <= k < |fields| - 1 ==> fields[..|fields| - 1][k] == fields[k];
      if Blank(Get(data, f)) then init + [FieldLabel(f) + " is required"] else init
  }

  /** The error of each failing result, in order. */
  function ErrorsOf(results: seq<FieldResult>): (r: seq<string>)
    ensures |r| <= |results|
  {
    if results == [] then []
    else
      var init := ErrorsOf(results[..|results| - 1]);
      match results[|results| - 1]
      case Valid => init
      case Invalid(e) => init + [e]
  }

  lemma ErrorsOfPrefixStep(results: seq<FieldResult>, j: nat)
    requires j < |results|
    ensures ErrorsOf(results[..j + 1]) == ErrorsOf(results[..j]) + (if results[j].Invalid? then [results[j].error] else [])
  {
    assert results[..j + 1][..j] == results[..j];
  }

  /** Errors are reported exactly when some result is invalid. */
  lemma {:induction false} ErrorsOfNone(results: seq<FieldResult>)
    ensures ErrorsOf(results) == [] <==> forall k :: 0 <= k < |results| ==> results[k] == Valid
  {
    if results != [] {
      var init := results[..|results| - 1];
      ErrorsOfNone(init);
      assert forall k :: 0 <= k < |init| ==> init[k] == results[k];
    }
  }

  /** The verdict on each schema field, in schema order. */
  function SchemaResults(data: Value, schema: seq<(string, Rules)>): (r: seq<FieldResult>)
    requires data.Obj? || data.Arr?
    ensures |r| == |schema|
    ensures forall k :: 0 <= k < |schema| ==> r[k] == ValidateField(Get(data, schema[k].0), schema[k].0, schema[k].1)
  {
    seq(|schema|, k requires 0 <= k < |schema| => ValidateField(Get(data, schema[k].0), schema[k].0, schema[k].1))
  }

  /** The errors of the schema loop. */
  function SchemaErrors(data: Value, schema: seq<(string, Rules)>): (r: seq<string>)
    requires data.Obj? || data.Arr?
    ensures |r| <= |schema|
  {
    ErrorsOf(SchemaResults(data, schema))
  }

  /** The schema loop reports nothing exactly when every schema field validates. */
  lemma SchemaErrorsNone(data: Value, schema: seq<(string, Rules)>)
    requires data.Obj? || data.Arr?
    ensures SchemaErrors(data, schema) == [] <==>
      forall k :: 0 <= k < |schema| ==> ValidateField(Get(data, schema[k].0), schema[k].0, schema[k].1) == Valid
  {
    ErrorsOfNone(SchemaResults(data, schema));
  }

  /** validateData as a value. */
  function DataVerdict(data: Value, requiredFields: seq<string>, schema: seq<(string, Rules)>): (r: DataResult)
    ensures !Truthy(data) || TypeOf(data) != "object" ==>
      r == DataInvalid("Data must be a non-null object", ["Data must be a non-null object"])
    ensures r.DataInvalid? ==> r.errors != [] && r.message == r.errors[0]
  {
    if !Truthy(data) || TypeOf(data) != "object" then
      DataInvalid("Data must be a non-null object", ["Data must be a non-null object"])
    else
      var errors := RequiredErrors(data, requiredFields) + SchemaErrors(data, schema);
      if |errors| > 0 then DataInvalid(errors[0], errors) else DataValid
  }

  /** Data is valid exactly when it is an object, no required field is blank and every schema field validates. */
  lemma DataVerdictMeaning(data: Value, requiredFields: seq<string>, schema: seq<(string, Rules)>)
    ensures DataVerdict(data, requiredFields, schema) == DataValid <==>
      (data.Obj? || data.Arr?)
      && (forall k :: 0 <= k < |requiredFields| ==> !Blank(Get(data, requiredFields[k])))
      && (forall k :: 0 <= k < |schema| ==> ValidateField(Get(data, schema[k].0), schema[k].0, schema[k].1) == Valid)
  {
    if data.Obj? || data.Arr? {
      SchemaErrorsNone(data, schema);
    }
  }

  /** validateData, collecting errors with the source's two loops. */
  method ValidateData(data: Value, requiredFields: seq<string>, schema: seq<(string, Rules)>) returns (r: DataResult)
    ensures r == DataVerdict(data, requiredFields, schema)
  {
    if !Truthy(data) || TypeOf(data) != "object" {
      return DataInvalid("Data must be a non-null object", ["Data must be a non-null object"]);
    }
    var required := CollectRequiredErrors(data, requiredFields);
    var errors := CollectSchemaErrors(data, schema, required);
    if |errors| > 0 {
      return DataInvalid(errors[0], errors);
    }
    return DataValid;
  }

  /** The first loop of validateData: an error for each blank required field, in order. */
  method CollectRequiredErrors(data: Value, requiredFields: seq<string>) returns (errors: seq<string>)
    requires data.Obj? || data.Arr?
    ensures errors == RequiredErrors(data, requiredFields)
  {
    errors := [];
    var i := 0;
    while i < |requiredFields|
      invariant 0 <= i <= |requiredFields|
      invariant errors == RequiredErrors(data, requiredFields[..i])
    {
      assert requiredFields[..i + 1][..i] == requiredFields[..i];
      var field := requiredFields[i];
      if Blank(Get(data, field)) {
        errors := errors + [FieldLabel(field) + " is required"];
      }
      i := i + 1;
    }
    assert requiredFields[..i] == requiredFields;
  }

  /** The second loop of validateData: the error of each schema field that fails, appended in order. */
  method CollectSchemaErrors(data: Value, schema: seq<(string, Rules)>, prior: seq<string>) returns (errors: seq<string>)
    requires data.Obj? || data.Arr?
    ensures errors == prior + SchemaErrors(data, schema)
  {
    ghost var results := SchemaResults(data, schema);
    errors := prior;
    var j := 0;
    while j < |schema|
      invariant 0 <= j <= |schema|
      invariant errors == prior + ErrorsOf(results[..j])
    {
      var fieldName, rules := schema[j].0, schema[j].1;
      var result := ValidateField(Get(data, fieldName), fieldName, rules);
      assert result == results[j];
      ErrorsOfPrefixStep(results, j);
      if result.Invalid? {
        errors := errors + [result.error];
      }
      j := j + 1;
    }
    assert results[..j] == results;
  }

  /** The value the loop of getNestedValue reaches by following keys, or None where it meets null or undefined. */
  function Follow(v: Value, keys: seq<string>): Option<Value>
    decreases |keys|
  {
    if keys == [] then Some(v)
    else if Missing(v) then None
    else Follow(Get(v, keys[0]), keys[1..])
  }

  /** getNestedValue as a value. */
  function NestedValue(obj: Value, path: string, defaultValue: Value): (r: Value)
    ensures !Truthy(obj) || path == [] ==> r == defaultValue
  {
    if !Truthy(obj) || path == [] then defaultValue
    else match Follow(obj, Split(path, "."))
      case None => defaultValue
      case Some(v) => if v.Undefined? then defaultValue else v
  }

  /** getNestedValue, walking the keys in a loop. */
  method GetNestedValue(obj: Value, path: string, defaultValue: Value) returns (r: Value)
    ensures r == NestedValue(obj, path, defaultValue)
  {
    if !Truthy(obj) || path == [] {
      return defaultValue;
    }
    var keys := Split(path, ".");
    var result := obj;
    var i := 0;
    while i < |keys|
      invariant 0 <= i <= |keys|
      invariant Follow(obj, keys) == Follow(result, keys[i..])
    {
      if Missing(result) {
        return defaultValue;
      }
      assert keys[i..][1..] == keys[i + 1..];
      result := Get(result, keys[i]);
      i := i + 1;
    }
    return if result.Undefined? then defaultValue else result;
  }

  /** The object that holds v under the nested keys. */
  function Nest(keys: seq<string>, v: Value): Value {
    if keys == [] then v else Obj([(keys[0], Nest(keys[1..], v))])
  }

  /** Looking up a dotted path in the object built along that path finds the value put there. */
  lemma {:induction false} NestedValueOfNest(keys: seq<string>, v: Value, defaultValue: Value)
    requires |keys| >= 1 && forall k :: 0 <= k < |keys| ==> keys[k] != [] && '.' !in keys[k]
    requires !v.Undefined?
    ensures NestedValue(Nest(keys, v), Join(keys, "."), defaultValue) == v
  {
    SplitJoin(keys, '.');
    FollowNest(keys, v);
    assert Join(keys, ".") != [] by {
      assert |keys[0]| >= 1;
      JoinStartsWithFirst(keys, ".");
    }
  }

  lemma {:induction false} FollowNest(keys: seq<string>, v: Value)
    ensures Follow(Nest(keys, v), keys) == Some(v)
    decreases |keys|
  {
    if keys != [] {
      FollowNest(keys[1..], v);
    }
  }

  lemma JoinStartsWithFirst(parts: seq<string>, sep: string)
    requires |parts| >= 1
    ensures |Join(parts, sep)| >= |parts[0]|
  {
  }
}
