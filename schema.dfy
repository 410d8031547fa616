/**
 * The schema compiler: from a declarative schema to the list of validators that
 * checks a candidate value against it.
 *
 * An object schema maps field names to rules `{ required?, type?, validator? }`;
 * an array schema is one such rules record, applied to every item. A schema is
 * itself checked first (against the meta-schema: rules are objects whose
 * `required`, `type` and `validator` are a boolean, a string and a function). A
 * malformed schema compiles to one validator that always fails with the schema's
 * own messages prefixed by "Schema error: ".
 *
 * Schemas are JavaScript values, so key order (the order of `keys`) decides the
 * order of the compiled checks.
 */
module Schema {
  import opened Wrappers
  import opened Values
  import opened Helpers
  import opened ResultAlgebra
  import opened Validators
  import opened SeqFacts

  /** A missing schema (`undefined`) defaults to the empty object. */
  function WithDefault(schema: Value): Value {
    if schema.Undefined? then Obj([]) else schema
  }

  /** The rules record of field `k` of an object schema. */
  function Rule(s: Value, k: string): Value {
    Get(s, k)
  }

  /** `buildObjRes(key)(res)`: an Err is nested under `key` of an 'object' Err with no messages of its own. */
  function BuildObjRes(key: string, res: Result): (r: Result)
    ensures IsOK(r) <==> IsOK(res)
    ensures IsErr(res) ==> r == Err([], Some("object"), Present([Item(key, res)]))
  {
    if IsOK(res) then Ok else MakeErr(Some([]), Some("object"), Present([Item(key, res)]))
  }

  // ----- The meta-schema -----

  /** The check for one rule key: a type check for the three known keys, a pass for any other. */
  function ConvertSchemaRuleToValidator(key: string): (v: Validator)
    ensures v.AlwaysOK? <==> key !in {"required", "type", "validator"}
    ensures !v.AlwaysOK? ==> v.ValidateObjPropHasType? && v.key == key && v.typeName.Str?
  {
    if key == "required" then ValidateObjPropHasType(Str("boolean"), "required")
    else if key == "type" then ValidateObjPropHasType(Str("string"), "type")
    else if key == "validator" then ValidateObjPropHasType(Str("function"), "validator")
    else AlwaysOK
  }

  function RuleChecks(ks: seq<string>): seq<Validator> {
    seq(|ks|, i requires 0 <= i < |ks| => ConvertSchemaRuleToValidator(ks[i]))
  }

  /** `validateAsSchemaRules`: is-object first, then one check per key, stopping at the first failure. */
  function ValidateAsSchemaRules(atoms: Atoms, rules: Value): (r: Result)
    ensures IsOK(r) ==> IsOK(atoms(ValidateIsObject, rules))
    ensures IsErr(atoms(ValidateIsObject, rules)) ==> r == atoms(ValidateIsObject, rules)
  {
    AllWhileOKCons(atoms, ValidateIsObject, RuleChecks(Keys(rules)), rules);
    Run(atoms, AllWhileOK([ValidateIsObject] + RuleChecks(Keys(rules))), rules)
  }

  /** Reference definition of a well-formed rules record. */
  predicate WellFormedRules(rules: Value) {
    && IsObject(rules)
    && (HasKey(rules, "required") ==> TypeOf(Get(rules, "required")) == "boolean")
    && (HasKey(rules, "type") ==> TypeOf(Get(rules, "type")) == "string")
    && (HasKey(rules, "validator") ==> TypeOf(Get(rules, "validator")) == "function")
  }

  /** The Result of checking each field's rules, each nested under the field's name. */
  function FieldResults(atoms: Atoms, fields: seq<(string, Value)>): seq<Result> {
    seq(|fields|, i requires 0 <= i < |fields| => BuildObjRes(fields[i].0, ValidateAsSchemaRules(atoms, fields[i].1)))
  }

  /** `validateAsObjectSchema`: is-object, then every field's rules, all reported together. */
  function ValidateAsObjectSchema(atoms: Atoms, schema: Value): (r: Result)
    ensures IsOK(r) ==> IsOK(atoms(ValidateIsObject, schema))
    ensures schema.Obj? ==>
              (IsOK(r) <==> IsOK(atoms(ValidateIsObject, schema)) && IsOK(ConcatResults(FieldResults(atoms, schema.fields))))
    ensures IsErr(atoms(ValidateIsObject, schema)) ==> r == atoms(ValidateIsObject, schema)
  {
    var fields := if schema.Obj? then schema.fields else [];
    FirstErrPair(Run(atoms, ValidateIsObject, schema), ConcatResults(FieldResults(atoms, fields)));
    FirstErr([Run(atoms, ValidateIsObject, schema), ConcatResults(FieldResults(atoms, fields))])
  }

  /** Reference definition of a well-formed object schema. */
  predicate WellFormedObjectSchema(s: Value) {
    IsObject(s) && forall i :: 0 <= i < |s.fields| ==> WellFormedRules(s.fields[i].1)
  }

  /** `validateAsArraySchema`: is-object, then the rules check. */
  function ValidateAsArraySchema(atoms: Atoms, schema: Value): (r: Result)
    ensures IsOK(r) <==> IsOK(ValidateAsSchemaRules(atoms, schema))
    ensures IsErr(atoms(ValidateIsObject, schema)) ==> r == atoms(ValidateIsObject, schema)
  {
    FirstErrPair(Run(atoms, ValidateIsObject, schema), ValidateAsSchemaRules(atoms, schema));
    FirstErr([Run(atoms, ValidateIsObject, schema), ValidateAsSchemaRules(atoms, schema)])
  }

  function PrefixAll(es: Errors): Errors {
    seq(|es|, i requires 0 <= i < |es| => "Schema error: " + es[i])
  }

  /** `processSchemaError`: a single validator that always fails with the prefixed messages. */
  function ProcessSchemaError(r: Result): (vs: seq<Validator>)
    ensures |vs| == 1 && vs[0].AlwaysErr?
    ensures |vs[0].errors| == |GetErrors(r)|
    ensures forall i :: 0 <= i < |GetErrors(r)| ==> vs[0].errors[i] == "Schema error: " + GetErrors(r)[i]
  {
    [AlwaysErr(PrefixAll(GetErrors(r)))]
  }

  // ----- Compiling an object schema -----

  /** The keys of `s`, in order, whose rules have a truthy `field`. */
  function KeysWhere(s: Value, field: string): seq<string> {
    FilterTruthy(s, Keys(s), field)
  }

  /** Whether the rule of `k` has a truthy `field`, so that `k` gets a check of that category. */
  predicate Wants(s: Value, k: string, field: string) {
    Truthy(Get(Rule(s, k), field))
  }

  /** The key `k` if its rule has a truthy `field`, else nothing: one step of the filter. */
  function Picked(s: Value, k: string, field: string): seq<string> {
    if Wants(s, k, field) then [k] else []
  }

  function FilterTruthy(s: Value, ks: seq<string>, field: string): seq<string> {
    if ks == [] then [] else Picked(s, ks[0], field) + FilterTruthy(s, ks[1..], field)
  }

  /** The check that a truthy `field` of the rules of `k` asks for. */
  function RuleCheck(field: string, k: string, s: Value): Validator {
    if field == "required" then ValidateObjHasKey(k)
    else if field == "type" then ValidateObjPropHasType(Get(Rule(s, k), "type"), k)
    else ValidateObjPropPasses(Get(Rule(s, k), "validator"), k)
  }

  function MapRuleCheck(field: string, ks: seq<string>, s: Value): seq<Validator> {
    seq(|ks|, i requires 0 <= i < |ks| => RuleCheck(field, ks[i], s))
  }

  /** Reference definition: one check per key with a truthy `field`, in key order. */
  function ChecksFor(s: Value, field: string): seq<Validator> {
    MapRuleCheck(field, KeysWhere(s, field), s)
  }

  /** `map(validateObjHasKey, filter(k => !!schema[k].required, keys(schema)))`. */
  function RequiredChecks(s: Value): seq<Validator> {
    var ks := FilterTruthy(s, Keys(s), "required");
    seq(|ks|, i requires 0 <= i < |ks| => ValidateObjHasKey(ks[i]))
  }

  /** One step of the `reduce` that builds the type and the custom-validator checks. */
  function AppendRuleCheck(acc: seq<Validator>, k: string, s: Value, field: string): seq<Validator> {
    if Wants(s, k, field) then acc + [RuleCheck(field, k, s)] else acc
  }

  function ReduceRuleChecks(acc: seq<Validator>, ks: seq<string>, s: Value, field: string): seq<Validator>
    decreases ks
  {
    if ks == [] then acc else ReduceRuleChecks(AppendRuleCheck(acc, ks[0], s, field), ks[1..], s, field)
  }

  function TypeChecks(s: Value): seq<Validator> {
    ReduceRuleChecks([], Keys(s), s, "type")
  }

  function ValidatorChecks(s: Value): seq<Validator> {
    ReduceRuleChecks([], Keys(s), s, "validator")
  }

  /**
   * `fromObjectSchema`: for a schema that passes the meta-schema, is-object and the
   * three `all` lists; otherwise the single always-failing schema-error validator.
   */
  function FromObjectSchema(atoms: Atoms, schema: Value): (vs: seq<Validator>)
    ensures IsOK(ValidateAsObjectSchema(atoms, WithDefault(schema))) ==>
              |vs| == 4 && vs[0] == ValidateIsObject && vs[1].All? && vs[2].All? && vs[3].All?
    ensures IsErr(ValidateAsObjectSchema(atoms, WithDefault(schema))) ==> |vs| == 1 && vs[0].AlwaysErr?
  {
    var s := WithDefault(schema);
    var schemaResult := ValidateAsObjectSchema(atoms, s);
    if IsErr(schemaResult) then ProcessSchemaError(schemaResult)
    else [ValidateIsObject, All(RequiredChecks(s)), All(TypeChecks(s)), All(ValidatorChecks(s))]
  }

  /** `fromObjectSchemaStrict`: the checks of `fromObjectSchema`, then an only-these-keys check, last. */
  function FromObjectSchemaStrict(atoms: Atoms, schema: Value): (strict: seq<Validator>)
    ensures var base := FromObjectSchema(atoms, schema);
      && |strict| == |base| + 1
      && strict[..|base|] == base
      && strict[|base|] == ValidateObjOnlyHasKeys(Keys(WithDefault(schema)))
  {
    var s := WithDefault(schema);
    assert FromObjectSchema(atoms, s) == FromObjectSchema(atoms, schema);
    FromObjectSchema(atoms, s) + [ValidateObjOnlyHasKeys(Keys(s))]
  }

  /** `objectValidator`: the strict checks, run until the first failure, the only-these-keys check last. */
  function ObjectValidator(atoms: Atoms, schema: Value): (v: Validator)
    ensures v.AllWhileOK? && |v.checks| >= 2
    ensures v.checks[|v.checks| - 1] == ValidateObjOnlyHasKeys(Keys(WithDefault(schema)))
  {
    AllWhileOK(FromObjectSchemaStrict(atoms, schema))
  }

  // ----- Compiling an array schema -----

  /** The item check that the array-schema key `k` asks for. */
  function ArrayItemCheck(k: string, s: Value): Validator {
    if k == "type" then ValidateArrayItemsHaveType(Get(s, k)) else ValidateArrayItemsPass(Get(s, k))
  }

  /** Whether the array-schema key `k` asks for an item check: `type` or `validator`, with a truthy value. */
  predicate AsksItemCheck(s: Value, k: string) {
    (k == "type" || k == "validator") && Truthy(Get(s, k))
  }

  /** The key `k` if it asks for an item check, else nothing: one step of the filter. */
  function ItemPicked(s: Value, k: string): seq<string> {
    if AsksItemCheck(s, k) then [k] else []
  }

  /** The keys of an array schema, in order, that ask for an item check. */
  function ArrayCheckKeys(s: Value, ks: seq<string>): seq<string>
  {
    if ks == [] then [] else ItemPicked(s, ks[0]) + ArrayCheckKeys(s, ks[1..])
  }

  /** One step of the `reduce` in `fromArraySchema`. */
  function AppendItemCheck(acc: seq<Validator>, k: string, s: Value): seq<Validator> {
    if AsksItemCheck(s, k) then acc + [ArrayItemCheck(k, s)] else acc
  }

  function ReduceItemChecks(acc: seq<Validator>, ks: seq<string>, s: Value): seq<Validator>
    decreases ks
  {
    if ks == [] then acc else ReduceItemChecks(AppendItemCheck(acc, ks[0], s), ks[1..], s)
  }

  /**
   * `fromArraySchema`: for a schema that passes, is-array followed by the item
   * checks; otherwise the single always-failing schema-error validator.
   */
  function FromArraySchema(atoms: Atoms, schema: Value): (vs: seq<Validator>)
    ensures vs != []
    ensures vs[0] == ValidateIsArray <==> IsOK(ValidateAsArraySchema(atoms, WithDefault(schema)))
    ensures IsErr(ValidateAsArraySchema(atoms, WithDefault(schema))) ==> |vs| == 1 && vs[0].AlwaysErr?
  {
    var s := WithDefault(schema);
    var schemaResult := ValidateAsArraySchema(atoms, s);
    if IsErr(schemaResult) then ProcessSchemaError(schemaResult)
    else [ValidateIsArray] + ReduceItemChecks([], Keys(s), s)
  }

  /** `arrayValidator`: the array checks, run until the first failure. */
  function ArrayValidator(atoms: Atoms, schema: Value): (v: Validator)
    ensures v.AllWhileOK? && v.checks != []
    ensures v.checks[0] == ValidateIsArray <==> IsOK(ValidateAsArraySchema(atoms, WithDefault(schema)))
  {
    AllWhileOK(FromArraySchema(atoms, schema))
  }

  // ----- The compiled lists -----

  /** The filter keeps exactly the given keys whose rule has a truthy `field`. */
  lemma {:induction false} FilterTruthyMembers(s: Value, ks: seq<string>, field: string)
    ensures forall k :: k in FilterTruthy(s, ks, field) <==> k in ks && Truthy(Get(Rule(s, k), field))
    decreases ks
  {
    if ks != [] {
      FilterTruthyMembers(s, ks[1..], field);
      assert ks == [ks[0]] + ks[1..];
    }
  }

  /** Exactly the given keys `type` and `validator` with a truthy value ask for an item check. */
  lemma {:induction false} ArrayCheckKeysMembers(s: Value, ks: seq<string>)
    ensures forall k :: k in ArrayCheckKeys(s, ks) <==> k in ks && (k == "type" || k == "validator") && Truthy(Get(s, k))
    decreases ks
  {
    if ks != [] {
      ArrayCheckKeysMembers(s, ks[1..]);
      assert ks == [ks[0]] + ks[1..];
    }
  }

  lemma MapRuleCheckAppend(field: string, xs: seq<string>, ys: seq<string>, s: Value)
    ensures MapRuleCheck(field, xs + ys, s) == MapRuleCheck(field, xs, s) + MapRuleCheck(field, ys, s)
  {
    var l, r := MapRuleCheck(field, xs + ys, s), MapRuleCheck(field, xs, s) + MapRuleCheck(field, ys, s);
    assert |l| == |r|;
    forall i | 0 <= i < |l| ensures l[i] == r[i] {
      if i >= |xs| {
        assert (xs + ys)[i] == ys[i - |xs|];
      }
    }
  }

  lemma AppendRuleCheckPicked(acc: seq<Validator>, k: string, s: Value, field: string)
    ensures AppendRuleCheck(acc, k, s, field) == acc + MapRuleCheck(field, Picked(s, k, field), s)
  {
    if Wants(s, k, field) {
      assert MapRuleCheck(field, [k], s) == [RuleCheck(field, k, s)];
    } else {
      assert MapRuleCheck(field, [], s) == [];
    }
  }

  lemma {:induction false} ReduceRuleChecksSpec(acc: seq<Validator>, ks: seq<string>, s: Value, field: string)
    ensures ReduceRuleChecks(acc, ks, s, field) == acc + MapRuleCheck(field, FilterTruthy(s, ks, field), s)
    decreases ks
  {
    if ks == [] {
      assert MapRuleCheck(field, [], s) == [];
    } else {
      var k, rest := ks[0], ks[1..];
      var pick, tail := Picked(s, k, field), FilterTruthy(s, rest, field);
      var m1, m2 := MapRuleCheck(field, pick, s), MapRuleCheck(field, tail, s);
      calc {
        ReduceRuleChecks(acc, ks, s, field);
        ReduceRuleChecks(AppendRuleCheck(acc, k, s, field), rest, s, field);
        { ReduceRuleChecksSpec(AppendRuleCheck(acc, k, s, field), rest, s, field); }
        AppendRuleCheck(acc, k, s, field) + m2;
        { AppendRuleCheckPicked(acc, k, s, field); }
        (acc + m1) + m2;
        { ConcatAssoc(acc, m1, m2); }
        acc + (m1 + m2);
        { MapRuleCheckAppend(field, pick, tail, s); }
        acc + MapRuleCheck(field, pick + tail, s);
        { assert FilterTruthy(s, ks, field) == pick + tail; }
        acc + MapRuleCheck(field, FilterTruthy(s, ks, field), s);
      }
    }
  }

  /**
   * The required, type and custom-validator checks of `fromObjectSchema` hold one
   * check per key whose rule has a truthy `required`, `type` or `validator`, in the
   * schema's key order: the `reduce` with `append` builds the same list as the
   * `map` over a `filter`.
   */
  lemma CompiledChecks(s: Value)
    ensures RequiredChecks(s) == ChecksFor(s, "required")
    ensures TypeChecks(s) == ChecksFor(s, "type")
    ensures ValidatorChecks(s) == ChecksFor(s, "validator")
  {
    var l, r := RequiredChecks(s), ChecksFor(s, "required");
    assert |l| == |r|;
    forall i | 0 <= i < |l| ensures l[i] == r[i] {
    }
    ReduceRuleChecksSpec([], Keys(s), s, "type");
    ReduceRuleChecksSpec([], Keys(s), s, "validator");
  }

  /** Which keys get a check, and what the i-th check of a category is. */
  lemma ChecksForSpec(s: Value, field: string, k: string)
    ensures k in KeysWhere(s, field) <==> HasKey(s, k) && Truthy(Get(Rule(s, k), field))
    ensures |ChecksFor(s, field)| == |KeysWhere(s, field)|
    ensures forall i :: 0 <= i < |KeysWhere(s, field)| ==>
              ChecksFor(s, field)[i] == RuleCheck(field, KeysWhere(s, field)[i], s)
  {
    FilterTruthyMembers(s, Keys(s), field);
  }

  /**
   * A schema that passes `validateAsObjectSchema` compiles to exactly four
   * validators: is-object, then `all` of the required, type and custom checks.
   */
  lemma FromObjectSchemaWellFormed(atoms: Atoms, schema: Value)
    requires IsOK(ValidateAsObjectSchema(atoms, WithDefault(schema)))
    ensures var s := WithDefault(schema);
      FromObjectSchema(atoms, schema) ==
        [ValidateIsObject, All(ChecksFor(s, "required")), All(ChecksFor(s, "type")), All(ChecksFor(s, "validator"))]
  {
    CompiledChecks(WithDefault(schema));
  }

  /**
   * A malformed schema compiles to exactly one validator, which fails on every
   * input with the schema's own messages, each prefixed by "Schema error: ".
   */
  lemma FromObjectSchemaMalformed(atoms: Atoms, schema: Value, x: Value)
    requires IsErr(ValidateAsObjectSchema(atoms, WithDefault(schema)))
    ensures var vs := FromObjectSchema(atoms, schema);
      var es := GetErrors(ValidateAsObjectSchema(atoms, WithDefault(schema)));
      && |vs| == 1
      && IsErr(Run(atoms, vs[0], x))
      && |GetErrors(Run(atoms, vs[0], x))| == |es|
      && forall i :: 0 <= i < |es| ==> GetErrors(Run(atoms, vs[0], x))[i] == "Schema error: " + es[i]
  {
  }

  /**
   * A missing schema is the empty object: with an is-object check that accepts `{}`,
   * `fromObjectSchema()` gives is-object and three empty `all` lists, the strict form
   * adds an only-keys check allowing no key, and `fromArraySchema()` is just is-array.
   */
  lemma MissingSchema(atoms: Atoms)
    requires IsOK(atoms(ValidateIsObject, Obj([])))
    ensures FromObjectSchema(atoms, Undefined) == [ValidateIsObject, All([]), All([]), All([])]
    ensures FromObjectSchemaStrict(atoms, Undefined) ==
              [ValidateIsObject, All([]), All([]), All([]), ValidateObjOnlyHasKeys([])]
    ensures FromArraySchema(atoms, Undefined) == [ValidateIsArray]
  {
    var s := Obj([]);
    assert FieldResults(atoms, []) == [];
    assert Keys(s) == [];
    assert RuleChecks([]) == [];
    assert [ValidateIsObject] + RuleChecks([]) == [ValidateIsObject];
    RunEachSpec(atoms, [ValidateIsObject], s);
    assert IsOK(ValidateAsSchemaRules(atoms, s));
    assert MapRuleCheck("required", [], s) == [];
    CompiledChecks(s);
  }

  function MapItemCheck(ks: seq<string>, s: Value): seq<Validator> {
    seq(|ks|, i requires 0 <= i < |ks| => ArrayItemCheck(ks[i], s))
  }

  lemma MapItemCheckAppend(xs: seq<string>, ys: seq<string>, s: Value)
    ensures MapItemCheck(xs + ys, s) == MapItemCheck(xs, s) + MapItemCheck(ys, s)
  {
    var l, r := MapItemCheck(xs + ys, s), MapItemCheck(xs, s) + MapItemCheck(ys, s);
    assert |l| == |r|;
    forall i | 0 <= i < |l| ensures l[i] == r[i] {
      if i >= |xs| {
        assert (xs + ys)[i] == ys[i - |xs|];
      }
    }
  }

  lemma AppendItemCheckPicked(acc: seq<Validator>, k: string, s: Value)
    ensures AppendItemCheck(acc, k, s) == acc + MapItemCheck(ItemPicked(s, k), s)
  {
    if AsksItemCheck(s, k) {
      assert MapItemCheck([k], s) == [ArrayItemCheck(k, s)];
    } else {
      assert MapItemCheck([], s) == [];
    }
  }

  lemma {:induction false} ReduceItemChecksSpec(acc: seq<Validator>, ks: seq<string>, s: Value)
    ensures ReduceItemChecks(acc, ks, s) == acc + MapItemCheck(ArrayCheckKeys(s, ks), s)
    decreases ks
  {
    if ks == [] {
      assert MapItemCheck([], s) == [];
    } else {
      var k, rest := ks[0], ks[1..];
      var pick, tail := ItemPicked(s, k), ArrayCheckKeys(s, rest);
      var m1, m2 := MapItemCheck(pick, s), MapItemCheck(tail, s);
      calc {
        ReduceItemChecks(acc, ks, s);
        ReduceItemChecks(AppendItemCheck(acc, k, s), rest, s);
        { ReduceItemChecksSpec(AppendItemCheck(acc, k, s), rest, s); }
        AppendItemCheck(acc, k, s) + m2;
        { AppendItemCheckPicked(acc, k, s); }
        (acc + m1) + m2;
        { ConcatAssoc(acc, m1, m2); }
        acc + (m1 + m2);
        { MapItemCheckAppend(pick, tail, s); }
        acc + MapItemCheck(pick + tail, s);
        { assert ArrayCheckKeys(s, ks) == pick + tail; }
        acc + MapItemCheck(ArrayCheckKeys(s, ks), s);
      }
    }
  }

  /**
   * A well-formed array schema compiles to is-array first, then one item check per
   * key `type` or `validator` with a truthy value, in the schema's key order.
   */
  lemma FromArraySchemaWellFormed(atoms: Atoms, schema: Value)
    requires IsOK(ValidateAsArraySchema(atoms, WithDefault(schema)))
    ensures var s := WithDefault(schema);
      var vs, kk := FromArraySchema(atoms, schema), ArrayCheckKeys(s, Keys(s));
      && |vs| == 1 + |kk|
      && vs[0] == ValidateIsArray
      && forall i :: 0 <= i < |kk| ==> vs[i + 1] == ArrayItemCheck(kk[i], s)
  {
    var s := WithDefault(schema);
    ReduceItemChecksSpec([], Keys(s), s);
  }

  /** A malformed array schema compiles to one validator that always fails with prefixed messages. */
  lemma FromArraySchemaMalformed(atoms: Atoms, schema: Value, x: Value)
    requires IsErr(ValidateAsArraySchema(atoms, WithDefault(schema)))
    ensures var vs := FromArraySchema(atoms, schema);
      var es := GetErrors(ValidateAsArraySchema(atoms, WithDefault(schema)));
      && |vs| == 1
      && IsErr(Run(atoms, vs[0], x))
      && |GetErrors(Run(atoms, vs[0], x))| == |es|
      && forall i :: 0 <= i < |es| ==> GetErrors(Run(atoms, vs[0], x))[i] == "Schema error: " + es[i]
  {
  }

  // ----- The meta-schema, for atomic validators that conform -----

  /** The condition that the check of rule key `k` asks of the rules record. */
  predicate RuleKeyOK(rules: Value, k: string) {
    && (k == "required" ==> TypeOf(Get(rules, k)) == "boolean")
    && (k == "type" ==> TypeOf(Get(rules, k)) == "string")
    && (k == "validator" ==> TypeOf(Get(rules, k)) == "function")
  }

  lemma RuleKeyCheck(atoms: Atoms, rules: Value, k: string)
    requires Conforms(atoms) && rules.Obj? && HasKey(rules, k)
    ensures IsOK(Run(atoms, ConvertSchemaRuleToValidator(k), rules)) <==> RuleKeyOK(rules, k)
  {
  }

  /** On an object, the is-object step passes and the check of key k passes iff that key's condition holds. */
  lemma RuleStepsSpec(atoms: Atoms, rules: Value)
    requires Conforms(atoms) && rules.Obj?
    ensures IsOK(Run(atoms, ValidateIsObject, rules))
    ensures var ks := Keys(rules);
      forall i :: 0 <= i < |ks| ==>
        (IsOK(Run(atoms, ConvertSchemaRuleToValidator(ks[i]), rules)) <==> RuleKeyOK(rules, ks[i]))
  {
    var ks := Keys(rules);
    assert IsOK(atoms(ValidateIsObject, rules));
    forall i | 0 <= i < |ks|
      ensures IsOK(Run(atoms, ConvertSchemaRuleToValidator(ks[i]), rules)) <==> RuleKeyOK(rules, ks[i])
    {
      assert HasKey(rules, ks[i]);
      RuleKeyCheck(atoms, rules, ks[i]);
    }
  }

  /** On an object, being well formed is every key meeting its condition. */
  lemma WellFormedRulesByKeys(rules: Value)
    requires rules.Obj?
    ensures WellFormedRules(rules) <==> forall i :: 0 <= i < |Keys(rules)| ==> RuleKeyOK(rules, Keys(rules)[i])
  {
    var ks := Keys(rules);
    if !WellFormedRules(rules) {
      var k := if HasKey(rules, "required") && TypeOf(Get(rules, "required")) != "boolean" then "required"
               else if HasKey(rules, "type") && TypeOf(Get(rules, "type")) != "string" then "type"
               else "validator";
      var i :| 0 <= i < |ks| && ks[i] == k;
      assert !RuleKeyOK(rules, ks[i]);
    }
  }

  /** A failing rules check on an object is the Result of the first key whose condition fails. */
  lemma RulesFirstFailure(atoms: Atoms, rules: Value)
    requires rules.Obj? && IsErr(ValidateAsSchemaRules(atoms, rules))
    requires IsOK(Run(atoms, ValidateIsObject, rules))
    requires var ks := Keys(rules);
      forall i :: 0 <= i < |ks| ==>
        (IsOK(Run(atoms, ConvertSchemaRuleToValidator(ks[i]), rules)) <==> RuleKeyOK(rules, ks[i]))
    ensures var ks := Keys(rules);
      exists i :: 0 <= i < |ks| && !RuleKeyOK(rules, ks[i])
        && ValidateAsSchemaRules(atoms, rules) == atoms(ConvertSchemaRuleToValidator(ks[i]), rules)
        && forall j :: 0 <= j < i ==> RuleKeyOK(rules, ks[j])
  {
    var ks := Keys(rules);
    var cs := RuleChecks(ks);
    AllWhileOKCons(atoms, ValidateIsObject, cs, rules);
    AllWhileOKSpec(atoms, cs, rules);
    var i :| 0 <= i < |cs| && ValidateAsSchemaRules(atoms, rules) == Run(atoms, cs[i], rules)
              && forall j :: 0 <= j < i ==> IsOK(Run(atoms, cs[j], rules));
    assert cs[i] == ConvertSchemaRuleToValidator(ks[i]);
    assert !RuleKeyOK(rules, ks[i]);
    assert Run(atoms, cs[i], rules) == atoms(cs[i], rules);
    forall j | 0 <= j < i ensures RuleKeyOK(rules, ks[j]) {
      assert IsOK(Run(atoms, cs[j], rules));
    }
  }

  /**
   * A rules record passes iff it is an object whose `required`, `type` and
   * `validator`, where present, are a boolean, a string and a function; any other
   * key passes. When it fails on an object, the Result is that of the first key in
   * key order whose check fails.
   */
  lemma ValidateAsSchemaRulesSpec(atoms: Atoms, rules: Value)
    requires Conforms(atoms)
    ensures IsOK(ValidateAsSchemaRules(atoms, rules)) <==> WellFormedRules(rules)
    ensures var ks := Keys(rules);
      rules.Obj? && IsErr(ValidateAsSchemaRules(atoms, rules)) ==>
        exists i :: 0 <= i < |ks| && !RuleKeyOK(rules, ks[i])
          && ValidateAsSchemaRules(atoms, rules) == atoms(ConvertSchemaRuleToValidator(ks[i]), rules)
          && forall j :: 0 <= j < i ==> RuleKeyOK(rules, ks[j])
  {
    var ks := Keys(rules);
    var cs := RuleChecks(ks);
    AllWhileOKCons(atoms, ValidateIsObject, cs, rules);
    if !rules.Obj? {
      assert !IsOK(Run(atoms, ValidateIsObject, rules));
    } else {
      RuleStepsSpec(atoms, rules);
      WellFormedRulesByKeys(rules);
      AllWhileOKSpec(atoms, cs, rules);
      assert forall i :: 0 <= i < |cs| ==> cs[i] == ConvertSchemaRuleToValidator(ks[i]);
      if IsErr(ValidateAsSchemaRules(atoms, rules)) {
        RulesFirstFailure(atoms, rules);
      }
    }
  }

  /**
   * An object schema passes `validateAsObjectSchema` iff it is an object and every
   * field's rules record is well formed.
   */
  lemma ValidateAsObjectSchemaSpec(atoms: Atoms, s: Value)
    requires Conforms(atoms)
    ensures IsOK(ValidateAsObjectSchema(atoms, s)) <==> WellFormedObjectSchema(s)
  {
    var a := Run(atoms, ValidateIsObject, s);
    assert IsOK(a) <==> IsObject(s);
    var fields := if s.Obj? then s.fields else [];
    var rs := FieldResults(atoms, fields);
    FirstErrPair(a, ConcatResults(rs));
    ConcatResultsSpec(rs);
    if s.Obj? {
      forall i | 0 <= i < |fields|
        ensures IsOK(rs[i]) <==> WellFormedRules(fields[i].1)
      {
        ValidateAsSchemaRulesSpec(atoms, fields[i].1);
      }
    }
  }

  /** An array schema passes `validateAsArraySchema` iff it is a well-formed rules record. */
  lemma ValidateAsArraySchemaSpec(atoms: Atoms, s: Value)
    requires Conforms(atoms)
    ensures IsOK(ValidateAsArraySchema(atoms, s)) <==> WellFormedRules(s)
  {
    var a := Run(atoms, ValidateIsObject, s);
    assert IsOK(a) <==> IsObject(s);
    FirstErrPair(a, ValidateAsSchemaRules(atoms, s));
    ValidateAsSchemaRulesSpec(atoms, s);
  }

  // ----- The compiled validators, for atomic validators that conform -----

  /** Every field of a well-formed object schema has a well-formed rules record. */
  lemma RuleOfWellFormed(s: Value, k: string)
    requires WellFormedObjectSchema(s) && HasKey(s, k)
    ensures WellFormedRules(Rule(s, k))
  {
    var r := Lookup(s.fields, k);
    var i :| 0 <= i < |s.fields| && s.fields[i] == (k, r);
  }

  /**
   * In a well-formed object schema a truthy `type` rule is a type name, and its
   * check on a field that is present is the type test of `typechecks`.
   */
  lemma TypeCheckMeaning(atoms: Atoms, s: Value, k: string, x: Value)
    requires Conforms(atoms) && WellFormedObjectSchema(s)
    requires k in KeysWhere(s, "type") && x.Obj? && HasKey(x, k)
    ensures Get(Rule(s, k), "type").Str?
    ensures IsOK(Run(atoms, RuleCheck("type", k, s), x)) <==> Typechecks(Get(x, k), Get(Rule(s, k), "type").s)
  {
    FilterTruthyMembers(s, Keys(s), "type");
    RuleOfWellFormed(s, k);
    var rules := Rule(s, k);
    assert HasKey(rules, "type");
  }

  /** The required checks of `s` pass on an object iff every required key is present. */
  lemma RequiredChecksPass(atoms: Atoms, s: Value, x: Value)
    requires Conforms(atoms) && x.Obj?
    ensures IsOK(Run(atoms, All(ChecksFor(s, "required")), x)) <==>
              forall k :: k in KeysWhere(s, "required") ==> HasKey(x, k)
  {
    var req, rk := ChecksFor(s, "required"), KeysWhere(s, "required");
    AllSpec(atoms, req, x);
    forall i | 0 <= i < |req| ensures IsOK(Run(atoms, req[i], x)) <==> HasKey(x, rk[i]) {
      assert req[i] == ValidateObjHasKey(rk[i]);
    }
    if forall i :: 0 <= i < |req| ==> IsOK(Run(atoms, req[i], x)) {
      forall k | k in rk ensures HasKey(x, k) {
        var i :| 0 <= i < |rk| && rk[i] == k;
      }
    }
  }

  /** The checks that the strict object validator of a well-formed schema `s` runs, in order. */
  function StrictChecks(s: Value): seq<Validator> {
    [ValidateIsObject, All(ChecksFor(s, "required")), All(ChecksFor(s, "type")), All(ChecksFor(s, "validator")),
     ValidateObjOnlyHasKeys(Keys(s))]
  }

  /** A schema that passes compiles, in strict form, to the five strict checks. */
  lemma StrictListWellFormed(atoms: Atoms, schema: Value)
    requires IsOK(ValidateAsObjectSchema(atoms, WithDefault(schema)))
    ensures FromObjectSchemaStrict(atoms, schema) == StrictChecks(WithDefault(schema))
  {
    var s := WithDefault(schema);
    assert WithDefault(s) == s;
    FromObjectSchemaWellFormed(atoms, s);
  }

  /** `allWhileOK` of the five strict checks passes iff each of the five does. */
  lemma StrictChecksSteps(atoms: Atoms, s: Value, x: Value)
    ensures var vs := StrictChecks(s);
      IsOK(Run(atoms, AllWhileOK(vs), x)) <==>
        && IsOK(Run(atoms, vs[0], x)) && IsOK(Run(atoms, vs[1], x)) && IsOK(Run(atoms, vs[2], x))
        && IsOK(Run(atoms, vs[3], x)) && IsOK(Run(atoms, vs[4], x))
  {
    var vs := StrictChecks(s);
    AllWhileOKSpec(atoms, vs, x);
    assert |vs| == 5;
  }

  lemma StrictChecksPass(atoms: Atoms, s: Value, x: Value)
    requires Conforms(atoms)
    ensures IsOK(Run(atoms, AllWhileOK(StrictChecks(s)), x)) <==>
        && IsObject(x)
        && (forall k :: k in KeysWhere(s, "required") ==> HasKey(x, k))
        && (forall i :: 0 <= i < |ChecksFor(s, "type")| ==> IsOK(Run(atoms, ChecksFor(s, "type")[i], x)))
        && (forall i :: 0 <= i < |ChecksFor(s, "validator")| ==> IsOK(Run(atoms, ChecksFor(s, "validator")[i], x)))
        && (forall k :: k in Keys(x) ==> k in Keys(s))
  {
    StrictChecksSteps(atoms, s, x);
    assert IsOK(Run(atoms, ValidateIsObject, x)) <==> IsObject(x);
    AllSpec(atoms, ChecksFor(s, "type"), x);
    AllSpec(atoms, ChecksFor(s, "validator"), x);
    if x.Obj? {
      RequiredChecksPass(atoms, s, x);
      assert IsOK(Run(atoms, ValidateObjOnlyHasKeys(Keys(s)), x)) <==> forall k :: k in Keys(x) ==> k in Keys(s);
    }
  }

  /**
   * `objectValidator(schema)` accepts `x` iff the schema is well formed, `x` is an
   * object, every required key is present, every type and custom-validator check
   * passes, and `x` has no key the schema does not mention.
   */
  lemma ObjectValidatorSpec(atoms: Atoms, schema: Value, x: Value)
    requires Conforms(atoms)
    ensures var s := WithDefault(schema);
      IsOK(Run(atoms, ObjectValidator(atoms, schema), x)) <==>
        && WellFormedObjectSchema(s)
        && IsObject(x)
        && (forall k :: k in KeysWhere(s, "required") ==> HasKey(x, k))
        && (forall i :: 0 <= i < |ChecksFor(s, "type")| ==> IsOK(Run(atoms, ChecksFor(s, "type")[i], x)))
        && (forall i :: 0 <= i < |ChecksFor(s, "validator")| ==> IsOK(Run(atoms, ChecksFor(s, "validator")[i], x)))
        && (forall k :: k in Keys(x) ==> k in Keys(s))
  {
    var s := WithDefault(schema);
    assert WithDefault(s) == s;
    ValidateAsObjectSchemaSpec(atoms, s);
    if IsErr(ValidateAsObjectSchema(atoms, s)) {
      ObjectValidatorMalformed(atoms, schema, x);
    } else {
      StrictListWellFormed(atoms, schema);
      StrictChecksPass(atoms, s, x);
    }
  }

  /** A malformed object schema gives a validator that fails every input with the prefixed schema messages. */
  lemma ObjectValidatorMalformed(atoms: Atoms, schema: Value, x: Value)
    requires IsErr(ValidateAsObjectSchema(atoms, WithDefault(schema)))
    ensures Run(atoms, ObjectValidator(atoms, schema), x) ==
              Err(PrefixAll(GetErrors(ValidateAsObjectSchema(atoms, WithDefault(schema)))), None, Absent)
  {
    var s := WithDefault(schema);
    var vs := FromObjectSchemaStrict(atoms, schema);
    assert WithDefault(s) == s;
    var es := PrefixAll(GetErrors(ValidateAsObjectSchema(atoms, s)));
    assert vs == [AlwaysErr(es)] + [ValidateObjOnlyHasKeys(Keys(s))];
    AllWhileOKCons(atoms, AlwaysErr(es), [ValidateObjOnlyHasKeys(Keys(s))], x);
  }

  /** For a well-formed array schema, the compiled list passes iff is-array and every item check pass. */
  lemma ArrayChecksPass(atoms: Atoms, s: Value, x: Value)
    requires !s.Undefined? && IsOK(ValidateAsArraySchema(atoms, s))
    ensures var kk := ArrayCheckKeys(s, Keys(s));
      IsOK(Run(atoms, AllWhileOK(FromArraySchema(atoms, s)), x)) <==>
        IsOK(Run(atoms, ValidateIsArray, x)) && forall i :: 0 <= i < |kk| ==> IsOK(Run(atoms, ArrayItemCheck(kk[i], s), x))
  {
    var kk := ArrayCheckKeys(s, Keys(s));
    var cs := MapItemCheck(kk, s);
    ReduceItemChecksSpec([], Keys(s), s);
    assert ReduceItemChecks([], Keys(s), s) == cs;
    assert FromArraySchema(atoms, s) == [ValidateIsArray] + cs;
    AllWhileOKCons(atoms, ValidateIsArray, cs, x);
    ItemChecksPass(atoms, kk, s, x);
  }

  /** The item checks, run until the first failure, pass iff each of them does. */
  lemma ItemChecksPass(atoms: Atoms, kk: seq<string>, s: Value, x: Value)
    ensures IsOK(Run(atoms, AllWhileOK(MapItemCheck(kk, s)), x)) <==>
              forall i :: 0 <= i < |kk| ==> IsOK(Run(atoms, ArrayItemCheck(kk[i], s), x))
  {
    var cs := MapItemCheck(kk, s);
    AllWhileOKSpec(atoms, cs, x);
    assert forall i :: 0 <= i < |kk| ==> cs[i] == ArrayItemCheck(kk[i], s);
  }

  /**
   * `arrayValidator(schema)` accepts `x` iff the schema is a well-formed rules
   * record, `x` is an array, and every item check the schema asks for passes.
   */
  lemma ArrayValidatorSpec(atoms: Atoms, schema: Value, x: Value)
    requires Conforms(atoms)
    ensures var s := WithDefault(schema);
      var kk := ArrayCheckKeys(s, Keys(s));
      IsOK(Run(atoms, ArrayValidator(atoms, schema), x)) <==>
        && WellFormedRules(s)
        && IsArray(x)
        && (forall i :: 0 <= i < |kk| ==> IsOK(Run(atoms, ArrayItemCheck(kk[i], s), x)))
  {
    var s := WithDefault(schema);
    assert FromArraySchema(atoms, schema) == FromArraySchema(atoms, s);
    ValidateAsArraySchemaSpec(atoms, s);
    if IsErr(ValidateAsArraySchema(atoms, s)) {
      var es := PrefixAll(GetErrors(ValidateAsArraySchema(atoms, s)));
      assert FromArraySchema(atoms, s) == [AlwaysErr(es)] + [];
      AllWhileOKCons(atoms, AlwaysErr(es), [], x);
    } else {
      ArrayChecksPass(atoms, s, x);
      assert IsOK(Run(atoms, ValidateIsArray, x)) <==> IsArray(x);
    }
  }

  /** Example: the strict validator of `{ a: { type: 'number' } }` rejects `{ a: 1, b: 2 }`, whose key `b` is undeclared. */
  lemma StrictRejectsExtraKey(atoms: Atoms)
    requires Conforms(atoms)
    ensures var schema := Obj([("a", Obj([("type", Str("number"))]))]);
      IsErr(Run(atoms, ObjectValidator(atoms, schema), Obj([("a", Num(1)), ("b", Num(2))])))
  {
    var schema := Obj([("a", Obj([("type", Str("number"))]))]);
    var x := Obj([("a", Num(1)), ("b", Num(2))]);
    assert WithDefault(schema) == schema;
    assert !(forall k :: k in Keys(x) ==> k in Keys(schema)) by {
      assert "b" in Keys(x) && "b" !in Keys(schema);
    }
    ObjectValidatorSpec(atoms, schema, x);
    ValidityExclusive(Run(atoms, ObjectValidator(atoms, schema), x), None, None, Absent);
  }

  /**
   * Only top-level messages reach the schema-error validator, and `buildObjRes`
   * nests a field's failure under its key with no message of its own. So the strict
   * validator of `{name: {required: "yes"}}` fails every value with no message at all.
   */
  lemma MalformedFieldIsSilent(atoms: Atoms, x: Value)
    requires Conforms(atoms)
    ensures var schema := Obj([("name", Obj([("required", Str("yes"))]))]);
      Run(atoms, ObjectValidator(atoms, schema), x) == Err([], None, Absent)
  {
    var rules := Obj([("required", Str("yes"))]);
    var schema := Obj([("name", rules)]);
    ValidateAsSchemaRulesSpec(atoms, rules);
    assert Keys(rules) == ["required"] && Get(rules, "required") == Str("yes");
    var field := BuildObjRes("name", ValidateAsSchemaRules(atoms, rules));
    assert FieldResults(atoms, schema.fields) == [field];
    ConcatResultsSnoc([], field);
    assert IsErr(ValidateAsObjectSchema(atoms, schema));
    assert GetErrors(ValidateAsObjectSchema(atoms, schema)) == [];
    ObjectValidatorMalformed(atoms, schema, x);
  }
}
