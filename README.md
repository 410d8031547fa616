# schema-validator, modelled in Dafny

A model of the core of `schema-validator`, a small JavaScript library that
checks values against declarative schemas. The model has three parts.

- **The validation-result algebra** (`ResultAlgebra`, `result.dfy`).
  - A `Result` is `Ok` or an `Err`. An `Err` carries an ordered list of messages, an optional `type` tag and optional `items`.
  - `items` maps keys to nested Results. It is held as an association list, because key order is observable in JavaScript.
  - The operations are `err` (`MakeErr`), `isOK`/`isErr`, `mapErrors`, `mergeResults` and `concatResults`.
  - The laws are proved from their definitions, including the associativity of the deep `mergeResults`.
- **The type predicates** (`Helpers`, `helpers.dfy`): `isISOString`, `isDate`, `isObject`, `isArray` and `typechecks`.
  - They work over a small model of JavaScript values (`Values`, `values.dfy`).
  - The ISO-timestamp regular expression is implemented as a scanner. The scanner is proved equal to a declarative definition: "some substring belongs to the timestamp language".
- **The schema compiler** (`Schema`, `schema.dfy`).
  - A schema is first checked against the meta-schema. Each rule must be an object whose `required`, `type` and `validator` are a boolean, a string and a function.
  - A malformed schema compiles to one validator that always fails with `"Schema error: "`-prefixed messages.
  - A well-formed schema compiles to a fixed-order list of validators, which `objectValidator`/`arrayValidator` run with short-circuit `allWhileOK`.

The compiled validators are data: the `Validator` datatype in `Validators` (`validators.dfy`).

- `Run` gives them their meaning.
- The composition operators `all` and `allWhileOK`, and `alwaysOK`/`alwaysErr`, have concrete semantics in the model.
- The individual validators (`validateIsObject`, `validateObjHasKey`, …) are not part of this model. Their behaviour is a parameter `atoms`.
- Lemmas about what a compiled validator accepts assume `Conforms(atoms)`. This is the minimal pass/fail behaviour the compiler relies on:
  - is-object and is-array agree with `isObject`/`isArray`;
  - has-key and only-these-keys on an object agree with its keys;
  - has-type on a present key agrees with `typechecks`.

JavaScript numbers are modelled as unbounded integers. Other JavaScript runtime details are reduced to constructor tests on `Value`:

- `typeof` becomes `TypeOf`.
- `instanceof Date` becomes `DateObj`.
- `Array.isArray` becomes `Arr`.
- A user callback is `Fn(id)`.

## Model

| member | source | states |
|---|---|---|
| ResultAlgebra.MakeErr | src/lib/result.js:30-34 | `err(errors, type, items)` is always an Err; its messages are `errors`, or `[]` when omitted; tag and items are attached only when both are supplied and the tag is non-empty, otherwise neither is |
| ResultAlgebra.ValidityExclusive | src/lib/result.js:27-43 | `ok()` is OK and not Err, every `err(...)` is Err and not OK, and exactly one of `isOK`/`isErr` holds on any Result |
| ResultAlgebra.IsOK | src/lib/result.js:39-40 | a Result is OK exactly when it is `Ok` (the datatype has no undefined `valid` flag) |
| ResultAlgebra.IsErr | src/lib/result.js:42-43 | a Result is Err exactly when it is not OK |
| ResultAlgebra.GetErrors | src/lib/schema.js:30 | the top-level messages of a Result; an OK Result has none |
| ResultAlgebra.MapIndexed | src/lib/result.js:50-53 | the indexed map keeps the length and puts `f(e_i, i)` at every position i |
| ResultAlgebra.MapItems | src/lib/result.js:55-57 | mapping over items keeps exactly the same keys in the same order |
| ResultAlgebra.LookupMapItems | src/lib/result.js:55-57 | a key is present after the mapping iff before, and its entry is the mapped entry |
| ResultAlgebra.MapErrors | src/lib/result.js:47-58 | `mapErrors(f)` returns an OK Result unchanged and keeps validity both ways; an Err keeps its number of messages and loses its type tag |
| ResultAlgebra.MapErrorsErr | src/lib/result.js:47-58 | on an Err: same number of messages, message i becomes `f(e_i, i)`, the type tag is dropped, items are present iff they were, with the same keys, each mapped recursively |
| ResultAlgebra.LookupItem | src/lib/result.js:11-13 | looking up a key succeeds iff the key is among the items' keys, and returns an entry stored under it |
| ResultAlgebra.MergeIdentity | src/lib/result.js:62-64 | `ok()` is a left and a right identity of `mergeResults` |
| ResultAlgebra.MergeResults | src/lib/result.js:61-77 | the merge is OK iff both operands are; its top-level messages are the first's followed by the second's; a failing first operand keeps its tag |
| ResultAlgebra.MergeItems | src/lib/result.js:75 | `mergeWith` keeps the left side's keys first, in order, and holds a key iff either side does |
| ResultAlgebra.MergeLeft | src/lib/result.js:75 | the left pass of `mergeWith` keeps exactly the left side's keys, in order |
| ResultAlgebra.RightOnly | src/lib/result.js:75 | the right pass of `mergeWith` keeps the right side's keys that the left side lacks, in the right side's order, and no others |
| ResultAlgebra.MergeItemsLookup | src/lib/result.js:75 | in the merged items a key on one side keeps that entry, and a key on both sides holds the recursive merge |
| ResultAlgebra.MergeBothErr | src/lib/result.js:66-76 | two Errs merge to an Err with concatenated messages, the first's tag, an `items` field that is always present, the first side's keys first, and key-wise recursive merging |
| ResultAlgebra.MergeItemsAssoc | src/lib/result.js:75 | the deep key-wise merge of items is associative, order of keys included |
| ResultAlgebra.MergeAssoc | src/lib/result.js:61-77 | `mergeResults` is associative, so with `ok()` as identity it forms a monoid |
| ResultAlgebra.FoldMerge | src/lib/result.js:80 | the left fold of `mergeResults`; its laws are stated by FoldMergeSpec and FoldMergeAppend |
| ResultAlgebra.ConcatResults | src/lib/result.js:79-80 | `reduce(mergeResults, ok())`; its laws are stated by ConcatResultsSpec, ConcatResultsSnoc and ConcatResultsSplit |
| ResultAlgebra.FoldMergeSpec | src/lib/result.js:80 | a left fold of merges from any start is OK iff the start and every element are, and its messages are the start's then every element's in order |
| ResultAlgebra.ConcatResultsSpec | src/lib/result.js:79-80 | `concatResults([])` is OK; `concatResults(rs)` is OK iff every element is, and its messages are all elements' messages in order |
| ResultAlgebra.FoldMergeAppend | src/lib/result.js:80 | folding a list extended by one Result is merging the fold of the list with that Result |
| ResultAlgebra.ConcatResultsSnoc | src/lib/result.js:80 | `concatResults([r]) == r`, and appending a Result merges it onto the concatenation |
| ResultAlgebra.ConcatResultsSplit | src/lib/result.js:80 | concatenating two lists' Results is merging their separate concatenations |
| Values.TypeOf | dist/lib/helpers.js:51 | the tag is one of the six `typeof` names, and it is `"object"` exactly for null, arrays, dates and plain objects |
| Helpers.IsDate | dist/lib/helpers.js:21-23 | `isDate(v)` holds iff `v` is a Date object or a string containing an ISO timestamp |
| Helpers.IsArray | dist/lib/helpers.js:35-37 | `isArray(v)` holds only for values whose `typeof` is `"object"` and that are truthy, which is why `isObject` must rule arrays out |
| Helpers.DigitRunEnd | dist/lib/helpers.js:15 | the run of `\d+` starting at k ends at the first non-digit (or the end), and everything in between is a digit |
| Helpers.DigitRunEndAt | dist/lib/helpers.js:15 | any all-digit span from k that is followed by a non-digit or the end is the run the scanner finds |
| Helpers.MatchAtSound | dist/lib/helpers.js:15 | when the scanner matches at position i, some substring starting at i is in the timestamp language |
| Helpers.MatchAtComplete | dist/lib/helpers.js:15 | when a substring starting at i is in the timestamp language, the scanner matches at i |
| Helpers.SearchFromSpec | dist/lib/helpers.js:15 | the unanchored search from i succeeds iff the scanner matches at some position j ≥ i |
| Helpers.IsISOStringCorrect | dist/lib/helpers.js:15 | the scanner search over the whole string succeeds iff some substring is a timestamp `dddd-[01]d-[0-3]dT[0-2]d:[0-5]d:[0-5]d.d+` followed by `Z` or `[+-][0-2]d:[0-5]d` |
| Helpers.IsISOString | dist/lib/helpers.js:14-16 | `isISOString(v)` holds iff `v` is a string that contains such a timestamp anywhere; so it is false on every non-string |
| Helpers.IsObject | dist/lib/helpers.js:28-30 | `isObject(v)` holds exactly for plain objects |
| Helpers.IsObjectExcludes | dist/lib/helpers.js:28-30 | an `isObject` value is no array, no date, not null and truthy |
| Helpers.ShapesDisjoint | dist/lib/helpers.js:21-37 | no value is two of array, date and object |
| Helpers.Typechecks | dist/lib/helpers.js:42-53 | `'array'`, `'object'` and `'date'` accept exactly arrays, plain objects, and Date objects or ISO strings; any other name accepts exactly the values whose `typeof` tag is that name |
| Helpers.TypecheckOverlaps | dist/lib/helpers.js:42-53 | an ISO string typechecks as both `'string'` and `'date'`; an array typechecks as `'array'` and never as `'object'` |
| Validators.Run | src/lib/schema.js:28 | `all` is `concatResults` of every validator's Result, `allWhileOK` the first Err, `alwaysOK`/`alwaysErr` fixed Results; its laws are stated by AllSpec, AllWhileOKSpec, AllWhileOKCons and AlwaysErrFails |
| Validators.RunEach | src/lib/schema.js:28 | running a list of validators on one value gives exactly one Result per validator |
| Validators.RunEachSpec | src/lib/schema.js:28 | Result i of the list is the Result of validator i |
| Validators.FirstErr | src/lib/schema.js:72 | the short-circuit result is OK iff every Result is; otherwise it is the first Err, all Results before it being OK |
| Validators.FirstErrPair | src/lib/schema.js:97 | a two-step `allWhileOK` is OK iff both steps are, else the first failing step's Result |
| Validators.FirstErrAppend | src/lib/schema.js:28 | extending the list keeps an earlier Err, and otherwise yields the new Result |
| Validators.AllSpec | src/lib/schema.js:139-144 | `all([])` is OK; `all(vs)` is OK iff every validator is, and reports every validator's messages in validator order |
| Validators.AllWhileOKSpec | src/lib/schema.js:72 | `allWhileOK([])` is OK; `allWhileOK(vs)` is OK iff every validator is, and an Err is the Result of the first failing validator |
| Validators.AllWhileOKCons | src/lib/schema.js:180-183 | `allWhileOK` on a non-empty list gives the head's Err, or else `allWhileOK` of the rest |
| Validators.AllVersusAllWhileOK | src/lib/schema.js:28 | when two validators both fail, `all` reports both sets of messages but `allWhileOK` only the first validator's Result |
| Validators.AllPair | src/lib/schema.js:28 | `all` of two validators is the merge of their two Results |
| Validators.AlwaysErrFails | src/lib/schema.js:79-84 | `alwaysErr(es)` fails on every value with exactly the messages `es`; `alwaysOK()` passes every value |
| Schema.BuildObjRes | src/lib/schema.js:46-47 | OK maps to OK; an Err `res` maps to an Err with no messages of its own, tag `'object'` and the single item `{key: res}` |
| Schema.ConvertSchemaRuleToValidator | src/lib/schema.js:53-64 | only `required`, `type` and `validator` get a check, each a has-type check on that very key; every other key gets the always-passing validator |
| Schema.ValidateAsSchemaRules | src/lib/schema.js:70-73 | the is-object check runs first: a rules record passes only if it does, and a non-object's is-object Err is the Result itself |
| Schema.RuleKeyCheck | src/lib/schema.js:53-64 | on a rules object holding key k, the check of k passes iff `required` is a boolean, `type` a string and `validator` a function, and any other key passes |
| Schema.RuleStepsSpec | src/lib/schema.js:70-73 | on an object, the is-object step passes and the check of each key passes iff that key's condition holds |
| Schema.WellFormedRulesByKeys | src/lib/schema.js:53-64 | on an object, the meta-schema condition holds iff every key of the rules record meets its own condition |
| Schema.RulesFirstFailure | src/lib/schema.js:70-73 | a failing rules check on an object is the Result of the first key, in key order, whose condition fails, every earlier key meeting its condition |
| Schema.ValidateAsSchemaRulesSpec | src/lib/schema.js:70-73 | a rules record passes iff it is an object whose `required`/`type`/`validator`, where present, have those types; on an object that fails, the Result is that of the first failing key in key order, all earlier keys passing |
| Schema.ValidateAsObjectSchema | src/lib/schema.js:90-98 | an object schema passes only if the is-object check does; on an object it passes iff is-object and the merge of every field's rules Result do; a non-object's is-object Err is the Result itself |
| Schema.ValidateAsObjectSchemaSpec | src/lib/schema.js:90-98 | an object schema passes iff it is an object and every field's rules record is well formed |
| Schema.ValidateAsArraySchema | src/lib/schema.js:103-106 | an array schema passes iff its rules check does, and a non-object's is-object Err is the Result itself |
| Schema.ValidateAsArraySchemaSpec | src/lib/schema.js:103-106 | an array schema passes iff it is itself a well-formed rules record |
| Schema.ProcessSchemaError | src/lib/schema.js:79-84 | a schema Err becomes one always-failing validator whose messages are the Err's top-level messages, each prefixed `"Schema error: "` |
| Schema.FilterTruthyMembers | src/lib/schema.js:116-119 | the filter keeps a key iff it is among the given keys and its rule has a truthy `field` |
| Schema.AppendRuleCheckPicked | src/lib/schema.js:121-137 | one step of the `reduce` appends the key's check exactly when its rule has a truthy `type` (or `validator`), and otherwise leaves the list as it is |
| Schema.ReduceRuleChecksSpec | src/lib/schema.js:121-137 | the `reduce` with `append` is the accumulator followed by one check per key with a truthy field, in key order |
| Schema.CompiledChecks | src/lib/schema.js:116-137 | the required, type and custom-validator lists are each one check per key whose rule has a truthy `required`/`type`/`validator`, in key order |
| Schema.ChecksForSpec | src/lib/schema.js:116-137 | a key gets a check of a category iff the schema has it and its rule's field is truthy; the lists have one check per such key, in order, and check i is the one that key asks for |
| Schema.FromObjectSchema | src/lib/schema.js:112-145 | a schema that passes compiles to four validators, is-object then three `all` lists; one that fails compiles to one always-failing validator |
| Schema.FromObjectSchemaWellFormed | src/lib/schema.js:139-144 | a schema that passes compiles to exactly four validators: is-object, then `all` of the required, the type and the custom checks |
| Schema.FromObjectSchemaMalformed | src/lib/schema.js:112-114 | a schema that fails compiles to exactly one validator, which fails on every input with the schema Result's messages, each prefixed `"Schema error: "` |
| Schema.FromObjectSchemaStrict | src/lib/schema.js:150-151 | the strict list is the plain list with the only-declared-keys check appended last, one longer |
| Schema.MissingSchema | src/lib/schema.js:112 | a missing schema is `{}`: four validators with three empty `all` lists, the strict form allows no key, and the array form is is-array alone |
| Schema.ArrayCheckKeysMembers | src/lib/schema.js:161-171 | a key asks for an item check iff it is `type` or `validator` with a truthy value |
| Schema.AppendItemCheckPicked | src/lib/schema.js:161-171 | one step of the `reduce` appends the item-type check for a truthy `type`, the item-validator check for a truthy `validator`, and nothing for any other key |
| Schema.ReduceItemChecksSpec | src/lib/schema.js:161-171 | the `reduce` is the accumulator followed by one item check per such key, in key order |
| Schema.FromArraySchemaWellFormed | src/lib/schema.js:157-174 | a schema that passes compiles to is-array first, then one item check per truthy `type`/`validator` key in key order; 1 + that many validators |
| Schema.FromArraySchemaMalformed | src/lib/schema.js:157-159 | a schema that fails compiles to one validator that fails everywhere with the prefixed messages |
| Schema.FromArraySchema | src/lib/schema.js:157-174 | the list is never empty, starts with is-array iff the schema passes, and is the single schema-error validator when it fails |
| Schema.RequiredChecksPass | src/lib/schema.js:116-119 | on an object, the required checks all pass iff every key whose rule is truthy-required is present |
| Schema.TypeCheckMeaning | src/lib/schema.js:121-124 | in a well-formed schema a truthy `type` rule is a type name, and its check on a present field holds iff the field typechecks |
| Schema.StrictChecksPass | src/lib/schema.js:150-151 | the five strict checks pass iff the value is an object, has every required key, passes every type and custom check, and has only declared keys |
| Schema.StrictChecksSteps | src/lib/schema.js:180-183 | `allWhileOK` of the five strict checks passes iff each of the five does |
| Schema.StrictListWellFormed | src/lib/schema.js:139-151 | a schema that passes compiles, in strict form, to is-object, the three `all` lists and the only-declared-keys check |
| Schema.ObjectValidator | src/lib/schema.js:180-183 | `objectValidator` is an `allWhileOK` of at least two checks whose last is the only-declared-keys check |
| Schema.ObjectValidatorSpec | src/lib/schema.js:180-183 | `objectValidator(schema)` accepts x iff the schema is well formed, x is an object, every required key is present, every type and custom check passes, and x has no undeclared key |
| Schema.ObjectValidatorMalformed | src/lib/schema.js:180-183 | with a malformed schema, `objectValidator` fails every value with exactly the prefixed schema messages |
| Schema.MalformedFieldIsSilent | src/lib/schema.js:46-47 | under the top-level `getErrors` of this model (see ## Left out), the strict validator of `{name: {required: "yes"}}` fails every value with no message at all, since the field's failure is nested under `items` and only top-level messages are prefixed |
| Schema.StrictRejectsExtraKey | src/lib/schema.js:150-151 | the strict validator of `{a: {type: 'number'}}` rejects `{a: 1, b: 2}` |
| Schema.ArrayChecksPass | src/lib/schema.js:189-192 | for a well-formed array schema, the compiled list passes iff is-array and every item check pass |
| Schema.ArrayValidator | src/lib/schema.js:189-192 | `arrayValidator` is an `allWhileOK` of a non-empty list that starts with is-array iff the schema passes |
| Schema.ArrayValidatorSpec | src/lib/schema.js:189-192 | `arrayValidator(schema)` accepts x iff the schema is a well-formed rules record, x is an array, and every item check the schema asks for passes |

## Left out

- The individual validators of `./validators` are not part of this model. They are the parameter `atoms`, constrained only by `Validators.Conforms` in the lemmas that need it.
  - So the item checks of array schemas and the custom-validator checks are stated as "the atom passes", never unfolded further.
  - So is a type check on a field the value lacks.
- Schema.ObjectValidatorSpec: the type and custom-validator checks are stated as the atomic validators' verdicts. The lemma does not unfold them into `typechecks` or a callback call, because those validators are not part of this model. `Schema.TypeCheckMeaning` unfolds the type check for fields that are present.
- Schema.ArrayValidatorSpec: states the item checks as the atomic validators' verdicts, for the same reason.
- `./compose` is not part of this model.
  - `all` is taken as `concatResults` over every validator's Result.
  - `allWhileOK` is taken as the first Err, else OK. Because everything is pure, evaluating the later validators is unobservable, so their laziness is not modelled.
- `./printer` is not part of this model. `getErrors` is taken as the Result's top-level messages. A malformed object schema therefore reports the prefixed top-level messages only. The messages nested under `items` (from `buildObjRes`) are not flattened.
  - `buildObjRes` gives a failing field an Err with no top-level messages of its own. So when the schema fails only because of a malformed field, the compiled validator fails every value with no message at all: `Schema.MalformedFieldIsSilent` proves `Err([], None, Absent)` for `{name: {required: "yes"}}`.
- Ramda's `compose`, `mergeWith`, `mapObjIndexed`, `addIndex`, `reduce`, `append` and `prepend` become direct recursion and sequence operations.
  - `mergeWith` keeps the left operand's keys first, then the right-only keys.
  - A missing `items` field counts as the empty map.
- The third "`valid` is undefined" state of a Result is excluded by the datatype. So the `valid !== undefined` guards of `isOK`/`isErr` always hold.
- JavaScript runtime details are reduced to constructor tests: `typeof`, `instanceof Date`, `Array.isArray`, symbols and the `_typeof` polyfill. Numbers are integers, with no floating point, NaN or `-0`.
- Object key order is the order of the field list. JavaScript's reordering of integer-like keys is not modelled.
- `keys` gives the field names of an object, the indices of an array as decimal strings, and nothing for a primitive, a date or a function, as Ramda's `keys` does. Property access on an array is not modelled: `Get` reads `undefined` there. The compiler reads properties of a schema only after the schema has passed its is-object check.
- An object is a field list, which could bind a key twice; a JavaScript object cannot. `Get` reads the first binding, while `WellFormedObjectSchema` checks every binding. The two agree on duplicate-free field lists, which are the only ones a JavaScript object gives. Likewise the `items` of a Result is an association list that could bind a key twice, and `LookupItem`, `MapErrorsErr` and `MergeItemsLookup` describe the first binding. The `items` objects that `err` and `mergeResults` build in JavaScript never repeat a key, so the first-binding laws cover every real `items` map.
- User `validator` callbacks are opaque values (`Fn(id)`). Only whether they are present and truthy matters to the compiler.
- Flow type annotations and the `module.exports` wiring are not modelled.
