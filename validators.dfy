/**
 * Validators and the two ways of composing them.
 *
 * A validator is a function from a candidate value to a Result. The validators
 * that the schema compiler assembles are named by the `Validator` datatype, and
 * `Run` gives each its meaning, so that the lists the compiler builds can be
 * compared for which checks they hold and in what order.
 *
 * The atomic checks (is-object, has-key, has-type, ...) belong to a module that is
 * not part of this model; their behaviour is a parameter `atoms`. The predicate
 * `Conforms` states the little about them that the schema compiler relies on.
 */
module Validators {
  import opened Wrappers
  import opened Values
  import opened Helpers
  import opened ResultAlgebra

  datatype Validator =
    | ValidateIsObject
    | ValidateObjHasKey(key: string)
    | ValidateObjPropHasType(typeName: Value, key: string)
    | ValidateObjPropPasses(fn: Value, key: string)
    | ValidateObjOnlyHasKeys(allowed: seq<string>)
    | ValidateIsArray
    | ValidateArrayItemsHaveType(typeName: Value)
    | ValidateArrayItemsPass(fn: Value)
    | AlwaysOK
    | AlwaysErr(errors: Errors)
    | All(checks: seq<Validator>)
    | AllWhileOK(checks: seq<Validator>)

  /** The behaviour of the atomic validators (every constructor above but the last four). */
  type Atoms = (Validator, Value) -> Result

  /**
   * What the schema compiler relies on of the atomic validators: the is-object and
   * is-array checks follow `isObject` and `isArray`; on an object, the has-key check
   * passes iff the key is there, the only-keys check passes iff every key is allowed,
   * and the has-type check on a key that is there passes iff its value typechecks.
   */
  ghost predicate Conforms(atoms: Atoms) {
    && (forall x {:trigger atoms(ValidateIsObject, x)} :: IsOK(atoms(ValidateIsObject, x)) <==> IsObject(x))
    && (forall x {:trigger atoms(ValidateIsArray, x)} :: IsOK(atoms(ValidateIsArray, x)) <==> IsArray(x))
    && (forall x: Value, k {:trigger atoms(ValidateObjHasKey(k), x)} :: x.Obj? ==>
          (IsOK(atoms(ValidateObjHasKey(k), x)) <==> HasKey(x, k)))
    && (forall x: Value, ks {:trigger atoms(ValidateObjOnlyHasKeys(ks), x)} :: x.Obj? ==>
          (IsOK(atoms(ValidateObjOnlyHasKeys(ks), x)) <==> forall k :: k in Keys(x) ==> k in ks))
    && (forall x: Value, t, k {:trigger atoms(ValidateObjPropHasType(Str(t), k), x)} :: x.Obj? && HasKey(x, k) ==>
          (IsOK(atoms(ValidateObjPropHasType(Str(t), k), x)) <==> Typechecks(Get(x, k), t)))
  }

  /** Runs a validator on a candidate value. */
  function Run(atoms: Atoms, v: Validator, x: Value): Result
    decreases v
  {
    match v
    case AlwaysOK => Ok
    case AlwaysErr(es) => MakeErr(Some(es), None, Absent)
    case All(vs) => ConcatResults(RunEach(atoms, vs, x))
    case AllWhileOK(vs) => FirstErr(RunEach(atoms, vs, x))
    case _ => atoms(v, x)
  }

  /** The Results of running each validator of a list on the same value, in order. */
  function RunEach(atoms: Atoms, vs: seq<Validator>, x: Value): (rs: seq<Result>)
    ensures |rs| == |vs|
    decreases vs
  {
    if vs == [] then [] else [Run(atoms, vs[0], x)] + RunEach(atoms, vs[1..], x)
  }

  /** Result i of the list is the Result of validator i. */
  lemma {:induction false} RunEachSpec(atoms: Atoms, vs: seq<Validator>, x: Value)
    ensures forall i :: 0 <= i < |vs| ==> RunEach(atoms, vs, x)[i] == Run(atoms, vs[i], x)
  {
    if vs != [] {
      RunEachSpec(atoms, vs[1..], x);
    }
  }

  /**
   * The outcome of `allWhileOK`: the first Err in order, or `ok()` when there is
   * none. Validators are pure, so not running the ones after the first Err changes
   * nothing but the work done.
   */
  function FirstErr(rs: seq<Result>): (r: Result)
    ensures IsOK(r) <==> forall i :: 0 <= i < |rs| ==> IsOK(rs[i])
    ensures IsErr(r) ==> exists i :: 0 <= i < |rs| && r == rs[i] && forall j :: 0 <= j < i ==> IsOK(rs[j])
  {
    if rs == [] then Ok
    else if IsErr(rs[0]) then rs[0]
    else
      var r := FirstErr(rs[1..]);
      assert forall i :: 1 <= i < |rs| ==> rs[i] == rs[1..][i - 1];
      r
  }

  /** Two results in sequence: OK iff both are; otherwise the first that fails. */
  lemma FirstErrPair(a: Result, b: Result)
    ensures IsOK(FirstErr([a, b])) <==> IsOK(a) && IsOK(b)
    ensures FirstErr([a, b]) == if IsErr(a) then a else b
  {
    assert [a, b][1..] == [b];
  }

  // ----- all and allWhileOK -----

  /** `allWhileOK` on a non-empty list: the head's Err, or else `allWhileOK` of the rest. */
  lemma AllWhileOKCons(atoms: Atoms, v: Validator, vs: seq<Validator>, x: Value)
    ensures Run(atoms, AllWhileOK([v] + vs), x) ==
              if IsErr(Run(atoms, v, x)) then Run(atoms, v, x) else Run(atoms, AllWhileOK(vs), x)
  {
    assert ([v] + vs)[1..] == vs;
    var rs := RunEach(atoms, [v] + vs, x);
    assert rs == [Run(atoms, v, x)] + RunEach(atoms, vs, x);
    assert rs[1..] == RunEach(atoms, vs, x);
  }

  /**
   * `all(vs)` runs every validator: it is OK iff each is, and its messages are
   * every validator's messages in validator order. `all([])` is OK.
   */
  lemma AllSpec(atoms: Atoms, vs: seq<Validator>, x: Value)
    ensures Run(atoms, All([]), x) == Ok
    ensures IsOK(Run(atoms, All(vs), x)) <==> forall i :: 0 <= i < |vs| ==> IsOK(Run(atoms, vs[i], x))
    ensures GetErrors(Run(atoms, All(vs), x)) == FlattenErrors(RunEach(atoms, vs, x))
  {
    RunEachSpec(atoms, vs, x);
    ConcatResultsSpec(RunEach(atoms, vs, x));
  }

  /**
   * `allWhileOK(vs)` is OK iff every validator is; otherwise it is the Result of the
   * first validator that fails, all those before it having passed.
   */
  lemma AllWhileOKSpec(atoms: Atoms, vs: seq<Validator>, x: Value)
    ensures Run(atoms, AllWhileOK([]), x) == Ok
    ensures IsOK(Run(atoms, AllWhileOK(vs), x)) <==> forall i :: 0 <= i < |vs| ==> IsOK(Run(atoms, vs[i], x))
    ensures IsErr(Run(atoms, AllWhileOK(vs), x)) ==>
              exists i :: 0 <= i < |vs| && Run(atoms, AllWhileOK(vs), x) == Run(atoms, vs[i], x)
                          && forall j :: 0 <= j < i ==> IsOK(Run(atoms, vs[j], x))
  {
    RunEachSpec(atoms, vs, x);
  }

  /** Appending a validator to an `allWhileOK` list runs it only if all before it passed. */
  lemma {:induction false} FirstErrAppend(rs: seq<Result>, r: Result)
    ensures FirstErr(rs + [r]) == if IsErr(FirstErr(rs)) then FirstErr(rs) else r
  {
    if rs == [] {
      assert [] + [r] == [r];
    } else {
      assert (rs + [r])[1..] == rs[1..] + [r];
      FirstErrAppend(rs[1..], r);
    }
  }

  /** Two failing validators: `all` reports both in order, `allWhileOK` only the first. */
  lemma AllVersusAllWhileOK(atoms: Atoms, v1: Validator, v2: Validator, x: Value)
    requires IsErr(Run(atoms, v1, x)) && IsErr(Run(atoms, v2, x))
    ensures GetErrors(Run(atoms, All([v1, v2]), x)) == GetErrors(Run(atoms, v1, x)) + GetErrors(Run(atoms, v2, x))
    ensures Run(atoms, AllWhileOK([v1, v2]), x) == Run(atoms, v1, x)
  {
    AllPair(atoms, v1, v2, x);
    assert [v1] + [v2] == [v1, v2];
    AllWhileOKCons(atoms, v1, [v2], x);
  }

  /** `all` of two validators is the merge of their two Results. */
  lemma AllPair(atoms: Atoms, v1: Validator, v2: Validator, x: Value)
    ensures Run(atoms, All([v1, v2]), x) == MergeResults(Run(atoms, v1, x), Run(atoms, v2, x))
  {
    var a, b := Run(atoms, v1, x), Run(atoms, v2, x);
    assert RunEach(atoms, [v1, v2], x) == [a, b] by {
      assert [v1, v2][1..] == [v2] && [v2][1..] == [];
    }
    calc {
      ConcatResults([a, b]);
      FoldMerge(MergeResults(Ok, a), [a, b][1..]);
      { assert [a, b][1..] == [b]; }
      FoldMerge(a, [b]);
      { assert [b][1..] == []; }
      MergeResults(a, b);
    }
  }

  /** `alwaysErr(es)` fails on every input, with exactly the messages `es`. */
  lemma AlwaysErrFails(atoms: Atoms, es: Errors, x: Value)
    ensures IsErr(Run(atoms, AlwaysErr(es), x)) && GetErrors(Run(atoms, AlwaysErr(es), x)) == es
    ensures IsOK(Run(atoms, AlwaysOK, x))
  {
  }
}
