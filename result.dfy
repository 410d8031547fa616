/**
 * The validation-result algebra.
 *
 * A Result is either OK or an Err. An Err carries its ordered error messages, an
 * optional `type` tag naming the construct that failed, and optional `items`:
 * nested Results keyed by the name of the part (object field, array index) that
 * they describe. `items` is an association list; a key's entry is its first one.
 */
module ResultAlgebra {
  import opened Wrappers
  import opened SeqFacts

  type Errors = seq<string>

  datatype Result =
    | Ok
    | Err(errors: Errors, tag: Option<string>, items: ItemsField)

  /** The `items` field of an Err: absent, or a keyed list of nested Results. */
  datatype ItemsField = Absent | Present(entries: Items)

  datatype Item = Item(key: string, result: Result)

  type Items = seq<Item>

  // ----- Constructors and predicates -----

  /**
   * `err(errors = [], type, items)`: `type` and `items` are attached only when
   * both are given and the tag is a non-empty (truthy) string; otherwise the Err
   * has its errors alone.
   */
  function MakeErr(errors: Option<Errors>, tag: Option<string>, items: ItemsField): (r: Result)
    ensures r.Err?
    ensures errors.Some? ==> r.errors == errors.value
    ensures errors.None? ==> r.errors == []
    ensures r.tag.Some? <==> tag.Some? && tag.value != "" && items.Present?
    ensures r.tag.Some? ==> r.tag == tag && r.items == items
    ensures r.tag.None? ==> r.items.Absent?
  {
    var es := errors.GetOr([]);
    if items.Present? && tag.Some? && tag.value != "" then Err(es, tag, items) else Err(es, None, Absent)
  }

  predicate IsOK(r: Result) {
    r.Ok?
  }

  predicate IsErr(r: Result)
    ensures IsErr(r) <==> !IsOK(r)
  {
    r.Err?
  }

  /** `ok()` is OK and not Err; every `err(...)` is Err and not OK; each Result is exactly one. */
  lemma ValidityExclusive(r: Result, errors: Option<Errors>, tag: Option<string>, items: ItemsField)
    ensures IsOK(Ok) && !IsErr(Ok)
    ensures IsErr(MakeErr(errors, tag, items)) && !IsOK(MakeErr(errors, tag, items))
    ensures IsOK(r) != IsErr(r)
  {
  }

  /** The top-level error messages of a Result (none for OK); `getErrors` of the printer. */
  function GetErrors(r: Result): (es: Errors)
    ensures IsOK(r) ==> es == []
  {
    if r.Err? then r.errors else []
  }

  // ----- Items -----

  function ItemKeys(items: Items): (ks: seq<string>)
    ensures |ks| == |items|
    ensures forall i :: 0 <= i < |items| ==> ks[i] == items[i].key
  {
    if items == [] then [] else [items[0].key] + ItemKeys(items[1..])
  }

  /** The nested Result bound to `k` (its first entry), if any. */
  function LookupItem(items: Items, k: string): (r: Option<Result>)
    ensures r.Some? <==> k in ItemKeys(items)
    ensures r.Some? ==> Item(k, r.value) in items
  {
    if items == [] then None
    else if items[0].key == k then Some(items[0].result)
    else LookupItem(items[1..], k)
  }

  /** `r.items || {}`. */
  function ItemsOf(r: Result): Items {
    if r.Err? && r.items.Present? then r.items.entries else []
  }

  /** A size measure under which every nested Result is smaller than its parent. */
  function Size(r: Result): nat
    decreases r
  {
    if r.Err? && r.items.Present? then 1 + ItemsSize(r.items.entries) else 1
  }

  function ItemsSize(items: Items): nat
    decreases items
  {
    if items == [] then 0 else 1 + Size(items[0].result) + ItemsSize(items[1..])
  }

  // ----- mapErrors -----

  /** `addIndex(map)(f, es)` with indices counted from `start`. */
  function MapIndexed(f: (string, nat) -> string, es: Errors, start: nat): (r: Errors)
    ensures |r| == |es|
    ensures forall i :: 0 <= i < |es| ==> r[i] == f(es[i], start + i)
  {
    if es == [] then [] else [f(es[0], start)] + MapIndexed(f, es[1..], start + 1)
  }

  /**
   * `mapErrors(f)(r)`: OK is returned as it is; an Err gets its messages rewritten
   * with their indices, its items rewritten recursively, and loses its `type` tag.
   */
  function MapErrors(f: (string, nat) -> string, r: Result): (m: Result)
    ensures IsOK(m) <==> IsOK(r)
    ensures r.Ok? ==> m == r
    ensures m.Err? ==> m.tag == None && |m.errors| == |r.errors|
    decreases Size(r)
  {
    match r
    case Ok => r
    case Err(es, _, its) =>
      Err(MapIndexed(f, es, 0), None, if its.Present? then Present(MapItems(f, its.entries)) else Absent)
  }

  function MapItems(f: (string, nat) -> string, items: Items): (r: Items)
    ensures ItemKeys(r) == ItemKeys(items)
    decreases ItemsSize(items)
  {
    if items == [] then [] else [Item(items[0].key, MapErrors(f, items[0].result))] + MapItems(f, items[1..])
  }

  lemma {:induction false} LookupMapItems(f: (string, nat) -> string, items: Items, k: string)
    ensures LookupItem(MapItems(f, items), k).Some? <==> LookupItem(items, k).Some?
    ensures LookupItem(items, k).Some? ==>
              LookupItem(MapItems(f, items), k).value == MapErrors(f, LookupItem(items, k).value)
    decreases |items|
  {
    if items != [] && items[0].key != k {
      LookupMapItems(f, items[1..], k);
    }
  }

  /**
   * On an Err, `mapErrors(f)` yields `[f(e0, 0), f(e1, 1), ...]`, drops the type tag,
   * and keeps the item keys with every item mapped by `mapErrors(f)` in turn.
   */
  lemma MapErrorsErr(f: (string, nat) -> string, r: Result, k: string)
    requires r.Err?
    ensures var m := MapErrors(f, r);
      && m.Err?
      && |m.errors| == |r.errors|
      && (forall i :: 0 <= i < |r.errors| ==> m.errors[i] == f(r.errors[i], i))
      && m.tag == None
      && (m.items.Present? <==> r.items.Present?)
      && (r.items.Present? ==> ItemKeys(m.items.entries) == ItemKeys(r.items.entries))
      && (r.items.Present? && LookupItem(r.items.entries, k).Some? ==>
            LookupItem(m.items.entries, k) == Some(MapErrors(f, LookupItem(r.items.entries, k).value)))
  {
    if r.items.Present? {
      LookupMapItems(f, r.items.entries, k);
    }
  }

  // ----- mergeResults -----

  /**
   * `mergeResults(r1, r2)`: an OK operand is absorbed (`r2` wins when both are OK).
   * Two Errs give the concatenated messages, the first operand's tag, and always an
   * `items` list: the key-wise deep merge of both sides' items.
   */
  function MergeResults(r1: Result, r2: Result): (m: Result)
    ensures IsOK(m) <==> IsOK(r1) && IsOK(r2)
    ensures GetErrors(m) == GetErrors(r1) + GetErrors(r2)
    ensures r1.Err? ==> m.tag == r1.tag
    decreases Size(r1), 2
  {
    if r1.Ok? then r2
    else if r2.Ok? then r1
    else Err(r1.errors + r2.errors, r1.tag, Present(MergeItems(ItemsOf(r1), ItemsOf(r2))))
  }

  /**
   * `mergeWith(mergeResults, a, b)`: the keys of `a` in order, each merged with its
   * entry in `b` when there is one, then the entries of `b` whose key `a` lacks.
   */
  function MergeItems(a: Items, b: Items): (m: Items)
    ensures ItemKeys(a) <= ItemKeys(m)
    ensures forall k :: k in ItemKeys(m) <==> k in ItemKeys(a) || k in ItemKeys(b)
    decreases ItemsSize(a), 1
  {
    var left, right := MergeLeft(a, b), RightOnly(b, ItemKeys(a));
    ItemKeysAppend(left, right);
    left + right
  }

  function MergeLeft(a: Items, b: Items): (r: Items)
    ensures ItemKeys(r) == ItemKeys(a)
    decreases ItemsSize(a), 0
  {
    if a == [] then []
    else
      var w := LookupItem(b, a[0].key);
      [Item(a[0].key, if w.Some? then MergeResults(a[0].result, w.value) else a[0].result)] + MergeLeft(a[1..], b)
  }

  /** The keys of `keys`, in order, that are not in `drop`. */
  function Without(keys: seq<string>, drop: seq<string>): seq<string> {
    if keys == [] then []
    else if keys[0] in drop then Without(keys[1..], drop)
    else [keys[0]] + Without(keys[1..], drop)
  }

  /** The entries of `b`, in order, whose key is not in `ks`. */
  function RightOnly(b: Items, ks: seq<string>): (r: Items)
    ensures ItemKeys(r) == Without(ItemKeys(b), ks)
    ensures forall k :: k in ItemKeys(r) <==> k in ItemKeys(b) && k !in ks
  {
    if b == [] then []
    else if b[0].key in ks then RightOnly(b[1..], ks)
    else [b[0]] + RightOnly(b[1..], ks)
  }

  // ----- concatResults -----

  /** `concatResults`: `reduce(mergeResults, ok())`, a left fold. */
  function ConcatResults(rs: seq<Result>): Result {
    FoldMerge(Ok, rs)
  }

  function FoldMerge(acc: Result, rs: seq<Result>): Result
    decreases rs
  {
    if rs == [] then acc else FoldMerge(MergeResults(acc, rs[0]), rs[1..])
  }

  // ----- Laws of mergeResults -----

  /** OK is the identity of `mergeResults` on both sides. */
  lemma MergeIdentity(r: Result)
    ensures MergeResults(Ok, r) == r
    ensures MergeResults(r, Ok) == r
  {
  }

  /** What a lookup in merged items gives: a key on both sides maps to the merge of its two entries. */
  function MergeLookups(x: Option<Result>, y: Option<Result>): Option<Result> {
    match (x, y)
    case (Some(u), Some(w)) => Some(MergeResults(u, w))
    case (Some(u), None) => Some(u)
    case (None, _) => y
  }

  lemma {:induction false} ItemKeysAppend(x: Items, y: Items)
    ensures ItemKeys(x + y) == ItemKeys(x) + ItemKeys(y)
  {
    assert |ItemKeys(x + y)| == |ItemKeys(x) + ItemKeys(y)|;
    forall i | 0 <= i < |x + y|
      ensures ItemKeys(x + y)[i] == (ItemKeys(x) + ItemKeys(y))[i]
    {
    }
  }

  lemma {:induction false} LookupAppend(x: Items, y: Items, k: string)
    ensures LookupItem(x + y, k) == if k in ItemKeys(x) then LookupItem(x, k) else LookupItem(y, k)
  {
    if x == [] {
      assert x + y == y;
    } else {
      assert (x + y)[0] == x[0];
      assert (x + y)[1..] == x[1..] + y;
      if x[0].key != k {
        LookupAppend(x[1..], y, k);
        assert ItemKeys(x) == [x[0].key] + ItemKeys(x[1..]);
      }
    }
  }

  lemma {:induction false} LookupMergeLeft(a: Items, b: Items, k: string)
    ensures LookupItem(MergeLeft(a, b), k) ==
              if LookupItem(a, k).Some? then MergeLookups(LookupItem(a, k), LookupItem(b, k)) else None
  {
    if a != [] && a[0].key != k {
      LookupMergeLeft(a[1..], b, k);
    }
  }

  lemma {:induction false} LookupRightOnly(b: Items, ks: seq<string>, k: string)
    ensures LookupItem(RightOnly(b, ks), k) == if k in ks then None else LookupItem(b, k)
  {
    if b != [] {
      LookupRightOnly(b[1..], ks, k);
    }
  }

  /** A lookup in `mergeWith(mergeResults, a, b)`: a key on one side keeps that entry, one on both sides is deep-merged. */
  lemma MergeItemsLookup(a: Items, b: Items, k: string)
    ensures LookupItem(MergeItems(a, b), k) == MergeLookups(LookupItem(a, k), LookupItem(b, k))
  {
    LookupAppend(MergeLeft(a, b), RightOnly(b, ItemKeys(a)), k);
    LookupMergeLeft(a, b, k);
    LookupRightOnly(b, ItemKeys(a), k);
  }

  /**
   * Merging two Errs: messages concatenated in order, the first operand's tag, an
   * `items` list that is always present, whose keys are the union of both sides'
   * keys (the first side's in its order first), and whose shared keys are merged
   * recursively.
   */
  lemma MergeBothErr(r1: Result, r2: Result, k: string)
    requires r1.Err? && r2.Err?
    ensures var m := MergeResults(r1, r2);
      && m.Err?
      && m.errors == r1.errors + r2.errors
      && m.tag == r1.tag
      && m.items.Present?
      && ItemKeys(ItemsOf(r1)) <= ItemKeys(m.items.entries)
      && (k in ItemKeys(m.items.entries) <==> k in ItemKeys(ItemsOf(r1)) || k in ItemKeys(ItemsOf(r2)))
      && LookupItem(m.items.entries, k) == MergeLookups(LookupItem(ItemsOf(r1), k), LookupItem(ItemsOf(r2), k))
  {
    var a, b := ItemsOf(r1), ItemsOf(r2);
    MergeItemsLookup(a, b, k);
    ItemKeysAppend(MergeLeft(a, b), RightOnly(b, ItemKeys(a)));
  }

  // ----- Associativity of mergeResults -----

  lemma {:induction false} MergeLeftAppend(x: Items, y: Items, c: Items)
    ensures MergeLeft(x + y, c) == MergeLeft(x, c) + MergeLeft(y, c)
  {
    if x != [] {
      var w := LookupItem(c, x[0].key);
      var head := [Item(x[0].key, if w.Some? then MergeResults(x[0].result, w.value) else x[0].result)];
      assert (x + y)[0] == x[0];
      assert (x + y)[1..] == x[1..] + y;
      calc {
        MergeLeft(x + y, c);
        head + MergeLeft(x[1..] + y, c);
        { MergeLeftAppend(x[1..], y, c); }
        head + (MergeLeft(x[1..], c) + MergeLeft(y, c));
        { ConcatAssoc(head, MergeLeft(x[1..], c), MergeLeft(y, c)); }
        (head + MergeLeft(x[1..], c)) + MergeLeft(y, c);
        MergeLeft(x, c) + MergeLeft(y, c);
      }
    } else {
      assert x + y == y;
    }
  }

  lemma {:induction false} RightOnlyAppend(x: Items, y: Items, ks: seq<string>)
    ensures RightOnly(x + y, ks) == RightOnly(x, ks) + RightOnly(y, ks)
  {
    if x == [] {
      assert x + y == y;
    } else {
      var xy := x + y;
      assert xy[0] == x[0];
      assert xy[1..] == x[1..] + y;
      RightOnlyAppend(x[1..], y, ks);
      if x[0].key in ks {
        calc {
          RightOnly(xy, ks);
          RightOnly(x[1..] + y, ks);
          RightOnly(x[1..], ks) + RightOnly(y, ks);
          RightOnly(x, ks) + RightOnly(y, ks);
        }
      } else {
        calc {
          RightOnly(xy, ks);
          [x[0]] + RightOnly(x[1..] + y, ks);
          [x[0]] + (RightOnly(x[1..], ks) + RightOnly(y, ks));
          { ConcatAssoc([x[0]], RightOnly(x[1..], ks), RightOnly(y, ks)); }
          ([x[0]] + RightOnly(x[1..], ks)) + RightOnly(y, ks);
          RightOnly(x, ks) + RightOnly(y, ks);
        }
      }
    }
  }

  /** Filtering by two key lists in turn is filtering once by any list with the keys of both. */
  lemma {:induction false} RightOnlyTwice(c: Items, ks1: seq<string>, ks2: seq<string>, ks: seq<string>)
    requires forall k :: k in ks <==> k in ks1 || k in ks2
    ensures RightOnly(RightOnly(c, ks1), ks2) == RightOnly(c, ks)
  {
    if c != [] {
      RightOnlyTwice(c[1..], ks1, ks2, ks);
    }
  }

  lemma {:induction false} MergeLeftRightOnly(b: Items, ks: seq<string>, c: Items)
    ensures MergeLeft(RightOnly(b, ks), c) == RightOnly(MergeLeft(b, c), ks)
  {
    if b != [] {
      MergeLeftRightOnly(b[1..], ks, c);
    }
  }

  lemma {:induction false} MergeLeftAssoc(a: Items, b: Items, c: Items)
    ensures MergeLeft(MergeLeft(a, b), c) == MergeLeft(a, MergeItems(b, c))
    decreases ItemsSize(a), 0
  {
    if a != [] {
      var k, v := a[0].key, a[0].result;
      MergeItemsLookup(b, c, k);
      var wb, wc := LookupItem(b, k), LookupItem(c, k);
      if wb.Some? && wc.Some? {
        MergeAssoc(v, wb.value, wc.value);
      }
      MergeLeftAssoc(a[1..], b, c);
    }
  }

  /** The keys of `a` followed by those of `b` that `a` lacks are the keys of either. */
  lemma MergedKeys(a: Items, b: Items)
    ensures forall k :: k in ItemKeys(a) + ItemKeys(RightOnly(b, ItemKeys(a))) <==> k in ItemKeys(b) || k in ItemKeys(a)
  {
    var ka := ItemKeys(a);
    var ko := ItemKeys(RightOnly(b, ka));
    forall k ensures k in ka + ko <==> k in ItemKeys(b) || k in ka {
      assert k in ka + ko <==> k in ka || k in ko;
    }
  }

  lemma {:induction false} MergeItemsAssoc(a: Items, b: Items, c: Items)
    ensures MergeItems(MergeItems(a, b), c) == MergeItems(a, MergeItems(b, c))
    decreases ItemsSize(a), 1
  {
    var ka, kb := ItemKeys(a), ItemKeys(b);
    var ab, bOnly := MergeLeft(a, b), RightOnly(b, ka);
    var bc, cOnly := MergeLeft(b, c), RightOnly(c, kb);
    calc {
      MergeItems(MergeItems(a, b), c);
      MergeLeft(ab + bOnly, c) + RightOnly(c, ItemKeys(ab + bOnly));
      { MergeLeftAppend(ab, bOnly, c); ItemKeysAppend(ab, bOnly); }
      MergeLeft(ab, c) + MergeLeft(bOnly, c) + RightOnly(c, ka + ItemKeys(bOnly));
      { MergeLeftAssoc(a, b, c); }
      MergeLeft(a, MergeItems(b, c)) + MergeLeft(bOnly, c) + RightOnly(c, ka + ItemKeys(bOnly));
      { MergeLeftRightOnly(b, ka, c); }
      MergeLeft(a, MergeItems(b, c)) + RightOnly(bc, ka) + RightOnly(c, ka + ItemKeys(bOnly));
      { MergedKeys(a, b); RightOnlyTwice(c, kb, ka, ka + ItemKeys(bOnly)); }
      MergeLeft(a, MergeItems(b, c)) + RightOnly(bc, ka) + RightOnly(cOnly, ka);
      { RightOnlyAppend(bc, cOnly, ka); }
      MergeLeft(a, MergeItems(b, c)) + RightOnly(bc + cOnly, ka);
      MergeItems(a, MergeItems(b, c));
    }
  }

  /** `mergeResults` is associative, items included. */
  lemma {:induction false} MergeAssoc(a: Result, b: Result, c: Result)
    ensures MergeResults(MergeResults(a, b), c) == MergeResults(a, MergeResults(b, c))
    decreases Size(a), 2
  {
    if a.Err? && b.Err? && c.Err? {
      MergeItemsAssoc(ItemsOf(a), ItemsOf(b), ItemsOf(c));
      assert a.errors + b.errors + c.errors == a.errors + (b.errors + c.errors);
    }
  }

  // ----- Laws of concatResults -----

  /** The messages of a list of Results, in order. */
  function FlattenErrors(rs: seq<Result>): Errors {
    if rs == [] then [] else GetErrors(rs[0]) + FlattenErrors(rs[1..])
  }

  lemma {:induction false} FoldMergeSpec(acc: Result, rs: seq<Result>)
    ensures IsOK(FoldMerge(acc, rs)) <==> IsOK(acc) && forall i :: 0 <= i < |rs| ==> IsOK(rs[i])
    ensures GetErrors(FoldMerge(acc, rs)) == GetErrors(acc) + FlattenErrors(rs)
    decreases rs
  {
    if rs != [] {
      var m := MergeResults(acc, rs[0]);
      FoldMergeSpec(m, rs[1..]);
      assert forall i :: 1 <= i < |rs| ==> rs[i] == rs[1..][i - 1];
      ConcatAssoc(GetErrors(acc), GetErrors(rs[0]), FlattenErrors(rs[1..]));
    }
  }

  /**
   * `concatResults([])` is `ok()`; `concatResults(rs)` is OK iff every element is,
   * and its messages are all the elements' messages in order.
   */
  lemma ConcatResultsSpec(rs: seq<Result>)
    ensures ConcatResults([]) == Ok
    ensures IsOK(ConcatResults(rs)) <==> forall i :: 0 <= i < |rs| ==> IsOK(rs[i])
    ensures GetErrors(ConcatResults(rs)) == FlattenErrors(rs)
  {
    FoldMergeSpec(Ok, rs);
  }

  lemma {:induction false} FoldMergeAppend(acc: Result, rs: seq<Result>, r: Result)
    ensures FoldMerge(acc, rs + [r]) == MergeResults(FoldMerge(acc, rs), r)
    decreases rs
  {
    if rs == [] {
      assert rs + [r] == [r];
    } else {
      assert (rs + [r])[1..] == rs[1..] + [r];
      FoldMergeAppend(MergeResults(acc, rs[0]), rs[1..], r);
    }
  }

  /** `concatResults` is a fold: one more element merges it onto the running result. */
  lemma ConcatResultsSnoc(rs: seq<Result>, r: Result)
    ensures ConcatResults([r]) == r
    ensures ConcatResults(rs + [r]) == MergeResults(ConcatResults(rs), r)
  {
    assert [] + [r] == [r];
    FoldMergeAppend(Ok, [], r);
    FoldMergeAppend(Ok, rs, r);
  }

  /** `concatResults` of two lists is the merge of their two `concatResults`. */
  lemma {:induction false} ConcatResultsSplit(xs: seq<Result>, ys: seq<Result>)
    ensures ConcatResults(xs + ys) == MergeResults(ConcatResults(xs), ConcatResults(ys))
    decreases |ys|
  {
    if ys == [] {
      assert xs + ys == xs;
      MergeIdentity(ConcatResults(xs));
    } else {
      var init, last := ys[..|ys| - 1], ys[|ys| - 1];
      assert ys == init + [last];
      assert xs + ys == (xs + init) + [last];
      ConcatResultsSnoc(xs + init, last);
      ConcatResultsSplit(xs, init);
      ConcatResultsSnoc(init, last);
      MergeAssoc(ConcatResults(xs), ConcatResults(init), last);
    }
  }
}
