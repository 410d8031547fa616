/** The optional-value datatype used for the optional fields of a Result. */
module Wrappers {

  datatype Option<+T> = None | Some(value: T) {

    /** The wrapped value, or `default` when there is none. */
    function GetOr(default: T): T {
      match this
      case Some(v) => v
      case None => default
    }
  }
}

/** Small facts about sequences that the proofs use by name. */
module SeqFacts {

  /** Concatenation is associative. */
  lemma ConcatAssoc<T>(a: seq<T>, b: seq<T>, c: seq<T>)
    ensures (a + b) + c == a + (b + c)
  {
    var l, r := (a + b) + c, a + (b + c);
    assert |l| == |r|;
    forall i | 0 <= i < |l| ensures l[i] == r[i] {
      if i < |a| {
        assert l[i] == a[i] == r[i];
      } else if i < |a| + |b| {
        assert l[i] == b[i - |a|] == r[i];
      } else {
        assert l[i] == c[i - |a| - |b|] == r[i];
      }
    }
  }
}
