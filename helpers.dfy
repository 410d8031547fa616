/**
 * The type predicates of the validation library: `isISOString`, `isDate`,
 * `isObject`, `isArray` and the `typechecks` dispatch on a type name.
 *
 * `isISOString` searches a string (anywhere, unanchored) for the pattern
 *   \d{4}-[01]\d-[0-3]\dT[0-2]\d:[0-5]\d:[0-5]\d\.\d+([+-][0-2]\d:[0-5]\d|Z)
 * It is written here as a left-to-right scanner, and proved equal to the
 * reference reading of the pattern: "some substring is in the pattern's language".
 */
module Helpers {
  import opened Values

  /** One position of a fixed-width pattern. */
  datatype CharClass = Digit | Range(lo: char, hi: char) | Lit(c: char)

  predicate IsDigit(c: char) {
    '0' <= c <= '9'
  }

  predicate Accepts(cc: CharClass, c: char) {
    match cc
    case Digit => IsDigit(c)
    case Range(lo, hi) => lo <= c <= hi
    case Lit(l) => c == l
  }

  /** `\d{4}-[01]\d-[0-3]\dT[0-2]\d:[0-5]\d:[0-5]\d\.` */
  const DatePrefix: seq<CharClass> := [
    Digit, Digit, Digit, Digit, Lit('-'),
    Range('0', '1'), Digit, Lit('-'),
    Range('0', '3'), Digit, Lit('T'),
    Range('0', '2'), Digit, Lit(':'),
    Range('0', '5'), Digit, Lit(':'),
    Range('0', '5'), Digit, Lit('.')
  ]

  /** `[0-2]\d:[0-5]\d`, the part of a numeric offset after its sign. */
  const OffsetTail: seq<CharClass> := [Range('0', '2'), Digit, Lit(':'), Range('0', '5'), Digit]

  /** `w` is exactly one string of the fixed-width pattern `p`. */
  predicate Matches(p: seq<CharClass>, w: string) {
    |w| == |p| && forall j :: 0 <= j < |p| ==> Accepts(p[j], w[j])
  }

  predicate AllDigits(w: string) {
    forall j :: 0 <= j < |w| ==> IsDigit(w[j])
  }

  /** `([+-][0-2]\d:[0-5]\d|Z)` matched exactly by `w`. */
  predicate IsZone(w: string) {
    w == "Z" || (|w| == 6 && (w[0] == '+' || w[0] == '-') && Matches(OffsetTail, w[1..]))
  }

  /** Reference definition: `w` is exactly one string of the whole pattern. */
  ghost predicate InISOLanguage(w: string) {
    exists n :: 20 < n <= |w| && Matches(DatePrefix, w[..20]) && AllDigits(w[20..n]) && IsZone(w[n..])
  }

  /** Reference definition of an unanchored search: some substring is in the language. */
  ghost predicate ContainsISOTimestamp(s: string) {
    exists i, e :: 0 <= i <= e <= |s| && InISOLanguage(s[i..e])
  }

  /** The end of the run of digits that starts at `k`. */
  function DigitRunEnd(s: string, k: nat): (r: nat)
    requires k <= |s|
    ensures k <= r <= |s|
    ensures AllDigits(s[k..r])
    ensures r < |s| ==> !IsDigit(s[r])
    decreases |s| - k
  {
    if k < |s| && IsDigit(s[k]) then DigitRunEnd(s, k + 1) else k
  }

  /** A time-zone designator starts at `n`. */
  predicate ZoneAt(s: string, n: nat)
    requires n <= |s|
  {
    || (n < |s| && s[n] == 'Z')
    || (n + 6 <= |s| && (s[n] == '+' || s[n] == '-') && Matches(OffsetTail, s[n + 1..n + 6]))
  }

  /**
   * A match starts at `i`. The fraction `\d+` is followed by a non-digit ('Z', '+'
   * or '-'), so the only place where the designator can start is the end of the
   * longest digit run: no backtracking is needed.
   */
  predicate MatchAt(s: string, i: nat)
    requires i <= |s|
  {
    && i + 20 <= |s|
    && Matches(DatePrefix, s[i..i + 20])
    && var n := DigitRunEnd(s, i + 20);
       n > i + 20 && ZoneAt(s, n)
  }

  /** A match starts at some position from `i` on. */
  predicate SearchFrom(s: string, i: nat)
    requires i <= |s|
    decreases |s| - i
  {
    MatchAt(s, i) || (i < |s| && SearchFrom(s, i + 1))
  }

  /** `isISOString`: false for every non-string; otherwise an unanchored pattern search. */
  predicate IsISOString(v: Value)
    ensures IsISOString(v) <==> v.Str? && ContainsISOTimestamp(v.s)
  {
    if v.Str? then IsISOStringCorrect(v.s); SearchFrom(v.s, 0) else false
  }

  /** `isDate`: a Date object, or an ISO 8601 string. */
  predicate IsDate(v: Value)
    ensures IsDate(v) <==> v.DateObj? || (v.Str? && ContainsISOTimestamp(v.s))
  {
    v.DateObj? || IsISOString(v)
  }

  /** `isArray` (`Array.isArray`); an array's `typeof` is "object", so `isObject` must exclude arrays. */
  predicate IsArray(v: Value)
    ensures IsArray(v) ==> TypeOf(v) == "object" && Truthy(v)
  {
    v.Arr?
  }

  /** `isObject`: a truthy value whose `typeof` is "object" and that is neither an array nor a date. */
  predicate IsObject(v: Value)
    ensures IsObject(v) <==> v.Obj?
  {
    Truthy(v) && TypeOf(v) == "object" && !IsArray(v) && !IsDate(v)
  }

  /** `typechecks`: the three names with a dedicated predicate, else a `typeof` comparison. */
  predicate Typechecks(v: Value, t: string)
    ensures t == "array" ==> (Typechecks(v, t) <==> v.Arr?)
    ensures t == "object" ==> (Typechecks(v, t) <==> v.Obj?)
    ensures t == "date" ==> (Typechecks(v, t) <==> v.DateObj? || (v.Str? && ContainsISOTimestamp(v.s)))
    ensures t !in {"array", "date", "object"} ==> (Typechecks(v, t) <==> TypeOf(v) == t)
  {
    if t == "array" then IsArray(v)
    else if t == "date" then IsDate(v)
    else if t == "object" then IsObject(v)
    else TypeOf(v) == t
  }

  // ----- The scanner agrees with the reference definition -----

  /** A digit run from `k` that stops at a non-digit at `n`, or at the end, ends at `n`. */
  lemma {:induction false} DigitRunEndAt(s: string, k: nat, n: nat)
    requires k <= n <= |s|
    requires AllDigits(s[k..n]) && (n < |s| ==> !IsDigit(s[n]))
    ensures DigitRunEnd(s, k) == n
    decreases n - k
  {
    if k < n {
      assert s[k] == s[k..n][0];
      assert s[k + 1..n] == s[k..n][1..];
      DigitRunEndAt(s, k + 1, n);
    }
  }

  /** A match found by the scanner at `i` is a substring in the language. */
  lemma MatchAtSound(s: string, i: nat)
    requires i <= |s| && MatchAt(s, i)
    ensures exists e :: i <= e <= |s| && InISOLanguage(s[i..e])
  {
    var n := DigitRunEnd(s, i + 20);
    var e := if s[n] == 'Z' then n + 1 else n + 6;
    var w, m := s[i..e], n - i;
    assert 20 < m <= |w|;
    assert Matches(DatePrefix, w[..20]) by {
      assert w[..20] == s[i..i + 20];
    }
    assert AllDigits(w[20..m]) by {
      assert w[20..m] == s[i + 20..n];
    }
    assert IsZone(w[m..]) by {
      assert w[m..] == s[n..e];
      if s[n] != 'Z' {
        assert w[m..][1..] == s[n + 1..n + 6];
      }
    }
    assert InISOLanguage(w);
  }

  /** A substring in the language that starts at `i` is found by the scanner at `i`. */
  lemma MatchAtComplete(s: string, i: nat, e: nat)
    requires i <= e <= |s| && InISOLanguage(s[i..e])
    ensures MatchAt(s, i)
  {
    var w := s[i..e];
    var m :| 20 < m <= |w| && Matches(DatePrefix, w[..20]) && AllDigits(w[20..m]) && IsZone(w[m..]);
    var n := i + m;
    assert Matches(DatePrefix, s[i..i + 20]) by {
      assert s[i..i + 20] == w[..20];
    }
    assert AllDigits(s[i + 20..n]) by {
      assert |w| == e - i && n <= e;
      forall j | 0 <= j < m - 20
        ensures s[i + 20..n][j] == w[20..m][j]
      {
        assert w[20..m][j] == w[20 + j] == s[i + 20 + j];
      }
      assert s[i + 20..n] == w[20..m];
    }
    assert n < |s| && !IsDigit(s[n]) && ZoneAt(s, n) by {
      var z := w[m..];
      assert z == s[n..e];
      assert z[0] == s[n];
      if z != "Z" {
        assert s[n + 1..n + 6] == z[1..];
      }
    }
    DigitRunEndAt(s, i + 20, n);
  }

  /** The scanner from `i` finds a match iff one starts at some position from `i` on. */
  lemma {:induction false} SearchFromSpec(s: string, i: nat)
    requires i <= |s|
    ensures SearchFrom(s, i) <==> exists j :: i <= j <= |s| && MatchAt(s, j)
    decreases |s| - i
  {
    if i < |s| {
      SearchFromSpec(s, i + 1);
    }
  }

  /** `isISOString` on a string is exactly the unanchored search the pattern describes. */
  lemma IsISOStringCorrect(s: string)
    ensures SearchFrom(s, 0) <==> ContainsISOTimestamp(s)
  {
    SearchFromSpec(s, 0);
    if SearchFrom(s, 0) {
      var j :| 0 <= j <= |s| && MatchAt(s, j);
      MatchAtSound(s, j);
    }
    if ContainsISOTimestamp(s) {
      var i, e :| 0 <= i <= e <= |s| && InISOLanguage(s[i..e]);
      MatchAtComplete(s, i, e);
    }
  }

  // ----- Mutual exclusion of the type predicates -----

  /** An object in the `isObject` sense is not an array, not a date and not null or falsy. */
  lemma IsObjectExcludes(v: Value)
    requires IsObject(v)
    ensures !IsArray(v) && !IsDate(v) && v != Null && Truthy(v)
  {
  }

  /** At most one of `isArray`, `isDate`, `isObject` holds of any value. */
  lemma ShapesDisjoint(v: Value)
    ensures !(IsArray(v) && IsDate(v))
    ensures !(IsArray(v) && IsObject(v))
    ensures !(IsDate(v) && IsObject(v))
  {
  }

  /** An ISO string typechecks both as "string" and as "date"; an array never as "object". */
  lemma TypecheckOverlaps(v: Value)
    ensures IsISOString(v) ==> Typechecks(v, "string") && Typechecks(v, "date")
    ensures IsArray(v) ==> !Typechecks(v, "object") && Typechecks(v, "array")
  {
  }
}
