/**
  Optional values, error results and the `Array.prototype.find` lookups by year
  that every stage of the forecast uses to pair rows of different tables.
 */
module Lookup {

  /** A value that may be absent (`undefined` or `null` in the source). */
  datatype Option<T> = None | Some(value: T) {

    /** `x ?? d`: the value when present, otherwise the default. */
    function GetOr(d: T): T {
      match this
      case Some(v) => v
      case None => d
    }
  }

  /** The outcome of a stage that can raise: a value, or the error it raises. */
  datatype Result<T, E> = Ok(value: T) | Err(error: E)

  /** The index `find` stops at: the FIRST element whose key is `y`. */
  function IndexOf<T>(s: seq<T>, key: T -> int, y: int): (r: Option<nat>)
    ensures r.Some? ==> r.value < |s| && key(s[r.value]) == y
    ensures r.Some? ==> forall j | 0 <= j < r.value :: key(s[j]) != y
    ensures r.None? ==> forall j | 0 <= j < |s| :: key(s[j]) != y
    decreases |s|
  {
    if |s| == 0 then None
    else if key(s[0]) == y then Some(0)
    else
      match IndexOf(s[1..], key, y)
      case None => None
      case Some(i) => Some(i + 1)
  }

  /** `s.find(x => key(x) === y)`. */
  function Find<T>(s: seq<T>, key: T -> int, y: int): (r: Option<T>)
    ensures r.None? <==> forall j | 0 <= j < |s| :: key(s[j]) != y
    ensures r.Some? ==> key(r.value) == y
  {
    match IndexOf(s, key, y)
    case None => None
    case Some(i) => Some(s[i])
  }

  /** When no earlier element shares its key, `find` returns the element itself. */
  lemma FindFirst<T>(s: seq<T>, key: T -> int, i: nat)
    requires i < |s|
    requires forall j | 0 <= j < i :: key(s[j]) != key(s[i])
    ensures Find(s, key, key(s[i])) == Some(s[i])
  {
  }

  /**
    Looking up a key in an element-wise image of a sequence finds the image of
    what the lookup finds in the original, when the mapping preserves keys.
   */
  lemma {:induction false} IndexOfMapped<T, U>(s: seq<T>, t: seq<U>, key: T -> int, key2: U -> int, y: int)
    requires |s| == |t|
    requires forall i | 0 <= i < |s| :: key2(t[i]) == key(s[i])
    ensures IndexOf(t, key2, y) == IndexOf(s, key, y)
    decreases |s|
  {
    if |s| > 0 && key(s[0]) != y {
      IndexOfMapped(s[1..], t[1..], key, key2, y);
    }
  }

  /** True when no key occurs twice. */
  predicate DistinctKeys<T>(s: seq<T>, key: T -> int) {
    forall i, j | 0 <= i < j < |s| :: key(s[i]) != key(s[j])
  }

  /** With distinct keys every element is what `find` returns for its own key. */
  lemma FindDistinct<T>(s: seq<T>, key: T -> int, i: nat)
    requires i < |s|
    requires DistinctKeys(s, key)
    ensures Find(s, key, key(s[i])) == Some(s[i])
  {
    FindFirst(s, key, i);
  }
}
