/** Small value wrappers shared by every module of the model. */
module Common {

  /** A JavaScript value that may be `null`/`undefined`, or a lookup that may find nothing. */
  datatype Option<+T> = None | Some(value: T)

  /** An 8-bit byte, as held in a Node.js `Buffer` or a `Uint8Array`. */
  newtype byte = x: int | 0 <= x < 256

  type Bytes = seq<byte>

  /**
   * JavaScript truthiness of a string that may be missing: `null`,
   * `undefined` and `""` are falsy.
   */
  predicate Truthy(v: Option<string>): (r: bool)
    ensures r <==> v != None && v != Some("")
  {
    v.Some? && v.value != ""
  }
}

/** `Array.prototype.filter`, which both the server and the client use to drop entries. */
module Filtering {

  /** The entries of `s` that `keep` accepts, in their original order. */
  function Filter<T>(s: seq<T>, keep: T -> bool): (r: seq<T>)
    ensures |r| <= |s|
    ensures forall i :: 0 <= i < |r| ==> r[i] in s && keep(r[i])
    ensures forall i :: 0 <= i < |s| && keep(s[i]) ==> s[i] in r
    ensures (forall i :: 0 <= i < |s| ==> keep(s[i])) ==> r == s
    decreases |s|
  {
    if s == [] then []
    else (if keep(s[0]) then [s[0]] else []) + Filter(s[1..], keep)
  }

  /** Filtering works piece by piece, which is what keeping the order means. */
  lemma {:induction false} FilterConcat<T>(a: seq<T>, b: seq<T>, keep: T -> bool)
    ensures Filter(a + b, keep) == Filter(a, keep) + Filter(b, keep)
    decreases |a|
  {
    if a == [] {
      assert a + b == b;
    } else {
      assert (a + b)[1..] == a[1..] + b;
      FilterConcat(a[1..], b, keep);
    }
  }
}
