/** JavaScript array behaviour the editor relies on, over immutable sequences.
    An entry that is missing, `undefined` or `null` is None. */
module JsArray {

  datatype Option<+T> = None | Some(value: T)

  function Min(a: int, b: int): int { if a < b then a else b }

  function Max(a: int, b: int): int { if a < b then b else a }

  /** `s[k]`, where reading outside the array gives `undefined`. */
  function At<T>(s: seq<Option<T>>, k: int): Option<T> {
    if 0 <= k < |s| then s[k] else None
  }

  /** `s[k] = v`, which grows the array with holes when k is past its end. */
  function Put<T>(s: seq<Option<T>>, k: nat, v: Option<T>): (r: seq<Option<T>>)
    ensures forall j: int :: At(r, j) == if j == k then v else At(s, j)
  {
    if k < |s| then s[k := v] else s + seq(k - |s|, _ => None) + [v]
  }

  /** `s.splice(start, count, ...items)`: start and count are clamped to the array. */
  function Splice<T>(s: seq<T>, start: nat, count: nat, items: seq<T>): seq<T> {
    var a := Min(start, |s|);
    var b := Min(a + count, |s|);
    s[..a] + items + s[b..]
  }

  function Holes<T>(n: nat): seq<Option<T>> {
    seq(n, _ => None)
  }

  /** Splicing holes over `count` entries: what is read at every index afterwards. The clamping
      of `start` cannot be observed, because it only moves holes. */
  lemma SpliceHolesAt<T>(s: seq<Option<T>>, start: nat, count: nat, n: nat, j: int)
    ensures At(Splice(s, start, count, Holes(n)), j) ==
            if j < start then At(s, j)
            else if j < start + n then None
            else At(s, j - n + count)
  {
  }
}
