/** What several modules need. */
module Common {
  datatype Option<T> = None | Some(value: T)

  ghost predicate Distinct<T>(s: seq<T>) {
    forall i, j :: 0 <= i < j < |s| ==> s[i] != s[j]
  }

  type Byte = b: int | 0 <= b < 256

  /** memmove of `n` bytes of `src` from `i` on to offset `at` of `p`. */
  function Blit(p: seq<Byte>, at: nat, src: seq<Byte>, i: nat, n: nat): (q: seq<Byte>)
    requires at + n <= |p| && i + n <= |src|
    ensures |q| == |p|
    ensures forall k :: 0 <= k < |q| ==> q[k] == if at <= k < at + n then src[i + (k - at)] else p[k]
  {
    p[..at] + src[i..i + n] + p[at + n..]
  }
}
