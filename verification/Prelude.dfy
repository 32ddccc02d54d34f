/** What every module may need: values that may be absent, calls that may fail, list.index, per-rank sequences. */
module Prelude {
  import opened Arith

  datatype Option<+T> = None | Some(value: T)

  /** Err stands for the exception the code raises. */
  datatype Result<+T> = Ok(value: T) | Err

  lemma Assoc<T>(a: seq<T>, b: seq<T>, c: seq<T>)
    ensures (a + b) + c == a + (b + c)
  {}

  /** The first position of x in s. */
  function IndexOf<T(==)>(s: seq<T>, x: T): (i: nat)
    requires x in s
    ensures i < |s| && s[i] == x
  {
    if s[0] == x then 0 else 1 + IndexOf(s[1..], x)
  }

  function Map<A, B>(f: A -> B, xs: seq<A>): (ys: seq<B>)
    ensures |ys| == |xs|
    ensures forall i | 0 <= i < |xs| :: ys[i] == f(xs[i])
  {
    seq(|xs|, i requires 0 <= i < |xs| => f(xs[i]))
  }

  /** Element i of every rank's buffer, in rank order. */
  function Column<T>(buffers: seq<seq<T>>, i: nat): (col: seq<T>)
    requires forall b | b in buffers :: i < |b|
    ensures |col| == |buffers|
  {
    seq(|buffers|, w requires 0 <= w < |buffers| => buffers[w][i])
  }

  /** All ranks' parts, joined in rank order. */
  function Flatten<T>(parts: seq<seq<T>>): seq<T> {
    if parts == [] then [] else Flatten(parts[..|parts| - 1]) + parts[|parts| - 1]
  }

  lemma {:induction false} FlattenLength<T>(parts: seq<seq<T>>, m: nat)
    requires forall i | 0 <= i < |parts| :: |parts[i]| == m
    ensures |Flatten(parts)| == |parts| * m
  {
    if parts != [] {
      var n := |parts| - 1;
      FlattenLength(parts[..n], m);
      assert |Flatten(parts)| == |Flatten(parts[..n])| + m;
      hide Flatten;
      MulSucc(n, m);
    }
  }

  /** Item k of part w, among parts of equal length. */
  lemma {:induction false} FlattenAt<T>(parts: seq<seq<T>>, m: nat, w: nat, k: nat)
    requires (forall i | 0 <= i < |parts| :: |parts[i]| == m) && w < |parts| && k < m
    ensures w * m + k < |Flatten(parts)|
    ensures Flatten(parts)[w * m + k] == parts[w][k]
  {
    var n := |parts| - 1;
    FlattenLength(parts[..n], m);
    FlattenLength(parts, m);
    MulGap(w, |parts|, m);
    if w < n { FlattenAt(parts[..n], m, w, k); }
  }
}
