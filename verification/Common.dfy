/** Sequence vocabulary shared by the models. */
module Common {

  type byte = b: int | 0 <= b < 256

  datatype Option<+T> = None | Some(value: T)

  /** `s` with the `n` elements from `at` on replaced by `v`. */
  function Fill<T>(s: seq<T>, at: nat, n: nat, v: T): (r: seq<T>)
    requires at + n <= |s|
    ensures |r| == |s|
    ensures forall k :: 0 <= k < |s| ==> r[k] == if at <= k < at + n then v else s[k]
  {
    seq(|s|, k requires 0 <= k < |s| => if at <= k < at + n then v else s[k])
  }

  /** `s` with the elements from `at` on replaced by those of `data`. */
  function Blit<T>(s: seq<T>, at: nat, data: seq<T>): (r: seq<T>)
    requires at + |data| <= |s|
    ensures |r| == |s|
    ensures forall k :: 0 <= k < |s| ==> r[k] == if at <= k < at + |data| then data[k - at] else s[k]
  {
    seq(|s|, k requires 0 <= k < |s| => if at <= k < at + |data| then data[k - at] else s[k])
  }

  function Repeat<T>(n: nat, v: T): (r: seq<T>)
    ensures |r| == n
    ensures forall k :: 0 <= k < n ==> r[k] == v
  {
    seq(n, _ => v)
  }

  function RemoveAt<T>(s: seq<T>, i: nat): (r: seq<T>)
    requires i < |s|
    ensures |r| == |s| - 1
  {
    s[..i] + s[i + 1..]
  }

  /** The byte at which block (or frame, or page) `b` starts, `b * bs`, in a form free of products. */
  function At(b: nat, bs: nat): nat {
    if b == 0 then 0 else At(b - 1, bs) + bs
  }

  lemma {:induction false} AtIsProduct(b: nat, bs: nat)
    ensures At(b, bs) == b * bs
  {
    if b > 0 {
      AtIsProduct(b - 1, bs);
    }
  }

  lemma {:induction false} AtSum(a: nat, b: nat, ps: nat)
    ensures At(a + b, ps) == At(a, ps) + At(b, ps)
  {
    if b > 0 {
      AtSum(a, b - 1, ps);
    }
  }

  lemma {:induction false} AtMono(a: nat, b: nat, bs: nat)
    requires a <= b
    ensures At(a, bs) <= At(b, bs)
  {
    if a < b {
      AtMono(a, b - 1, bs);
    }
  }

  /** How many entries of a bitmap are set. */
  function CountUsed(bits: seq<bool>): (n: nat)
    ensures n <= |bits|
  {
    if bits == [] then 0 else CountUsed(bits[..|bits| - 1]) + if bits[|bits| - 1] then 1 else 0
  }

  lemma Assoc<T>(a: seq<T>, b: seq<T>, c: seq<T>)
    ensures a + (b + c) == (a + b) + c
  {
  }

  lemma NoneBefore<T>(a: seq<T>)
    ensures [] + a == a && a + [] == a
  {
  }

  /** The first of the tail, and what follows it, of two sequences put together. */
  lemma AppendTail<T>(a: seq<T>, b: seq<T>)
    requires a != []
    ensures (a + b)[0] == a[0] && (a + b)[1..] == a[1..] + b
  {
  }

  lemma FillFront<T>(s: seq<T>, at: nat, n: nat, v: T)
    requires at + n <= |s| && s != []
    ensures at + n < |s| ==> Fill(s, at, n, v)[..|s| - 1] == Fill(s[..|s| - 1], at, n, v)
    ensures at + n == |s| && n > 0 ==> Fill(s, at, n, v)[..|s| - 1] == Fill(s[..|s| - 1], at, n - 1, v)
  {
  }

  lemma {:induction false} CountFill(bits: seq<bool>, at: nat, n: nat, v: bool)
    requires at + n <= |bits|
    requires forall b :: at <= b < at + n ==> bits[b] == !v
    ensures CountUsed(Fill(bits, at, n, v)) == if v then CountUsed(bits) + n else CountUsed(bits) - n
  {
    if n == 0 {
      assert Fill(bits, at, n, v) == bits;
    } else {
      var last := |bits| - 1;
      FillFront(bits, at, n, v);
      if at + n == |bits| {
        CountFill(bits[..last], at, n - 1, v);
      } else {
        CountFill(bits[..last], at, n, v);
      }
    }
  }
}
