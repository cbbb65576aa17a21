/** What DialFS is meant to be: a directory of named byte strings with a quota of blocks,
    with no trace of where on the disk a file lies (entradasalida/src/inout.c:716-916). */
module DialFsDirectory {
  import opened Common

  datatype Entry = Entry(name: string, data: seq<byte>)

  /** Blocks owned by a file of `size` bytes; an empty file owns one block. */
  function Blocks(size: nat, bs: nat): (n: nat)
    requires bs > 0
    ensures n >= 1
  {
    if size <= bs then 1 else 1 + Blocks(size - bs, bs)
  }

  /** The block count is the size over the block size, rounded up. */
  lemma {:induction false} BlocksIsCeiling(size: nat, bs: nat)
    requires bs > 0
    ensures size <= Blocks(size, bs) * bs
    ensures size > 0 ==> (Blocks(size, bs) - 1) * bs < size
  {
    if size > bs {
      BlocksIsCeiling(size - bs, bs);
    }
  }

  lemma {:induction false} BlocksMono(a: nat, b: nat, bs: nat)
    requires bs > 0 && a <= b
    ensures Blocks(a, bs) <= Blocks(b, bs)
    decreases a
  {
    if a > bs {
      BlocksMono(a - bs, b - bs, bs);
    }
  }

  /** The quota in use. */
  function Used(es: seq<Entry>, bs: nat): nat
    requires bs > 0
  {
    if es == [] then 0 else Used(es[..|es| - 1], bs) + Blocks(|es[|es| - 1].data|, bs)
  }

  lemma UsedNone(bs: nat)
    requires bs > 0
    ensures Used([], bs) == 0
  {
  }

  lemma UsedNext(es: seq<Entry>, n: nat, bs: nat)
    requires bs > 0 && 0 < n <= |es|
    ensures Used(es[..n], bs) == Used(es[..n - 1], bs) + Blocks(|es[n - 1].data|, bs)
  {
    assert es[..n][..n - 1] == es[..n - 1];
  }

  ghost predicate DistinctNames(es: seq<Entry>) {
    forall i, j :: 0 <= i < j < |es| ==> es[i].name != es[j].name
  }

  predicate Present(es: seq<Entry>, name: string) {
    exists i :: 0 <= i < |es| && es[i].name == name
  }

  /** The entry a name lookup answers: the first with that name, and the last of all when there is none. */
  function Target(es: seq<Entry>, name: string): (t: nat)
    requires es != []
    ensures t < |es|
    ensures Present(es, name) ==> es[t].name == name
    ensures !Present(es, name) ==> t == |es| - 1
    ensures forall i :: 0 <= i < t ==> es[i].name != name
  {
    if |es| == 1 || es[0].name == name then 0
    else
      var t := Target(es[1..], name);
      assert Present(es[1..], name) == Present(es, name) by {
        if Present(es, name) {
          var i :| 0 <= i < |es| && es[i].name == name;
          assert es[1..][i - 1].name == name;
        }
      }
      t + 1
  }

  datatype Op =
    | Create(name: string)
    | Delete(name: string)
    | Truncate(name: string, size: nat)
    | Write(name: string, at: nat, data: seq<byte>)
    | Read(name: string, at: nat, n: nat)

  /** Every request but a creation looks a file up, so it needs a file to exist; a read stays in its blocks. */
  predicate Served(es: seq<Entry>, op: Op, bs: nat)
    requires bs > 0
  {
    op.Create? || (es != [] && (op.Read? ==> op.at + op.n <= At(Blocks(|es[Target(es, op.name)].data|, bs), bs)))
  }

  /** The new contents of the file a truncation names, if the quota allows them. */
  function Resized(es: seq<Entry>, t: nat, size: nat, bs: nat, cap: nat): seq<byte>
    requires bs > 0 && t < |es|
  {
    var data := es[t].data;
    if size <= |data| then data[..size]
    else if Used(es, bs) - Blocks(|data|, bs) + Blocks(size, bs) <= cap then data + Repeat(size - |data|, 0)
    else data
  }

  /** What one request makes of the entries. `known` tells whether the metadata file of a name to create exists. */
  function Relisted(es: seq<Entry>, op: Op, known: bool, bs: nat, cap: nat): seq<Entry>
    requires bs > 0 && Served(es, op, bs)
  {
    match op
    case Create(name) => if Used(es, bs) < cap && !known then es + [Entry(name, [])] else es
    case Delete(name) => RemoveAt(es, Target(es, name))
    case Truncate(name, size) =>
      var t := Target(es, name);
      es[t := es[t].(data := Resized(es, t, size, bs, cap))]
    case Write(name, at, data) =>
      var t := Target(es, name);
      if at + |data| <= |es[t].data| then es[t := es[t].(data := Blit(es[t].data, at, data))] else es
    case Read(_, _, _) => es
  }

  /** The list of files, and the names of the metadata files. Creation asks whether a metadata file exists;
      deletion removes the metadata file of the name it was given, whichever file it dropped from the list. */
  datatype Directory = Directory(es: seq<Entry>, meta: set<string>)

  function NewMeta(d: Directory, op: Op, bs: nat, cap: nat): set<string>
    requires bs > 0
  {
    match op
    case Create(name) => if Used(d.es, bs) < cap then d.meta + {name} else d.meta
    case Delete(name) => d.meta - {name}
    case _ => d.meta
  }

  /** One request against a directory with a quota of `cap` blocks of `bs` bytes. */
  function Step(d: Directory, op: Op, bs: nat, cap: nat): Directory
    requires bs > 0 && Served(d.es, op, bs)
  {
    Directory(Relisted(d.es, op, op.Create? && op.name in d.meta, bs, cap), NewMeta(d, op, bs, cap))
  }

  lemma ReadNothing(d: Directory, op: Op, bs: nat, cap: nat)
    requires bs > 0 && op.Read? && Served(d.es, op, bs)
    ensures Step(d, op, bs, cap) == d
  {
  }

  /** Every request is answered, except a creation when the quota is used up. */
  predicate Replies(es: seq<Entry>, op: Op, bs: nat, cap: nat)
    requires bs > 0
  {
    op.Create? ==> Used(es, bs) < cap
  }

  ghost predicate AllServed(d: Directory, ops: seq<Op>, bs: nat, cap: nat)
    requires bs > 0
    decreases |ops|
  {
    ops == [] || (Served(d.es, ops[0], bs) && AllServed(Step(d, ops[0], bs, cap), ops[1..], bs, cap))
  }

  ghost function Run(d: Directory, ops: seq<Op>, bs: nat, cap: nat): Directory
    requires bs > 0 && AllServed(d, ops, bs, cap)
    decreases |ops|
  {
    if ops == [] then d else Run(Step(d, ops[0], bs, cap), ops[1..], bs, cap)
  }

  /** Names in the list are distinct, and each has its metadata file. */
  ghost predicate Sound(d: Directory) {
    DistinctNames(d.es) && forall i :: 0 <= i < |d.es| ==> d.es[i].name in d.meta
  }
}
