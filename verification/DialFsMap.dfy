/** The directory as a map from names to byte strings, over every run of requests. */
module DialFsMap {
  import opened Common
  import opened DialFsDirectory

  function Names(es: seq<Entry>): set<string> {
    set i | 0 <= i < |es| :: es[i].name
  }

  function Lookup(es: seq<Entry>, name: string): seq<byte>
    requires name in Names(es)
  {
    es[Target(es, name)].data
  }

  function AsMap(es: seq<Entry>): map<string, seq<byte>> {
    map name | name in Names(es) :: Lookup(es, name)
  }

  /** With distinct names, the map holds every entry. */
  lemma AsMapAt(es: seq<Entry>, i: nat)
    requires DistinctNames(es) && i < |es|
    ensures es[i].name in AsMap(es) && AsMap(es)[es[i].name] == es[i].data
    ensures Target(es, es[i].name) == i
  {
    var t := Target(es, es[i].name);
    assert Present(es, es[i].name);
  }

  /** Two directories with distinct names and, up to order, the same entries are the same map. */
  lemma AsMapIs(es: seq<Entry>, m: map<string, seq<byte>>)
    requires DistinctNames(es)
    requires forall i :: 0 <= i < |es| ==> es[i].name in m && m[es[i].name] == es[i].data
    requires forall name :: name in m ==> Present(es, name)
    ensures AsMap(es) == m
  {
    forall name | name in m ensures name in AsMap(es) && AsMap(es)[name] == m[name] {
      var i :| 0 <= i < |es| && es[i].name == name;
      AsMapAt(es, i);
    }
  }

  /** Replacing one entry's bytes updates the map at that name. */
  lemma AsMapReplace(es: seq<Entry>, t: nat, data: seq<byte>)
    requires DistinctNames(es) && t < |es|
    ensures DistinctNames(es[t := es[t].(data := data)])
    ensures AsMap(es[t := es[t].(data := data)]) == AsMap(es)[es[t].name := data]
  {
    var after := es[t := es[t].(data := data)];
    var m := AsMap(es)[es[t].name := data];
    forall i | 0 <= i < |es| ensures after[i].name in m && m[after[i].name] == after[i].data {
      AsMapAt(es, i);
    }
    forall name | name in m ensures Present(after, name) {
      if name != es[t].name {
        var i :| 0 <= i < |es| && es[i].name == name;
        assert after[i].name == name;
      } else {
        assert after[t].name == name;
      }
    }
    AsMapIs(after, m);
  }

  lemma RemovedAt(es: seq<Entry>, t: nat, i: nat)
    requires t < |es| && i < |es| - 1
    ensures RemoveAt(es, t)[i] == es[if i < t then i else i + 1]
  {
  }

  lemma {:induction false} AsMapRemove(es: seq<Entry>, t: nat)
    requires DistinctNames(es) && t < |es|
    ensures DistinctNames(RemoveAt(es, t))
    ensures AsMap(RemoveAt(es, t)) == AsMap(es) - {es[t].name}
  {
    hide RemoveAt, Target, Lookup;
    var after := RemoveAt(es, t);
    assert |after| == |es| - 1 by {
      RemovedSize(es, t);
    }
    var m := AsMap(es) - {es[t].name};
    forall i | 0 <= i < |after|
      ensures after[i] == es[if i < t then i else i + 1]
      ensures after[i].name in m && m[after[i].name] == after[i].data
    {
      RemovedAt(es, t, i);
      AsMapAt(es, if i < t then i else i + 1);
    }
    forall name | name in m ensures Present(after, name) {
      var i :| 0 <= i < |es| && es[i].name == name;
      assert after[if i < t then i else i - 1].name == name;
    }
    AsMapIs(after, m);
  }

  lemma RemovedSize(es: seq<Entry>, t: nat)
    requires t < |es|
    ensures |RemoveAt(es, t)| == |es| - 1
  {
  }

  // ----- Requests on the map -----

  lemma NamesPresent(es: seq<Entry>, name: string)
    ensures name in AsMap(es) <==> Present(es, name)
  {
  }

  /** Appending a file with a new name. */
  lemma AsMapAppend(es: seq<Entry>, name: string)
    requires DistinctNames(es) && !Present(es, name)
    ensures DistinctNames(es + [Entry(name, [])])
    ensures AsMap(es + [Entry(name, [])]) == AsMap(es)[name := []]
  {
    hide AsMap, Target;
    var after := es + [Entry(name, [])];
    var m := AsMap(es)[name := []];
    forall i | 0 <= i < |after| ensures after[i].name in m && m[after[i].name] == after[i].data {
      if i < |es| {
        AsMapAt(es, i);
        assert Present(es, es[i].name);
      }
    }
    forall n | n in m ensures Present(after, n) {
      NamesPresent(es, n);
      AppendPresent(es, name, n);
    }
    AsMapIs(after, m);
  }

  lemma AppendPresent(es: seq<Entry>, name: string, n: string)
    requires n == name || Present(es, n)
    ensures Present(es + [Entry(name, [])], n)
  {
    var after := es + [Entry(name, [])];
    if n == name {
      assert after[|es|].name == n;
    } else {
      var i :| 0 <= i < |es| && es[i].name == n;
      assert after[i].name == n;
    }
  }

  /** A creation means what it says exactly unless the metadata file of a name no longer listed was left behind. */
  lemma CreateAsMap(d: Directory, name: string, bs: nat, cap: nat)
    requires Sound(d) && bs > 0
    ensures var m, after := AsMap(d.es), Step(d, Create(name), bs, cap);
            && Sound(after)
            && AsMap(after.es) == (if Used(d.es, bs) < cap && name !in d.meta then m[name := []] else m)
            && (AsMap(after.es) == (if Used(d.es, bs) < cap && name !in m then m[name := []] else m) <==>
                 !(Used(d.es, bs) < cap && name in d.meta && name !in m))
            && (Used(d.es, bs) < cap && name !in d.meta ==> after.es == d.es + [Entry(name, [])])
  {
    hide AsMap, Used;
    NamesPresent(d.es, name);
    if Used(d.es, bs) < cap && name !in d.meta {
      assert !Present(d.es, name);
      AsMapAppend(d.es, name);
    }
  }

  /** A deletion means what it says exactly when the file exists: otherwise it removes the last file of the list. */
  lemma DeleteAsMap(d: Directory, name: string, bs: nat, cap: nat)
    requires Sound(d) && d.es != [] && bs > 0
    ensures var m, after := AsMap(d.es), Step(d, Delete(name), bs, cap);
            && Sound(after)
            && (AsMap(after.es) == m - {name} <==> Present(d.es, name))
            && (!Present(d.es, name) ==> AsMap(after.es) == m - {d.es[|d.es| - 1].name})
            && |after.es| == |d.es| - 1
            && (forall i :: 0 <= i < |after.es| ==> after.es[i] == d.es[if i < Target(d.es, name) then i else i + 1])
  {
    hide AsMap, RemoveAt;
    var t := Target(d.es, name);
    AsMapRemove(d.es, t);
    AsMapAt(d.es, t);
    RemovedKnown(d, name, bs, cap);
    forall i | 0 <= i < |d.es| - 1 ensures RemoveAt(d.es, t)[i] == d.es[if i < t then i else i + 1] {
      RemovedAt(d.es, t, i);
    }
    if !Present(d.es, name) {
      assert d.es[t].name in AsMap(d.es) - {name};
    }
  }

  lemma RemovedKnown(d: Directory, name: string, bs: nat, cap: nat)
    requires Sound(d) && d.es != [] && bs > 0
    ensures var after := Step(d, Delete(name), bs, cap);
            forall i :: 0 <= i < |after.es| ==> after.es[i].name in after.meta
  {
    hide RemoveAt;
    var t := Target(d.es, name);
    var after := Step(d, Delete(name), bs, cap);
    forall i | 0 <= i < |after.es| ensures after.es[i].name in after.meta {
      RemovedAt(d.es, t, i);
      var j := if i < t then i else i + 1;
      assert d.es[j].name != d.es[t].name;
      assert d.es[j].name == name ==> Present(d.es, name);
    }
  }

  /** A truncation keeps the prefix or extends it with zeros, within the quota, of the file found: the one named
      if it exists, and otherwise the last of the list. */
  lemma TruncateAsMap(d: Directory, name: string, size: nat, bs: nat, cap: nat)
    requires Sound(d) && d.es != [] && bs > 0
    ensures var found := d.es[Target(d.es, name)].name;
            var m, after := AsMap(d.es), Step(d, Truncate(name, size), bs, cap);
            && found in m && (found == name <==> Present(d.es, name))
            && Sound(after)
            && AsMap(after.es) ==
               if size <= |m[found]| then m[found := m[found][..size]]
               else if Used(d.es, bs) - Blocks(|m[found]|, bs) + Blocks(size, bs) <= cap
               then m[found := m[found] + Repeat(size - |m[found]|, 0)]
               else m
  {
    hide AsMap, Used, Blocks;
    var t := Target(d.es, name);
    AsMapAt(d.es, t);
    AsMapReplace(d.es, t, Resized(d.es, t, size, bs, cap));
    NotPresent(d.es, name, t);
  }

  lemma NotPresent(es: seq<Entry>, name: string, t: nat)
    requires t < |es|
    ensures es[t].name == name ==> Present(es, name)
  {
  }

  /** A write replaces bytes of the file found, in the same sense, when they fit. */
  lemma WriteAsMap(d: Directory, name: string, at: nat, data: seq<byte>, bs: nat, cap: nat)
    requires Sound(d) && d.es != [] && bs > 0
    ensures var found := d.es[Target(d.es, name)].name;
            var m, after := AsMap(d.es), Step(d, Write(name, at, data), bs, cap);
            && found in m && (found == name <==> Present(d.es, name))
            && Sound(after)
            && AsMap(after.es) == if at + |data| <= |m[found]| then m[found := Blit(m[found], at, data)] else m
  {
    hide AsMap, Used, Blocks;
    var t := Target(d.es, name);
    AsMapAt(d.es, t);
    if at + |data| <= |d.es[t].data| {
      AsMapReplace(d.es, t, Blit(d.es[t].data, at, data));
    }
    NotPresent(d.es, name, t);
  }

  // ----- Metadata files left behind -----

  /** Every metadata file is of a file listed. */
  ghost predicate Clean(d: Directory) {
    forall name :: name in d.meta ==> Present(d.es, name)
  }

  lemma CleanNames(d: Directory, e: Directory)
    requires Clean(d) && e.meta == d.meta && |e.es| == |d.es| && forall i :: 0 <= i < |d.es| ==>
             e.es[i].name == d.es[i].name
    ensures Clean(e)
  {
    forall name | name in e.meta ensures Present(e.es, name) {
      var i :| 0 <= i < |d.es| && d.es[i].name == name;
      assert e.es[i].name == name;
    }
  }

  lemma CleanDelete(d: Directory, name: string, bs: nat, cap: nat)
    requires Sound(d) && Clean(d) && d.es != [] && bs > 0
    ensures Clean(Step(d, Delete(name), bs, cap)) <==> Present(d.es, name)
  {
    hide RemoveAt;
    var t := Target(d.es, name);
    var e := Step(d, Delete(name), bs, cap);
    RemovedSize(d.es, t);
    forall i | 0 <= i < |e.es| ensures e.es[i] == d.es[if i < t then i else i + 1] {
      RemovedAt(d.es, t, i);
    }
    if Present(d.es, name) {
      forall n | n in e.meta ensures Present(e.es, n) {
        var i :| 0 <= i < |d.es| && d.es[i].name == n;
        assert e.es[if i < t then i else i - 1].name == n;
      }
    } else {
      assert d.es[t].name in e.meta && !Present(e.es, d.es[t].name);
    }
  }

  /** A metadata file is left behind exactly by the deletion of a name that does not exist. */
  lemma CleanStep(d: Directory, op: Op, bs: nat, cap: nat)
    requires Sound(d) && Clean(d) && bs > 0 && Served(d.es, op, bs)
    ensures Clean(Step(d, op, bs, cap)) <==> (op.Delete? ==> Present(d.es, op.name))
  {
    hide Used, Target, Blocks;
    var e := Step(d, op, bs, cap);
    match op
    case Create(name) =>
      if Used(d.es, bs) < cap && name !in d.meta {
        forall n | n in e.meta ensures Present(e.es, n) {
          AppendPresent(d.es, name, n);
        }
      } else {
        assert name in d.meta ==> d.meta + {name} == d.meta;
        CleanNames(d, e);
      }
    case Delete(name) => CleanDelete(d, name, bs, cap);
    case Truncate(_, _) => CleanNames(d, e);
    case Write(_, _, _) => CleanNames(d, e);
    case Read(_, _, _) => CleanNames(d, e);
  }

  /** A file deleted under a wrong name cannot be created again: the creation finds its metadata file. */
  lemma StaleMetadata(a: string, x: string, data: seq<byte>, bs: nat, cap: nat)
    requires a != x && bs > 0 && cap > 0
    ensures var d := Directory([Entry(a, data)], {a});
            var ops := [Delete(x), Create(a)];
            Sound(d) && Clean(d) && AllServed(d, ops, bs, cap) && Run(d, ops, bs, cap) == Directory([], {a})
  {
    var d := Directory([Entry(a, data)], {a});
    var ops := [Delete(x), Create(a)];
    assert Present(d.es, a) by {
      assert d.es[0].name == a;
    }
    var e := Step(d, Delete(x), bs, cap);
    assert e == Directory([], {a});
    assert Step(e, Create(a), bs, cap) == e;
    assert ops[1..] == [Create(a)] && ops[1..][1..] == [];
    assert Run(e, [], bs, cap) == e;
    assert Run(e, ops[1..], bs, cap) == e;
  }

  // ----- Runs -----

  lemma {:induction false} UsedUpdate(es: seq<Entry>, t: nat, e: Entry, bs: nat)
    requires bs > 0 && t < |es|
    ensures Used(es[t := e], bs) == Used(es, bs) - Blocks(|es[t].data|, bs) + Blocks(|e.data|, bs)
  {
    var last := |es| - 1;
    if t == last {
      assert es[t := e][..last] == es[..last];
    } else {
      assert es[t := e][..last] == es[..last][t := e];
      UsedUpdate(es[..last], t, e, bs);
    }
  }

  lemma {:induction false} UsedRemove(es: seq<Entry>, t: nat, bs: nat)
    requires bs > 0 && t < |es|
    ensures Used(RemoveAt(es, t), bs) == Used(es, bs) - Blocks(|es[t].data|, bs)
  {
    var last := |es| - 1;
    if t == last {
      assert RemoveAt(es, t) == es[..last];
    } else {
      assert RemoveAt(es, t)[..last - 1] == RemoveAt(es[..last], t);
      UsedRemove(es[..last], t, bs);
    }
  }

  lemma UsedAppend(es: seq<Entry>, name: string, bs: nat)
    requires bs > 0
    ensures Used(es + [Entry(name, [])], bs) == Used(es, bs) + 1
  {
    assert (es + [Entry(name, [])])[..|es|] == es;
  }

  /** The quota in use after a request. */
  function UsedAfter(d: Directory, op: Op, bs: nat, cap: nat): int
    requires bs > 0 && Served(d.es, op, bs)
  {
    var es, used := d.es, Used(d.es, bs);
    match op
    case Create(name) => if used < cap && name !in d.meta then used + 1 else used
    case Delete(name) => used - Blocks(|es[Target(es, name)].data|, bs)
    case Truncate(name, size) =>
      var t := Target(es, name);
      used - Blocks(|es[t].data|, bs) + Blocks(|Resized(es, t, size, bs, cap)|, bs)
    case _ => used
  }

  lemma StepUsed(d: Directory, op: Op, bs: nat, cap: nat)
    requires bs > 0 && Served(d.es, op, bs)
    ensures Used(Step(d, op, bs, cap).es, bs) == UsedAfter(d, op, bs, cap)
  {
    hide Used, Blocks, RemoveAt, Target, Resized;
    match op
    case Create(name) => UsedAppend(d.es, name, bs);
    case Delete(name) => UsedRemove(d.es, Target(d.es, name), bs);
    case Truncate(name, size) =>
      var t := Target(d.es, name);
      UsedUpdate(d.es, t, d.es[t].(data := Resized(d.es, t, size, bs, cap)), bs);
    case Write(name, at, data) =>
      var t := Target(d.es, name);
      if at + |data| <= |d.es[t].data| {
        UsedUpdate(d.es, t, d.es[t].(data := Blit(d.es[t].data, at, data)), bs);
      }
    case Read(_, _, _) =>
  }

  lemma StepKeepsQuota(d: Directory, op: Op, bs: nat, cap: nat)
    requires bs > 0 && Served(d.es, op, bs) && Used(d.es, bs) <= cap
    ensures Used(Step(d, op, bs, cap).es, bs) <= cap
  {
    hide Used, Blocks, Target, Relisted;
    StepUsed(d, op, bs, cap);
    if op.Truncate? {
      var t := Target(d.es, op.name);
      if op.size <= |d.es[t].data| {
        BlocksMono(op.size, |d.es[t].data|, bs);
      }
    }
  }

  lemma StepSound(d: Directory, op: Op, bs: nat, cap: nat)
    requires bs > 0 && Served(d.es, op, bs) && Sound(d)
    ensures Sound(Step(d, op, bs, cap))
  {
    hide Sound, Step, AsMap, Used, Target, Blocks;
    match op
    case Create(name) => CreateAsMap(d, name, bs, cap);
    case Delete(name) => DeleteAsMap(d, name, bs, cap);
    case Truncate(name, size) => TruncateAsMap(d, name, size, bs, cap);
    case Write(name, at, data) => WriteAsMap(d, name, at, data, bs, cap);
    case Read(_, _, _) => ReadNothing(d, op, bs, cap);
  }

  /** Over every run names stay distinct, every file keeps its metadata file, and the quota is kept. */
  lemma {:induction false} RunKeeps(d: Directory, ops: seq<Op>, bs: nat, cap: nat)
    requires bs > 0 && AllServed(d, ops, bs, cap) && Sound(d) && Used(d.es, bs) <= cap
    ensures Sound(Run(d, ops, bs, cap)) && Used(Run(d, ops, bs, cap).es, bs) <= cap
    decreases |ops|
  {
    hide Sound, Step, Served;
    if ops != [] {
      StepKeepsQuota(d, ops[0], bs, cap);
      StepSound(d, ops[0], bs, cap);
      RunKeeps(Step(d, ops[0], bs, cap), ops[1..], bs, cap);
    }
  }

  // ----- Runs as runs of a map -----

  /** Named byte strings and the blocks they use: all that a user of the file system need know. */
  datatype Store = Store(files: map<string, seq<byte>>, used: int)

  /** Requests name files that exist. */
  predicate Sensible(s: Store, op: Op, bs: nat)
    requires bs > 0
  {
    op.Create? || (op.name in s.files && (op.Read? ==> op.at + op.n <= At(Blocks(|s.files[op.name]|, bs), bs)))
  }

  function MapStep(s: Store, op: Op, bs: nat, cap: nat): Store
    requires bs > 0 && Sensible(s, op, bs)
  {
    match op
    case Create(name) => if s.used < cap && name !in s.files then Store(s.files[name := []], s.used + 1) else s
    case Delete(name) => Store(s.files - {name}, s.used - Blocks(|s.files[name]|, bs))
    case Truncate(name, size) =>
      var data := s.files[name];
      var used := s.used - Blocks(|data|, bs) + Blocks(size, bs);
      if size <= |data| then Store(s.files[name := data[..size]], used)
      else if used <= cap then Store(s.files[name := data + Repeat(size - |data|, 0)], used)
      else s
    case Write(name, at, data) =>
      if at + |data| <= |s.files[name]| then s.(files := s.files[name := Blit(s.files[name], at, data)]) else s
    case Read(_, _, _) => s
  }

  ghost predicate AllSensible(s: Store, ops: seq<Op>, bs: nat, cap: nat)
    requires bs > 0
    decreases |ops|
  {
    ops == [] || (Sensible(s, ops[0], bs) && AllSensible(MapStep(s, ops[0], bs, cap), ops[1..], bs, cap))
  }

  ghost function MapRun(s: Store, ops: seq<Op>, bs: nat, cap: nat): Store
    requires bs > 0 && AllSensible(s, ops, bs, cap)
    decreases |ops|
  {
    if ops == [] then s else MapRun(MapStep(s, ops[0], bs, cap), ops[1..], bs, cap)
  }

  function AsStore(d: Directory, bs: nat): Store
    requires bs > 0
  {
    Store(AsMap(d.es), Used(d.es, bs))
  }

  /** A name in the map is found. */
  lemma Found(d: Directory, name: string)
    requires Sound(d) && name in AsMap(d.es)
    ensures d.es != [] && Present(d.es, name)
    ensures var t := Target(d.es, name); d.es[t].name == name && AsMap(d.es)[name] == d.es[t].data
  {
    NamesPresent(d.es, name);
    AsMapAt(d.es, Target(d.es, name));
  }

  lemma CleanNew(d: Directory, name: string)
    requires Sound(d) && Clean(d)
    ensures name in d.meta <==> name in AsMap(d.es)
  {
    NamesPresent(d.es, name);
  }

  lemma StepAsMap(d: Directory, op: Op, bs: nat, cap: nat)
    requires bs > 0 && Sound(d) && Clean(d) && Sensible(AsStore(d, bs), op, bs)
    ensures Served(d.es, op, bs)
    ensures Sound(Step(d, op, bs, cap)) && Clean(Step(d, op, bs, cap))
    ensures AsStore(Step(d, op, bs, cap), bs) == MapStep(AsStore(d, bs), op, bs, cap)
  {
    hide AsMap, Used, Target, Blocks, Relisted, Sound, Clean;
    if !op.Create? {
      Found(d, op.name);
    }
    StepSound(d, op, bs, cap);
    StepUsed(d, op, bs, cap);
    CleanStep(d, op, bs, cap);
    match op
    case Create(name) =>
      CleanNew(d, name);
      CreateAsMap(d, name, bs, cap);
    case Delete(name) => DeleteAsMap(d, name, bs, cap);
    case Truncate(name, size) => TruncateAsMap(d, name, size, bs, cap);
    case Write(name, at, data) => WriteAsMap(d, name, at, data, bs, cap);
    case Read(_, _, _) => ReadNothing(d, op, bs, cap);
  }

  /** Over every run of requests that name existing files, the directory is the map that the same requests make. */
  lemma {:induction false} RunAsMap(d: Directory, ops: seq<Op>, bs: nat, cap: nat)
    requires bs > 0 && Sound(d) && Clean(d) && AllSensible(AsStore(d, bs), ops, bs, cap)
    ensures AllServed(d, ops, bs, cap)
    ensures AsStore(Run(d, ops, bs, cap), bs) == MapRun(AsStore(d, bs), ops, bs, cap)
    decreases |ops|
  {
    hide AsStore, Sound, Clean, Step, MapStep, Served, Sensible;
    if ops != [] {
      StepAsMap(d, ops[0], bs, cap);
      RunAsMap(Step(d, ops[0], bs, cap), ops[1..], bs, cap);
    }
  }
}
