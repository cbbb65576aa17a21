/** What each DialFS request does to the disk, as a value, and to the directory it stands for. */
module DialFsSteps {
  import opened Common
  import opened DialFsDirectory
  import opened DialFsModel

  /** A new empty file takes one free block. */
  lemma {:induction false} CreateOk(d: Disk, name: string, p: nat)
    requires Ok(d, {}) && p < |d.bits| && !d.bits[p]
    ensures var e := d.(bits := d.bits[p := true], files := d.files + [File(name, p, 0)]);
            Ok(e, {}) && Listing(e) == Listing(d) + [Entry(name, [])]
  {
    hide Ok, Owned, HoldsByte, Listing;
    var i := |d.files|;
    var c := d.(files := d.files + [File(name, p, 0)]);
    var e := c.(bits := d.bits[p := true]);
    AppendLifted(d, File(name, p, 0));
    assert Room(c.bits, p, 1);
    PlaceOk(c, {i}, i, p, [], 0);
    assert {i} - {i} == {};
    assert Fill(c.bits, p, 1, true) == e.bits && Blit(c.bytes, At(p, c.bs), []) == e.bytes;
    assert Place(c, i, p, [], 0) == e;
    forall j | 0 <= j < i ensures Content(e, j) == Content(d, j) {
      assert OnDisk(c.files, {i}, j);
    }
  }

  lemma AppendLifted(d: Disk, f: File)
    requires Ok(d, {})
    ensures Ok(d.(files := d.files + [f]), {|d.files|})
  {
    var e := d.(files := d.files + [f]);
    var out := {|d.files|};
    assert forall i :: OnDisk(e.files, out, i) <==> OnDisk(d.files, {}, i);
    forall b | 0 <= b < |d.bits| ensures e.bits[b] <==> Owned(e.files, out, e.bs, b) {
      if Owned(d.files, {}, d.bs, b) {
        var i :| OnDisk(d.files, {}, i) && InExtent(d.files[i], d.bs, b);
        assert OnDisk(e.files, out, i) && InExtent(e.files[i], e.bs, b);
      }
    }
    forall k | HoldsByte(d.files, {}, d.bs, k) ensures HoldsByte(e.files, out, e.bs, k) {
      var i :| OnDisk(d.files, {}, i) && InBytes(d.files[i], d.bs, k);
      assert OnDisk(e.files, out, i) && InBytes(e.files[i], e.bs, k);
    }
  }

  /** Deleting a file clears its bytes and blocks and drops it from the list. */
  lemma {:induction false} DeleteOk(d: Disk, t: nat)
    requires Ok(d, {}) && t < |d.files|
    requires End(d.files[t], d.bs) <= |d.bits| && At(d.files[t].start, d.bs) + d.files[t].size <= |d.bytes|
    ensures var e := Lift(d, t).(files := RemoveAt(d.files, t));
            Ok(e, {}) && Listing(e) == RemoveAt(Listing(d), t)
  {
    hide Ok, Listing, RemoveAt, SameContents;
    LiftOk(d, {}, t);
    assert {} + {t} == {t};
    RemoveLifted(Lift(d, t), t);
    RemovedListing(d, Lift(d, t), t);
  }

  lemma RemovedContent(d: Disk, f: Disk, t: nat, i: nat)
    requires t < |d.files| && f.files == d.files && i < |d.files| - 1 && SameContents(d, f, {t})
    ensures var j := if i < t then i else i + 1;
            var e := f.(files := RemoveAt(d.files, t));
            e.files[i] == d.files[j] && Content(e, i) == Content(d, j)
  {
    hide At;
    var j := if i < t then i else i + 1;
    assert OnDisk(d.files, {t}, j);
  }

  lemma RemovedListing(d: Disk, f: Disk, t: nat)
    requires t < |d.files| && f.files == d.files && SameContents(d, f, {t})
    ensures Listing(f.(files := RemoveAt(d.files, t))) == RemoveAt(Listing(d), t)
  {
    hide Content, SameContents;
    var a, b := Listing(f.(files := RemoveAt(d.files, t))), RemoveAt(Listing(d), t);
    forall i | 0 <= i < |a| ensures a[i] == b[i] {
      RemovedContent(d, f, t, i);
    }
  }

  /** The files left on the disk are those that were there, with later indices moved down. */
  lemma RemovedOwned(files: seq<File>, t: nat, bs: nat, b: int)
    requires t < |files| && bs > 0
    ensures Owned(RemoveAt(files, t), {}, bs, b) <==> Owned(files, {t}, bs, b)
  {
    var left := RemoveAt(files, t);
    if Owned(files, {t}, bs, b) {
      var j :| OnDisk(files, {t}, j) && InExtent(files[j], bs, b);
      var i := if j < t then j else j - 1;
      assert OnDisk(left, {}, i) && left[i] == files[j];
    }
    if Owned(left, {}, bs, b) {
      var i :| OnDisk(left, {}, i) && InExtent(left[i], bs, b);
      var j := if i < t then i else i + 1;
      assert OnDisk(files, {t}, j) && left[i] == files[j];
    }
  }

  lemma RemovedHoldsByte(files: seq<File>, t: nat, bs: nat, k: int)
    requires t < |files| && HoldsByte(files, {t}, bs, k)
    ensures HoldsByte(RemoveAt(files, t), {}, bs, k)
  {
    var j :| OnDisk(files, {t}, j) && InBytes(files[j], bs, k);
    var i := if j < t then j else j - 1;
    assert OnDisk(RemoveAt(files, t), {}, i) && RemoveAt(files, t)[i] == files[j];
  }

  lemma RemoveLifted(d: Disk, t: nat)
    requires Ok(d, {t}) && t < |d.files|
    ensures Ok(d.(files := RemoveAt(d.files, t)), {})
  {
    hide Owned, HoldsByte;
    var e := d.(files := RemoveAt(d.files, t));
    forall i | OnDisk(e.files, {}, i)
      ensures OnDisk(d.files, {t}, if i < t then i else i + 1)
      ensures e.files[i] == d.files[if i < t then i else i + 1]
    {
    }
    forall b | 0 <= b < |d.bits| ensures e.bits[b] <==> Owned(e.files, {}, e.bs, b) {
      RemovedOwned(d.files, t, d.bs, b);
    }
    forall k | 0 <= k < |d.bytes| && !HoldsByte(e.files, {}, e.bs, k) ensures e.bytes[k] == 0 {
      if HoldsByte(d.files, {t}, d.bs, k) {
        RemovedHoldsByte(d.files, t, d.bs, k);
      }
    }
  }

  /** The blocks just after file `t` that a growth to `size` bytes would take are free. */
  predicate RoomAfter(d: Disk, t: nat, size: nat)
    requires d.bs > 0 && t < |d.files|
  {
    && d.files[t].start + Blocks(size, d.bs) <= |d.bits|
    && forall b :: End(d.files[t], d.bs) <= b < d.files[t].start + Blocks(size, d.bs) ==> !d.bits[b]
  }

  /** Growth in place marks the further blocks and rewrites the size. */
  function Grown(d: Disk, t: nat, size: nat): Disk
    requires d.bs > 0 && t < |d.files| && Blocks(d.files[t].size, d.bs) <= Blocks(size, d.bs) && RoomAfter(d, t, size)
  {
    var f := d.files[t];
    d.(bits := Fill(d.bits, End(f, d.bs), Blocks(size, d.bs) - Blocks(f.size, d.bs), true),
       files := d.files[t := f.(size := size)])
  }

  /** Shrinking clears the bytes past the new size and frees the blocks past the last one still owned. */
  function Shrunk(d: Disk, t: nat, size: nat): Disk
    requires d.bs > 0 && t < |d.files| && size <= d.files[t].size && Blocks(size, d.bs) <= Blocks(d.files[t].size, d.bs)
    requires End(d.files[t], d.bs) <= |d.bits| && At(d.files[t].start, d.bs) + d.files[t].size <= |d.bytes|
  {
    var f := d.files[t];
    var n := Blocks(size, d.bs);
    d.(bits := Fill(d.bits, f.start + n, Blocks(f.size, d.bs) - n, false),
       bytes := Fill(d.bytes, At(f.start, d.bs) + size, f.size - size, 0),
       files := d.files[t := f.(size := size)])
  }

  lemma GrownFiles(d: Disk, t: nat, size: nat)
    requires d.bs > 0 && t < |d.files| && Blocks(d.files[t].size, d.bs) <= Blocks(size, d.bs) && RoomAfter(d, t, size)
    ensures Grown(d, t, size).files == d.files[t := d.files[t].(size := size)] && Grown(d, t, size).bytes == d.bytes
  {
  }

  lemma ShrunkFiles(d: Disk, t: nat, size: nat)
    requires d.bs > 0 && t < |d.files| && size <= d.files[t].size && Blocks(size, d.bs) <= Blocks(d.files[t].size, d.bs)
    requires End(d.files[t], d.bs) <= |d.bits| && At(d.files[t].start, d.bs) + d.files[t].size <= |d.bytes|
    ensures Shrunk(d, t, size).files == d.files[t := d.files[t].(size := size)]
  {
  }

  /** The bytes a file grows into are zero already. */
  lemma {:induction false} GrowInPlace(d: Disk, t: nat, size: nat)
    requires Ok(d, {}) && t < |d.files| && d.files[t].size <= size && RoomAfter(d, t, size)
    ensures Blocks(d.files[t].size, d.bs) <= Blocks(size, d.bs)
    ensures var f, e := d.files[t], Grown(d, t, size);
            Ok(e, {}) && Listing(e) == Listing(d)[t := Entry(f.name, Content(d, t) + Repeat(size - f.size, 0))]
  {
    hide Ok, Owned, HoldsByte, Listing;
    var f := d.files[t];
    ByteRange(d, {}, t);
    BlocksMono(f.size, size, d.bs);
    assert Room(Lift(d, t).bits, f.start, Blocks(size, d.bs));
    ReplaceListing(d, t, f.start, Content(d, t), size);
    PlaceBack(d, t, Content(d, t), size);
    var n := Blocks(f.size, d.bs);
    var e := Place(Lift(d, t), t, f.start, Content(d, t), size);
    assert e.bits == Fill(d.bits, End(f, d.bs), Blocks(size, d.bs) - n, true);
    assert e.bytes == d.bytes;
  }

  /** Lifting a file out and putting it back where it was, as an update in place. */
  lemma PlaceBack(d: Disk, t: nat, data: seq<byte>, size: nat)
    requires Ok(d, {}) && t < |d.files|
    requires var f := d.files[t]; End(f, d.bs) <= |d.bits| && At(f.start, d.bs) + f.size <= |d.bytes|
    requires d.files[t].start + Blocks(size, d.bs) <= |d.bits| && At(d.files[t].start, d.bs) + |data| <= |d.bytes|
    ensures var f := d.files[t];
            var e := Place(Lift(d, t), t, f.start, data, size);
            && e.files == d.files[t := f.(size := size)]
            && (forall b :: 0 <= b < |d.bits| ==> (e.bits[b] <==>
                 f.start <= b < f.start + Blocks(size, d.bs) || (d.bits[b] && !InExtent(f, d.bs, b))))
            && (forall b :: InExtent(f, d.bs, b) ==> d.bits[b])
            && (forall k :: 0 <= k < |d.bytes| ==>
                 e.bytes[k] == if At(f.start, d.bs) <= k < At(f.start, d.bs) + |data| then data[k - At(f.start, d.bs)]
                               else if InBytes(f, d.bs, k) then 0 else d.bytes[k])
  {
    var f := d.files[t];
    forall b | InExtent(f, d.bs, b) ensures d.bits[b] {
      assert Owned(d.files, {}, d.bs, b);
    }
  }

  lemma {:induction false} ShrinkInPlace(d: Disk, t: nat, size: nat)
    requires Ok(d, {}) && t < |d.files| && size <= d.files[t].size
    ensures Blocks(size, d.bs) <= Blocks(d.files[t].size, d.bs)
    ensures End(d.files[t], d.bs) <= |d.bits| && At(d.files[t].start, d.bs) + d.files[t].size <= |d.bytes|
    ensures var f, e := d.files[t], Shrunk(d, t, size);
            Ok(e, {}) && Listing(e) == Listing(d)[t := Entry(f.name, Content(d, t)[..size])]
  {
    hide Ok, Owned, HoldsByte, Listing;
    var f := d.files[t];
    ByteRange(d, {}, t);
    BlocksMono(size, f.size, d.bs);
    var data := Content(d, t)[..size];
    assert data + Repeat(0, 0) == data;
    assert Room(Lift(d, t).bits, f.start, Blocks(size, d.bs));
    ReplaceListing(d, t, f.start, data, size);
    PlaceBack(d, t, data, size);
    var n := Blocks(size, d.bs);
    var e := Place(Lift(d, t), t, f.start, data, size);
    assert e.bits == Fill(d.bits, f.start + n, Blocks(f.size, d.bs) - n, false);
    assert e.bytes == Fill(d.bytes, At(f.start, d.bs) + size, f.size - size, 0);
    assert e == Shrunk(d, t, size);
  }

  function Overwritten(d: Disk, t: nat, at: nat, data: seq<byte>): Disk
    requires t < |d.files| && At(d.files[t].start, d.bs) + at + |data| <= |d.bytes|
  {
    d.(bytes := Blit(d.bytes, At(d.files[t].start, d.bs) + at, data))
  }

  /** A write inside a file changes those bytes of that file and no others. */
  lemma {:induction false} WriteInPlace(d: Disk, t: nat, at: nat, data: seq<byte>)
    requires Ok(d, {}) && t < |d.files| && at + |data| <= d.files[t].size
    ensures At(d.files[t].start, d.bs) + at + |data| <= |d.bytes|
    ensures |Content(d, t)| == d.files[t].size
    ensures var e := Overwritten(d, t, at, data);
            Ok(e, {}) && Listing(e) == Listing(d)[t := Entry(d.files[t].name, Blit(Content(d, t), at, data))]
  {
    hide Ok, Owned, HoldsByte, Listing;
    var f := d.files[t];
    ByteRange(d, {}, t);
    var content := Blit(Content(d, t), at, data);
    assert content + Repeat(0, 0) == content;
    assert Room(Lift(d, t).bits, f.start, Blocks(f.size, d.bs));
    ReplaceListing(d, t, f.start, content, f.size);
    PlaceBack(d, t, content, f.size);
    var e := Place(Lift(d, t), t, f.start, content, f.size);
    assert e.bits == d.bits;
    assert e.bytes == Blit(d.bytes, At(f.start, d.bs) + at, data);
    assert e == Overwritten(d, t, at, data);
  }

  /** A block is free exactly when the directory is below its quota. */
  lemma FreeIffQuota(d: Disk)
    requires Good(d)
    ensures d.bs > 0 && Used(Listing(d), d.bs) == CountUsed(d.bits)
    ensures (exists p :: 0 <= p < |d.bits| && !d.bits[p]) <==> Used(Listing(d), d.bs) < |d.bits|
  {
    ListingUsed(d, |d.files|);
    assert Listing(d)[..|d.files|] == Listing(d);
    CountOk(d, {}, |d.files|);
    if p :| 0 <= p < |d.bits| && !d.bits[p] {
      var first := FirstFalse(d.bits, p);
      CountBounds(d.bits, first);
    } else {
      CountBounds(d.bits, |d.bits|);
    }
  }

  lemma FirstFalse(bits: seq<bool>, p: nat) returns (first: nat)
    requires p < |bits| && !bits[p]
    ensures first <= p && !bits[first] && forall b :: 0 <= b < first ==> bits[b]
  {
    first := 0;
    while bits[first]
      decreases p - first
      invariant first <= p && forall b :: 0 <= b < first ==> bits[b]
    {
      first := first + 1;
    }
  }

  /** Free blocks plus the file's own blocks are what the quota leaves for that file. */
  lemma GrowthQuota(d: Disk, t: nat)
    requires Good(d) && t < |d.files|
    ensures var f := d.files[t];
            && d.bs > 0 && |Content(d, t)| == f.size
            && Used(Listing(d), d.bs) == CountUsed(d.bits)
            && CountUsed(d.bits) == SumBlocks(d.files, {t}, d.bs, |d.files|) + Blocks(f.size, d.bs)
  {
    hide Ok, At, Blocks, Used, SumBlocks, CountUsed, Listing, DistinctNames;
    FreeIffQuota(d);
    ByteRange(d, {}, t);
    CountOk(d, {}, |d.files|);
    SumBlocksSkip(d.files, {}, d.bs, |d.files|, t);
    assert {} + {t} == {t};
  }

  /** The invariant every request keeps. */
  ghost predicate Good(d: Disk) {
    Ok(d, {}) && DistinctNames(Listing(d))
  }

  lemma GoodOk(d: Disk, t: nat)
    requires Good(d) && t < |d.files|
    ensures Ok(d, {}) && d.bs > 0
    ensures End(d.files[t], d.bs) <= |d.bits| && At(d.files[t].start, d.bs) + d.files[t].size <= |d.bytes|
  {
    ByteRange(d, {}, t);
  }

  lemma CreateStep(d: Disk, name: string, p: nat)
    requires Good(d) && p < |d.bits| && !d.bits[p] && !Present(Listing(d), name)
    ensures var e := d.(bits := d.bits[p := true], files := d.files + [File(name, p, 0)]);
            Good(e) && Listing(e) == Relisted(Listing(d), Create(name), false, d.bs, |d.bits|)
  {
    hide Ok;
    CreateOk(d, name, p);
    FreeIffQuota(d);
  }

  lemma CreateRefused(d: Disk, name: string, known: bool)
    requires Good(d) && ((forall p :: 0 <= p < |d.bits| ==> d.bits[p]) || known)
    ensures Listing(d) == Relisted(Listing(d), Create(name), known, d.bs, |d.bits|)
  {
    hide Ok;
    FreeIffQuota(d);
  }

  lemma DeleteStep(d: Disk, name: string)
    requires Good(d) && d.files != []
    ensures var t := Target(Listing(d), name);
            && End(d.files[t], d.bs) <= |d.bits| && At(d.files[t].start, d.bs) + d.files[t].size <= |d.bytes|
            && var e := Lift(d, t).(files := RemoveAt(d.files, t));
               Good(e) && Listing(e) == Relisted(Listing(d), Delete(name), false, d.bs, |d.bits|)
  {
    hide Ok;
    var t := Target(Listing(d), name);
    LiftOk(d, {}, t);
    DeleteOk(d, t);
  }

  lemma RenamedNone(es: seq<Entry>, t: nat, data: seq<byte>)
    requires t < |es| && DistinctNames(es)
    ensures DistinctNames(es[t := Entry(es[t].name, data)])
  {
  }

  /** The directory after file `t` is given the contents a truncation to `size` leaves. */
  function WithSize(es: seq<Entry>, t: nat, size: nat, bs: nat, cap: nat): seq<Entry>
    requires bs > 0 && t < |es|
  {
    es[t := Entry(es[t].name, Resized(es, t, size, bs, cap))]
  }

  lemma TruncateIs(es: seq<Entry>, name: string, size: nat, bs: nat, cap: nat)
    requires bs > 0 && es != []
    ensures Relisted(es, Truncate(name, size), false, bs, cap) == WithSize(es, Target(es, name), size, bs, cap)
  {
    hide Resized, Target;
  }

  /** Whether the quota lets file `t` grow to `size`, as the source computes it. */
  lemma GrowthTest(d: Disk, t: nat, size: nat)
    requires Good(d) && t < |d.files| && d.files[t].size < size
    ensures |Content(d, t)| == d.files[t].size
    ensures var fits := Blocks(size, d.bs) <= |d.bits| - CountUsed(d.bits) + Blocks(d.files[t].size, d.bs);
            && (fits <==> SumBlocks(d.files, {t}, d.bs, |d.files|) + Blocks(size, d.bs) <= |d.bits|)
            && Resized(Listing(d), t, size, d.bs, |d.bits|) ==
               (if fits then Content(d, t) + Repeat(size - d.files[t].size, 0) else Content(d, t))
            && (!fits ==> WithSize(Listing(d), t, size, d.bs, |d.bits|) == Listing(d))
  {
    hide Ok;
    GrowthQuota(d, t);
  }

  lemma ResizedGood(d: Disk, e: Disk, t: nat, size: nat, data: seq<byte>)
    requires Good(d) && Ok(e, {}) && t < |d.files|
    requires Listing(e) == Listing(d)[t := Entry(d.files[t].name, data)]
    requires data == Resized(Listing(d), t, size, d.bs, |d.bits|)
    ensures Good(e) && Listing(e) == WithSize(Listing(d), t, size, d.bs, |d.bits|)
  {
    RenamedNone(Listing(d), t, data);
  }

  /** Compaction, like growth in place, gives the directory entry its new size. */
  lemma CompactStep(d0: Disk, d: Disk, t: nat, free: int, data: seq<byte>, size: nat)
    requires Good(d0) && Compacting(d0, d, t, Hole(d.bits, free)) && Scanned(d.bits, free, -1)
    requires data == Content(d0, t) && d0.files[t].size < size
    requires SumBlocks(d0.files, {t}, d0.bs, |d0.files|) + Blocks(size, d0.bs) <= |d0.bits|
    ensures free == SumBlocks(d0.files, {t}, d0.bs, |d0.files|)
    ensures d.bs > 0 && t < |d.files| && free + Blocks(size, d.bs) <= |d.bits| && At(free, d.bs) + |data| <= |d.bytes|
    ensures var e := Place(d, t, free, data, size);
            && Compacted(d0, e, t, free, size)
            && Good(e) && Listing(e) == WithSize(Listing(d0), t, size, d0.bs, |d0.bits|)
  {
    CompactionEnds(d0, d, t, free, data, size);
    GrowthTest(d0, t, size);
    assert t < |d0.files|;
    hide Ok, Compacting, Compacted, Scanned, Resized, DistinctNames, WithSize, Listing, Content, Place;
    ResizedGood(d0, Place(d, t, free, data, size), t, size, data + Repeat(size - d0.files[t].size, 0));
  }

  lemma GrowStep(d: Disk, t: nat, size: nat)
    requires Good(d) && t < |d.files| && d.files[t].size < size && RoomAfter(d, t, size)
    requires SumBlocks(d.files, {t}, d.bs, |d.files|) + Blocks(size, d.bs) <= |d.bits|
    ensures Blocks(d.files[t].size, d.bs) <= Blocks(size, d.bs)
    ensures Good(Grown(d, t, size)) && Listing(Grown(d, t, size)) == WithSize(Listing(d), t, size, d.bs, |d.bits|)
  {
    GrowInPlace(d, t, size);
    GrowthTest(d, t, size);
    hide Ok, Resized, DistinctNames, WithSize, Listing, Content, Grown;
    ResizedGood(d, Grown(d, t, size), t, size, Content(d, t) + Repeat(size - d.files[t].size, 0));
  }

  lemma ShrinkStep(d: Disk, t: nat, size: nat)
    requires Good(d) && t < |d.files| && size <= d.files[t].size
    ensures Blocks(size, d.bs) <= Blocks(d.files[t].size, d.bs)
    ensures End(d.files[t], d.bs) <= |d.bits| && At(d.files[t].start, d.bs) + d.files[t].size <= |d.bytes|
    ensures Good(Shrunk(d, t, size)) && Listing(Shrunk(d, t, size)) == WithSize(Listing(d), t, size, d.bs, |d.bits|)
  {
    ShrinkInPlace(d, t, size);
    GrowthQuota(d, t);
    hide Ok, DistinctNames, WithSize, Content, Shrunk;
    ResizedGood(d, Shrunk(d, t, size), t, size, Content(d, t)[..size]);
  }

  lemma WriteStep(d: Disk, name: string, at: nat, data: seq<byte>)
    requires Good(d) && d.files != []
    ensures var t := Target(Listing(d), name);
            && |Content(d, t)| == d.files[t].size
            && At(d.files[t].start, d.bs) + d.files[t].size <= |d.bytes|
            && if at + |data| <= d.files[t].size then
                 var e := Overwritten(d, t, at, data);
                 Good(e) && Listing(e) == Relisted(Listing(d), Write(name, at, data), false, d.bs, |d.bits|)
               else Listing(d) == Relisted(Listing(d), Write(name, at, data), false, d.bs, |d.bits|)
  {
    hide Ok, Overwritten, DistinctNames, Content;
    var t := Target(Listing(d), name);
    ByteRange(d, {}, t);
    GrowthQuota(d, t);
    if at + |data| <= d.files[t].size {
      WriteInPlace(d, t, at, data);
      RenamedNone(Listing(d), t, Blit(Content(d, t), at, data));
    }
  }

  /** The bytes between the end of a file and the end of its last block are zero. */
  lemma SlackIsZero(d: Disk, t: nat, k: nat)
    requires Ok(d, {}) && t < |d.files|
    requires At(d.files[t].start, d.bs) + d.files[t].size <= k < At(End(d.files[t], d.bs), d.bs)
    ensures k < |d.bytes| && d.bytes[k] == 0
  {
    hide At, Blocks;
    var f := d.files[t];
    ByteRange(d, {}, t);
    if HoldsByte(d.files, {}, d.bs, k) {
      var j :| OnDisk(d.files, {}, j) && InBytes(d.files[j], d.bs, k);
      var g := d.files[j];
      if j != t {
        BytesApart(g, f.start, End(f, d.bs), d.bs);
      }
    }
  }

  /** What a read within the blocks of a file finds there: the file, and zeros after it. */
  function Padded(data: seq<byte>, bs: nat): seq<byte>
    requires bs > 0
  {
    var room := At(Blocks(|data|, bs), bs);
    data + Repeat(if |data| <= room then room - |data| else 0, 0)
  }

  lemma PaddedSize(data: seq<byte>, bs: nat)
    requires bs > 0
    ensures |Padded(data, bs)| == At(Blocks(|data|, bs), bs) && data <= Padded(data, bs)
  {
    AtBlocks(0, |data|, bs);
  }

  lemma ReadStep(d: Disk, t: nat, at: nat, n: nat)
    requires Good(d) && t < |d.files| && at + n <= At(Blocks(|Listing(d)[t].data|, d.bs), d.bs)
    ensures var first := At(d.files[t].start, d.bs) + at;
            && first + n <= |d.bytes| && at + n <= |Padded(Listing(d)[t].data, d.bs)|
            && d.bytes[first..first + n] == Padded(Listing(d)[t].data, d.bs)[at..at + n]
  {
    hide At, Blocks;
    var f, data := d.files[t], Listing(d)[t].data;
    ByteRange(d, {}, t);
    AtSum(f.start, Blocks(f.size, d.bs), d.bs);
    PaddedSize(data, d.bs);
    var first := At(f.start, d.bs) + at;
    var a, b := d.bytes[first..first + n], Padded(data, d.bs)[at..at + n];
    forall i | 0 <= i < n ensures a[i] == b[i] {
      assert b[i] == Padded(data, d.bs)[at + i];
      if at + i >= f.size {
        SlackIsZero(d, t, first + i);
      } else {
        assert data[at + i] == d.bytes[first + i];
      }
    }
  }

  // ----- Mounting -----

  /** While a mount goes through the metadata: no block is marked that no file owns, and
      those of the first `n` files are. */
  ghost predicate MarkedUpTo(d: Disk, bits: seq<bool>, n: nat) {
    && d.bs > 0 && |bits| == |d.bits| && n <= |d.files|
    && (forall b :: 0 <= b < |bits| && bits[b] ==> d.bits[b])
    && (forall i, b :: 0 <= i < n && 0 <= b < |bits| && InExtent(d.files[i], d.bs, b) ==> bits[b])
  }

  lemma MarkedNone(d: Disk, bits: seq<bool>)
    requires Good(d) && |bits| == |d.bits| && forall b :: 0 <= b < |bits| ==> bits[b] ==> d.bits[b]
    ensures d.bs > 0 && MarkedUpTo(d, bits, 0)
  {
  }

  lemma MarkNext(d: Disk, bits: seq<bool>, n: nat)
    requires Good(d) && MarkedUpTo(d, bits, n) && n < |d.files|
    ensures var f := d.files[n];
            && End(f, d.bs) <= |bits|
            && MarkedUpTo(d, Fill(bits, f.start, Blocks(f.size, d.bs), true), n + 1)
  {
    ByteRange(d, {}, n);
    forall b | InExtent(d.files[n], d.bs, b) ensures d.bits[b] {
      assert Owned(d.files, {}, d.bs, b);
    }
  }

  lemma MarkedAll(d: Disk, bits: seq<bool>)
    requires Good(d) && MarkedUpTo(d, bits, |d.files|)
    ensures bits == d.bits
  {
    forall b | 0 <= b < |bits| && d.bits[b] ensures bits[b] {
      assert Owned(d.files, {}, d.bs, b);
    }
  }

  /** The bitmap after the blocks of the first `n` files of `files` are marked in `bits`. */
  function Marked(bits: seq<bool>, files: seq<File>, bs: nat, n: nat): (r: seq<bool>)
    requires bs > 0 && n <= |files| && forall i :: 0 <= i < |files| ==> End(files[i], bs) <= |bits|
    ensures |r| == |bits|
  {
    if n == 0 then bits else Fill(Marked(bits, files, bs, n - 1), files[n - 1].start, Blocks(files[n - 1].size, bs),
      true)
  }

  /** Exactly the blocks already marked, or of those files, are marked. */
  lemma {:induction false} MarkedIs(bits: seq<bool>, files: seq<File>, bs: nat, n: nat, b: nat)
    requires bs > 0 && n <= |files| && b < |bits| && forall i :: 0 <= i < |files| ==> End(files[i], bs) <= |bits|
    ensures Marked(bits, files, bs, n)[b] <==> bits[b] || exists i :: 0 <= i < n && InExtent(files[i], bs, b)
  {
    if n > 0 {
      MarkedIs(bits, files, bs, n - 1, b);
    }
  }

  /** Mounting a sound disk, of whose bitmap any part had been kept, gives its bitmap. */
  lemma MarkedSound(d: Disk, bits: seq<bool>)
    requires Good(d) && |bits| == |d.bits| && forall b :: 0 <= b < |bits| ==> bits[b] ==> d.bits[b]
    ensures d.bs > 0 && forall i :: 0 <= i < |d.files| ==> End(d.files[i], d.bs) <= |bits|
    ensures Marked(bits, d.files, d.bs, |d.files|) == d.bits
  {
    forall i | 0 <= i < |d.files| ensures End(d.files[i], d.bs) <= |bits| {
      ByteRange(d, {}, i);
    }
    MarkedSteps(d, bits, |d.files|);
    MarkedAll(d, Marked(bits, d.files, d.bs, |d.files|));
  }

  lemma {:induction false} MarkedSteps(d: Disk, bits: seq<bool>, n: nat)
    requires Good(d) && d.bs > 0 && |bits| == |d.bits| && forall b :: 0 <= b < |bits| ==> bits[b] ==> d.bits[b]
    requires n <= |d.files| && forall i :: 0 <= i < |d.files| ==> End(d.files[i], d.bs) <= |bits|
    ensures MarkedUpTo(d, Marked(bits, d.files, d.bs, n), n)
  {
    hide Good, MarkedUpTo;
    if n == 0 {
      MarkedNone(d, bits);
    } else {
      MarkedSteps(d, bits, n - 1);
      MarkNext(d, Marked(bits, d.files, d.bs, n - 1), n - 1);
    }
  }

  lemma MarkedZero(bits: seq<bool>, files: seq<File>, bs: nat)
    requires bs > 0 && forall i :: 0 <= i < |files| ==> End(files[i], bs) <= |bits|
    ensures Marked(bits, files, bs, 0) == bits
  {
  }

  lemma MarkedMore(bits: seq<bool>, files: seq<File>, bs: nat, n: nat)
    requires bs > 0 && n < |files| && forall i :: 0 <= i < |files| ==> End(files[i], bs) <= |bits|
    ensures Marked(bits, files, bs, n + 1) ==
            Fill(Marked(bits, files, bs, n), files[n].start, Blocks(files[n].size, bs), true)
  {
  }

  /** `d` is sound, and `bits` is some part of its bitmap. */
  ghost predicate MountsSound(d: Disk, bits: seq<bool>) {
    Good(d) && |bits| == |d.bits| && forall b :: 0 <= b < |bits| ==> bits[b] ==> d.bits[b]
  }

  lemma MarkedOwned(d: Disk, bits: seq<bool>)
    requires MountsSound(d, bits)
    ensures Good(d) && d.bs > 0 && forall i :: 0 <= i < |d.files| ==> End(d.files[i], d.bs) <= |bits|
    ensures Marked(bits, d.files, d.bs, |d.files|) == d.bits
  {
    MarkedSound(d, bits);
  }

  // ----- Metadata files -----

  /** Every file listed has its metadata file. */
  predicate Known(files: seq<File>, meta: set<string>) {
    forall i :: 0 <= i < |files| ==> files[i].name in meta
  }

  lemma NotKnown(d: Disk, meta: set<string>, name: string)
    requires Known(d.files, meta) && name !in meta
    ensures !Present(Listing(d), name)
  {
    assert forall i :: 0 <= i < |Listing(d)| ==> Listing(d)[i].name == d.files[i].name;
  }

  lemma KnownMore(files: seq<File>, meta: set<string>, f: File)
    requires Known(files, meta)
    ensures Known(files + [f], meta + {f.name})
  {
  }

  lemma KnownLess(d: Disk, meta: set<string>, name: string)
    requires Good(d) && d.files != [] && Known(d.files, meta)
    ensures Known(RemoveAt(d.files, Target(Listing(d), name)), meta - {name})
  {
    hide Ok;
    var t, es := Target(Listing(d), name), Listing(d);
    var after := RemoveAt(d.files, t);
    forall i | 0 <= i < |after| ensures after[i].name in meta - {name} {
      var j := if i < t then i else i + 1;
      assert after[i] == d.files[j] && es[j].name == d.files[j].name;
      assert es[j].name != es[t].name;
      assert es[j].name == name ==> Present(es, name);
    }
  }
}
