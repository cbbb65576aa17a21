/** The DialFS disk as a value: block bytes, block bitmap and file table
    (entradasalida/src/inout.c), with the invariant that ties the three together. */
module DialFsModel {
  import opened Common
  import opened DialFsDirectory

  /** The metadata of one file: BLOQUE_INICIAL and TAMANIO_ARCHIVO. */
  datatype File = File(name: string, start: nat, size: nat)

  datatype Disk = Disk(bs: nat, bits: seq<bool>, bytes: seq<byte>, files: seq<File>)

  /** One past the last block of `f`. */
  function End(f: File, bs: nat): nat
    requires bs > 0
  {
    f.start + Blocks(f.size, bs)
  }

  predicate InExtent(f: File, bs: nat, b: int)
    requires bs > 0
  {
    f.start <= b < End(f, bs)
  }

  predicate InBytes(f: File, bs: nat, k: int) {
    At(f.start, bs) <= k < At(f.start, bs) + f.size
  }

  /** A file of `size` bytes fits in its blocks, wherever they start. */
  lemma {:induction false} AtBlocks(first: nat, size: nat, bs: nat)
    requires bs > 0
    ensures At(first, bs) + size <= At(first + Blocks(size, bs), bs)
    decreases size
  {
    if size > bs {
      AtBlocks(first + 1, size - bs, bs);
    }
  }

  /** File `i` is on the disk: `skip` holds the indices of the files lifted out of it. */
  predicate OnDisk(files: seq<File>, skip: set<int>, i: int) {
    0 <= i < |files| && i !in skip
  }

  ghost predicate Owned(files: seq<File>, skip: set<int>, bs: nat, b: int)
    requires bs > 0
  {
    exists i :: OnDisk(files, skip, i) && InExtent(files[i], bs, b)
  }

  ghost predicate HoldsByte(files: seq<File>, skip: set<int>, bs: nat, k: int) {
    exists i :: OnDisk(files, skip, i) && InBytes(files[i], bs, k)
  }

  ghost predicate InRange(d: Disk, skip: set<int>)
    requires d.bs > 0
  {
    forall i :: OnDisk(d.files, skip, i) ==> End(d.files[i], d.bs) <= |d.bits|
  }

  ghost predicate Disjoint(d: Disk, skip: set<int>)
    requires d.bs > 0
  {
    forall i, j :: OnDisk(d.files, skip, i) && OnDisk(d.files, skip, j) && i != j ==>
      End(d.files[i], d.bs) <= d.files[j].start || End(d.files[j], d.bs) <= d.files[i].start
  }

  /** The disk invariant, for the files outside `skip`: extents are in range and
      disjoint, the bitmap is exactly their union, and every byte outside a file is zero. */
  ghost predicate Ok(d: Disk, skip: set<int>) {
    && d.bs > 0
    && At(|d.bits|, d.bs) <= |d.bytes|
    && InRange(d, skip)
    && Disjoint(d, skip)
    && (forall b :: 0 <= b < |d.bits| ==> (d.bits[b] <==> Owned(d.files, skip, d.bs, b)))
    && (forall k :: 0 <= k < |d.bytes| && !HoldsByte(d.files, skip, d.bs, k) ==> d.bytes[k] == 0)
  }

  lemma ByteRange(d: Disk, skip: set<int>, i: int)
    requires Ok(d, skip) && OnDisk(d.files, skip, i)
    ensures d.bs > 0
    ensures var f := d.files[i];
            End(f, d.bs) <= |d.bits| && At(f.start, d.bs) + f.size <= At(End(f, d.bs), d.bs) <= |d.bytes|
  {
    AtBlocks(d.files[i].start, d.files[i].size, d.bs);
    AtMono(End(d.files[i], d.bs), |d.bits|, d.bs);
  }

  /** The bytes stored for file `i`. */
  function Content(d: Disk, i: nat): seq<byte>
    requires i < |d.files|
  {
    var f := d.files[i];
    var at := At(f.start, d.bs);
    if at + f.size <= |d.bytes| then d.bytes[at..at + f.size] else []
  }

  // ----- Lifting, placing and moving a file -----

  /** Clears the bytes and the bits of file `i`, whose table entry stays behind. */
  function Lift(d: Disk, i: nat): Disk
    requires d.bs > 0 && i < |d.files|
    requires End(d.files[i], d.bs) <= |d.bits|
    requires At(d.files[i].start, d.bs) + d.files[i].size <= |d.bytes|
  {
    var f := d.files[i];
    d.(bits := Fill(d.bits, f.start, Blocks(f.size, d.bs), false),
       bytes := Fill(d.bytes, At(f.start, d.bs), f.size, 0))
  }

  /** Puts file `i`, absent from the disk, at block `p` with `data` and then zeros up to `size`. */
  function Place(d: Disk, i: nat, p: nat, data: seq<byte>, size: nat): Disk
    requires d.bs > 0 && i < |d.files|
    requires p + Blocks(size, d.bs) <= |d.bits|
    requires At(p, d.bs) + |data| <= |d.bytes|
  {
    d.(bits := Fill(d.bits, p, Blocks(size, d.bs), true),
       bytes := Blit(d.bytes, At(p, d.bs), data),
       files := d.files[i := d.files[i].(start := p, size := size)])
  }

  /** A file that ends before block `from`, or starts at block `to` or later, has no byte between the two. */
  lemma BytesApart(f: File, from: nat, to: nat, bs: nat)
    requires bs > 0
    requires End(f, bs) <= from || to <= f.start
    ensures At(f.start, bs) + f.size <= At(from, bs) || At(to, bs) <= At(f.start, bs)
  {
    AtBlocks(f.start, f.size, bs);
    if End(f, bs) <= from {
      AtMono(End(f, bs), from, bs);
    } else {
      AtMono(to, f.start, bs);
    }
  }

  /** Two disks hold the same bytes for every file outside `skip`. */
  ghost predicate SameContents(d: Disk, e: Disk, skip: set<int>) {
    && |d.files| == |e.files|
    && forall i :: OnDisk(d.files, skip, i) ==> Content(d, i) == Content(e, i)
  }

  lemma FillApart(s: seq<byte>, at: nat, n: nat, v: byte, first: nat, m: nat)
    requires at + n <= |s| && first + m <= |s|
    requires first + m <= at || at + n <= first
    ensures Fill(s, at, n, v)[first..first + m] == s[first..first + m]
  {
  }

  /** Lifting a file out leaves every other file where it was. */
  lemma LiftOther(d: Disk, skip: set<int>, i: nat, j: nat)
    requires Ok(d, skip) && OnDisk(d.files, skip, i) && OnDisk(d.files, skip, j) && i != j
    requires End(d.files[i], d.bs) <= |d.bits| && At(d.files[i].start, d.bs) + d.files[i].size <= |d.bytes|
    ensures forall k :: InBytes(d.files[j], d.bs, k) ==> !InBytes(d.files[i], d.bs, k)
    ensures Content(d, j) == Content(Lift(d, i), j)
  {
    var f, g := d.files[i], d.files[j];
    BytesApart(g, f.start, End(f, d.bs), d.bs);
    AtBlocks(f.start, f.size, d.bs);
    ByteRange(d, skip, j);
    FillApart(d.bytes, At(f.start, d.bs), f.size, 0, At(g.start, d.bs), g.size);
  }

  lemma {:induction false} LiftOk(d: Disk, skip: set<int>, i: nat)
    requires Ok(d, skip) && OnDisk(d.files, skip, i)
    ensures var f := d.files[i];
            && End(f, d.bs) <= |d.bits|
            && At(f.start, d.bs) + f.size <= |d.bytes|
    ensures Ok(Lift(d, i), skip + {i})
    ensures SameContents(d, Lift(d, i), skip + {i})
  {
    ByteRange(d, skip, i);
    var e, out := Lift(d, i), skip + {i};
    var f := d.files[i];
    forall j | OnDisk(d.files, out, j)
      ensures OnDisk(d.files, skip, j) && Content(d, j) == Content(e, j)
      ensures forall k :: InBytes(d.files[j], d.bs, k) ==> !InBytes(f, d.bs, k)
    {
      LiftOther(d, skip, i, j);
    }
    forall k | 0 <= k < |d.bytes| && !HoldsByte(e.files, out, e.bs, k) ensures e.bytes[k] == 0 {
      assert HoldsByte(d.files, skip, d.bs, k) ==> InBytes(f, d.bs, k);
    }
    forall b | 0 <= b < |d.bits| ensures e.bits[b] <==> Owned(e.files, out, e.bs, b) {
      assert Owned(d.files, skip, d.bs, b) ==> InExtent(f, d.bs, b) || Owned(d.files, out, d.bs, b);
    }
  }

  /** Room for `n` blocks from block `p` on. */
  predicate Room(bits: seq<bool>, p: nat, n: nat) {
    p + n <= |bits| && forall b :: p <= b < p + n ==> !bits[b]
  }

  /** A file on the disk lies wholly before or wholly after a run of free blocks. */
  lemma FreeRunApart(d: Disk, skip: set<int>, j: int, p: nat, n: nat)
    requires Ok(d, skip) && OnDisk(d.files, skip, j)
    requires n > 0 && Room(d.bits, p, n)
    ensures End(d.files[j], d.bs) <= p || p + n <= d.files[j].start
  {
    var g := d.files[j];
    if g.start < p + n && p < End(g, d.bs) {
      var b := if g.start < p then p else g.start;
      assert InExtent(g, d.bs, b);
      assert Owned(d.files, skip, d.bs, b);
    }
  }

  lemma RoomBytes(d: Disk, p: nat, size: nat)
    requires d.bs > 0 && At(|d.bits|, d.bs) <= |d.bytes|
    requires p + Blocks(size, d.bs) <= |d.bits|
    ensures At(p, d.bs) + size <= At(p + Blocks(size, d.bs), d.bs) <= |d.bytes|
  {
    AtBlocks(p, size, d.bs);
    AtMono(p + Blocks(size, d.bs), |d.bits|, d.bs);
  }

  lemma BlitApart(s: seq<byte>, at: nat, data: seq<byte>, first: nat, n: nat)
    requires at + |data| <= |s| && first + n <= |s|
    requires first + n <= at || at + |data| <= first
    ensures Blit(s, at, data)[first..first + n] == s[first..first + n]
  {
  }

  /** A file in free blocks has no byte in common with the files on the disk. */
  lemma PlaceApart(d: Disk, skip: set<int>, p: nat, size: nat, j: int)
    requires Ok(d, skip) && Room(d.bits, p, Blocks(size, d.bs)) && OnDisk(d.files, skip, j)
    ensures At(p, d.bs) + size <= |d.bytes|
    ensures End(d.files[j], d.bs) <= p || p + Blocks(size, d.bs) <= d.files[j].start
    ensures var first := At(d.files[j].start, d.bs);
            first + d.files[j].size <= At(p, d.bs) || At(p, d.bs) + size <= first
  {
    hide At, Blocks, Owned, HoldsByte;
    RoomBytes(d, p, size);
    FreeRunApart(d, skip, j, p, Blocks(size, d.bs));
    BytesApart(d.files[j], p, p + Blocks(size, d.bs), d.bs);
  }

  lemma PlaceOther(d: Disk, skip: set<int>, i: nat, p: nat, data: seq<byte>, size: nat, j: int)
    requires Ok(d, skip) && i < |d.files| && i in skip
    requires |data| <= size && Room(d.bits, p, Blocks(size, d.bs)) && At(p, d.bs) + size <= |d.bytes|
    requires OnDisk(d.files, skip, j)
    ensures Content(d, j) == Content(Place(d, i, p, data, size), j)
  {
    PlaceApart(d, skip, p, size, j);
    ByteRange(d, skip, j);
    BlitApart(d.bytes, At(p, d.bs), data, At(d.files[j].start, d.bs), d.files[j].size);
  }

  lemma PlaceBits(d: Disk, skip: set<int>, i: nat, p: nat, data: seq<byte>, size: nat, b: nat)
    requires Ok(d, skip) && i < |d.files| && i in skip
    requires |data| <= size && Room(d.bits, p, Blocks(size, d.bs)) && At(p, d.bs) + size <= |d.bytes|
    requires b < |d.bits|
    ensures var e := Place(d, i, p, data, size);
            e.bits[b] <==> Owned(e.files, skip - {i}, e.bs, b)
  {
    var e := Place(d, i, p, data, size);
    var out := skip - {i};
    assert OnDisk(e.files, out, i);
    if InExtent(e.files[i], d.bs, b) {
    } else if Owned(d.files, skip, d.bs, b) {
      var j :| OnDisk(d.files, skip, j) && InExtent(d.files[j], d.bs, b);
      assert OnDisk(e.files, out, j) && InExtent(e.files[j], e.bs, b);
    } else if Owned(e.files, out, e.bs, b) {
      var j :| OnDisk(e.files, out, j) && InExtent(e.files[j], e.bs, b);
      assert OnDisk(d.files, skip, j);
    }
  }

  lemma PlaceZero(d: Disk, skip: set<int>, i: nat, p: nat, data: seq<byte>, size: nat, k: nat)
    requires Ok(d, skip) && i < |d.files| && i in skip
    requires |data| <= size && Room(d.bits, p, Blocks(size, d.bs)) && At(p, d.bs) + size <= |d.bytes|
    requires k < |d.bytes|
    ensures var e := Place(d, i, p, data, size);
            !HoldsByte(e.files, skip - {i}, e.bs, k) ==> e.bytes[k] == 0
  {
    var e := Place(d, i, p, data, size);
    var out := skip - {i};
    assert OnDisk(e.files, out, i);
    if InBytes(e.files[i], e.bs, k) {
    } else if HoldsByte(d.files, skip, d.bs, k) {
      var j :| OnDisk(d.files, skip, j) && InBytes(d.files[j], d.bs, k);
      assert OnDisk(e.files, out, j) && InBytes(e.files[j], e.bs, k);
    }
  }

  /** Bytes of the free blocks are zero. */
  lemma FreeIsZero(d: Disk, skip: set<int>, p: nat, size: nat, k: nat)
    requires Ok(d, skip) && Room(d.bits, p, Blocks(size, d.bs))
    requires At(p, d.bs) <= k < At(p, d.bs) + size
    ensures k < |d.bytes| && d.bytes[k] == 0
  {
    RoomBytes(d, p, size);
    if HoldsByte(d.files, skip, d.bs, k) {
      var j :| OnDisk(d.files, skip, j) && InBytes(d.files[j], d.bs, k);
      PlaceApart(d, skip, p, size, j);
      assert false;
    }
  }

  lemma {:induction false} PlaceOk(d: Disk, skip: set<int>, i: nat, p: nat, data: seq<byte>, size: nat)
    requires Ok(d, skip) && i < |d.files| && i in skip
    requires |data| <= size && Room(d.bits, p, Blocks(size, d.bs))
    ensures At(p, d.bs) + size <= |d.bytes|
    ensures Ok(Place(d, i, p, data, size), skip - {i})
    ensures SameContents(d, Place(d, i, p, data, size), skip)
    ensures Content(Place(d, i, p, data, size), i) == data + Repeat(size - |data|, 0)
  {
    RoomBytes(d, p, size);
    var e, out := Place(d, i, p, data, size), skip - {i};
    forall j | OnDisk(d.files, skip, j)
      ensures End(d.files[j], d.bs) <= p || p + Blocks(size, d.bs) <= d.files[j].start
      ensures Content(d, j) == Content(e, j)
    {
      PlaceApart(d, skip, p, size, j);
      PlaceOther(d, skip, i, p, data, size, j);
    }
    assert forall j :: OnDisk(e.files, out, j) ==> j == i || OnDisk(d.files, skip, j);
    forall b | 0 <= b < |d.bits| ensures e.bits[b] <==> Owned(e.files, out, e.bs, b) {
      PlaceBits(d, skip, i, p, data, size, b);
    }
    forall k | 0 <= k < |d.bytes| && !HoldsByte(e.files, out, e.bs, k) ensures e.bytes[k] == 0 {
      PlaceZero(d, skip, i, p, data, size, k);
    }
    forall k | At(p, d.bs) <= k < At(p, d.bs) + size ensures d.bytes[k] == 0 {
      FreeIsZero(d, skip, p, size, k);
    }
  }

  // ----- Counting -----

  lemma {:induction false} CountBounds(bits: seq<bool>, p: nat)
    requires p <= |bits|
    requires forall b :: 0 <= b < p ==> bits[b]
    ensures CountUsed(bits) >= p
    ensures (forall b :: p <= b < |bits| ==> !bits[b]) ==> CountUsed(bits) == p
    ensures p < |bits| && !bits[p] ==> CountUsed(bits) < |bits|
  {
    if bits != [] {
      var last := |bits| - 1;
      if p == |bits| {
        CountBounds(bits[..last], last);
      } else {
        CountBounds(bits[..last], p);
      }
    }
  }

  /** Blocks owned by the first `n` files that are on the disk. */
  function SumBlocks(files: seq<File>, skip: set<int>, bs: nat, n: nat): nat
    requires bs > 0 && n <= |files|
  {
    if n == 0 then 0
    else SumBlocks(files, skip, bs, n - 1) + if n - 1 in skip then 0 else Blocks(files[n - 1].size, bs)
  }

  lemma {:induction false} SumBlocksSkip(files: seq<File>, skip: set<int>, bs: nat, n: nat, t: nat)
    requires bs > 0 && n <= |files| && t !in skip
    ensures SumBlocks(files, skip, bs, n) ==
            SumBlocks(files, skip + {t}, bs, n) + if t < n then Blocks(files[t].size, bs) else 0
  {
    if n > 0 {
      SumBlocksSkip(files, skip, bs, n - 1, t);
    }
  }

  /** The bitmap marks as many blocks as the files on the disk own. */
  lemma {:induction false} CountOk(d: Disk, skip: set<int>, n: nat)
    requires Ok(d, skip) && n <= |d.files|
    requires forall i :: n <= i < |d.files| ==> i in skip
    ensures CountUsed(d.bits) == SumBlocks(d.files, skip, d.bs, n)
    decreases n
  {
    if n == 0 {
      CountBounds(d.bits, 0);
    } else if n - 1 in skip {
      CountOk(d, skip, n - 1);
    } else {
      var f := d.files[n - 1];
      LiftOk(d, skip, n - 1);
      CountOk(Lift(d, n - 1), skip + {n - 1}, n - 1);
      SumBlocksSkip(d.files, skip, d.bs, n - 1, n - 1);
      forall b | f.start <= b < End(f, d.bs) ensures d.bits[b] {
        assert InExtent(f, d.bs, b);
        assert Owned(d.files, skip, d.bs, b);
      }
      CountFill(d.bits, f.start, Blocks(f.size, d.bs), false);
    }
  }

  // ----- Compaction -----

  /** What holds at the head of the compaction loop: `d0` is the disk before, `t` the file
      lifted out (its entry in the table is stale), and the blocks below `p` are all used. */
  ghost predicate Compacting(d0: Disk, d: Disk, t: nat, p: nat) {
    && Ok(d0, {}) && Ok(d, {t})
    && d.bs == d0.bs && |d.bits| == |d0.bits| && |d.files| == |d0.files| && t < |d.files|
    && d.files[t] == d0.files[t]
    && SameContents(d0, d, {t})
    && (forall i :: 0 <= i < |d.files| ==> d.files[i].name == d0.files[i].name && d.files[i].size == d0.files[i].size)
    && SameOrder(d0.files, d.files, t)
    && p <= |d.bits|
    && (forall b :: 0 <= b < p ==> d.bits[b])
    && (forall i :: OnDisk(d.files, {t}, i) ==> d.files[i].start == d0.files[i].start || End(d.files[i], d.bs) <= p)
  }

  /** The files other than `t` keep their order on the disk. */
  ghost predicate SameOrder(before: seq<File>, after: seq<File>, t: int)
    requires |before| == |after|
  {
    forall i, j :: OnDisk(before, {t}, i) && OnDisk(before, {t}, j) && before[i].start < before[j].start ==>
      after[i].start < after[j].start
  }

  /** `p` is the first free block and `next` the first used block after it. */
  predicate Gap(bits: seq<bool>, p: nat, next: nat) {
    p < next < |bits| && bits[next] && (forall b :: p <= b < next ==> !bits[b])
  }

  /** What the two bitmap scans of a compaction round answer, -1 for none. */
  predicate Scanned(bits: seq<bool>, free: int, used: int) {
    && (free == -1 ==> used == -1 && forall b :: 0 <= b < |bits| ==> bits[b])
    && (free != -1 ==> 0 <= free < |bits| && !bits[free] && forall b :: 0 <= b < free ==> bits[b])
    && (used != -1 ==> 0 <= free < used && Gap(bits, free, used))
    && (free != -1 && used == -1 ==> forall b :: free <= b < |bits| ==> !bits[b])
  }

  function Hole(bits: seq<bool>, free: int): nat {
    if 0 <= free then free else |bits|
  }

  /** The first used block after the first hole is the start of exactly one file, and it
      is not the stale start of the file being enlarged. */
  lemma {:induction false} GapEndsAtOneFile(d0: Disk, d: Disk, t: nat, p: nat, next: nat)
    requires Compacting(d0, d, t, p) && Gap(d.bits, p, next)
    ensures exists i :: OnDisk(d.files, {t}, i) && d.files[i].start == next
    ensures forall i, j ::
              0 <= i < |d.files| && 0 <= j < |d.files| && d.files[i].start == next && d.files[j].start == next ==>
              i == j
    ensures d.files[t].start != next
  {
    assert Owned(d.files, {t}, d.bs, next);
    var i :| OnDisk(d.files, {t}, i) && InExtent(d.files[i], d.bs, next);
    assert !Owned(d.files, {t}, d.bs, next - 1);
    assert !InExtent(d.files[i], d.bs, next - 1);
    assert OnDisk(d0.files, {}, i) && OnDisk(d0.files, {}, t);
  }

  /** One round of compaction: file `i` slides down to the first free block. */
  function Slide(d: Disk, i: nat, p: nat): (e: Disk)
    requires d.bs > 0 && i < |d.files| && End(d.files[i], d.bs) <= |d.bits| && At(|d.bits|, d.bs) <= |d.bytes|
    requires p <= d.files[i].start
    ensures |e.bits| == |d.bits| && |e.files| == |d.files|
  {
    RoomBytes(d, d.files[i].start, d.files[i].size);
    RoomBytes(d, p, d.files[i].size);
    Place(Lift(d, i), i, p, Content(d, i), d.files[i].size)
  }

  function SumStarts(files: seq<File>): nat {
    if files == [] then 0 else SumStarts(files[..|files| - 1]) + files[|files| - 1].start
  }

  lemma {:induction false} SumStartsUpdate(files: seq<File>, i: nat, f: File)
    requires i < |files|
    ensures SumStarts(files[i := f]) == SumStarts(files) - files[i].start + f.start
  {
    var last := |files| - 1;
    if i == last {
      assert files[i := f][..last] == files[..last];
    } else {
      assert files[i := f][..last] == files[..last][i := f];
      SumStartsUpdate(files[..last], i, f);
    }
  }

  lemma {:induction false} SlideKeeps(d: Disk, t: nat, p: nat, next: nat, i: nat)
    requires Ok(d, {t}) && Gap(d.bits, p, next)
    requires OnDisk(d.files, {t}, i) && d.files[i].start == next && End(d.files[i], d.bs) <= |d.bits|
    ensures Ok(Slide(d, i, p), {t})
    ensures SameContents(d, Slide(d, i, p), {t})
    ensures forall b :: 0 <= b < p ==> Slide(d, i, p).bits[b] == d.bits[b]
    ensures forall b :: p <= b < p + Blocks(d.files[i].size, d.bs) ==> Slide(d, i, p).bits[b]
    ensures Slide(d, i, p).files == d.files[i := d.files[i].(start := p)]
  {
    var f := d.files[i];
    ByteRange(d, {t}, i);
    LiftOk(d, {t}, i);
    var lifted := Lift(d, i);
    assert {t} + {i} == {t, i} && {t, i} - {i} == {t};
    assert Room(lifted.bits, p, Blocks(f.size, d.bs));
    PlaceOk(lifted, {t, i}, i, p, Content(d, i), f.size);
    assert Content(d, i) + Repeat(0, 0) == Content(d, i);
    forall j | OnDisk(d.files, {t}, j) ensures Content(d, j) == Content(Slide(d, i, p), j) {
      if j != i {
        assert OnDisk(d.files, {t, i}, j);
      }
    }
  }

  /** Around the gap, a file lies below the first hole or above the file that slides. */
  lemma GapApart(d: Disk, t: nat, p: nat, next: nat, i: nat, j: nat)
    requires Ok(d, {t}) && Gap(d.bits, p, next)
    requires OnDisk(d.files, {t}, i) && d.files[i].start == next
    requires OnDisk(d.files, {t}, j) && j != i
    ensures End(d.files[j], d.bs) <= p || End(d.files[i], d.bs) <= d.files[j].start
  {
    FreeRunApart(d, {t}, j, p, next - p);
  }

  lemma SlideOrder(d0: Disk, d: Disk, t: nat, p: nat, next: nat, i: nat)
    requires Compacting(d0, d, t, p) && Gap(d.bits, p, next)
    requires OnDisk(d.files, {t}, i) && d.files[i].start == next
    ensures SameOrder(d0.files, d.files[i := d.files[i].(start := p)], t)
  {
    var after := d.files[i := d.files[i].(start := p)];
    forall j, k | OnDisk(d0.files, {t}, j) && OnDisk(d0.files, {t}, k) && d0.files[j].start < d0.files[k].start
      ensures after[j].start < after[k].start
    {
      if j != i {
        GapApart(d, t, p, next, i, j);
      }
      if k != i {
        GapApart(d, t, p, next, i, k);
      }
    }
  }

  lemma {:induction false} SlideOk(d0: Disk, d: Disk, t: nat, p: nat, next: nat, i: nat, q: nat)
    requires Compacting(d0, d, t, p) && Gap(d.bits, p, next)
    requires OnDisk(d.files, {t}, i) && d.files[i].start == next && End(d.files[i], d.bs) <= |d.bits|
    requires var bits := Slide(d, i, p).bits;
             q <= |bits| && (forall b :: 0 <= b < q ==> bits[b]) && (q < |bits| ==> !bits[q])
    ensures Compacting(d0, Slide(d, i, p), t, q)
    ensures SumStarts(Slide(d, i, p).files) < SumStarts(d.files)
  {
    SlideKeeps(d, t, p, next, i);
    SlideOrder(d0, d, t, p, next, i);
    SumStartsUpdate(d.files, i, d.files[i].(start := p));
    CompactingStep(d0, d, Slide(d, i, p), t, p, q, i);
  }

  lemma CompactingStep(d0: Disk, d: Disk, e: Disk, t: nat, p: nat, q: nat, i: nat)
    requires Compacting(d0, d, t, p) && OnDisk(d.files, {t}, i)
    requires e.files == d.files[i := d.files[i].(start := p)] && e.bs == d.bs && |e.bits| == |d.bits|
    requires Ok(e, {t}) && SameContents(d, e, {t}) && SameOrder(d0.files, e.files, t)
    requires forall b :: 0 <= b < p ==> e.bits[b] == d.bits[b]
    requires forall b :: p <= b < p + Blocks(d.files[i].size, d.bs) && b < |e.bits| ==> e.bits[b]
    requires q <= |e.bits| && (forall b :: 0 <= b < q ==> e.bits[b]) && (q < |e.bits| ==> !e.bits[q])
    ensures Compacting(d0, e, t, q)
  {
    assert End(e.files[i], e.bs) <= |e.bits| by {
      assert OnDisk(e.files, {t}, i);
    }
    assert p + Blocks(d.files[i].size, d.bs) <= q;
    forall j | OnDisk(e.files, {t}, j) ensures e.files[j].start == d0.files[j].start || End(e.files[j], e.bs) <= q {
      assert OnDisk(d.files, {t}, j);
    }
    forall j | OnDisk(d0.files, {t}, j) ensures Content(d0, j) == Content(e, j) {
      assert OnDisk(d.files, {t}, j);
    }
  }

  /** When no used block is left above the first hole, the lifted file fits there with its new size. */
  lemma CompactedRoom(d0: Disk, d: Disk, t: nat, p: nat, size: nat)
    requires Compacting(d0, d, t, p)
    requires forall b :: p <= b < |d.bits| ==> !d.bits[b]
    requires SumBlocks(d0.files, {t}, d0.bs, |d0.files|) + Blocks(size, d0.bs) <= |d0.bits|
    ensures p == SumBlocks(d0.files, {t}, d0.bs, |d0.files|)
    ensures Room(d.bits, p, Blocks(size, d.bs))
    ensures At(p, d.bs) + size <= |d.bytes|
  {
    CompactedCount(d0, d, t, p);
    RoomBytes(d, p, size);
  }

  lemma {:induction false} CompactedPlace(d0: Disk, d: Disk, t: nat, p: nat, data: seq<byte>, size: nat)
    requires Compacting(d0, d, t, p) && data == Content(d0, t)
    requires forall b :: p <= b < |d.bits| ==> !d.bits[b]
    requires |data| <= size && Room(d.bits, p, Blocks(size, d.bs)) && At(p, d.bs) + size <= |d.bytes|
    ensures Compacted(d0, Place(d, t, p, data, size), t, p, size)
  {
    PlaceOk(d, {t}, t, p, data, size);
    assert {t} - {t} == {};
    forall i | OnDisk(d.files, {t}, i) ensures End(d.files[i], d.bs) <= p {
      BelowUsed(d, {t}, i, p);
    }
    ByteRange(d0, {}, t);
    CompactedFrom(d0, d, Place(d, t, p, data, size), t, p, size);
  }

  lemma CompactedFrom(d0: Disk, d: Disk, e: Disk, t: nat, p: nat, size: nat)
    requires Compacting(d0, d, t, p) && d0.files[t].size <= size
    requires forall i :: OnDisk(d.files, {t}, i) ==> End(d.files[i], d.bs) <= p
    requires e.bs == d.bs && p + Blocks(size, d.bs) <= |d.bits|
    requires e.bits == Fill(d.bits, p, Blocks(size, d.bs), true)
    requires forall b :: p <= b < |d.bits| ==> !d.bits[b]
    requires e.files == d.files[t := d.files[t].(start := p, size := size)]
    requires Ok(e, {}) && SameContents(d, e, {t})
    requires Content(e, t) == Content(d0, t) + Repeat(size - d0.files[t].size, 0)
    ensures Compacted(d0, e, t, p, size)
  {
    assert SameContents(d0, e, {t}) by {
      forall i | OnDisk(d0.files, {t}, i) ensures Content(d0, i) == Content(e, i) {
        assert OnDisk(d.files, {t}, i);
      }
    }
    forall i | OnDisk(e.files, {t}, i) ensures e.files[i] == d.files[i] && End(e.files[i], e.bs) <= p {
      assert OnDisk(d.files, {t}, i);
    }
  }

  /** Files lie below a point above which no block is used. */
  lemma BelowUsed(d: Disk, skip: set<int>, i: nat, p: nat)
    requires Ok(d, skip) && OnDisk(d.files, skip, i)
    requires forall b :: p <= b < |d.bits| ==> !d.bits[b]
    ensures End(d.files[i], d.bs) <= p
  {
    var b := End(d.files[i], d.bs) - 1;
    assert InExtent(d.files[i], d.bs, b);
    assert Owned(d.files, skip, d.bs, b);
  }

  lemma CompactedCount(d0: Disk, d: Disk, t: nat, p: nat)
    requires Compacting(d0, d, t, p)
    requires forall b :: p <= b < |d.bits| ==> !d.bits[b]
    ensures p == SumBlocks(d0.files, {t}, d0.bs, |d0.files|)
  {
    CountOk(d, {t}, |d.files|);
    SumBlocksSame(d0.files, d.files, {t}, d.bs, |d.files|);
    CountBounds(d.bits, p);
  }

  lemma {:induction false} SumBlocksSame(f: seq<File>, g: seq<File>, skip: set<int>, bs: nat, n: nat)
    requires bs > 0 && n <= |f| == |g|
    requires forall i :: 0 <= i < n ==> f[i].size == g[i].size
    ensures SumBlocks(f, skip, bs, n) == SumBlocks(g, skip, bs, n)
  {
    if n > 0 {
      SumBlocksSame(f, g, skip, bs, n - 1);
    }
  }

  /** The outcome of compaction: the used blocks are a prefix of the disk, the other files keep
      their bytes and their order, and file `t` comes last, its bytes extended with zeros to `size`. */
  ghost predicate Compacted(d0: Disk, e: Disk, t: nat, p: nat, size: nat) {
    && Ok(d0, {}) && Ok(e, {})
    && e.bs == d0.bs && |e.bits| == |d0.bits| && |e.files| == |d0.files| && t < |e.files|
    && (forall b :: 0 <= b < |e.bits| ==> (e.bits[b] <==> b < p + Blocks(size, e.bs)))
    && SameContents(d0, e, {t})
    && SameOrder(d0.files, e.files, t)
    && (forall i :: OnDisk(e.files, {t}, i) ==>
         && e.files[i].name == d0.files[i].name && e.files[i].size == d0.files[i].size
         && End(e.files[i], e.bs) <= p)
    && e.files[t] == File(d0.files[t].name, p, size)
    && d0.files[t].size <= size
    && Content(e, t) == Content(d0, t) + Repeat(size - d0.files[t].size, 0)
  }

  // ----- The directory a disk stands for -----

  function Listing(d: Disk): (es: seq<Entry>)
    ensures |es| == |d.files|
    ensures forall i :: 0 <= i < |es| ==> es[i] == Entry(d.files[i].name, Content(d, i))
  {
    seq(|d.files|, i requires 0 <= i < |d.files| => Entry(d.files[i].name, Content(d, i)))
  }

  lemma ListedSize(d: Disk, n: nat)
    requires Ok(d, {}) && n <= |d.files|
    ensures d.bs > 0
    ensures n > 0 ==> |Listing(d)[n - 1].data| == d.files[n - 1].size
  {
    hide Blocks;
    if n > 0 {
      ByteRange(d, {}, n - 1);
    }
  }

  lemma {:induction false} ListingUsed(d: Disk, n: nat)
    requires Ok(d, {}) && n <= |d.files|
    ensures Used(Listing(d)[..n], d.bs) == SumBlocks(d.files, {}, d.bs, n)
  {
    hide Ok, Blocks, Used, Listing;
    ListedSize(d, n);
    if n > 0 {
      ListingUsed(d, n - 1);
      UsedNext(Listing(d), n, d.bs);
    } else {
      UsedNone(d.bs);
    }
  }

  /** Lifting file `t` out and putting it back with other contents changes its entry alone. */
  lemma ReplaceListing(d: Disk, t: nat, p: nat, data: seq<byte>, size: nat)
    requires Ok(d, {}) && t < |d.files|
    requires End(d.files[t], d.bs) <= |d.bits| && At(d.files[t].start, d.bs) + d.files[t].size <= |d.bytes|
    requires |data| <= size && Room(Lift(d, t).bits, p, Blocks(size, d.bs))
    ensures At(p, d.bs) + |data| <= |d.bytes|
    ensures var e := Place(Lift(d, t), t, p, data, size);
            && Ok(e, {})
            && Listing(e) == Listing(d)[t := Entry(d.files[t].name, data + Repeat(size - |data|, 0))]
  {
    LiftOk(d, {}, t);
    assert {} + {t} == {t} && {t} - {t} == {};
    PlaceOk(Lift(d, t), {t}, t, p, data, size);
    var e := Place(Lift(d, t), t, p, data, size);
    forall i | 0 <= i < |d.files| && i != t ensures Content(e, i) == Content(d, i) {
      assert OnDisk(d.files, {t}, i);
    }
  }

  lemma CompactedListing(d0: Disk, e: Disk, t: nat, p: nat, size: nat)
    requires Compacted(d0, e, t, p, size)
    ensures Listing(e) == Listing(d0)[t := Entry(d0.files[t].name, Content(d0, t) + Repeat(size - d0.files[t].size, 0))]
  {
    forall i | 0 <= i < |e.files| && i != t ensures Listing(e)[i] == Listing(d0)[i] {
      assert OnDisk(e.files, {t}, i) && OnDisk(d0.files, {t}, i);
    }
  }

  lemma LiftedCompacting(d0: Disk, t: nat, p: nat)
    requires Ok(d0, {}) && t < |d0.files|
    requires End(d0.files[t], d0.bs) <= |d0.bits| && At(d0.files[t].start, d0.bs) + d0.files[t].size <= |d0.bytes|
    requires p <= |d0.bits| && forall b :: 0 <= b < p ==> Lift(d0, t).bits[b]
    ensures Compacting(d0, Lift(d0, t), t, p)
  {
    LiftOk(d0, {}, t);
    assert {} + {t} == {t};
  }

  /** When the loop ends, the lifted file fits after the others, and the result is compacted. */
  lemma CompactionEnds(d0: Disk, d: Disk, t: nat, free: int, data: seq<byte>, size: nat)
    requires Compacting(d0, d, t, Hole(d.bits, free)) && Scanned(d.bits, free, -1)
    requires data == Content(d0, t) && d0.files[t].size <= size
    requires SumBlocks(d0.files, {t}, d0.bs, |d0.files|) + Blocks(size, d0.bs) <= |d0.bits|
    ensures free == SumBlocks(d0.files, {t}, d0.bs, |d0.files|)
    ensures d.bs > 0 && t < |d.files| && free + Blocks(size, d.bs) <= |d.bits| && At(free, d.bs) + |data| <= |d.bytes|
    ensures var e := Place(d, t, free, data, size);
            && Ok(e, {})
            && Compacted(d0, e, t, free, size)
            && Listing(e) == Listing(d0)[t := Entry(d0.files[t].name, data + Repeat(size - d0.files[t].size, 0))]
            && (DistinctNames(Listing(d0)) ==> DistinctNames(Listing(e)))
  {
    ByteRange(d0, {}, t);
    assert d.bs > 0;
    hide Ok, SameContents, SameOrder, Listing;
    assert |data| == d0.files[t].size;
    CompactedRoom(d0, d, t, Hole(d.bits, free), size);
    CompactedPlace(d0, d, t, free, data, size);
    CompactedListing(d0, Place(d, t, free, data, size), t, free, size);
  }

  lemma ScannedRound(d0: Disk, d: Disk, t: nat, free: int, used: int)
    requires Compacting(d0, d, t, Hole(d.bits, free)) && Scanned(d.bits, free, used) && used != -1
    ensures Ok(d, {t}) && d.bs > 0 && At(|d.bits|, d.bs) <= |d.bytes|
  {
  }

  /** `SlideOk` for a round whose scans answered `free` and `used`, and then `free'` and `used'`. */
  lemma SlideScanned(d0: Disk, d: Disk, t: nat, free: int, used: int, i: nat, free': int, used': int)
    requires Compacting(d0, d, t, Hole(d.bits, free)) && Scanned(d.bits, free, used) && used != -1
    requires OnDisk(d.files, {t}, i) && d.files[i].start == used && End(d.files[i], d.bs) <= |d.bits|
    requires 0 <= free < used && d.bs > 0 && At(|d.bits|, d.bs) <= |d.bytes|
    requires Scanned(Slide(d, i, free).bits, free', used')
    ensures Compacting(d0, Slide(d, i, free), t, Hole(Slide(d, i, free).bits, free'))
    ensures SumStarts(Slide(d, i, free).files) < SumStarts(d.files)
  {
    hide Compacting, Slide, Ok, SumStarts;
    SlideOk(d0, d, t, free, used, i, Hole(Slide(d, i, free).bits, free'));
  }
}
