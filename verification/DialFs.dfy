/** The DialFS device (entradasalida/src/inout.c): block bytes and bitmap changed in place,
    and a list of files whose metadata is rewritten. */
module DialFs {
  import opened Common
  import opened DialFsDirectory
  import opened DialFsModel
  import opened DialFsSteps

  /** `archivo`: a name and the two metadata values that operations rewrite. */
  class FileEntry {
    const name: string
    var start: nat
    var size: nat

    constructor (name: string, start: nat, size: nat)
      ensures this.name == name && this.start == start && this.size == size
    {
      this.name, this.start, this.size := name, start, size;
    }

    function Value(): File
      reads this
    {
      File(name, start, size)
    }
  }

  class FileSystem {
    const bs: nat
    const blocks: array<byte>
    const bitmap: array<bool>
    var files: seq<FileEntry>
    /** The names of the metadata files in the directory of the host. */
    var metadata: set<string>

    function Meta(): (m: seq<File>)
      reads this, files
      ensures |m| == |files|
      ensures forall i :: 0 <= i < |files| ==> m[i] == files[i].Value()
    {
      seq(|files|, i requires 0 <= i < |files| reads this, files => files[i].Value())
    }

    function Disk(): Disk
      reads this, files, blocks, bitmap
    {
      DialFsModel.Disk(bs, bitmap[..], blocks[..], Meta())
    }

    /** No file is listed twice. */
    ghost predicate Separate()
      reads this
    {
      forall i, j :: 0 <= i < j < |files| ==> files[i] != files[j]
    }

    ghost predicate Valid()
      reads this, files, blocks, bitmap
    {
      && bs > 0
      && Separate()
      && Good(Disk())
      && Known(Meta(), metadata)
    }

    /** Mounts a disk with the metadata files `found` in the directory and marks every block they own
        (`obtener_archivos`) in `bits`, the bitmap as it had been kept. If the disk is a sound one, of whose
        bitmap any part had been kept, that makes it whole. */
    constructor Mount(bs: nat, bits: seq<bool>, bytes: seq<byte>, found: seq<File>)
      requires bs > 0 && forall i :: 0 <= i < |found| ==> End(found[i], bs) <= |bits|
      ensures fresh(Footprint()) && Separate()
      ensures Disk() == DialFsModel.Disk(bs, Marked(bits, found, bs, |found|), bytes, found)
      ensures metadata == set i | 0 <= i < |found| :: found[i].name
      ensures forall owned ::
                MountsSound(DialFsModel.Disk(bs, owned, bytes, found), bits) ==> Valid() && bitmap[..] == owned
    {
      hide Good, Marked, Fill, MountsSound;
      this.bs := bs;
      this.blocks := new byte[|bytes|](i requires 0 <= i < |bytes| => bytes[i]);
      this.bitmap := new bool[|bits|](i requires 0 <= i < |bits| => bits[i]);
      this.files := [];
      this.metadata := set i | 0 <= i < |found| :: found[i].name;
      new;
      assert blocks[..] == bytes && bitmap[..] == bits;
      MarkedZero(bits, found, bs);
      for i := 0 to |found|
        invariant |files| == i && Separate() && fresh(Footprint())
        invariant metadata == set k | 0 <= k < |found| :: found[k].name
        invariant Meta() == found[..i] && blocks[..] == bytes
        invariant bitmap[..] == Marked(bits, found, bs, i)
      {
        MarkedMore(bits, found, bs, i);
        AddKnown(found[i]);
      }
      assert Meta() == found;
      forall owned | MountsSound(DialFsModel.Disk(bs, owned, bytes, found), bits)
        ensures Valid() && bitmap[..] == owned
      {
        MarkedOwned(DialFsModel.Disk(bs, owned, bytes, found), bits);
      }
    }

    /** Adds a file found in the directory to the list and marks its blocks. */
    method AddKnown(f: File)
      requires bs > 0 && Separate() && End(f, bs) <= bitmap.Length
      modifies this`files, bitmap
      ensures Separate() && fresh(Footprint() - old(Footprint()))
      ensures Meta() == old(Meta()) + [f]
      ensures bitmap[..] == Fill(old(bitmap[..]), f.start, Blocks(f.size, bs), true)
    {
      var e := new FileEntry(f.name, f.start, f.size);
      files := files + [e];
      SetBits(f.start, Blocks(f.size, bs));
    }

    /** The objects an operation may change. */
    ghost function Footprint(): set<object>
      reads this
    {
      {this, blocks, bitmap} + set f | f in files
    }

    /** The files this disk stands for. */
    ghost function Entries(): seq<Entry>
      reads this, files, blocks, bitmap
    {
      Listing(Disk())
    }

    ghost function Directory(): Directory
      reads this, files, blocks, bitmap
    {
      DialFsDirectory.Directory(Entries(), metadata)
    }

    /** `p` is the first free block. */
    static predicate FirstHole(bits: seq<bool>, p: int) {
      0 <= p < |bits| && !bits[p] && forall b :: 0 <= b < p ==> bits[b]
    }

    /** Where a growth leaves the files: nowhere else if it is refused or the blocks after the file are free, and
        compacted only when they are not. */
    static ghost predicate Placed(before: DialFsModel.Disk, after: DialFsModel.Disk, t: nat, size: nat)
      requires before.bs > 0 && t < |before.files|
    {
      var sum := SumBlocks(before.files, {t}, before.bs, |before.files|);
      if sum + Blocks(size, before.bs) > |before.bits| then after == before
      else if RoomAfter(before, t, size)
      then after.files == before.files[t := before.files[t].(size := size)] && after.bytes == before.bytes
      else Compacted(before, after, t, sum, size)
    }

    // ----- Bitmap scans -----

    method FirstUsedFrom(from: nat) returns (index: int)
      ensures index == -1 ==> forall b :: from <= b < bitmap.Length ==> !bitmap[b]
      ensures index != -1 ==> from <= index < bitmap.Length && bitmap[index] && forall b :: from <= b < index ==>
              !bitmap[b]
    {
      var counter := from;
      index := -1;
      while counter < bitmap.Length
        invariant from <= counter
        invariant index == -1 ==> forall b :: from <= b < counter && b < bitmap.Length ==> !bitmap[b]
        invariant index != -1 ==> from <= index < bitmap.Length <= counter && bitmap[index]
        invariant index != -1 ==> forall b :: from <= b < index ==> !bitmap[b]
      {
        if bitmap[counter] {
          index := counter;
          counter := bitmap.Length;
        } else {
          counter := counter + 1;
        }
      }
    }

    method FirstFree() returns (index: int)
      ensures index == -1 ==> forall b :: 0 <= b < bitmap.Length ==> bitmap[b]
      ensures index != -1 ==> 0 <= index < bitmap.Length && !bitmap[index] && forall b :: 0 <= b < index ==> bitmap[b]
    {
      var counter := 0;
      index := -1;
      while counter < bitmap.Length
        invariant 0 <= counter
        invariant index == -1 ==> forall b :: 0 <= b < counter && b < bitmap.Length ==> bitmap[b]
        invariant index != -1 ==> 0 <= index < bitmap.Length <= counter && !bitmap[index]
        invariant index != -1 ==> forall b :: 0 <= b < index ==> bitmap[b]
      {
        if !bitmap[counter] {
          index := counter;
          counter := bitmap.Length;
        } else {
          counter := counter + 1;
        }
      }
    }

    method CountFree() returns (free: nat)
      ensures free == bitmap.Length - CountUsed(bitmap[..])
    {
      free := 0;
      for i := 0 to bitmap.Length
        invariant free == i - CountUsed(bitmap[..i])
      {
        assert bitmap[..i + 1][..i] == bitmap[..i];
        if !bitmap[i] {
          free := free + 1;
        }
      }
      assert bitmap[..bitmap.Length] == bitmap[..];
    }

    method ClearBits(first: nat, n: nat)
      requires first + n <= bitmap.Length
      modifies bitmap
      ensures bitmap[..] == Fill(old(bitmap[..]), first, n, false)
    {
      for i := 0 to n
        invariant bitmap[..] == Fill(old(bitmap[..]), first, i, false)
      {
        bitmap[first + i] := false;
      }
    }

    method SetBits(first: nat, n: nat)
      requires first + n <= bitmap.Length
      modifies bitmap
      ensures bitmap[..] == Fill(old(bitmap[..]), first, n, true)
    {
      for i := 0 to n
        invariant bitmap[..] == Fill(old(bitmap[..]), first, i, true)
      {
        bitmap[first + i] := true;
      }
    }

    // ----- Bytes -----

    method ClearBytes(first: nat, n: nat)
      requires first + n <= blocks.Length
      modifies blocks
      ensures blocks[..] == Fill(old(blocks[..]), first, n, 0)
    {
      for i := 0 to n
        invariant blocks[..] == Fill(old(blocks[..]), first, i, 0)
      {
        blocks[first + i] := 0;
      }
    }

    /** `memcpy` into the blocks. */
    method CopyIn(at: nat, data: seq<byte>)
      requires at + |data| <= blocks.Length
      modifies blocks
      ensures blocks[..] == Blit(old(blocks[..]), at, data)
    {
      forall k | 0 <= k < |data| {
        blocks[at + k] := data[k];
      }
    }

    // ----- Lookups -----

    /** The first file that starts at `start`; the last file of the list when none does. */
    method FindByStart(start: nat) returns (index: nat)
      requires files != []
      ensures index < |files|
      ensures forall k :: 0 <= k < index ==> files[k].start != start
      ensures files[index].start == start || index == |files| - 1
      ensures (exists i :: 0 <= i < |files| && files[i].start == start) ==> files[index].start == start
    {
      var i, length := 0, |files|;
      index := 0;
      while i < length
        invariant index < |files| == length
        invariant forall k :: 0 <= k < index ==> files[k].start != start
        invariant i < length ==> forall k :: 0 <= k < i ==> files[k].start != start
        invariant i >= length ==>
                    || files[index].start == start
                    || (index == length - 1 && forall k :: 0 <= k < length ==> files[k].start != start)
      {
        index := i;
        if files[i].start == start {
          i := length;
        } else {
          i := i + 1;
        }
      }
    }

    method FindByName(name: string) returns (index: nat)
      requires files != []
      ensures index == Target(Entries(), name)
    {
      var i, length := 0, |files|;
      index := 0;
      ghost var t := Target(Entries(), name);
      while i < length
        invariant index < |files| == length
        invariant i < length ==> i <= t
        invariant i >= length ==> index == t
      {
        index := i;
        if files[i].name == name {
          assert Entries()[i].name == name;
          i := length;
        } else {
          i := i + 1;
        }
      }
    }

    /** Rewrites the metadata of one file. */
    method SetMetadata(i: nat, start: nat, size: nat)
      requires i < |files|
      requires Separate()
      modifies files[i]
      ensures Meta() == old(Meta())[i := File(files[i].name, start, size)]
    {
      files[i].start := start;
      files[i].size := size;
    }

    // ----- Compaction -----

    /** Copies the bytes of file `i` out and clears its bytes and bits. */
    method LiftOut(i: nat, ghost skip: set<int>) returns (data: seq<byte>)
      requires Ok(Disk(), skip) && OnDisk(Meta(), skip, i)
      modifies blocks, bitmap
      ensures End(old(Disk()).files[i], bs) <= bitmap.Length
      ensures At(old(files[i].start), bs) + old(files[i].size) <= blocks.Length
      ensures data == Content(old(Disk()), i)
      ensures Disk() == Lift(old(Disk()), i)
    {
      ByteRange(Disk(), skip, i);
      var first, size := files[i].start, files[i].size;
      AtIsProduct(first, bs);
      var firstByte := first * bs;
      data := blocks[firstByte..firstByte + size];
      ClearBytes(firstByte, size);
      ClearBits(first, Blocks(size, bs));
    }

    /** Moves file `i` down to block `free`. */
    method SlideDown(i: nat, free: nat, ghost skip: set<int>)
      requires Ok(Disk(), skip) && OnDisk(Meta(), skip, i) && free <= files[i].start
      requires Separate()
      modifies blocks, bitmap, files[i]
      ensures Disk() == Slide(old(Disk()), i, free)
    {
      ghost var d := Disk();
      ByteRange(d, skip, i);
      RoomBytes(d, free, files[i].size);
      var size := files[i].size;
      var data := LiftOut(i, skip);
      PutLast(i, free, data, size);
    }

    /** Writes the lifted file at block `p` and marks the blocks of its new size. */
    method PutLast(i: nat, p: nat, data: seq<byte>, size: nat)
      requires i < |files| && bs > 0
      requires Separate()
      requires p + Blocks(size, bs) <= bitmap.Length && At(p, bs) + |data| <= blocks.Length
      modifies blocks, bitmap, files[i]
      ensures Disk() == Place(old(Disk()), i, p, data, size)
    {
      AtIsProduct(p, bs);
      CopyIn(p * bs, data);
      SetBits(p, Blocks(size, bs));
      SetMetadata(i, p, size);
    }

    /** The first free block and the first used block after it, -1 for none. */
    method NextMove() returns (free: int, used: int)
      ensures Scanned(bitmap[..], free, used)
    {
      free := FirstFree();
      if free != -1 {
        used := FirstUsedFrom(free);
      } else {
        used := -1;
      }
    }

    /** The file that a round moves: the only one that starts at the block found. */
    method FileToMove(ghost d0: Disk, t: nat, free: int, used: int) returns (i: nat)
      requires Scanned(bitmap[..], free, used) && used != -1
      requires Compacting(d0, Disk(), t, Hole(bitmap[..], free))
      ensures i < |files| && OnDisk(Meta(), {t}, i) && files[i].start == used && 0 <= free < used
      ensures End(Meta()[i], bs) <= bitmap.Length
    {
      hide Owned, HoldsByte, SameOrder, SameContents;
      ghost var d := Disk();
      GapEndsAtOneFile(d0, d, t, free, used);
      ghost var w :| OnDisk(d.files, {t}, w) && d.files[w].start == used;
      assert files[w].start == used;
      i := FindByStart(used);
      assert d.files[i].start == used;
      assert i == w;
      ByteRange(d, {t}, i);
    }

    /** One round of the compaction loop. `d0` is the disk before compaction. */
    method Round(ghost d0: Disk, t: nat, free: int, used: int) returns (free': int, used': int)
      requires Separate()
      requires Scanned(bitmap[..], free, used) && used != -1
      requires Compacting(d0, Disk(), t, Hole(bitmap[..], free))
      modifies blocks, bitmap, files
      ensures Scanned(bitmap[..], free', used')
      ensures Compacting(d0, Disk(), t, Hole(bitmap[..], free'))
      ensures SumStarts(Disk().files) < SumStarts(old(Disk()).files)
    {
      hide Scanned, Compacting, Slide, Ok, SumStarts, Separate, SameOrder, Hole, Meta, OnDisk, End, Gap;
      ghost var d := Disk();
      var i := FileToMove(d0, t, free, used);
      ScannedRound(d0, d, t, free, used);
      SlideDown(i, free, {t});
      ghost var e := Disk();
      free', used' := NextMove();
      SlideScanned(d0, d, t, free, used, i, free', used');
    }

    /** Lifts file `t` out and slides every other file down until no hole is left below a used block. */
    method PackOthers(t: nat) returns (free: int, data: seq<byte>)
      requires Valid() && t < |files|
      modifies blocks, bitmap, files
      ensures data == Content(old(Disk()), t)
      ensures Scanned(bitmap[..], free, -1)
      ensures Compacting(old(Disk()), Disk(), t, Hole(bitmap[..], free))
    {
      hide Compacting, Lift, Ok, Scanned, Good, Separate;
      GoodOk(Disk(), t);
      ghost var d0 := Disk();
      data := LiftOut(t, {});
      var used: int;
      free, used := NextMove();
      LiftedCompacting(d0, t, Hole(bitmap[..], free));
      while used != -1
        invariant Scanned(bitmap[..], free, used)
        invariant Compacting(d0, Disk(), t, Hole(bitmap[..], free))
        decreases SumStarts(Disk().files)
      {
        free, used := Round(d0, t, free, used);
      }
    }

    /** Packs every other file at the beginning of the disk and puts file `t`, enlarged, after them. */
    method Compact(t: nat, newSize: nat)
      requires Valid() && t < |files| && files[t].size < newSize
      requires SumBlocks(Meta(), {t}, bs, |files|) + Blocks(newSize, bs) <= bitmap.Length
      modifies blocks, bitmap, files
      ensures Valid()
      ensures Compacted(old(Disk()), Disk(), t, SumBlocks(old(Meta()), {t}, bs, |files|), newSize)
      ensures Entries() == WithSize(old(Entries()), t, newSize, bs, bitmap.Length)
    {
      hide Compacting, Compacted, Place, Good, Scanned, Listing, Separate, WithSize;
      ghost var d0 := Disk();
      var free, data := PackOthers(t);
      ghost var d := Disk();
      CompactStep(d0, d, t, free, data, newSize);
      PutLast(t, free, data, newSize);
    }

    // ----- Requests -----

    /** A new empty file at the free block `p`, and its metadata file. */
    method AddFile(name: string, p: nat)
      requires p < bitmap.Length
      requires Separate()
      modifies this, bitmap
      ensures fresh(Footprint() - old(Footprint()))
      ensures Separate()
      ensures metadata == old(metadata) + {name}
      ensures Disk() == old(Disk()).(bits := old(bitmap[..])[p := true], files := old(Meta()) + [File(name, p, 0)])
    {
      var f := new FileEntry(name, p, 0);
      files := files + [f];
      metadata := metadata + {name};
      bitmap[p] := true;
    }

    /** `io_fs_create`. No reply is sent when every block is used. */
    method Create(name: string) returns (replied: bool)
      requires Valid()
      modifies this, bitmap
      ensures Valid() && fresh(Footprint() - old(Footprint()))
      ensures Directory() == Step(old(Directory()), Op.Create(name), bs, bitmap.Length)
      ensures replied <==> Used(old(Entries()), bs) < bitmap.Length
      ensures name !in old(metadata) ==>
                forall p :: FirstHole(old(bitmap[..]), p) ==> Meta() == old(Meta()) + [File(name, p, 0)]
    {
      hide Good, Listing, Relisted, Separate, Used, CountUsed, Known;
      var p := FirstFree();
      FreeIffQuota(Disk());
      replied := p != -1;
      if p != -1 {
        CreateAt(name, p);
      } else {
        CreateRefused(Disk(), name, name in metadata);
      }
    }

    /** The branch of `io_fs_create` that has found the free block `p`: it asks whether the metadata file exists. */
    method CreateAt(name: string, p: nat)
      requires Valid() && p < bitmap.Length && !bitmap[p]
      modifies this, bitmap
      ensures Valid() && fresh(Footprint() - old(Footprint()))
      ensures Entries() == Relisted(old(Entries()), Op.Create(name), name in old(metadata), bs, bitmap.Length)
      ensures metadata == old(metadata) + {name}
      ensures name !in old(metadata) ==> Meta() == old(Meta()) + [File(name, p, 0)]
    {
      hide Good, Listing, Relisted, Separate, Present, Known;
      if name !in metadata {
        NotKnown(Disk(), metadata, name);
        CreateStep(Disk(), name, p);
        KnownMore(Meta(), metadata, File(name, p, 0));
        AddFile(name, p);
      } else {
        CreateRefused(Disk(), name, true);
        assert metadata + {name} == metadata;
      }
    }

    /** Drops file `t` from the list, and removes the metadata file of `name`. */
    method RemoveFile(t: nat, name: string)
      requires t < |files|
      requires Separate()
      modifies `files, `metadata
      ensures metadata == old(metadata) - {name}
      ensures Footprint() <= old(Footprint())
      ensures Separate()
      ensures Disk() == old(Disk()).(files := RemoveAt(old(Meta()), t))
    {
      files := files[..t] + files[t + 1..];
      metadata := metadata - {name};
    }

    /** `io_fs_delete`. */
    method Delete(name: string)
      requires Valid() && files != []
      modifies this, blocks, bitmap
      ensures Valid() && Footprint() <= old(Footprint())
      ensures Directory() == Step(old(Directory()), Op.Delete(name), bs, bitmap.Length)
    {
      hide Good, Ok, Listing, Relisted, Lift, Known, Target, Separate, At;
      ghost var d := Disk();
      var t := FindByName(name);
      GoodOk(d, t);
      DeleteStep(d, name);
      KnownLess(d, metadata, name);
      var _ := LiftOut(t, {});
      RemoveFile(t, name);
    }

    /** `io_fs_truncate`. */
    method Truncate(name: string, newSize: nat)
      requires Valid() && files != []
      modifies blocks, bitmap, files
      ensures Valid()
      ensures Directory() == Step(old(Directory()), Op.Truncate(name, newSize), bs, bitmap.Length)
      ensures var t := Target(old(Entries()), name);
              && (old(files[t].size) < newSize ==> Placed(old(Disk()), Disk(), t, newSize))
              && (old(files[t].size) >= newSize ==> Meta() == old(Meta())[t := old(Meta())[t].(size := newSize)])
    {
      hide Good, Known, Listing, Used, Target, Resized, Placed, SumBlocks, RoomAfter, Compacted, Blocks, WithSize,
        Relisted;
      TruncateIs(Entries(), name, newSize, bs, bitmap.Length);
      var t := FindByName(name);
      if files[t].size < newSize {
        Grow(t, newSize);
      } else {
        Shrink(t, newSize);
      }
    }

    /** Whether the blocks just after file `t` are free up to the new size. */
    method RoomNextTo(t: nat, newSize: nat) returns (room: bool)
      requires bs > 0 && t < |files| && End(Meta()[t], bs) <= bitmap.Length
      ensures room <==> RoomAfter(Disk(), t, newSize)
    {
      var owned, needed := Blocks(files[t].size, bs), Blocks(newSize, bs);
      var end := files[t].start + owned;
      var next := FirstUsedFrom(end);
      if next == -1 {
        next := bitmap.Length;
      }
      room := needed <= next - end + owned;
    }

    /** The growing branch of `io_fs_truncate`: in place, by compaction, or not at all. */
    method Grow(t: nat, newSize: nat)
      requires Valid() && t < |files| && files[t].size < newSize
      modifies blocks, bitmap, files
      ensures Valid()
      ensures Entries() == WithSize(old(Entries()), t, newSize, bs, bitmap.Length)
      ensures Placed(old(Disk()), Disk(), t, newSize)
    {
      hide Good, Ok, Listing, WithSize, RoomAfter, SumBlocks, CountUsed, Blocks, Resized, Separate, Compacted, Content;
      GoodOk(Disk(), t);
      GrowthTest(Disk(), t, newSize);
      var free := CountFree();
      if Blocks(newSize, bs) <= free + Blocks(files[t].size, bs) {
        var room := RoomNextTo(t, newSize);
        if room {
          GrowInto(t, newSize);
        } else {
          Compact(t, newSize);
        }
      }
    }

    /** Growth in place, when the blocks just after the file are free. */
    method GrowInto(t: nat, newSize: nat)
      requires Valid() && t < |files| && files[t].size < newSize
      requires RoomAfter(Disk(), t, newSize)
      requires SumBlocks(Meta(), {t}, bs, |files|) + Blocks(newSize, bs) <= bitmap.Length
      modifies bitmap, files
      ensures Valid()
      ensures Entries() == WithSize(old(Entries()), t, newSize, bs, bitmap.Length)
      ensures Meta() == old(Meta())[t := old(Meta())[t].(size := newSize)] && blocks[..] == old(blocks[..])
    {
      hide Good, Listing, WithSize, Separate, SumBlocks, Grown, RoomAfter, Blocks;
      GoodOk(Disk(), t);
      GrowStep(Disk(), t, newSize);
      GrownFiles(Disk(), t, newSize);
      MarkGrown(t, newSize);
    }

    method MarkGrown(t: nat, newSize: nat)
      requires bs > 0 && Separate() && t < |files|
      requires Blocks(files[t].size, bs) <= Blocks(newSize, bs) && RoomAfter(Disk(), t, newSize)
      modifies bitmap, files
      ensures Separate()
      ensures Disk() == Grown(old(Disk()), t, newSize)
    {
      var owned := Blocks(files[t].size, bs);
      SetBits(files[t].start + owned, Blocks(newSize, bs) - owned);
      SetMetadata(t, files[t].start, newSize);
    }

    /** The shrinking branch of `io_fs_truncate`. */
    method Shrink(t: nat, newSize: nat)
      requires Valid() && t < |files| && newSize <= files[t].size
      modifies blocks, bitmap, files
      ensures Valid()
      ensures Entries() == WithSize(old(Entries()), t, newSize, bs, bitmap.Length)
      ensures Meta() == old(Meta())[t := old(Meta())[t].(size := newSize)]
    {
      hide Good, Listing, WithSize, Separate, Shrunk, Blocks;
      GoodOk(Disk(), t);
      ShrinkStep(Disk(), t, newSize);
      ShrunkFiles(Disk(), t, newSize);
      ClearTail(t, newSize);
    }

    method ClearTail(t: nat, newSize: nat)
      requires bs > 0 && Separate() && t < |files| && newSize <= files[t].size
      requires Blocks(newSize, bs) <= Blocks(files[t].size, bs)
      requires End(Meta()[t], bs) <= bitmap.Length && At(files[t].start, bs) + files[t].size <= blocks.Length
      modifies blocks, bitmap, files
      ensures Separate()
      ensures Disk() == Shrunk(old(Disk()), t, newSize)
    {
      var start, size := files[t].start, files[t].size;
      AtIsProduct(start, bs);
      ClearBytes(bs * start + newSize, size - newSize);
      var owned := Blocks(newSize, bs);
      ClearBits(start + owned, Blocks(size, bs) - owned);
      SetMetadata(t, start, newSize);
    }

    /** `io_fs_write`, with the bytes that the memory answered. */
    method Write(name: string, at: nat, data: seq<byte>)
      requires Valid() && files != []
      modifies blocks
      ensures Valid()
      ensures Directory() == Step(old(Directory()), Op.Write(name, at, data), bs, bitmap.Length)
    {
      hide Good, Listing, Relisted, Separate, Content, Overwritten, Known;
      var t := FindByName(name);
      WriteStep(Disk(), name, at, data);
      if at + |data| <= files[t].size {
        Overwrite(t, at, data);
      }
    }

    method Overwrite(t: nat, at: nat, data: seq<byte>)
      requires t < |files| && At(files[t].start, bs) + at + |data| <= blocks.Length
      modifies blocks
      ensures Disk() == Overwritten(old(Disk()), t, at, data)
    {
      AtIsProduct(files[t].start, bs);
      CopyIn(files[t].start * bs + at, data);
    }

    /** `io_fs_read`: the bytes copied out of the blocks, from the start of the file on; within its own blocks they
        are those of the file and zeros after it. */
    method Read(name: string, at: nat, n: nat) returns (data: seq<byte>)
      requires Valid() && files != []
      requires At(files[Target(Entries(), name)].start, bs) + at + n <= blocks.Length
      ensures var first := At(files[Target(Entries(), name)].start, bs) + at;
              data == blocks[..][first..first + n]
      ensures var file := Entries()[Target(Entries(), name)].data;
              at + n <= At(Blocks(|file|, bs), bs) ==>
                at + n <= |Padded(file, bs)| && data == Padded(file, bs)[at..at + n]
    {
      hide Good, Listing, Separate, Content, Target, Known, Padded, Blocks, At;
      var t := FindByName(name);
      if at + n <= At(Blocks(|Entries()[t].data|, bs), bs) {
        ReadStep(Disk(), t, at, n);
      }
      AtIsProduct(files[t].start, bs);
      var first := files[t].start * bs + at;
      data := blocks[first..first + n];
    }

    lemma ReadFits(name: string, at: nat, n: nat)
      requires Valid() && Served(Entries(), Op.Read(name, at, n), bs)
      ensures files != [] && At(files[Target(Entries(), name)].start, bs) + at + n <= blocks.Length
    {
      hide Good, Known, Blocks, At;
      ReadStep(Disk(), Target(Entries(), name), at, n);
    }

    // ----- Whole runs -----

    lemma ServedSome(op: Op)
      requires Valid() && Served(Entries(), op, bs)
      ensures bs > 0 && (!op.Create? ==> files != [])
    {
      hide Target, Blocks, At;
    }

    /** `recibir_info_kernel`: one request from the kernel. */
    method Execute(op: Op) returns (replied: bool)
      requires Valid() && Served(Entries(), op, bs)
      modifies Footprint()
      ensures Valid() && fresh(Footprint() - old(Footprint()))
      ensures Directory() == Step(old(Directory()), op, bs, bitmap.Length)
      ensures replied <==> Replies(old(Entries()), op, bs, bitmap.Length)
    {
      hide Good, Listing, Relisted, Separate, Used, Known, Placed, FirstHole, Padded, At, Target, Valid, Meta, Disk;
      ServedSome(op);
      replied := true;
      match op {
        case Create(name) => replied := Create(name);
        case Delete(name) => Delete(name);
        case Truncate(name, size) => Truncate(name, size);
        case Write(name, at, data) => Write(name, at, data);
        case Read(name, at, n) =>
          ReadFits(name, at, n);
          var _ := Read(name, at, n);
          ReadNothing(Directory(), op, bs, bitmap.Length);
      }
    }

    /** The device loop: any sequence of requests leaves a disk that stands for what the
        directory makes of the same sequence. */
    method Serve(ops: seq<Op>)
      requires Valid() && AllServed(Directory(), ops, bs, bitmap.Length)
      modifies Footprint()
      ensures Valid()
      ensures Directory() == Run(old(Directory()), ops, bs, bitmap.Length)
    {
      hide Good, Listing, Step, Separate, Known;
      var i := 0;
      assert ops[0..] == ops;
      while i < |ops|
        invariant i <= |ops|
        invariant Valid() && fresh(Footprint() - old(Footprint()))
        invariant AllServed(Directory(), ops[i..], bs, bitmap.Length)
        invariant Run(Directory(), ops[i..], bs, bitmap.Length) == Run(old(Directory()), ops, bs, bitmap.Length)
      {
        assert ops[i..][1..] == ops[i + 1..];
        var _ := Execute(ops[i]);
        i := i + 1;
      }
    }
  }
}
