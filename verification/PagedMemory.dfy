/** The memory module (memoria/src/memoria.c): byte space, frame bitmap and page tables, changed in place. */
module PagedMemory {
  import opened Common
  import opened PagedMemoryModel
  import opened PagedMemoryRuns
  import opened PagedMemoryView

  /** Pages needed for `size` bytes, rounded up. */
  function PagesFor(size: nat, ps: nat): nat
    requires ps > 0
  {
    if size == 0 then 0 else if size <= ps then 1 else 1 + PagesFor(size - ps, ps)
  }

  /** As many pages as `size` needs, and no more. */
  lemma {:induction false} PagesForIsCeiling(size: nat, ps: nat)
    requires ps > 0
    ensures size <= PagesFor(size, ps) * ps < size + ps
  {
    if size > ps {
      PagesForIsCeiling(size - ps, ps);
    }
  }

  class Memory {
    const num: Numbering
    const ps: nat
    const space: array<byte>
    const frames: array<bool>
    var tables: map<int, PageTable>

    ghost function View(): Mem
      reads this, frames
    {
      Mem(frames[..], tables)
    }

    ghost predicate Valid()
      reads this, frames
    {
      ps > 0 && At(frames.Length, ps) <= space.Length && Safe(View())
    }

    constructor (num: Numbering, size: nat, ps: nat)
      requires ps > 0
      ensures Valid() && fresh(space) && fresh(frames)
      ensures this.num == num && this.ps == ps && space.Length == size && frames.Length == size / ps
      ensures View() == Mem(Repeat(size / ps, false), map[]) && Exact(View())
    {
      this.num := num;
      this.ps := ps;
      space := new byte[size];
      frames := new bool[size / ps](_ => false);
      tables := map[];
      new;
      AtIsProduct(size / ps, ps);
      assert frames[..] == Repeat(size / ps, false);
    }

    /** `guardar_proceso_en_memoria`. */
    method Register(pid: int)
      requires Valid()
      modifies this
      ensures Valid() && View() == Step(num, old(View()), Event.Register(pid))
    {
      StepKeeps(num, View(), Event.Register(pid));
      tables := tables[pid := PageTable(0, map[])];
    }

    // ----- Resizing -----

    /** The first free frame, -1 if there is none. */
    method FindFrame() returns (f: int)
      ensures f == FirstFree(frames[..])
    {
      f := -1;
      var j := 0;
      while j < frames.Length
        invariant j <= frames.Length && f == -1
        invariant forall g :: 0 <= g < j ==> frames[g]
      {
        if !frames[j] {
          f := j;
          break;
        }
        j := j + 1;
      }
    }

    /** `ampliar_proceso`. */
    method Grow(t: PageTable, k: nat) returns (t': PageTable, reply: Reply)
      modifies frames
      ensures var g := GrowLoop(old(frames[..]), t.frames, t.count, k);
              frames[..] == g.used && t' == t.(frames := g.frames) && reply == if g.ok then Done else OutOfMemory
    {
      t', reply := t, Done;
      ghost var goal := GrowLoop(frames[..], t.frames, t.count, k);
      var i := 0;
      while i < k
        invariant i <= k && t'.count == t.count && reply == Done
        invariant GrowLoop(frames[..], t'.frames, t.count + i, k - i) == goal
      {
        var f := FindFrame();
        if f == -1 {
          reply := OutOfMemory;
          break;
        }
        ghost var used := frames[..];
        frames[f] := true;
        assert frames[..] == used[f := true];
        t' := t'.(frames := t'.frames[t.count + i := f]);
        i := i + 1;
      }
    }

    /** `reducir_proceso`. */
    method Shrink(t: PageTable, k: nat) returns (t': PageTable)
      modifies frames
      ensures var (used, after) := ShrinkLoop(num, old(frames[..]), t.frames, t.count, 0, k);
              frames[..] == used && t' == t.(frames := after)
    {
      t' := t;
      ghost var goal := ShrinkLoop(num, frames[..], t.frames, t.count, 0, k);
      for i := 0 to k
        invariant t'.count == t.count
        invariant ShrinkLoop(num, frames[..], t'.frames, t.count, i, k) == goal
      {
        var page := Victim(num, t.count, i);
        ghost var used := frames[..];
        if page in t'.frames {
          if t'.frames[page] < frames.Length {
            frames[t'.frames[page]] := false;
          }
        }
        assert frames[..] == Unmark(used, t'.frames, page);
        t' := t'.(frames := t'.frames - {page});
      }
    }

    /** `redimensionar_proceso`. */
    method Resize(pid: int, size: nat) returns (replies: seq<Reply>)
      requires Valid() && pid in tables
      modifies this, frames
      ensures Valid() && View() == Step(num, old(View()), Event.Resize(pid, PagesFor(size, ps)))
      ensures replies == ResizeReply(old(View()), pid, PagesFor(size, ps))
    {
      hide Safe, Exact;
      var pages := PagesFor(size, ps);
      StepKeeps(num, View(), Event.Resize(pid, pages));
      var t := tables[pid];
      replies := [];
      if t.count > pages {
        t := Shrink(t, t.count - pages);
        tables := tables[pid := t.(count := pages)];
        replies := [Done];
      } else if t.count < pages {
        var reply: Reply;
        t, reply := Grow(t, pages - t.count);
        tables := tables[pid := t.(count := pages)];
        replies := [reply];
      }
    }

    /** `liberar_proceso_de_memoria`. */
    method Release(pid: int)
      requires Valid()
      modifies this, frames
      ensures Valid() && View() == Step(num, old(View()), Event.Release(pid))
    {
      hide Safe, Exact;
      StepKeeps(num, View(), Event.Release(pid));
      if pid in tables {
        var t := tables[pid];
        ghost var goal := ReleaseLoop(frames[..], t, 0);
        for i := 0 to t.count
          invariant tables == old(tables) && ReleaseLoop(frames[..], t, i) == goal
        {
          ghost var used := frames[..];
          if i in t.frames {
            if t.frames[i] < frames.Length {
              frames[t.frames[i]] := false;
            }
          }
          assert frames[..] == Unmark(used, t.frames, i);
        }
        tables := tables - {pid};
      }
    }

    // ----- Reading and writing -----

    function FrameNo(address: nat): nat
      requires ps > 0
    {
      address / ps
    }

    function Offset(address: nat): (o: nat)
      requires ps > 0
      ensures o < ps
    {
      address % ps
    }

    /** An address is its frame's first byte plus its offset, and nothing else is. */
    lemma AddressParts(address: nat, f: nat, o: nat)
      requires ps > 0 && o < ps
      ensures address == At(f, ps) + o <==> FrameNo(address) == f && Offset(address) == o
    {
      LogicalParts(address, ps);
      AtUnique(f, o, FrameNo(address), Offset(address), ps);
    }

    /** `obtener_marco`. */
    method GetFrame(pid: int, page: int) returns (f: int)
      ensures f == if pid in tables then FrameOrNone(tables[pid], page) else -1
    {
      if pid in tables && page in tables[pid].frames {
        f := tables[pid].frames[page];
      } else {
        f := -1;
      }
    }

    /** `buscar_pagina_marco`. */
    method FindPage(t: PageTable, f: int) returns (page: int)
      requires forall i :: 0 <= i < t.count ==> i in t.frames
      ensures page == PageOf(t, f, 0)
    {
      for i := 0 to t.count
        invariant PageOf(t, f, 0) == PageOf(t, f, i)
      {
        if t.frames[i] == f {
          return i;
        }
      }
      page := -2;
    }

    /** `obtener_siguiente_marco`. */
    method FollowFrame(pid: int, f: int) returns (next: int)
      requires pid in tables && Shape(tables[pid])
      ensures next == PagedMemoryView.NextFrame(tables[pid], f)
    {
      var page := FindPage(tables[pid], f);
      next := GetFrame(pid, page + 1);
    }

    /** `verificar_limite_memoria`: it answers, but does not stop, an access that goes past the end. */
    function LimitReply(address: nat, n: nat): (r: seq<Reply>)
      ensures address + n <= space.Length ==> r == []
      ensures address + n > space.Length ==> r == [OutOfMemory]
    {
      if address + n > space.Length then [OutOfMemory] else []
    }

    /** A store of `data` at logical address `l` of a process, and its answers. */
    ghost predicate Written(before: seq<byte>, after: seq<byte>, pid: int, l: nat, data: seq<byte>,
                            replies: seq<Reply>, address: nat)
      reads this, frames
      requires Valid() && pid in tables && Shape(tables[pid]) && |after| == |before| == space.Length
    {
      var end := At(Reach(tables[pid]), ps);
      && l <= end
      && StoredAt(before, after, ps, View(), pid, l, data)
      && (address + |data| <= space.Length ==> replies == [if l + |data| <= end then Done else OutOfMemory])
      && replies == LimitReply(address, |data|) + [if l + |data| <= end then Done else OutOfMemory]
    }

    lemma WrittenLogical(before: seq<byte>, after: seq<byte>, pid: int, address: nat, data: seq<byte>,
                         replies: seq<Reply>)
      requires Valid() && pid in tables && Shape(tables[pid]) && |after| == |before| == space.Length
      requires FrameNo(address) < frames.Length
      requires var w := Walk(FramesOf(tables[pid]), FrameNo(address));
               && Inside(space.Length, ps, w)
               && var (bytes, ok) := WriteLoop(before, ps, w, Offset(address), data);
               && after == bytes
               && replies == LimitReply(address, |data|) + [if ok then Done else OutOfMemory]
      ensures forall l: nat ::
                l / ps < Reach(tables[pid]) && address == Physical(tables[pid], ps, l) ==>
                Written(before, after, pid, l, data, replies, address)
    {
      hide Safe, At, FramesOf, Walk, Shape, FrameNo, Offset, Inside, WriteLoop, Written, Physical, Reach;
      forall l: nat | l / ps < Reach(tables[pid]) && address == Physical(tables[pid], ps, l)
        ensures Written(before, after, pid, l, data, replies, address)
      {
        WrittenOne(before, after, pid, address, l, data, replies);
      }
    }

    lemma PhysicalParts(pid: int, address: nat, l: nat)
      requires Valid() && pid in tables && l / ps < Reach(tables[pid]) && address == Physical(tables[pid], ps, l)
      ensures FrameNo(address) == FramesOf(tables[pid])[l / ps] && Offset(address) == l % ps
    {
      AddressParts(address, FramesOf(tables[pid])[l / ps], l % ps);
    }

    lemma WrittenOne(before: seq<byte>, after: seq<byte>, pid: int, address: nat, l: nat, data: seq<byte>,
                     replies: seq<Reply>)
      requires Valid() && pid in tables && Shape(tables[pid]) && |after| == |before| == space.Length
      requires l / ps < Reach(tables[pid]) && address == Physical(tables[pid], ps, l)
      requires var w := Walk(FramesOf(tables[pid]), FrameNo(address));
               && Inside(space.Length, ps, w)
               && var (bytes, ok) := WriteLoop(before, ps, w, Offset(address), data);
               && after == bytes
               && replies == LimitReply(address, |data|) + [if ok then Done else OutOfMemory]
      ensures Written(before, after, pid, l, data, replies, address)
    {
      hide Safe, At, FramesOf, Walk, Shape, FrameNo, Offset, Inside, WriteLoop, StoredAt, Physical, Reach;
      PhysicalParts(pid, address, l);
      WriteAt(before, ps, View(), pid, l, data);
    }

    /** `escribir_memoria`. */
    method Write(pid: int, address: nat, data: seq<byte>) returns (replies: seq<Reply>)
      requires Valid() && pid in tables && Shape(tables[pid])
      requires FrameNo(address) < frames.Length
      modifies space
      ensures var w := Walk(FramesOf(tables[pid]), FrameNo(address));
              && Inside(space.Length, ps, w)
              && var (after, ok) := WriteLoop(old(space[..]), ps, w, Offset(address), data);
              && space[..] == after
              && replies == LimitReply(address, |data|) + [if ok then Done else OutOfMemory]
      ensures forall l: nat ::
                l / ps < Reach(tables[pid]) && address == Physical(tables[pid], ps, l) ==>
                Written(old(space[..]), space[..], pid, l, data, replies, address)
    {
      hide Safe, At, FramesOf, Walk, PagedMemoryView.NextFrame, Shape, FrameNo, Offset, Min, Inside, WriteLoop,
        Written, Physical, Reach;
      StartInside(pid, FrameNo(address));
      ghost var w := Walk(FramesOf(tables[pid]), FrameNo(address));
      var o: nat, rest := Offset(address), data;
      var f: int := FrameNo(address);
      var failed := false;
      replies := LimitReply(address, |data|);
      ghost var goal := WriteLoop(space[..], ps, w, o, data);
      while rest != []
        invariant o < ps && !failed && Inside(space.Length, ps, w)
        invariant rest != [] ==>
                    && f == (if w == [] then -1 else w[0])
                    && (w != [] ==> w == Walk(FramesOf(tables[pid]), w[0]))
        invariant WriteLoop(space[..], ps, w, o, rest) == goal
        decreases |rest|
      {
        WriteRound(space[..], ps, w, o, rest);
        if f >= 0 {
          var n := Min(|rest|, ps - o);
          MinIs(|rest|, ps - o);
          CopyIn(f, o, rest[..n]);
          rest := rest[n..];
          o := 0;
          if rest != [] {
            NextFrameWalks(tables[pid], f);
            f := FollowFrame(pid, f);
          }
          w := w[1..];
        } else {
          failed := true;
          break;
        }
      }
      WriteRound(space[..], ps, w, o, rest);
      replies := replies + [if failed then OutOfMemory else Done];
      WrittenLogical(old(space[..]), space[..], pid, address, data, replies);
    }

    lemma StartInside(pid: int, f: nat)
      requires Valid() && pid in tables && Shape(tables[pid]) && f < frames.Length
      ensures Inside(space.Length, ps, Walk(FramesOf(tables[pid]), f))
    {
      ProcessFrames(space[..], ps, View(), pid);
      AtMono(f + 1, frames.Length, ps);
      WalkInside(space.Length, ps, FramesOf(tables[pid]), f);
    }

    /** `memcpy` into frame `f` at offset `o`. */
    method CopyIn(f: nat, o: nat, data: seq<byte>)
      requires At(f, ps) + o + |data| <= space.Length
      modifies space
      ensures space[..] == Blit(old(space[..]), At(f, ps) + o, data)
    {
      AtIsProduct(f, ps);
      var first := f * ps + o;
      forall k | 0 <= k < |data| {
        space[first + k] := data[k];
      }
    }

    /** `memcpy` out of frame `f` at offset `o`. */
    method CopyOut(f: nat, o: nat, n: nat) returns (data: seq<byte>)
      requires At(f, ps) + o + n <= space.Length
      ensures data == space[..][At(f, ps) + o..At(f, ps) + o + n]
    {
      AtIsProduct(f, ps);
      var first := f * ps + o;
      data := space[first..first + n];
    }

    lemma ReadLogical(pid: int, address: nat, n: nat)
      requires Valid() && pid in tables && Shape(tables[pid]) && FrameNo(address) < frames.Length
      ensures Inside(space.Length, ps, Walk(FramesOf(tables[pid]), FrameNo(address)))
      ensures forall l: nat ::
                l / ps < Reach(tables[pid]) && address == Physical(tables[pid], ps, l) ==>
                LoadedAt(space[..], ps, View(), pid, l, n) ==
                ReadLoop(space[..], ps, Walk(FramesOf(tables[pid]), FrameNo(address)), Offset(address), n)
    {
      hide Safe, At, FramesOf, Walk, Shape, FrameNo, Offset, Inside, ReadLoop, LoadedAt, Physical, Reach;
      StartInside(pid, FrameNo(address));
      forall l: nat | l / ps < Reach(tables[pid]) && address == Physical(tables[pid], ps, l)
        ensures LoadedAt(space[..], ps, View(), pid, l, n) ==
                ReadLoop(space[..], ps, Walk(FramesOf(tables[pid]), FrameNo(address)), Offset(address), n)
      {
        PhysicalParts(pid, address, l);
        ReadAt(space[..], ps, View(), pid, l, n);
      }
    }

    /** `leer_memoria`. */
    method Read(pid: int, address: nat, n: nat) returns (replies: seq<Reply>)
      requires Valid() && pid in tables && Shape(tables[pid])
      requires FrameNo(address) < frames.Length
      ensures var w := Walk(FramesOf(tables[pid]), FrameNo(address));
              && Inside(space.Length, ps, w)
              && var r := ReadLoop(space[..], ps, w, Offset(address), n);
              replies == LimitReply(address, n) + [if r.None? then OutOfMemory else Bytes(r.value)]
      ensures forall l: nat ::
                l / ps < Reach(tables[pid]) && address == Physical(tables[pid], ps, l) ==>
                var r := LoadedAt(space[..], ps, View(), pid, l, n);
                && (address + n <= space.Length ==> replies == [if r.None? then OutOfMemory else Bytes(r.value)])
                && replies == LimitReply(address, n) + [if r.None? then OutOfMemory else Bytes(r.value)]
    {
      hide Safe, At, ReadLoop, Prepend, Inside, CutAtZero, Min, FramesOf, Walk, PagedMemoryView.NextFrame, Shape,
        FrameNo, Offset, LoadedAt, Physical, Reach;
      StartInside(pid, FrameNo(address));
      ghost var w := Walk(FramesOf(tables[pid]), FrameNo(address));
      var o: nat, left: nat := Offset(address), n;
      var f: int := FrameNo(address);
      var failed, text := false, [];
      ghost var bytes := space[..];
      ghost var goal := ReadLoop(bytes, ps, w, o, n);
      PrependNone(goal);
      while left > 0
        invariant o < ps && !failed && Inside(|bytes|, ps, w)
        invariant left > 0 ==>
                    && f == (if w == [] then -1 else w[0])
                    && (w != [] ==> w == Walk(FramesOf(tables[pid]), w[0]))
        invariant Prepend(text, ReadLoop(bytes, ps, w, o, left)) == goal
        decreases left
      {
        ReadRound(bytes, ps, w, o, left, text);
        if f >= 0 {
          var c := Min(left, ps - o);
          MinIs(left, ps - o);
          var chunk := CopyOut(f, o, c);
          text := text + CutAtZero(chunk);
          left := left - c;
          o := 0;
          if left > 0 {
            NextFrameWalks(tables[pid], f);
            f := FollowFrame(pid, f);
          }
          w := w[1..];
        } else {
          failed := true;
          break;
        }
      }
      ReadRound(bytes, ps, w, o, left, text);
      assert goal == if failed then None else Some(text);
      replies := LimitReply(address, n) + [if failed then OutOfMemory else Bytes(text)];
      ReadLogical(pid, address, n);
    }
  }
}
