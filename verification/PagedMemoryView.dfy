/** The flat byte array that paging gives a process, and what reads and writes that cross
    pages do to it (memoria/src/memoria.c:430-600). */
module PagedMemoryView {
  import opened Common
  import opened PagedMemoryModel
  import opened PagedMemoryRuns

  // ----- Following the pages of a process -----

  /** The first page below the count that is mapped to `f`, or -2 (`buscar_pagina_marco`). */
  function PageOf(t: PageTable, f: int, i: nat): int
    requires i <= t.count
    decreases t.count - i
  {
    if i == t.count then -2
    else if i in t.frames && t.frames[i] == f then i
    else PageOf(t, f, i + 1)
  }

  /** `obtener_marco`: the frame of a page, or -1. */
  function FrameOrNone(t: PageTable, page: int): int {
    if page in t.frames then t.frames[page] else -1
  }

  /** `obtener_siguiente_marco`. */
  function NextFrame(t: PageTable, f: int): int {
    FrameOrNone(t, PageOf(t, f, 0) + 1)
  }

  /** Pages 0 to `cant_paginas - 1` are mapped, to distinct frames, and at most the page
      just after them, which a shrink of the code as written leaves behind. */
  ghost predicate Shape(t: PageTable) {
    && (forall i :: 0 <= i < t.count ==> i in t.frames)
    && (forall i :: i in t.frames ==> 0 <= i <= t.count)
    && (forall i, j :: i in t.frames && j in t.frames && t.frames[i] == t.frames[j] ==> i == j)
  }

  function Reach(t: PageTable): nat {
    if t.count in t.frames then t.count + 1 else t.count
  }

  /** The frames of a process in the order of its pages. */
  function FramesOf(t: PageTable): (fs: seq<nat>)
    ensures |fs| == Reach(t)
    ensures forall i :: 0 <= i < |fs| && i in t.frames ==> fs[i] == t.frames[i]
  {
    seq(Reach(t), i => if i in t.frames then t.frames[i] else 0)
  }

  ghost predicate Distinct(fs: seq<nat>) {
    forall i, j :: 0 <= i < j < |fs| ==> fs[i] != fs[j]
  }

  /** The frames that an access starting in frame `f` goes through: the rest of the process
      from there, or `f` alone when it is not the process's. */
  function Walk(fs: seq<nat>, f: nat): (w: seq<nat>)
    ensures w != [] && w[0] == f
  {
    if fs == [] then [f] else if fs[0] == f then fs else Walk(fs[1..], f)
  }

  lemma {:induction false} WalkAt(fs: seq<nat>, i: nat)
    requires i < |fs| && Distinct(fs)
    ensures Walk(fs, fs[i]) == fs[i..]
  {
    if i > 0 {
      WalkAt(fs[1..], i - 1);
      assert fs[1..][i - 1..] == fs[i..];
    }
  }

  lemma {:induction false} WalkOutside(fs: seq<nat>, f: nat)
    requires f !in fs
    ensures Walk(fs, f) == [f]
  {
    if fs != [] {
      WalkOutside(fs[1..], f);
    }
  }

  lemma {:induction false} PageOfIs(t: PageTable, f: int, i: nat)
    requires i <= t.count && Shape(t)
    ensures forall p :: i <= p < t.count && t.frames[p] == f ==> PageOf(t, f, i) == p
    ensures (forall p :: i <= p < t.count ==> t.frames[p] != f) ==> PageOf(t, f, i) == -2
    decreases t.count - i
  {
    if i < t.count {
      PageOfIs(t, f, i + 1);
    }
  }

  /** The frame followed is the next one of the walk; past its end it is -1, because the -2 of a
      failed inverse lookup turns into page -1, which is never mapped. */
  lemma {:induction false} NextFrameWalks(t: PageTable, f: nat)
    requires Shape(t)
    ensures var w := Walk(FramesOf(t), f);
            NextFrame(t, f) == if |w| == 1 then -1 else w[1]
    ensures var w := Walk(FramesOf(t), f);
            |w| > 1 ==> Walk(FramesOf(t), w[1]) == w[1..]
  {
    var fs := FramesOf(t);
    PageOfIs(t, f, 0);
    if i :| 0 <= i < |fs| && fs[i] == f {
      WalkAt(fs, i);
      if i + 1 < |fs| {
        WalkAt(fs, i + 1);
        assert fs[i..][1..] == fs[i + 1..];
      }
    } else {
      WalkOutside(fs, f);
    }
  }

  // ----- Bytes of a sequence of frames -----

  /** Every frame of `fs` lies inside the memory. */
  predicate Inside(size: nat, ps: nat, fs: seq<nat>) {
    forall i :: 0 <= i < |fs| ==> At(fs[i], ps) + ps <= size
  }

  /** The bytes of the frames `fs`, one after the other. */
  ghost function Pages(space: seq<byte>, ps: nat, fs: seq<nat>): (s: seq<byte>)
    requires Inside(|space|, ps, fs)
    ensures |s| == At(|fs|, ps)
  {
    if fs == [] then []
    else
      assert Inside(|space|, ps, fs[1..]);
      space[At(fs[0], ps)..At(fs[0], ps) + ps] + Pages(space, ps, fs[1..])
  }

  /** Byte `k` belongs to frame `f`. */
  predicate InFrame(ps: nat, f: nat, k: int) {
    At(f, ps) <= k < At(f, ps) + ps
  }

  lemma FramesApart(ps: nat, f: nat, g: nat)
    requires f != g
    ensures At(f, ps) + ps <= At(g, ps) || At(g, ps) + ps <= At(f, ps)
  {
    AtMono(if f < g then f + 1 else g + 1, if f < g then g else f, ps);
  }

  lemma TailInside(size: nat, ps: nat, fs: seq<nat>, i: nat)
    requires Inside(size, ps, fs) && i <= |fs|
    ensures Inside(size, ps, fs[i..]) && Inside(size, ps, fs[..i])
  {
    hide At;
    assert forall j :: 0 <= j < |fs| - i ==> fs[i..][j] == fs[i + j];
  }

  lemma TailDistinct(fs: seq<nat>)
    requires fs != []
    ensures Distinct(fs) ==> Distinct(fs[1..])
  {
    assert forall j :: 0 <= j < |fs| - 1 ==> fs[1..][j] == fs[1 + j];
  }

  lemma InsideAt(size: nat, ps: nat, fs: seq<nat>, i: nat)
    requires Inside(size, ps, fs) && i < |fs|
    ensures At(fs[i], ps) + ps <= size
  {
  }

  /** The first frame, and the others. */
  lemma PagesCons(space: seq<byte>, ps: nat, fs: seq<nat>)
    requires fs != [] && Inside(|space|, ps, fs)
    ensures Inside(|space|, ps, fs[1..]) && At(fs[0], ps) + ps <= |space|
    ensures Pages(space, ps, fs) == space[At(fs[0], ps)..At(fs[0], ps) + ps] + Pages(space, ps, fs[1..])
    ensures At(|fs|, ps) == ps + At(|fs[1..]|, ps)
    ensures Distinct(fs) ==> Distinct(fs[1..])
  {
    hide Inside, Distinct, Pages, At;
    TailInside(|space|, ps, fs, 1);
    TailDistinct(fs);
    InsideAt(|space|, ps, fs, 0);
    AtTail(fs, ps);
    PagesHead(space, ps, fs);
  }

  lemma AtTail(fs: seq<nat>, ps: nat)
    requires fs != []
    ensures At(|fs|, ps) == ps + At(|fs[1..]|, ps)
  {
  }

  lemma PagesHead(space: seq<byte>, ps: nat, fs: seq<nat>)
    requires fs != [] && Inside(|space|, ps, fs)
    ensures Inside(|space|, ps, fs[1..]) && At(fs[0], ps) + ps <= |space|
    ensures Pages(space, ps, fs) == space[At(fs[0], ps)..At(fs[0], ps) + ps] + Pages(space, ps, fs[1..])
  {
    hide Inside, At;
    TailInside(|space|, ps, fs, 1);
    InsideAt(|space|, ps, fs, 0);
  }

  /** Bytes outside the frames do not matter to their contents. */
  lemma {:induction false} PagesSame(a: seq<byte>, b: seq<byte>, ps: nat, fs: seq<nat>)
    requires |a| == |b| && Inside(|a|, ps, fs)
    requires forall i, k :: 0 <= i < |fs| && InFrame(ps, fs[i], k) ==> a[k] == b[k]
    ensures Pages(a, ps, fs) == Pages(b, ps, fs)
    decreases |fs|, 1
  {
    if fs == [] {
      assert Pages(a, ps, fs) == [];
    } else {
      PagesSameStep(a, b, ps, fs);
    }
  }

  lemma PagesSameStep(a: seq<byte>, b: seq<byte>, ps: nat, fs: seq<nat>)
    requires fs != [] && |a| == |b| && Inside(|a|, ps, fs)
    requires forall i, k :: 0 <= i < |fs| && InFrame(ps, fs[i], k) ==> a[k] == b[k]
    ensures Pages(a, ps, fs) == Pages(b, ps, fs)
    decreases |fs|, 0
  {
    hide Pages, Inside, At;
    PagesCons(a, ps, fs);
    PagesCons(b, ps, fs);
    var first := At(fs[0], ps);
    forall k | first <= k < first + ps ensures a[k] == b[k] {
      assert InFrame(ps, fs[0], k);
    }
    assert a[first..first + ps] == b[first..first + ps];
    PagesSame(a, b, ps, fs[1..]);
  }

  lemma TwoSplits(fs: seq<nat>, i: nat)
    requires 0 < i <= |fs|
    ensures fs[..i][0] == fs[0] && fs[..i][1..] == fs[1..][..i - 1] && fs[i..] == fs[1..][i - 1..]
  {
  }

  lemma PagesNone(space: seq<byte>, ps: nat)
    ensures Inside(|space|, ps, []) && Pages(space, ps, []) == []
  {
  }

  lemma {:induction false} PagesSplit(space: seq<byte>, ps: nat, fs: seq<nat>, i: nat)
    requires Inside(|space|, ps, fs) && i <= |fs|
    ensures Inside(|space|, ps, fs[..i]) && Inside(|space|, ps, fs[i..])
    ensures Pages(space, ps, fs) == Pages(space, ps, fs[..i]) + Pages(space, ps, fs[i..])
  {
    hide Inside, Distinct, Pages, At;
    TailInside(|space|, ps, fs, i);
    if i > 0 {
      TailInside(|space|, ps, fs, 1);
      TwoSplits(fs, i);
      PagesSplit(space, ps, fs[1..], i - 1);
      PagesCons(space, ps, fs);
      PagesCons(space, ps, fs[..i]);
      var head := space[At(fs[0], ps)..At(fs[0], ps) + ps];
      Assoc(head, Pages(space, ps, fs[1..][..i - 1]), Pages(space, ps, fs[i..]));
    } else {
      assert fs[0..] == fs && fs[..0] == [];
      PagesNone(space, ps);
      NoneBefore(Pages(space, ps, fs));
    }
  }

  // ----- Writing -----

  function Min(a: nat, b: nat): nat {
    if a <= b then a else b
  }

  /** The loop of `escribir_memoria`: `data` goes to the frames `fs` in turn, from offset `o` of
      the first; false if the frames run out. */
  function WriteLoop(space: seq<byte>, ps: nat, fs: seq<nat>, o: nat, data: seq<byte>): (r: (seq<byte>, bool))
    requires Inside(|space|, ps, fs) && o < ps
    ensures |r.0| == |space|
    decreases |fs|
  {
    if data == [] then (space, true)
    else if fs == [] then (space, false)
    else
      var n := Min(|data|, ps - o);
      WriteLoop(Blit(space, At(fs[0], ps) + o, data[..n]), ps, fs[1..], 0, data[n..])
  }

  lemma BlitHead(p: seq<byte>, t: seq<byte>, o: nat, d: seq<byte>)
    requires o + |d| <= |p|
    ensures Blit(p + t, o, d) == Blit(p, o, d) + t
  {
  }

  lemma BlitJoin(p: seq<byte>, t: seq<byte>, o: nat, d: seq<byte>, e: seq<byte>)
    requires o + |d| == |p| && |e| <= |t|
    ensures Blit(p + t, o, d + e) == Blit(p, o, d) + Blit(t, 0, e)
  {
  }

  lemma BlitInPart(s: seq<byte>, first: nat, ps: nat, o: nat, d: seq<byte>)
    requires first + ps <= |s| && o + |d| <= ps
    ensures Blit(s, first + o, d)[first..first + ps] == Blit(s[first..first + ps], o, d)
  {
  }

  /** `a` and `b` agree outside the frames `fs`. */
  ghost predicate Untouched(a: seq<byte>, b: seq<byte>, ps: nat, fs: seq<nat>) {
    |a| == |b| && forall k :: 0 <= k < |a| && (forall i :: 0 <= i < |fs| ==> !InFrame(ps, fs[i], k)) ==> a[k] == b[k]
  }

  /** What agrees outside some frames has the same bytes in any other frames. */
  lemma UntouchedPages(a: seq<byte>, b: seq<byte>, ps: nat, fs: seq<nat>, gs: seq<nat>)
    requires Untouched(a, b, ps, fs) && Inside(|a|, ps, gs)
    requires forall i, j :: 0 <= i < |fs| && 0 <= j < |gs| ==> fs[i] != gs[j]
    ensures Pages(a, ps, gs) == Pages(b, ps, gs)
  {
    forall j, k | 0 <= j < |gs| && InFrame(ps, gs[j], k) ensures a[k] == b[k] {
      forall i | 0 <= i < |fs| ensures !InFrame(ps, fs[i], k) {
        FramesApart(ps, fs[i], gs[j]);
      }
    }
    PagesSame(a, b, ps, gs);
  }

  lemma BlitUntouched(space: seq<byte>, ps: nat, f: nat, o: nat, d: seq<byte>)
    requires At(f, ps) + ps <= |space| && o + |d| <= ps
    ensures Untouched(space, Blit(space, At(f, ps) + o, d), ps, [f])
  {
    var mid := Blit(space, At(f, ps) + o, d);
    forall k | 0 <= k < |space| && (forall i :: 0 <= i < |[f]| ==> !InFrame(ps, [f][i], k)) ensures space[k] == mid[k] {
      assert !InFrame(ps, [f][0], k);
    }
  }

  lemma UntouchedBoth(a: seq<byte>, b: seq<byte>, c: seq<byte>, ps: nat, fs: seq<nat>)
    requires fs != [] && Untouched(a, b, ps, fs[..1]) && Untouched(b, c, ps, fs[1..])
    ensures Untouched(a, c, ps, fs)
  {
    forall k | 0 <= k < |a| && (forall i :: 0 <= i < |fs| ==> !InFrame(ps, fs[i], k)) ensures a[k] == c[k] {
      assert forall i :: 0 <= i < |fs[1..]| ==> fs[1..][i] == fs[i + 1];
    }
  }

  /** Writing inside the first frame of `fs`. */
  lemma WriteHead(space: seq<byte>, ps: nat, fs: seq<nat>, o: nat, d: seq<byte>)
    requires fs != [] && Inside(|space|, ps, fs) && Distinct(fs) && o + |d| <= ps
    ensures At(fs[0], ps) + o + |d| <= |space| && Inside(|space|, ps, fs[1..])
    ensures var first := At(fs[0], ps);
            var mid := Blit(space, first + o, d);
            && mid[first..first + ps] == Blit(space[first..first + ps], o, d)
            && Pages(mid, ps, fs[1..]) == Pages(space, ps, fs[1..])
            && Untouched(space, mid, ps, fs[..1])
  {
    var first := At(fs[0], ps);
    assert Inside(|space|, ps, fs[1..]);
    BlitInPart(space, first, ps, o, d);
    BlitUntouched(space, ps, fs[0], o, d);
    assert [fs[0]] == fs[..1];
    UntouchedPages(space, Blit(space, first + o, d), ps, fs[..1], fs[1..]);
  }

  /** A write across frames is a write into their bytes laid end to end, of as much as fits, and
      touches no other byte; it is refused exactly when not all of it fits. */
  lemma {:induction false} WriteLoopFlat(space: seq<byte>, ps: nat, fs: seq<nat>, o: nat, data: seq<byte>)
    requires Inside(|space|, ps, fs) && Distinct(fs) && o < ps && (fs == [] ==> o == 0)
    ensures var (space', ok) := WriteLoop(space, ps, fs, o, data);
            var n := Min(|data|, At(|fs|, ps) - o);
            && o + n <= At(|fs|, ps)
            && Pages(space', ps, fs) == Blit(Pages(space, ps, fs), o, data[..n])
            && (ok <==> o + |data| <= At(|fs|, ps))
            && Untouched(space, space', ps, fs)
    decreases |fs|
  {
    hide Untouched, Pages, Distinct, Inside, Min, At, WriteLoop;
    if data == [] || fs == [] {
      WriteNone(space, ps, fs, o, data);
    } else {
      var n := Min(|data|, ps - o);
      var first := At(fs[0], ps);
      MinIs(|data|, ps - o);
      PagesCons(space, ps, fs);
      WriteHead(space, ps, fs, o, data[..n]);
      var mid, rest := Blit(space, first + o, data[..n]), data[n..];
      WriteLoopCons(space, ps, fs, o, data);
      WriteLoopFlat(mid, ps, fs[1..], 0, rest);
      var after := WriteLoop(mid, ps, fs[1..], 0, rest).0;
      UntouchedBoth(space, mid, after, ps, fs);
      FirstKept(mid, after, ps, fs);
      PagesCons(after, ps, fs);
      WriteJoin(space[first..first + ps], Pages(space, ps, fs[1..]), o, data, n);
    }
  }

  lemma MinIs(a: nat, b: nat)
    ensures Min(a, b) <= a && Min(a, b) <= b && (Min(a, b) == a || Min(a, b) == b)
  {
  }

  lemma WriteLoopCons(space: seq<byte>, ps: nat, fs: seq<nat>, o: nat, data: seq<byte>)
    requires fs != [] && data != [] && Inside(|space|, ps, fs) && o < ps
    ensures Inside(|space|, ps, fs[1..]) && At(fs[0], ps) + o + Min(|data|, ps - o) <= |space| &&
            Min(|data|, ps - o) <= |data|
    ensures var n := Min(|data|, ps - o);
            WriteLoop(space, ps, fs, o, data) ==
            WriteLoop(Blit(space, At(fs[0], ps) + o, data[..n]), ps, fs[1..], 0, data[n..])
  {
  }

  lemma WriteNone(space: seq<byte>, ps: nat, fs: seq<nat>, o: nat, data: seq<byte>)
    requires Inside(|space|, ps, fs) && o < ps && (fs == [] ==> o == 0)
    requires data == [] || fs == []
    ensures var n := Min(|data|, At(|fs|, ps) - o);
            && o + n <= At(|fs|, ps)
            && Pages(space, ps, fs) == Blit(Pages(space, ps, fs), o, data[..n])
    ensures data == [] <==> o + |data| <= At(|fs|, ps)
    ensures WriteLoop(space, ps, fs, o, data) == (space, data == [])
    ensures Untouched(space, space, ps, fs)
  {
    if fs != [] {
      AtMono(1, |fs|, ps);
    }
  }

  lemma FirstKept(mid: seq<byte>, after: seq<byte>, ps: nat, fs: seq<nat>)
    requires fs != [] && Inside(|mid|, ps, fs) && Distinct(fs) && Untouched(mid, after, ps, fs[1..])
    ensures |after| == |mid|
    ensures var first := At(fs[0], ps); after[first..first + ps] == mid[first..first + ps]
  {
    var head := [fs[0]];
    UntouchedPages(mid, after, ps, fs[1..], head);
    PagesCons(mid, ps, head);
    PagesCons(after, ps, head);
    assert head[1..] == [];
    var first := At(fs[0], ps);
    assert mid[first..first + ps] + [] == mid[first..first + ps];
    assert after[first..first + ps] + [] == after[first..first + ps];
  }

  /** The part written in a first page `p`, and what is left for the pages `t` after it, make one write. */
  lemma WriteJoin(p: seq<byte>, t: seq<byte>, o: nat, data: seq<byte>, n: nat)
    requires o < |p| && n == Min(|data|, |p| - o)
    ensures var m := Min(|data| - n, |t|);
            && n + m == Min(|data|, |p| + |t| - o)
            && Blit(p, o, data[..n]) + Blit(t, 0, data[n..][..m]) == Blit(p + t, o, data[..n + m])
  {
    var m := Min(|data| - n, |t|);
    if |data| <= |p| - o {
      assert data[n..][..m] == [] && data[..n + m] == data[..n];
      assert Blit(t, 0, []) == t;
      BlitHead(p, t, o, data[..n]);
    } else {
      assert data[..n] + data[n..][..m] == data[..n + m];
      BlitJoin(p, t, o, data[..n], data[n..][..m]);
    }
  }

  // ----- One process among others -----

  /** Every frame of the bitmap lies inside the memory. */
  predicate Fits(space: seq<byte>, ps: nat, m: Mem) {
    At(|m.used|, ps) <= |space|
  }

  lemma ProcessFrames(space: seq<byte>, ps: nat, m: Mem, pid: int)
    requires Safe(m) && Fits(space, ps, m) && pid in m.tables && Shape(m.tables[pid])
    ensures var fs := FramesOf(m.tables[pid]);
            && Inside(|space|, ps, fs) && Distinct(fs)
            && (forall i :: 0 <= i < |fs| ==> Mapped(m, pid, i) && FrameAt(m, pid, i) == fs[i])
  {
    var t, fs := m.tables[pid], FramesOf(m.tables[pid]);
    forall i | 0 <= i < |fs| ensures Mapped(m, pid, i) && FrameAt(m, pid, i) == fs[i] && At(fs[i], ps) + ps <= |space| {
      assert Mapped(m, pid, i);
      AtMono(fs[i] + 1, |m.used|, ps);
    }
  }

  /** The private memory of a process. */
  ghost function Flat(space: seq<byte>, ps: nat, m: Mem, pid: int): (s: seq<byte>)
    requires Safe(m) && Fits(space, ps, m) && pid in m.tables && Shape(m.tables[pid])
    ensures |s| == At(Reach(m.tables[pid]), ps)
  {
    ProcessFrames(space, ps, m, pid);
    Pages(space, ps, FramesOf(m.tables[pid]))
  }

  /** A write at offset `o` of page `page` changes exactly those bytes of that process, as many as lie
      before its end, and no byte of any other; it is refused exactly when some lie beyond it. */
  lemma {:induction false} WriteIsPrivate(space: seq<byte>, ps: nat, m: Mem, pid: int, page: nat, o: nat,
                                          data: seq<byte>)
    requires Safe(m) && Fits(space, ps, m) && pid in m.tables && Shape(m.tables[pid])
    requires page < Reach(m.tables[pid]) && o < ps
    ensures var t := m.tables[pid];
            var w, at, end := Walk(FramesOf(t), FramesOf(t)[page]), At(page, ps) + o, At(Reach(t), ps);
            && Inside(|space|, ps, w)
            && var (space', ok) := WriteLoop(space, ps, w, o, data);
            && (ok <==> at + |data| <= end)
            && at <= end
            && Flat(space', ps, m, pid) == Blit(Flat(space, ps, m, pid), at, data[..Min(|data|, end - at)])
            && (forall q :: q in m.tables && q != pid && Shape(m.tables[q]) ==>
                 Flat(space', ps, m, q) == Flat(space, ps, m, q))
  {
    hide Safe, Shape, Pages, Inside, Untouched, WriteLoop, At, Walk, FramesOf;
    var fs := FramesOf(m.tables[pid]);
    var w := fs[page..];
    ProcessFrames(space, ps, m, pid);
    WalkAt(fs, page);
    PagesSplit(space, ps, fs, page);
    WriteLoopFlat(space, ps, w, o, data);
    var space' := WriteLoop(space, ps, w, o, data).0;
    PagesSplit(space', ps, fs, page);
    UntouchedPages(space, space', ps, w, fs[..page]);
    AtSum(page, |w|, ps);
    BlitTail(Pages(space, ps, fs[..page]), Pages(space, ps, w), o, data[..Min(|data|, At(|w|, ps) - o)]);
    forall q | q in m.tables && q != pid && Shape(m.tables[q])
      ensures Flat(space', ps, m, q) == Flat(space, ps, m, q)
    {
      OthersApart(space, ps, m, pid, q);
      UntouchedPages(space, space', ps, w, FramesOf(m.tables[q]));
    }
  }

  lemma OthersApart(space: seq<byte>, ps: nat, m: Mem, pid: int, q: int)
    requires Safe(m) && Fits(space, ps, m) && pid in m.tables && q in m.tables && q != pid
    requires Shape(m.tables[pid]) && Shape(m.tables[q])
    ensures var fs, gs := FramesOf(m.tables[pid]), FramesOf(m.tables[q]);
            Inside(|space|, ps, gs) && forall i, j :: 0 <= i < |fs| && 0 <= j < |gs| ==> fs[i] != gs[j]
  {
    ProcessFrames(space, ps, m, pid);
    ProcessFrames(space, ps, m, q);
  }

  lemma BlitTail(p: seq<byte>, t: seq<byte>, o: nat, d: seq<byte>)
    requires o + |d| <= |t|
    ensures Blit(p + t, |p| + o, d) == p + Blit(t, o, d)
  {
  }

  /** What one round of the loop of `escribir_memoria` does. */
  lemma WriteRound(space: seq<byte>, ps: nat, fs: seq<nat>, o: nat, data: seq<byte>)
    requires Inside(|space|, ps, fs) && o < ps
    ensures data == [] ==> WriteLoop(space, ps, fs, o, data) == (space, true)
    ensures data != [] && fs == [] ==> WriteLoop(space, ps, fs, o, data) == (space, false)
    ensures data != [] && fs != [] ==>
              var n, at := Min(|data|, ps - o), At(fs[0], ps) + o;
              && n <= |data| && at + n <= |space| && Inside(|space|, ps, fs[1..])
              && WriteLoop(space, ps, fs, o, data) == WriteLoop(Blit(space, at, data[..n]), ps, fs[1..], 0, data[n..])
  {
  }

  lemma {:induction false} WalkInside(size: nat, ps: nat, fs: seq<nat>, f: nat)
    requires Inside(size, ps, fs) && At(f, ps) + ps <= size
    ensures Inside(size, ps, Walk(fs, f))
  {
    if fs != [] && fs[0] != f {
      WalkInside(size, ps, fs[1..], f);
    }
  }

  // ----- Reading -----

  /** What appending a C string keeps: everything before the first zero byte. */
  function CutAtZero(s: seq<byte>): (r: seq<byte>)
    ensures r <= s && 0 !in r
    ensures |r| < |s| ==> s[|r|] == 0
    ensures 0 !in s <==> r == s
  {
    if s == [] || s[0] == 0 then [] else [s[0]] + CutAtZero(s[1..])
  }

  /** `text` in front of what a read goes on to answer. */
  function Prepend(text: seq<byte>, r: Option<seq<byte>>): Option<seq<byte>> {
    if r.None? then None else Some(text + r.value)
  }

  lemma PrependNone(r: Option<seq<byte>>)
    ensures Prepend([], r) == r
  {
    if r.Some? {
      assert [] + r.value == r.value;
    }
  }

  lemma PrependTwice(a: seq<byte>, b: seq<byte>, r: Option<seq<byte>>)
    ensures Prepend(a, Prepend(b, r)) == Prepend(a + b, r)
  {
    if r.Some? {
      assert a + (b + r.value) == (a + b) + r.value;
    }
  }

  /** The loop of `leer_memoria`: `n` bytes from the frames `fs`, each page's chunk cut at its
      first zero; None if the frames run out. */
  function ReadLoop(space: seq<byte>, ps: nat, fs: seq<nat>, o: nat, n: nat): Option<seq<byte>>
    requires Inside(|space|, ps, fs) && o < ps
    decreases |fs|
  {
    if n == 0 then Some([])
    else if fs == [] then None
    else
      var c := Min(n, ps - o);
      var first := At(fs[0], ps) + o;
      Prepend(CutAtZero(space[first..first + c]), ReadLoop(space, ps, fs[1..], 0, n - c))
  }

  /** What one round of the loop of `leer_memoria` adds. */
  lemma ReadRound(space: seq<byte>, ps: nat, fs: seq<nat>, o: nat, n: nat, text: seq<byte>)
    requires Inside(|space|, ps, fs) && o < ps
    ensures n == 0 ==> Prepend(text, ReadLoop(space, ps, fs, o, n)) == Some(text)
    ensures n > 0 && fs == [] ==> Prepend(text, ReadLoop(space, ps, fs, o, n)) == None
    ensures n > 0 && fs != [] ==>
              var c, first := Min(n, ps - o), At(fs[0], ps) + o;
              && first + c <= |space| && Inside(|space|, ps, fs[1..])
              && Prepend(text, ReadLoop(space, ps, fs, o, n)) ==
                 Prepend(text + CutAtZero(space[first..first + c]), ReadLoop(space, ps, fs[1..], 0, n - c))
  {
    hide At, CutAtZero;
    if n == 0 {
      assert text + [] == text;
    } else if fs != [] {
      assert Inside(|space|, ps, fs[1..]);
      var c, first := Min(n, ps - o), At(fs[0], ps) + o;
      PrependTwice(text, CutAtZero(space[first..first + c]), ReadLoop(space, ps, fs[1..], 0, n - c));
    }
  }

  /** `s` read page by page, each page's part cut at its first zero; `room` bytes are left in the first page. */
  function CutPages(s: seq<byte>, room: nat, ps: nat): seq<byte>
    requires room > 0 && ps > 0
    decreases |s|
  {
    if s == [] then []
    else
      var c := Min(|s|, room);
      CutAtZero(s[..c]) + CutPages(s[c..], ps, ps)
  }

  /** Cutting loses nothing exactly when no byte is zero. */
  lemma {:induction false} CutPagesIs(s: seq<byte>, room: nat, ps: nat)
    requires room > 0 && ps > 0
    ensures |CutPages(s, room, ps)| <= |s|
    ensures CutPages(s, room, ps) == s <==> 0 !in s
    decreases |s|
  {
    hide CutAtZero;
    if s != [] {
      var c := Min(|s|, room);
      CutPagesIs(s[c..], ps, ps);
      CutJoin(s[..c], CutPages(s[c..], ps, ps), s[c..]);
      assert s[..c] + s[c..] == s;
    }
  }

  lemma CutPagesCons(chunk: seq<byte>, tail: seq<byte>, room: nat, ps: nat)
    requires chunk != [] && ps > 0 && room > 0 && |chunk| == Min(|chunk| + |tail|, room)
    ensures CutPages(chunk + tail, room, ps) == CutAtZero(chunk) + CutPages(tail, ps, ps)
  {
    hide CutAtZero;
    assert (chunk + tail)[..|chunk|] == chunk && (chunk + tail)[|chunk|..] == tail;
  }

  lemma {:induction false} ReadLoopCut(space: seq<byte>, ps: nat, fs: seq<nat>, o: nat, n: nat)
    requires Inside(|space|, ps, fs) && o < ps && (fs == [] ==> o == 0)
    ensures var r := ReadLoop(space, ps, fs, o, n);
            && (r.Some? <==> o + n <= At(|fs|, ps))
            && (r.Some? ==> r.value == CutPages(Pages(space, ps, fs)[o..o + n], ps - o, ps))
    decreases |fs|
  {
    hide Pages, Inside, CutAtZero, At, ReadLoop, Min, CutPages;
    if n == 0 || fs == [] {
      ReadNone(space, ps, fs, o, n);
      CutPagesNone(ps - o, ps);
      assert o <= |Pages(space, ps, fs)| ==> Pages(space, ps, fs)[o..o] == [];
    } else {
      var c := Min(n, ps - o);
      MinIs(n, ps - o);
      PagesCons(space, ps, fs);
      var head, tail := space[At(fs[0], ps)..At(fs[0], ps) + ps], Pages(space, ps, fs[1..]);
      ReadCons(space, ps, fs, o, n, head);
      ReadLoopCut(space, ps, fs[1..], 0, n - c);
      var r := ReadLoop(space, ps, fs[1..], 0, n - c);
      if r.Some? {
        SliceJoin(head, tail, o, c, n);
        CutPagesCons(head[o..o + c], tail[0..n - c], ps - o, ps);
      }
    }
  }

  /** A read answers exactly when the pages last, with the bytes of each page up to the first zero; so
      the answer is the bytes themselves exactly when none of them is zero. */
  lemma ReadLoopFlat(space: seq<byte>, ps: nat, fs: seq<nat>, o: nat, n: nat)
    requires Inside(|space|, ps, fs) && o < ps && (fs == [] ==> o == 0)
    ensures var r := ReadLoop(space, ps, fs, o, n);
            && (r.Some? <==> o + n <= At(|fs|, ps))
            && (r.Some? ==> r.value == CutPages(Pages(space, ps, fs)[o..o + n], ps - o, ps))
            && (r.Some? ==> (r.value == Pages(space, ps, fs)[o..o + n] <==> 0 !in Pages(space, ps, fs)[o..o + n]))
  {
    hide Pages, Inside, CutAtZero, At, ReadLoop, Min, CutPages;
    ReadLoopCut(space, ps, fs, o, n);
    if o + n <= At(|fs|, ps) {
      CutPagesIs(Pages(space, ps, fs)[o..o + n], ps - o, ps);
    }
  }

  lemma CutPagesNone(room: nat, ps: nat)
    requires room > 0 && ps > 0
    ensures CutPages([], room, ps) == []
  {
  }

  lemma ReadNone(space: seq<byte>, ps: nat, fs: seq<nat>, o: nat, n: nat)
    requires Inside(|space|, ps, fs) && o < ps && (fs == [] ==> o == 0) && (n == 0 || fs == [])
    ensures ReadLoop(space, ps, fs, o, n) == if n == 0 then Some([]) else None
    ensures n == 0 <==> o + n <= At(|fs|, ps)
  {
    if fs != [] {
      AtMono(1, |fs|, ps);
    }
  }

  lemma ReadCons(space: seq<byte>, ps: nat, fs: seq<nat>, o: nat, n: nat, head: seq<byte>)
    requires n > 0 && fs != [] && Inside(|space|, ps, fs) && Inside(|space|, ps, fs[1..]) && o < ps
    requires At(fs[0], ps) + ps <= |space| && head == space[At(fs[0], ps)..At(fs[0], ps) + ps]
    ensures Min(n, ps - o) <= n && o + Min(n, ps - o) <= ps
    ensures var c := Min(n, ps - o);
            ReadLoop(space, ps, fs, o, n) == Prepend(CutAtZero(head[o..o + c]), ReadLoop(space, ps, fs[1..], 0, n - c))
  {
    hide Inside, CutAtZero, At;
    SliceSlice(space, At(fs[0], ps), ps, o, Min(n, ps - o));
  }

  lemma SliceSlice(s: seq<byte>, at: nat, n: nat, o: nat, c: nat)
    requires at + n <= |s| && o + c <= n
    ensures s[at..at + n][o..o + c] == s[at + o..at + o + c]
  {
    var page, a, b := s[at..at + n], s[at..at + n][o..o + c], s[at + o..at + o + c];
    forall k | 0 <= k < c ensures a[k] == b[k] {
      assert page[o + k] == s[at + o + k];
    }
  }

  lemma SliceJoin(p: seq<byte>, t: seq<byte>, o: nat, c: nat, n: nat)
    requires o < |p| && c == Min(n, |p| - o) && n - c <= |t|
    ensures (p + t)[o..o + n] == p[o..o + c] + t[0..n - c]
  {
  }

  lemma CutJoin(chunk: seq<byte>, rest: seq<byte>, tail: seq<byte>)
    requires |rest| <= |tail| && (rest == tail <==> 0 !in tail)
    ensures |CutAtZero(chunk) + rest| <= |chunk| + |tail|
    ensures CutAtZero(chunk) + rest == chunk + tail <==> 0 !in chunk + tail
  {
    var cut := CutAtZero(chunk);
    if cut + rest == chunk + tail {
      assert |cut| == |chunk|;
      assert cut == (chunk + tail)[..|chunk|] == chunk;
      assert rest == (chunk + tail)[|chunk|..] == tail;
    }
  }

  lemma UntouchedSize(a: seq<byte>, b: seq<byte>, ps: nat, fs: seq<nat>)
    requires Untouched(a, b, ps, fs)
    ensures |a| == |b|
  {
  }

  lemma BlitSlice(s: seq<byte>, at: nat, data: seq<byte>)
    requires at + |data| <= |s|
    ensures Blit(s, at, data)[at..at + |data|] == data
  {
  }

  /** Reading back what was written, when it holds no zero byte. */
  lemma ReadBack(space: seq<byte>, ps: nat, fs: seq<nat>, o: nat, data: seq<byte>)
    requires Inside(|space|, ps, fs) && Distinct(fs) && o < ps && (fs == [] ==> o == 0)
    requires o + |data| <= At(|fs|, ps) && 0 !in data
    ensures var (space', ok) := WriteLoop(space, ps, fs, o, data);
            ok && ReadLoop(space', ps, fs, o, |data|) == Some(data)
  {
    hide Pages, Inside, Distinct, Untouched, WriteLoop, ReadLoop, At, CutPages, Min;
    MinIs(|data|, At(|fs|, ps) - o);
    WriteLoopFlat(space, ps, fs, o, data);
    var space' := WriteLoop(space, ps, fs, o, data).0;
    UntouchedSize(space, space', ps, fs);
    assert data[..|data|] == data;
    ReadLoopFlat(space', ps, fs, o, |data|);
    BlitSlice(Pages(space, ps, fs), o, data);
  }

  /** A read at offset `o` of page `page` answers that process's bytes, each page's part cut at its first
      zero, and the bytes themselves exactly when none is zero; it is refused exactly when some lie
      beyond its end. */
  lemma {:induction false} ReadIsPrivate(space: seq<byte>, ps: nat, m: Mem, pid: int, page: nat, o: nat, n: nat)
    requires Safe(m) && Fits(space, ps, m) && pid in m.tables && Shape(m.tables[pid])
    requires page < Reach(m.tables[pid]) && o < ps
    ensures var t := m.tables[pid];
            var w, at, end := Walk(FramesOf(t), FramesOf(t)[page]), At(page, ps) + o, At(Reach(t), ps);
            && Inside(|space|, ps, w)
            && var r := ReadLoop(space, ps, w, o, n);
               && (r.Some? <==> at + n <= end)
               && (r.Some? ==> r.value == CutPages(Flat(space, ps, m, pid)[at..at + n], ps - o, ps))
               && (r.Some? ==> (r.value == Flat(space, ps, m, pid)[at..at + n] <==>
                    0 !in Flat(space, ps, m, pid)[at..at + n]))
  {
    hide Safe, Shape, Pages, Inside, ReadLoop, At, Walk, FramesOf, CutPages;
    var fs := FramesOf(m.tables[pid]);
    var w := fs[page..];
    ProcessFrames(space, ps, m, pid);
    WalkAt(fs, page);
    PagesSplit(space, ps, fs, page);
    ReadLoopFlat(space, ps, w, o, n);
    AtSum(page, |w|, ps);
    if o + n <= At(|w|, ps) {
      SliceTail(Pages(space, ps, fs[..page]), Pages(space, ps, w), o, n);
    }
  }

  lemma SliceTail(p: seq<byte>, t: seq<byte>, o: nat, n: nat)
    requires o + n <= |t|
    ensures (p + t)[|p| + o..|p| + o + n] == t[o..o + n]
  {
  }

  // ----- What of a range is read -----

  /** Where the part of the page that holds address `k` begins, in a read from `at` on. */
  function PartStart(at: nat, k: nat, ps: nat): (b: nat)
    requires at <= k && ps > 0
    ensures at <= b <= k
    decreases k
  {
    if k == at || k % ps == 0 then k else PartStart(at, k - 1, ps)
  }

  /** Byte `k` is read: no byte of its page's part is zero, up to it. */
  predicate Shows(flat: seq<byte>, at: nat, k: nat, ps: nat)
    requires at <= k < |flat| && ps > 0
  {
    0 !in flat[PartStart(at, k, ps)..k + 1]
  }

  /** The bytes from `from` to `stop - 1` that a read from `at` on answers. */
  function Shown(flat: seq<byte>, at: nat, from: nat, stop: nat, ps: nat): seq<byte>
    requires at <= from <= stop <= |flat| && ps > 0
    decreases stop - from
  {
    if from == stop then []
    else (if Shows(flat, at, from, ps) then [flat[from]] else []) + Shown(flat, at, from + 1, stop, ps)
  }

  lemma {:induction false} ShownSplit(flat: seq<byte>, at: nat, from: nat, mid: nat, stop: nat, ps: nat)
    requires at <= from <= mid <= stop <= |flat| && ps > 0
    ensures Shown(flat, at, from, stop, ps) == Shown(flat, at, from, mid, ps) + Shown(flat, at, mid, stop, ps)
    decreases mid - from
  {
    hide Shows;
    if from == mid {
      NoneBefore(Shown(flat, at, mid, stop, ps));
    } else {
      ShownSplit(flat, at, from + 1, mid, stop, ps);
      Assoc(if Shows(flat, at, from, ps) then [flat[from]] else [], Shown(flat, at, from + 1, mid, ps),
            Shown(flat, at, mid, stop, ps));
    }
  }

  lemma NextInPage(k: nat, ps: nat)
    requires ps > 0
    ensures k % ps < ps
    ensures (k + 1) % ps == if k % ps == ps - 1 then 0 else k % ps + 1
  {
    LogicalParts(k, ps);
    if k % ps == ps - 1 {
      LogicalParts(k + 1, ps);
      AtUnique(k / ps + 1, 0, (k + 1) / ps, (k + 1) % ps, ps);
    } else {
      LogicalParts(k + 1, ps);
      AtUnique(k / ps, k % ps + 1, (k + 1) / ps, (k + 1) % ps, ps);
    }
  }

  /** All of a part begins where the part does. */
  lemma {:induction false} PartStartIs(at: nat, from: nat, k: nat, ps: nat)
    requires at <= from <= k && ps > 0 && (from == at || from % ps == 0) && k - from < ps - from % ps
    ensures PartStart(at, k, ps) == from
    ensures k % ps == from % ps + (k - from)
    decreases k
  {
    if k > from {
      PartStartIs(at, from, k - 1, ps);
      NextInPage(k - 1, ps);
    }
  }

  /** Of a part, what is before its first zero is shown. */
  lemma {:induction false} ShownPart(flat: seq<byte>, at: nat, from: nat, i: nat, stop: nat, ps: nat)
    requires at <= from <= i <= stop <= |flat| && ps > 0 && (from == at || from % ps == 0) &&
             stop - from <= ps - from % ps
    ensures Shown(flat, at, i, stop, ps) == if 0 in flat[from..i] then [] else CutAtZero(flat[i..stop])
    decreases stop - i
  {
    hide CutAtZero, PartStart, Shown, Shows;
    if i == stop {
      ShownNone(flat, at, i, ps);
      assert flat[i..i] == [];
    } else {
      ShownPart(flat, at, from, i + 1, stop, ps);
      PartStartIs(at, from, i, ps);
      ShownHead(flat, at, i, stop, ps);
      ZeroMore(flat, from, i);
      CutHead(flat, i, stop);
      NoneBefore(Shown(flat, at, i + 1, stop, ps));
    }
  }

  lemma ShownHead(flat: seq<byte>, at: nat, i: nat, stop: nat, ps: nat)
    requires at <= i < stop <= |flat| && ps > 0
    ensures Shown(flat, at, i, stop, ps) ==
            (if 0 !in flat[PartStart(at, i, ps)..i + 1] then [flat[i]] else []) + Shown(flat, at, i + 1, stop, ps)
  {
    hide PartStart;
  }

  lemma ZeroMore(flat: seq<byte>, from: nat, i: nat)
    requires from <= i < |flat|
    ensures 0 in flat[from..i + 1] <==> 0 in flat[from..i] || flat[i] == 0
  {
    assert flat[from..i + 1] == flat[from..i] + [flat[i]];
  }

  lemma CutHead(flat: seq<byte>, i: nat, stop: nat)
    requires i < stop <= |flat|
    ensures CutAtZero(flat[i..stop]) == if flat[i] == 0 then [] else [flat[i]] + CutAtZero(flat[i + 1..stop])
  {
    assert flat[i..stop][0] == flat[i] && flat[i..stop][1..] == flat[i + 1..stop];
  }

  lemma NextPage(from: nat, ps: nat)
    requires ps > 0
    ensures from % ps < ps && (from + (ps - from % ps)) % ps == 0
  {
    LogicalParts(from, ps);
    var next := from + (ps - from % ps);
    LogicalParts(next, ps);
    AtUnique(from / ps + 1, 0, next / ps, next % ps, ps);
  }

  /** One part, and the pages after it. */
  lemma CutParts(flat: seq<byte>, from: nat, mid: nat, stop: nat, room: nat, ps: nat)
    requires from < mid <= stop <= |flat| && ps > 0 && room > 0 && mid - from == Min(stop - from, room)
    ensures CutPages(flat[from..stop], room, ps) == CutAtZero(flat[from..mid]) + CutPages(flat[mid..stop], ps, ps)
  {
    hide CutPages, CutAtZero;
    assert flat[from..stop] == flat[from..mid] + flat[mid..stop];
    CutPagesCons(flat[from..mid], flat[mid..stop], room, ps);
  }

  /** The cut pages are exactly the bytes shown: those before the first zero of their page's part. */
  lemma {:induction false} CutPagesShown(flat: seq<byte>, at: nat, from: nat, stop: nat, ps: nat)
    requires at <= from <= stop <= |flat| && ps > 0 && (from == at || from % ps == 0)
    ensures from % ps < ps
    ensures CutPages(flat[from..stop], ps - from % ps, ps) == Shown(flat, at, from, stop, ps)
    decreases stop - from
  {
    hide CutPages, CutAtZero, Shown, PartStart, Shows;
    NextPage(from, ps);
    var room := ps - from % ps;
    if from == stop {
      ShownNone(flat, at, from, ps);
      assert flat[from..stop] == [];
      CutPagesNone(room, ps);
    } else {
      var mid := from + Min(stop - from, room);
      ShownPart(flat, at, from, from, mid, ps);
      assert flat[from..from] == [];
      ShownSplit(flat, at, from, mid, stop, ps);
      CutParts(flat, from, mid, stop, room, ps);
      if mid == stop {
        ShownNone(flat, at, stop, ps);
        assert flat[mid..stop] == [];
        CutPagesNone(ps, ps);
      } else {
        CutPagesShown(flat, at, mid, stop, ps);
      }
    }
  }

  lemma ShownNone(flat: seq<byte>, at: nat, from: nat, ps: nat)
    requires at <= from <= |flat| && ps > 0
    ensures Shown(flat, at, from, from, ps) == []
  {
  }

  /** A read answers, of the bytes asked for, exactly those with no zero before them, nor themselves zero, in their
      page's part. */
  lemma LoadedShows(space: seq<byte>, ps: nat, m: Mem, pid: int, l: nat, n: nat)
    requires ps > 0 && Safe(m) && Fits(space, ps, m) && pid in m.tables && Shape(m.tables[pid])
    ensures var end := At(Reach(m.tables[pid]), ps);
            LoadedAt(space, ps, m, pid, l, n) ==
            if l + n <= end then Some(Shown(Flat(space, ps, m, pid), l, l, l + n, ps)) else None
  {
    hide Safe, Shape, Flat, CutPages, Shown, Reach, At;
    if l + n <= At(Reach(m.tables[pid]), ps) {
      CutPagesShown(Flat(space, ps, m, pid), l, l, l + n, ps);
    }
  }

  /** Inside one page that is everything before the first zero. */
  lemma LoadedInPage(space: seq<byte>, ps: nat, m: Mem, pid: int, l: nat, n: nat) returns (z: nat)
    requires ps > 0 && Safe(m) && Fits(space, ps, m) && pid in m.tables && Shape(m.tables[pid])
    requires l + n <= At(Reach(m.tables[pid]), ps) && l % ps + n <= ps
    ensures var flat := Flat(space, ps, m, pid);
            && z <= n && 0 !in flat[l..l + z] && (z < n ==> flat[l + z] == 0)
            && LoadedAt(space, ps, m, pid, l, n) == Some(flat[l..l + z])
  {
    hide Safe, Shape, Flat, CutPages, Shown, Reach, At, CutAtZero;
    var flat := Flat(space, ps, m, pid);
    LoadedShows(space, ps, m, pid, l, n);
    ShownPart(flat, l, l, l, l + n, ps);
    assert flat[l..l] == [];
    z := |CutAtZero(flat[l..l + n])|;
    assert CutAtZero(flat[l..l + n]) == flat[l..l + n][..z] == flat[l..l + z];
  }

  // ----- Logical and physical addresses -----

  /** A logical address is that many bytes into the memory of its process. */
  lemma LogicalParts(l: nat, ps: nat)
    requires ps > 0
    ensures At(l / ps, ps) + l % ps == l
  {
    AtIsProduct(l / ps, ps);
  }

  /** A frame and an offset make an address that no other pair makes. */
  lemma AtUnique(f: nat, o: nat, g: nat, r: nat, ps: nat)
    requires o < ps && r < ps
    ensures At(f, ps) + o == At(g, ps) + r <==> f == g && o == r
  {
    if f < g {
      AtMono(f + 1, g, ps);
    } else if g < f {
      AtMono(g + 1, f, ps);
    }
  }

  /** Where the page table puts logical address `l`. */
  function Physical(t: PageTable, ps: nat, l: nat): nat
    requires ps > 0 && l / ps < Reach(t)
  {
    At(FramesOf(t)[l / ps], ps) + l % ps
  }

  /** `after` is the memory `before` with `data` stored at logical address `l` of process `pid`, as much of it
      as lies before the end, and no byte of any other process changed. */
  ghost predicate StoredAt(before: seq<byte>, after: seq<byte>, ps: nat, m: Mem, pid: int, l: nat, data: seq<byte>)
    requires Safe(m) && Fits(before, ps, m) && |after| == |before| && pid in m.tables && Shape(m.tables[pid])
    requires l <= At(Reach(m.tables[pid]), ps)
  {
    && Flat(after, ps, m, pid) == Blit(Flat(before, ps, m, pid), l,
         data[..Min(|data|, At(Reach(m.tables[pid]), ps) - l)])
    && forall q :: q in m.tables && q != pid && Shape(m.tables[q]) ==> Flat(after, ps, m, q) == Flat(before, ps, m, q)
  }

  lemma WriteAtPage(space: seq<byte>, ps: nat, m: Mem, pid: int, page: nat, o: nat, l: nat, data: seq<byte>)
    requires Safe(m) && Fits(space, ps, m) && pid in m.tables && Shape(m.tables[pid])
    requires page < Reach(m.tables[pid]) && o < ps && l == At(page, ps) + o
    ensures var t := m.tables[pid];
            var w := Walk(FramesOf(t), FramesOf(t)[page]);
            && Inside(|space|, ps, w) && l <= At(Reach(t), ps)
            && var (after, ok) := WriteLoop(space, ps, w, o, data);
               && (ok <==> l + |data| <= At(Reach(t), ps))
               && StoredAt(space, after, ps, m, pid, l, data)
  {
    hide Safe, Shape, Flat, Inside, WriteLoop, At, Walk, FramesOf, Fits;
    WriteIsPrivate(space, ps, m, pid, page, o, data);
  }

  /** A write at the physical address of logical address `l`. */
  lemma WriteAt(space: seq<byte>, ps: nat, m: Mem, pid: int, l: nat, data: seq<byte>)
    requires ps > 0 && Safe(m) && Fits(space, ps, m) && pid in m.tables && Shape(m.tables[pid])
    requires l / ps < Reach(m.tables[pid])
    ensures var t := m.tables[pid];
            var w := Walk(FramesOf(t), FramesOf(t)[l / ps]);
            && Inside(|space|, ps, w) && l <= At(Reach(t), ps)
            && var (after, ok) := WriteLoop(space, ps, w, l % ps, data);
               && (ok <==> l + |data| <= At(Reach(t), ps))
               && StoredAt(space, after, ps, m, pid, l, data)
  {
    hide Safe, Shape, Flat, Inside, WriteLoop, At, Walk, FramesOf, Fits, StoredAt, Min;
    LogicalParts(l, ps);
    WriteAtPage(space, ps, m, pid, l / ps, l % ps, l, data);
  }

  /** A read at the physical address of logical address `l`. */
  lemma ReadAt(space: seq<byte>, ps: nat, m: Mem, pid: int, l: nat, n: nat)
    requires ps > 0 && Safe(m) && Fits(space, ps, m) && pid in m.tables && Shape(m.tables[pid])
    requires l / ps < Reach(m.tables[pid])
    ensures var t := m.tables[pid];
            var w := Walk(FramesOf(t), FramesOf(t)[l / ps]);
            && Inside(|space|, ps, w)
            && ReadLoop(space, ps, w, l % ps, n) == LoadedAt(space, ps, m, pid, l, n)
  {
    hide Safe, Shape, Flat, Inside, ReadLoop, At, Walk, FramesOf, Fits, CutPages;
    LogicalParts(l, ps);
    ReadIsPrivate(space, ps, m, pid, l / ps, l % ps, n);
  }

  /** What a read of `n` bytes at logical address `l` answers. */
  ghost function LoadedAt(space: seq<byte>, ps: nat, m: Mem, pid: int, l: nat, n: nat): Option<seq<byte>>
    requires ps > 0 && Safe(m) && Fits(space, ps, m) && pid in m.tables && Shape(m.tables[pid])
  {
    if l + n <= At(Reach(m.tables[pid]), ps) then Some(CutPages(Flat(space, ps, m, pid)[l..l + n], ps - l % ps, ps))
    else None
  }

  /** What a process stores it loads again, each page's part up to its first zero. */
  lemma LoadStored(before: seq<byte>, after: seq<byte>, ps: nat, m: Mem, pid: int, l: nat, data: seq<byte>)
    requires ps > 0 && Safe(m) && Fits(before, ps, m) && |after| == |before| && pid in m.tables && Shape(m.tables[pid])
    requires l + |data| <= At(Reach(m.tables[pid]), ps)
    requires StoredAt(before, after, ps, m, pid, l, data)
    ensures LoadedAt(after, ps, m, pid, l, |data|) == Some(CutPages(data, ps - l % ps, ps))
  {
    hide Safe, Shape, At, CutPages;
    assert data[..|data|] == data;
    BlitSlice(Flat(before, ps, m, pid), l, data);
  }

  // ----- Resizing -----

  /** Growth leaves the bytes of the pages counted where they were, and those of a page that a shrink of the
      code as written left behind are the only ones that it replaces. */
  lemma {:induction false} GrowthKeepsBytes(num: Numbering, space: seq<byte>, ps: nat, m: Mem, pid: int, pages: nat)
    requires Safe(m) && Fits(space, ps, m) && pid in m.tables && Shape(m.tables[pid])
    requires m.tables[pid].count < pages && pages - m.tables[pid].count <= |m.used| - CountUsed(m.used)
    ensures var t, m' := m.tables[pid], Step(num, m, Resize(pid, pages));
            && Dense(m'.tables[pid]) && Shape(m'.tables[pid]) && Safe(m') && Fits(space, ps, m')
            && At(t.count, ps) <= |Flat(space, ps, m, pid)|
            && Flat(space, ps, m, pid)[..At(t.count, ps)] <= Flat(space, ps, m', pid)
            && (Dense(t) ==> |Flat(space, ps, m, pid)| == At(t.count, ps))
  {
    hide Pages, At, CountUsed;
    var t, m' := m.tables[pid], Step(num, m, Resize(pid, pages));
    GrowLoopGrows(m.used, t.frames, t.count, pages - t.count);
    GrowKeeps(num, m, pid, pages);
    DenseShape(m', pid);
    var fs, gs := FramesOf(t), FramesOf(m'.tables[pid]);
    ProcessFrames(space, ps, m, pid);
    ProcessFrames(space, ps, m', pid);
    assert fs[..t.count] == gs[..t.count];
    PagesSplit(space, ps, fs, t.count);
    PagesSplit(space, ps, gs, t.count);
  }

  lemma DenseShape(m: Mem, pid: int)
    requires Safe(m) && pid in m.tables && Dense(m.tables[pid])
    ensures Shape(m.tables[pid]) && Reach(m.tables[pid]) == m.tables[pid].count
  {
    MappedApart(m, pid);
  }

  /** Every resize that is not refused keeps the shape that reads and writes rely on. */
  lemma {:induction false} ResizeKeepsShape(num: Numbering, m: Mem, pid: int, pages: nat)
    requires Safe(m) && pid in m.tables && Shape(m.tables[pid])
    requires num.Meant? ==> Tidy(m.tables[pid])
    requires pages <= m.tables[pid].count || pages - m.tables[pid].count <= |m.used| - CountUsed(m.used)
    ensures Shape(Step(num, m, Resize(pid, pages)).tables[pid])
  {
    var t, m' := m.tables[pid], Step(num, m, Resize(pid, pages));
    if t.count < pages {
      GrowLoopGrows(m.used, t.frames, t.count, pages - t.count);
      GrowKeeps(num, m, pid, pages);
      MappedApart(m', pid);
    } else if pages < t.count {
      ShrinkLoopUnmarks(num, m.used, t.frames, t.count, 0, t.count - pages);
    }
  }

  lemma MappedApart(m: Mem, pid: int)
    requires Safe(m) && pid in m.tables
    ensures var frames := m.tables[pid].frames;
            forall i, j :: i in frames && j in frames && frames[i] == frames[j] ==> i == j
  {
    var frames := m.tables[pid].frames;
    forall i, j | i in frames && j in frames && frames[i] == frames[j] ensures i == j {
      assert Mapped(m, pid, i) && Mapped(m, pid, j);
    }
  }
}
