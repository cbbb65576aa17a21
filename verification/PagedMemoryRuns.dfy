/** What every run of process creation, RESIZE and release keeps of the frames and page tables. */
module PagedMemoryRuns {
  import opened Common
  import opened PagedMemoryModel

  // ----- One request -----

  lemma {:induction false} GrowKeeps(num: Numbering, m: Mem, pid: int, pages: nat)
    requires Safe(m) && pid in m.tables && m.tables[pid].count < pages
    ensures Safe(Step(num, m, Resize(pid, pages)))
    ensures Exact(m) ==> (Exact(Step(num, m, Resize(pid, pages))) <==> NotOverwritten(m, pid, pages))
  {
    var t := m.tables[pid];
    var k := pages - t.count;
    var n := Got(m.used, k);
    var g := GrowLoop(m.used, t.frames, t.count, k);
    GrowLoopGrows(m.used, t.frames, t.count, k);
    GrownSafe(m, Step(num, m, Resize(pid, pages)), pid, g, n);
    if Exact(m) {
      GrownExact(m, Step(num, m, Resize(pid, pages)), pid, g, n);
    }
  }

  lemma GrownSafe(m: Mem, m': Mem, pid: int, g: Growth, n: nat)
    requires Safe(m) && pid in m.tables
    requires Grows(m.used, m.tables[pid].frames, m.tables[pid].count, n, g)
    requires m'.used == g.used && m'.tables.Keys == m.tables.Keys && m'.tables[pid].frames == g.frames
    requires forall q :: q in m.tables && q != pid ==> m'.tables[q] == m.tables[q]
    ensures Safe(m')
  {
    var t := m.tables[pid];
    forall p, i | Mapped(m', p, i)
      ensures FrameAt(m', p, i) < |m'.used| && m'.used[FrameAt(m', p, i)]
    {
      if p == pid && t.count <= i < t.count + n {
        assert Held(g.frames, t.count, t.count + n, g.frames[i]);
      } else {
        assert Mapped(m, p, i);
      }
    }
    forall p, i, q, j | Mapped(m', p, i) && Mapped(m', q, j) && FrameAt(m', p, i) == FrameAt(m', q, j)
      ensures p == q && i == j
    {
      assert (p == pid && t.count <= i < t.count + n) || Mapped(m, p, i);
      assert (q == pid && t.count <= j < t.count + n) || Mapped(m, q, j);
    }
  }

  /** A growth overwrites no page that the dictionary still holds. */
  ghost predicate NotOverwritten(m: Mem, pid: int, pages: nat)
    requires pid in m.tables && m.tables[pid].count < pages
  {
    var t := m.tables[pid];
    forall i :: t.count <= i < t.count + Got(m.used, pages - t.count) ==> i !in t.frames
  }

  lemma GrownExact(m: Mem, m': Mem, pid: int, g: Growth, n: nat)
    requires Safe(m) && Exact(m) && pid in m.tables
    requires Grows(m.used, m.tables[pid].frames, m.tables[pid].count, n, g)
    requires m'.used == g.used && m'.tables.Keys == m.tables.Keys && m'.tables[pid].frames == g.frames
    requires forall q :: q in m.tables && q != pid ==> m'.tables[q] == m.tables[q]
    ensures var t := m.tables[pid]; Exact(m') <==> forall i :: t.count <= i < t.count + n ==> i !in t.frames
  {
    var t := m.tables[pid];
    if i :| t.count <= i < t.count + n && i in t.frames {
      var f := t.frames[i];
      assert Mapped(m, pid, i);
      forall p, j | Mapped(m', p, j) ensures FrameAt(m', p, j) != f {
        assert (p == pid && t.count <= j < t.count + n) || Mapped(m, p, j);
      }
      assert m'.used[f] && !MappedSomewhere(m', f);
    } else {
      forall f | 0 <= f < |m'.used| && m'.used[f] ensures MappedSomewhere(m', f) {
        if Held(g.frames, t.count, t.count + n, f) {
          var i :| t.count <= i < t.count + n && i in g.frames && g.frames[i] == f;
          assert Mapped(m', pid, i) && FrameAt(m', pid, i) == f;
        } else {
          var p, i :| Mapped(m, p, i) && FrameAt(m, p, i) == f;
          assert Mapped(m', p, i) && FrameAt(m', p, i) == f;
        }
      }
    }
  }

  lemma {:induction false} ShrinkKeeps(num: Numbering, m: Mem, pid: int, pages: nat)
    requires Safe(m) && pid in m.tables && pages < m.tables[pid].count
    ensures Safe(Step(num, m, Resize(pid, pages)))
    ensures Exact(m) ==> Exact(Step(num, m, Resize(pid, pages)))
  {
    var t, m' := m.tables[pid], Step(num, m, Resize(pid, pages));
    var k := t.count - pages;
    var lo, hi := Low(num, t.count, k), High(num, t.count, 0);
    ShrinkLoopUnmarks(num, m.used, t.frames, t.count, 0, k);
    Unmapped(m, m', pid, lo, hi);
  }

  /** Removing pages `lo` to `hi - 1` of one process together with their marks. */
  lemma Unmapped(m: Mem, m': Mem, pid: int, lo: int, hi: int)
    requires Safe(m) && pid in m.tables && Unmarks(m.used, m'.used, m.tables[pid].frames, lo, hi)
    requires forall p, i :: Mapped(m', p, i) <==> Mapped(m, p, i) && !(p == pid && lo <= i < hi)
    requires forall p, i :: Mapped(m', p, i) ==> FrameAt(m', p, i) == FrameAt(m, p, i)
    ensures Safe(m')
    ensures Exact(m) ==> Exact(m')
  {
    var t := m.tables[pid];
    forall p, i | Mapped(m', p, i) ensures m'.used[FrameAt(m, p, i)] {
      var f := FrameAt(m, p, i);
      if Held(t.frames, lo, hi, f) {
        var j :| lo <= j < hi && j in t.frames && t.frames[j] == f;
        assert Mapped(m, pid, j);
      }
    }
    if Exact(m) {
      forall f | 0 <= f < |m'.used| && m'.used[f] ensures MappedSomewhere(m', f) {
        var p, i :| Mapped(m, p, i) && FrameAt(m, p, i) == f;
        assert !Held(t.frames, lo, hi, f);
        assert Mapped(m', p, i);
      }
    }
  }

  lemma {:induction false} ReleaseKeeps(num: Numbering, m: Mem, pid: int)
    requires Safe(m) && pid in m.tables
    ensures Safe(Step(num, m, Release(pid)))
    ensures Exact(m) ==> (Exact(Step(num, m, Release(pid))) <==> Tidy(m.tables[pid]))
  {
    var t, m' := m.tables[pid], Step(num, m, Release(pid));
    ReleaseLoopUnmarks(m.used, t, 0);
    assert forall p, i :: Mapped(m', p, i) <==> Mapped(m, p, i) && p != pid;
    forall p, i | Mapped(m', p, i) ensures m'.used[FrameAt(m, p, i)] {
      var f := FrameAt(m, p, i);
      if Held(t.frames, 0, t.count, f) {
        var j :| 0 <= j < t.count && j in t.frames && t.frames[j] == f;
        assert Mapped(m, pid, j);
      }
    }
    if Exact(m) {
      if i :| i in t.frames && !(0 <= i < t.count) {
        StaleSurvives(m, m', pid, i);
      } else {
        forall f | 0 <= f < |m'.used| && m'.used[f] ensures MappedSomewhere(m', f) {
          var p, i :| Mapped(m, p, i) && FrameAt(m, p, i) == f;
          assert !Held(t.frames, 0, t.count, f);
          assert Mapped(m', p, i);
        }
      }
    }
  }

  /** A page outside the count keeps its frame marked when the process is released. */
  lemma StaleSurvives(m: Mem, m': Mem, pid: int, i: int)
    requires Safe(m) && Mapped(m, pid, i) && !(0 <= i < m.tables[pid].count)
    requires Unmarks(m.used, m'.used, m.tables[pid].frames, 0, m.tables[pid].count)
    requires forall p, j :: Mapped(m', p, j) ==> Mapped(m, p, j) && p != pid && FrameAt(m', p, j) == FrameAt(m, p, j)
    ensures m'.used[FrameAt(m, pid, i)] && !MappedSomewhere(m', FrameAt(m, pid, i))
  {
    var t, f := m.tables[pid], FrameAt(m, pid, i);
    if Held(t.frames, 0, t.count, f) {
      var j :| 0 <= j < t.count && j in t.frames && t.frames[j] == f;
      assert Mapped(m, pid, j);
      assert false;
    }
  }

  /** What a caller can check before a request to know that no marked frame is lost. */
  ghost predicate LosesNothing(m: Mem, e: Event)
    requires Served(m, e)
  {
    match e
    case Register(pid) => pid in m.tables ==> forall i :: i !in m.tables[pid].frames
    case Release(pid) => pid in m.tables ==> Tidy(m.tables[pid])
    case Resize(pid, pages) => m.tables[pid].count < pages ==> NotOverwritten(m, pid, pages)
  }

  lemma {:induction false} RegisterKeeps(num: Numbering, m: Mem, pid: int)
    requires Safe(m)
    ensures Safe(Step(num, m, Register(pid)))
    ensures Exact(m) ==> (Exact(Step(num, m, Register(pid))) <==> LosesNothing(m, Register(pid)))
  {
    var m' := Step(num, m, Register(pid));
    assert forall p, i :: Mapped(m', p, i) ==> p != pid && Mapped(m, p, i) && FrameAt(m', p, i) == FrameAt(m, p, i);
    assert forall p, i :: Mapped(m, p, i) && p != pid ==> Mapped(m', p, i);
    if Exact(m) {
      ReplacedExact(m, m', pid);
    }
  }

  lemma ReplacedExact(m: Mem, m': Mem, pid: int)
    requires Safe(m) && Exact(m) && m'.used == m.used
    requires forall p, i :: Mapped(m', p, i) ==> p != pid && Mapped(m, p, i) && FrameAt(m', p, i) == FrameAt(m, p, i)
    requires forall p, i :: Mapped(m, p, i) && p != pid ==> Mapped(m', p, i)
    ensures Exact(m') <==> pid !in m.tables || forall i :: i !in m.tables[pid].frames
  {
    if pid in m.tables && exists i :: i in m.tables[pid].frames {
      var i :| i in m.tables[pid].frames;
      assert Mapped(m, pid, i);
      assert m'.used[FrameAt(m, pid, i)] && !MappedSomewhere(m', FrameAt(m, pid, i));
    } else {
      forall f | 0 <= f < |m'.used| && m'.used[f] ensures MappedSomewhere(m', f) {
        var p, i :| Mapped(m, p, i) && FrameAt(m, p, i) == f;
        assert Mapped(m', p, i);
      }
    }
  }

  /** Under either numbering a request keeps the frames safe, and it loses no frame exactly
      when the check above passes. */
  lemma {:induction false} StepKeeps(num: Numbering, m: Mem, e: Event)
    requires Safe(m) && Served(m, e)
    ensures Safe(Step(num, m, e))
    ensures Exact(m) ==> (Exact(Step(num, m, e)) <==> LosesNothing(m, e))
  {
    hide Safe, Exact, NotOverwritten, Tidy, Step;
    match e
    case Register(pid) => RegisterKeeps(num, m, pid);
    case Release(pid) =>
      if pid in m.tables {
        ReleaseKeeps(num, m, pid);
      } else {
        StepSame(num, m, e);
      }
    case Resize(pid, pages) =>
      if m.tables[pid].count < pages {
        GrowKeeps(num, m, pid, pages);
      } else if pages < m.tables[pid].count {
        ShrinkKeeps(num, m, pid, pages);
      } else {
        StepSame(num, m, e);
      }
  }

  lemma StepSame(num: Numbering, m: Mem, e: Event)
    requires Served(m, e)
    requires e.Release? ==> e.pid !in m.tables
    requires e.Resize? ==> e.pages == m.tables[e.pid].count
    requires !e.Register?
    ensures Step(num, m, e) == m
  {
  }

  // ----- Runs -----

  ghost predicate AllServed(num: Numbering, m: Mem, es: seq<Event>)
    decreases |es|
  {
    es == [] || (Served(m, es[0]) && AllServed(num, Step(num, m, es[0]), es[1..]))
  }

  ghost function Run(num: Numbering, m: Mem, es: seq<Event>): Mem
    requires AllServed(num, m, es)
    decreases |es|
  {
    if es == [] then m else Run(num, Step(num, m, es[0]), es[1..])
  }

  /** True of the code as written: over every run no frame is mapped twice and every mapped
      frame is marked. */
  lemma {:induction false} RunSafe(num: Numbering, m: Mem, es: seq<Event>)
    requires Safe(m) && AllServed(num, m, es)
    ensures Safe(Run(num, m, es))
    decreases |es|
  {
    if es != [] {
      StepKeeps(num, m, es[0]);
      RunSafe(num, Step(num, m, es[0]), es[1..]);
    }
  }

  /** Every process is registered under a pid not in use. */
  ghost predicate FreshPids(num: Numbering, m: Mem, es: seq<Event>)
    requires AllServed(num, m, es)
    decreases |es|
  {
    es == [] || ((es[0].Register? ==> es[0].pid !in m.tables) && FreshPids(num, Step(num, m, es[0]), es[1..]))
  }

  lemma {:induction false} MeantStepTidy(m: Mem, e: Event)
    requires AllTidy(m) && Served(m, e)
    ensures AllTidy(Step(Meant, m, e))
  {
    match e
    case Register(pid) =>
    case Release(pid) =>
    case Resize(pid, pages) =>
      var t := m.tables[pid];
      if t.count < pages {
        GrowLoopGrows(m.used, t.frames, t.count, pages - t.count);
      } else if pages < t.count {
        ShrinkLoopUnmarks(Meant, m.used, t.frames, t.count, 0, t.count - pages);
      }
  }

  lemma TidyLosesNothing(m: Mem, e: Event)
    requires AllTidy(m) && Served(m, e) && (e.Register? ==> e.pid !in m.tables)
    ensures LosesNothing(m, e)
  {
  }

  /** With the numbering that was meant, the marked frames are exactly the mapped ones over every run. */
  lemma {:induction false} MeantRunExact(m: Mem, es: seq<Event>)
    requires Safe(m) && Exact(m) && AllTidy(m) && AllServed(Meant, m, es) && FreshPids(Meant, m, es)
    ensures var after := Run(Meant, m, es); Safe(after) && Exact(after) && AllTidy(after)
    decreases |es|
  {
    if es != [] {
      StepKeeps(Meant, m, es[0]);
      TidyLosesNothing(m, es[0]);
      MeantStepTidy(m, es[0]);
      MeantRunExact(Step(Meant, m, es[0]), es[1..]);
    }
  }

  // ----- The code as written -----

  /** Pages 0 to `cant_paginas - 1` are mapped, and no other. */
  ghost predicate Dense(t: PageTable) {
    forall i :: i in t.frames <==> 0 <= i < t.count
  }

  /** The first page that a shrink of the code as written ought to remove stays mapped, so the next
      release loses its frame, and so does the next growth that obtains any frame. */
  lemma {:induction false} WrittenShrinkStale(m: Mem, pid: int, pages: nat, more: nat)
    requires Safe(m) && Exact(m) && pid in m.tables && Dense(m.tables[pid]) && pages < m.tables[pid].count
    requires pages < more
    ensures var m' := Step(Written, m, Resize(pid, pages));
            && Safe(m') && Exact(m')
            && (forall i :: Mapped(m', pid, i) <==> 0 <= i <= pages)
            && !Exact(Step(Written, m', Release(pid)))
            && (Exact(Step(Written, m', Resize(pid, more))) <==> CountUsed(m'.used) == |m'.used|)
  {
    var t := m.tables[pid];
    var m' := Step(Written, m, Resize(pid, pages));
    ShrinkLoopUnmarks(Written, m.used, t.frames, t.count, 0, t.count - pages);
    StepKeeps(Written, m, Resize(pid, pages));
    assert forall i :: Mapped(m', pid, i) <==> 0 <= i <= pages;
    assert pages in m'.tables[pid].frames && !Tidy(m'.tables[pid]);
    StepKeeps(Written, m', Release(pid));
    StepKeeps(Written, m', Resize(pid, more));
    var got := Got(m'.used, more - pages);
    if got > 0 {
      assert pages <= pages < pages + got;
    }
  }

  /** Two frames, one process: after growing to two pages, shrinking to one and being released,
      no process is left but a frame stays marked. */
  lemma WrittenLeak()
    ensures var es := [Register(1), Resize(1, 2), Resize(1, 1), Release(1)];
            var m := Mem([false, false], map[]);
            && AllServed(Written, m, es)
            && Run(Written, m, es) == Mem([false, true], map[])
  {
    var es := [Register(1), Resize(1, 2), Resize(1, 1), Release(1)];
    var m0 := Mem([false, false], map[]);
    var m1 := Mem([false, false], map[1 := PageTable(0, map[])]);
    var m2 := Mem([true, true], map[1 := PageTable(2, map[0 := 0, 1 := 1])]);
    var m3 := Mem([true, true], map[1 := PageTable(1, map[0 := 0, 1 := 1])]);
    var m4 := Mem([false, true], map[]);
    assert Step(Written, m0, es[0]) == m1;
    assert Step(Written, m1, es[1]) == m2 by {
      assert [false, false][0 := true] == [true, false] && [true, false][1 := true] == [true, true];
      assert FirstFree([true, false]) == 1;
      assert GrowLoop([true, false], map[0 := 0], 1, 1) == GrowLoop([true, true], map[0 := 0, 1 := 1], 2, 0);
    }
    assert Step(Written, m2, es[2]) == m3 by {
      var frames := m2.tables[1].frames;
      assert ShrinkLoop(Written, m2.used, frames - {2}, 2, 1, 1) == (m2.used, frames - {2});
      assert frames - {2} == frames;
    }
    assert Step(Written, m3, es[3]) == m4 by {
      assert ReleaseLoop(m3.used, m3.tables[1], 0) == m3.used[0 := false];
    }
    assert es[1..] == [es[1], es[2], es[3]] && es[1..][1..] == [es[2], es[3]];
    RunOne(Written, m3, [es[3]]);
    RunOne(Written, m2, [es[2], es[3]]);
    RunOne(Written, m1, [es[1], es[2], es[3]]);
    RunOne(Written, m0, es);
  }

  lemma RunOne(num: Numbering, m: Mem, es: seq<Event>)
    requires es != [] && Served(m, es[0]) && AllServed(num, Step(num, m, es[0]), es[1..])
    ensures AllServed(num, m, es) && Run(num, m, es) == Run(num, Step(num, m, es[0]), es[1..])
  {
  }

  // ----- Growth -----

  /** Growth succeeds exactly when enough frames are free; either way it changes no page that
      was mapped below the count, and no other process. */
  lemma {:induction false} GrowthOutcome(num: Numbering, m: Mem, pid: int, pages: nat)
    requires pid in m.tables && m.tables[pid].count < pages
    ensures var t := m.tables[pid];
            var free := |m.used| - CountUsed(m.used);
            var m' := Step(num, m, Resize(pid, pages));
            && ResizeReply(m, pid, pages) == [if pages - t.count <= free then Done else OutOfMemory]
            && (pages - t.count > free ==> CountUsed(m'.used) == |m'.used|)
            && (forall q, i :: Mapped(m, q, i) && !(q == pid && i >= t.count) ==>
                 Mapped(m', q, i) && FrameAt(m', q, i) == FrameAt(m, q, i))
            && (forall i :: t.count <= i < t.count + Got(m.used, pages - t.count) ==> Mapped(m', pid, i))
  {
    var t := m.tables[pid];
    GrowLoopGrows(m.used, t.frames, t.count, pages - t.count);
  }

  /** The answers of a resize: OUT_OF_MEMORY exactly when it asks for more frames than are free, none at all when the
      page count stays, OK otherwise. */
  lemma ResizeAnswers(m: Mem, pid: int, pages: nat)
    requires pid in m.tables
    ensures var t, free := m.tables[pid], |m.used| - CountUsed(m.used);
            && (pages == t.count ==> ResizeReply(m, pid, pages) == [])
            && (pages != t.count && pages <= t.count + free ==> ResizeReply(m, pid, pages) == [Done])
            && (pages > t.count + free ==> ResizeReply(m, pid, pages) == [OutOfMemory])
  {
    hide CountUsed, Grows;
    if m.tables[pid].count < pages {
      GrowLoopGrows(m.used, m.tables[pid].frames, m.tables[pid].count, pages - m.tables[pid].count);
    }
  }

  /** Releasing a process after a growth, failed or not, leaves the memory as releasing it before
      the growth would have. */
  lemma {:induction false} ReleaseAfterGrowth(num: Numbering, m: Mem, pid: int, pages: nat)
    requires Safe(m) && pid in m.tables && m.tables[pid].count < pages && Tidy(m.tables[pid])
    ensures Step(num, Step(num, m, Resize(pid, pages)), Release(pid)) == Step(num, m, Release(pid))
  {
    var t, m' := m.tables[pid], Step(num, m, Resize(pid, pages));
    var n, t' := Got(m.used, pages - t.count), m'.tables[pid];
    GrowLoopGrows(m.used, t.frames, t.count, pages - t.count);
    ReleaseLoopUnmarks(m.used, t, 0);
    ReleaseLoopUnmarks(m'.used, t', 0);
    var a, b := ReleaseLoop(m.used, t, 0), ReleaseLoop(m'.used, t', 0);
    forall f | 0 <= f < |m.used| ensures a[f] == b[f] {
      HeldAfterGrowth(m, pid, m', n, f);
    }
    assert a == b;
  }

  lemma HeldAfterGrowth(m: Mem, pid: int, m': Mem, n: nat, f: nat)
    requires Safe(m) && pid in m.tables && pid in m'.tables && Tidy(m.tables[pid])
    requires f < |m.used|
    requires exists ok :: Grows(m.used, m.tables[pid].frames, m.tables[pid].count, n,
             Growth(m'.used, m'.tables[pid].frames, ok))
    requires m'.tables[pid].count >= m.tables[pid].count + n
    ensures m.used[f] && !Held(m.tables[pid].frames, 0, m.tables[pid].count, f) <==>
            m'.used[f] && !Held(m'.tables[pid].frames, 0, m'.tables[pid].count, f)
  {
    var t, t' := m.tables[pid], m'.tables[pid];
    if Held(t.frames, 0, t.count, f) {
      var i :| 0 <= i < t.count && i in t.frames && t.frames[i] == f;
      assert i in t'.frames && t'.frames[i] == f;
    }
    if Held(t'.frames, t.count, t.count + n, f) {
      var i :| t.count <= i < t.count + n && i in t'.frames && t'.frames[i] == f;
      assert 0 <= i < t'.count;
    }
    if Held(t'.frames, 0, t'.count, f) && !Held(t.frames, 0, t.count, f) {
      var i :| 0 <= i < t'.count && i in t'.frames && t'.frames[i] == f;
      assert Held(t'.frames, t.count, t.count + n, f);
    }
  }
}
