/** Each process's memory is its own, over every run of creation, RESIZE, release and writes
    (memoria/src/memoria.c:388-498, 602-699). */
module PagedMemoryPrivate {
  import opened Common
  import opened PagedMemoryModel
  import opened PagedMemoryRuns
  import opened PagedMemoryView

  /** The bytes of the memory and who they belong to; `failed` holds the processes whose last growth was refused. */
  datatype Sys = Sys(space: seq<byte>, m: Mem, failed: set<int>)

  /** A write goes to offset `o` of page `page` of the process. */
  datatype Action =
    | Change(event: Event)
    | Store(pid: int, page: nat, o: nat, data: seq<byte>)

  /** Nothing is shared, and the pages of a process that has not failed are numbered without a gap. */
  ghost predicate Sound(num: Numbering, ps: nat, s: Sys) {
    && Safe(s.m) && Fits(s.space, ps, s.m)
    && (forall pid :: pid in s.m.tables && pid !in s.failed ==> Shape(s.m.tables[pid]))
    && (num.Meant? ==> AllTidy(s.m))
  }

  /** A growth that is answered OUT_OF_MEMORY. */
  predicate Refused(m: Mem, e: Event) {
    e.Resize? && Served(m, e) && e.pages > m.tables[e.pid].count + (|m.used| - CountUsed(m.used))
  }

  /** A process whose growth was refused is killed, so nothing but its release follows; the others write
      from a page they have. */
  predicate Allowed(ps: nat, s: Sys, a: Action) {
    match a
    case Change(e) => Served(s.m, e) && (e.pid in s.failed ==> e.Release?)
    case Store(pid, page, o, _) => pid in s.m.tables && pid !in s.failed && page < Reach(s.m.tables[pid]) && o < ps
  }

  function Who(a: Action): int {
    if a.Change? then a.event.pid else a.pid
  }

  ghost function Act(num: Numbering, ps: nat, s: Sys, a: Action): Sys
    requires Sound(num, ps, s) && Allowed(ps, s, a)
  {
    match a
    case Change(e) =>
      s.(m := Step(num, s.m, e),
         failed := if Refused(s.m, e) then s.failed + {e.pid} else if e.Release? then s.failed - {e.pid} else s.failed)
    case Store(pid, page, o, data) =>
      WriteIsPrivate(s.space, ps, s.m, pid, page, o, data);
      var fs := FramesOf(s.m.tables[pid]);
      s.(space := WriteLoop(s.space, ps, Walk(fs, fs[page]), o, data).0)
  }

  /** The memory of `q`, as `q` sees it. */
  ghost function Memory(num: Numbering, ps: nat, s: Sys, q: int): seq<byte>
    requires Sound(num, ps, s) && q in s.m.tables && q !in s.failed
  {
    Flat(s.space, ps, s.m, q)
  }

  // ----- One action -----

  lemma ChangeOthers(num: Numbering, m: Mem, e: Event, q: int)
    requires Served(m, e) && q in m.tables && q != e.pid
    ensures q in Step(num, m, e).tables && Step(num, m, e).tables[q] == m.tables[q]
    ensures |Step(num, m, e).used| == |m.used|
  {
    ChangeSize(num, m, e);
  }

  lemma ChangeSize(num: Numbering, m: Mem, e: Event)
    requires Served(m, e)
    ensures |Step(num, m, e).used| == |m.used|
  {
    match e
    case Register(pid) =>
    case Release(pid) =>
      if pid in m.tables {
        ReleaseLoopUnmarks(m.used, m.tables[pid], 0);
      }
    case Resize(pid, pages) =>
      var t := m.tables[pid];
      if pages < t.count {
        ShrinkLoopUnmarks(num, m.used, t.frames, t.count, 0, t.count - pages);
      } else if t.count < pages {
        GrowLoopGrows(m.used, t.frames, t.count, pages - t.count);
      }
  }

  lemma ChangeShape(num: Numbering, ps: nat, s: Sys, e: Event)
    requires Sound(num, ps, s) && Allowed(ps, s, Change(e))
    ensures var s' := Act(num, ps, s, Change(e));
            forall pid :: pid in s'.m.tables && pid !in s'.failed ==> Shape(s'.m.tables[pid])
  {
    hide Safe, Tidy;
    var s' := Act(num, ps, s, Change(e));
    forall pid | pid in s'.m.tables && pid !in s'.failed ensures Shape(s'.m.tables[pid]) {
      if pid != e.pid {
        assert pid in s.m.tables;
        ChangeOthers(num, s.m, e, pid);
      } else if e.Resize? {
        ResizeKeepsShape(num, s.m, pid, e.pages);
      }
    }
  }

  lemma ChangeSound(num: Numbering, ps: nat, s: Sys, e: Event)
    requires Sound(num, ps, s) && Allowed(ps, s, Change(e))
    ensures Sound(num, ps, Act(num, ps, s, Change(e)))
  {
    hide Safe, AllTidy, Shape;
    StepKeeps(num, s.m, e);
    ChangeSize(num, s.m, e);
    ChangeShape(num, ps, s, e);
    if num.Meant? {
      MeantStepTidy(s.m, e);
    }
  }

  lemma StoreSound(num: Numbering, ps: nat, s: Sys, pid: int, page: nat, o: nat, data: seq<byte>)
    requires Sound(num, ps, s) && Allowed(ps, s, Store(pid, page, o, data))
    ensures Sound(num, ps, Act(num, ps, s, Store(pid, page, o, data)))
  {
    hide Safe, AllTidy, Shape;
    WriteIsPrivate(s.space, ps, s.m, pid, page, o, data);
  }

  lemma ActSound(num: Numbering, ps: nat, s: Sys, a: Action)
    requires Sound(num, ps, s) && Allowed(ps, s, a)
    ensures Sound(num, ps, Act(num, ps, s, a))
  {
    hide Sound, Allowed, Act;
    match a
    case Change(e) => ChangeSound(num, ps, s, e);
    case Store(pid, page, o, data) => StoreSound(num, ps, s, pid, page, o, data);
  }

  /** Frames and bytes the same, memory the same. */
  lemma SameFrames(space: seq<byte>, ps: nat, m: Mem, m': Mem, q: int)
    requires Safe(m) && Safe(m') && Fits(space, ps, m) && Fits(space, ps, m')
    requires q in m.tables && q in m'.tables && m'.tables[q] == m.tables[q] && Shape(m.tables[q])
    ensures Flat(space, ps, m', q) == Flat(space, ps, m, q)
  {
  }

  /** No action changes the memory of a process that it does not name. */
  lemma OthersKeep(num: Numbering, ps: nat, s: Sys, a: Action, q: int)
    requires Sound(num, ps, s) && Allowed(ps, s, a) && q in s.m.tables && q !in s.failed && q != Who(a)
    ensures Sound(num, ps, Act(num, ps, s, a)) && q in Act(num, ps, s, a).m.tables && q !in Act(num, ps, s, a).failed
    ensures Memory(num, ps, Act(num, ps, s, a), q) == Memory(num, ps, s, q)
  {
    hide Safe, AllTidy, Shape, Flat, Fits;
    ActSound(num, ps, s, a);
    match a
    case Change(e) =>
      ChangeOthers(num, s.m, e, q);
      SameFrames(s.space, ps, s.m, Step(num, s.m, e), q);
    case Store(pid, page, o, data) =>
      WriteIsPrivate(s.space, ps, s.m, pid, page, o, data);
  }

  /** The pages that a resize leaves keep their frames, also when it is refused. */
  lemma ResizeFrames(num: Numbering, m: Mem, pid: int, pages: nat)
    requires Safe(m) && pid in m.tables && Shape(m.tables[pid])
    ensures var t, t' := m.tables[pid], Step(num, m, Resize(pid, pages)).tables[pid];
            forall i :: 0 <= i < Min(t.count, pages) ==> i in t.frames && i in t'.frames && t'.frames[i] == t.frames[i]
  {
    var t := m.tables[pid];
    if t.count < pages {
      GrowLoopGrows(m.used, t.frames, t.count, pages - t.count);
    } else if pages < t.count {
      ShrinkLoopUnmarks(num, m.used, t.frames, t.count, 0, t.count - pages);
    }
  }

  lemma SamePrefix(space: seq<byte>, ps: nat, fs: seq<nat>, gs: seq<nat>, n: nat)
    requires Inside(|space|, ps, fs) && Inside(|space|, ps, gs)
    requires n <= |fs| && n <= |gs| && fs[..n] == gs[..n]
    ensures At(n, ps) <= |Pages(space, ps, fs)| && At(n, ps) <= |Pages(space, ps, gs)|
    ensures Pages(space, ps, fs)[..At(n, ps)] == Pages(space, ps, gs)[..At(n, ps)]
  {
    PagesSplit(space, ps, fs, n);
    PagesSplit(space, ps, gs, n);
  }

  /** A resize keeps the frames, and the bytes, of the pages that a process had and still has; if it is not
      refused they stay the beginning of its memory. */
  lemma ResizeKeepsBytes(num: Numbering, ps: nat, s: Sys, pid: int, pages: nat)
    requires Sound(num, ps, s) && Allowed(ps, s, Change(Resize(pid, pages)))
    ensures var s' := Act(num, ps, s, Change(Resize(pid, pages)));
            var n := Min(s.m.tables[pid].count, pages);
            && Sound(num, ps, s') && pid in s'.m.tables && s'.space == s.space
            && (pid in s'.failed <==> Refused(s.m, Resize(pid, pages)))
            && (forall i :: 0 <= i < n ==>
                 Mapped(s.m, pid, i) && Mapped(s'.m, pid, i) && FrameAt(s'.m, pid, i) == FrameAt(s.m, pid, i))
            && (pid !in s'.failed ==>
                 && At(n, ps) <= |Memory(num, ps, s, pid)| && At(n, ps) <= |Memory(num, ps, s', pid)|
                 && Memory(num, ps, s', pid)[..At(n, ps)] == Memory(num, ps, s, pid)[..At(n, ps)])
  {
    hide Safe, AllTidy, Shape, Fits, Pages;
    ActSound(num, ps, s, Change(Resize(pid, pages)));
    var m' := Step(num, s.m, Resize(pid, pages));
    ResizeFrames(num, s.m, pid, pages);
    if !Refused(s.m, Resize(pid, pages)) {
      ProcessFrames(s.space, ps, s.m, pid);
      ProcessFrames(s.space, ps, m', pid);
      var fs, gs, n := FramesOf(s.m.tables[pid]), FramesOf(m'.tables[pid]), Min(s.m.tables[pid].count, pages);
      MinIs(s.m.tables[pid].count, pages);
      assert fs[..n] == gs[..n];
      SamePrefix(s.space, ps, fs, gs, n);
    }
  }

  // ----- Runs -----

  ghost predicate Runs(num: Numbering, ps: nat, s: Sys, acts: seq<Action>, t: Sys)
    decreases |acts|
  {
    if acts == [] then t == s
    else Sound(num, ps, s) && Allowed(ps, s, acts[0]) && Runs(num, ps, Act(num, ps, s, acts[0]), acts[1..], t)
  }

  /** Isolation: over any run that does not name process `q`, of the code as written too, its memory
      stays byte for byte as it was, whatever the others write, grow, shrink and release, and whether or not
      their growths are refused. */
  lemma {:induction false} Isolation(num: Numbering, ps: nat, s: Sys, acts: seq<Action>, t: Sys, q: int)
    requires Sound(num, ps, s) && Runs(num, ps, s, acts, t) && q in s.m.tables && q !in s.failed
    requires forall i :: 0 <= i < |acts| ==> Who(acts[i]) != q
    ensures Sound(num, ps, t) && q in t.m.tables && q !in t.failed && Memory(num, ps, t, q) == Memory(num, ps, s, q)
    decreases |acts|
  {
    hide Sound, Allowed, Act, Memory;
    if acts != [] {
      OthersKeep(num, ps, s, acts[0], q);
      Isolation(num, ps, Act(num, ps, s, acts[0]), acts[1..], t, q);
    }
  }

  lemma {:induction false} RunSound(num: Numbering, ps: nat, s: Sys, acts: seq<Action>, t: Sys)
    requires Sound(num, ps, s) && Runs(num, ps, s, acts, t)
    ensures Sound(num, ps, t)
    decreases |acts|
  {
    hide Sound, Allowed, Act;
    if acts != [] {
      ActSound(num, ps, s, acts[0]);
      RunSound(num, ps, Act(num, ps, s, acts[0]), acts[1..], t);
    }
  }

  /** The memory starts with no process and every frame free. */
  function Start(space: seq<byte>, frames: nat): Sys {
    Sys(space, Mem(Repeat(frames, false), map[]), {})
  }

  lemma StartsSound(num: Numbering, space: seq<byte>, ps: nat, frames: nat)
    requires At(frames, ps) <= |space|
    ensures Sound(num, ps, Start(space, frames))
  {
  }

  /** From the start, any run and then any run that does not name a process that has not failed: its memory
      is what the first run left it. */
  lemma IsolationFromStart(num: Numbering, ps: nat, space: seq<byte>, frames: nat, before: seq<Action>, s: Sys,
                           acts: seq<Action>, t: Sys, q: int)
    requires At(frames, ps) <= |space|
    requires Runs(num, ps, Start(space, frames), before, s) && q in s.m.tables && q !in s.failed
    requires Runs(num, ps, s, acts, t) && forall i :: 0 <= i < |acts| ==> Who(acts[i]) != q
    ensures Sound(num, ps, s) && Sound(num, ps, t) && q in t.m.tables && q !in t.failed
    ensures Memory(num, ps, t, q) == Memory(num, ps, s, q)
  {
    hide Sound, Memory, Runs;
    StartsSound(num, space, ps, frames);
    RunSound(num, ps, Start(space, frames), before, s);
    Isolation(num, ps, s, acts, t, q);
  }
}
