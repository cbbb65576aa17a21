/** Frames and page tables as values (memoria/src/memoria.c). */
module PagedMemoryModel {
  import opened Common

  /** `tabla_de_paginas`: a page count, and a dictionary from page numbers to frames. */
  datatype PageTable = PageTable(count: nat, frames: map<int, nat>)

  /** The frame bitmap and the register of page tables, by pid. */
  datatype Mem = Mem(used: seq<bool>, tables: map<int, PageTable>)

  /** Which page the shrink loop removes in its round `i`. The code removes `cant_paginas - i`
      although pages are numbered from 0, so `cant_paginas - 1 - i` is what was meant. */
  datatype Numbering = Written | Meant

  function Victim(num: Numbering, count: nat, i: nat): int {
    if num.Written? then count - i else count - 1 - i
  }

  // ----- First fit -----

  function FirstFree(used: seq<bool>): (f: int)
    ensures -1 <= f < |used|
    ensures f == -1 ==> forall g :: 0 <= g < |used| ==> used[g]
    ensures f != -1 ==> !used[f] && forall g :: 0 <= g < f ==> used[g]
  {
    FirstFreeFrom(used, 0)
  }

  function FirstFreeFrom(used: seq<bool>, at: nat): (f: int)
    requires at <= |used|
    requires forall g :: 0 <= g < at ==> used[g]
    ensures -1 <= f < |used|
    ensures f == -1 ==> forall g :: 0 <= g < |used| ==> used[g]
    ensures f != -1 ==> !used[f] && forall g :: 0 <= g < f ==> used[g]
    decreases |used| - at
  {
    if at == |used| then -1 else if !used[at] then at else FirstFreeFrom(used, at + 1)
  }

  // ----- The three loops over a table -----

  datatype Growth = Growth(used: seq<bool>, frames: map<int, nat>, ok: bool)

  /** Gives the pages from `page` on, `k` of them, the first free frames, until none is free. */
  function GrowLoop(used: seq<bool>, frames: map<int, nat>, page: nat, k: nat): Growth
    decreases k
  {
    var f := FirstFree(used);
    if k == 0 then Growth(used, frames, true)
    else if f == -1 then Growth(used, frames, false)
    else GrowLoop(used[f := true], frames[page := f], page + 1, k - 1)
  }

  /** Clears the bit of the frame of `page`, if it has one in range. */
  function Unmark(used: seq<bool>, frames: map<int, nat>, page: int): seq<bool> {
    if page in frames && frames[page] < |used| then used[frames[page] := false] else used
  }

  function ShrinkLoop(num: Numbering, used: seq<bool>, frames: map<int, nat>, count: nat, i: nat, k: nat): (seq<bool>,
                      map<int, nat>)
    requires i <= k
    decreases k - i
  {
    if i == k then (used, frames)
    else
      var page := Victim(num, count, i);
      ShrinkLoop(num, Unmark(used, frames, page), frames - {page}, count, i + 1, k)
  }

  function ReleaseLoop(used: seq<bool>, t: PageTable, i: nat): seq<bool>
    requires i <= t.count
    decreases t.count - i
  {
    if i == t.count then used else ReleaseLoop(Unmark(used, t.frames, i), t, i + 1)
  }

  // ----- Requests -----

  datatype Reply = Done | OutOfMemory | Bytes(data: seq<byte>)

  datatype Event =
    | Register(pid: int)
    | Resize(pid: int, pages: nat)
    | Release(pid: int)

  /** A resize is only asked for a registered process. */
  predicate Served(m: Mem, e: Event) {
    e.Resize? ==> e.pid in m.tables
  }

  function Step(num: Numbering, m: Mem, e: Event): Mem
    requires Served(m, e)
  {
    match e
    case Register(pid) => m.(tables := m.tables[pid := PageTable(0, map[])])
    case Release(pid) =>
      if pid in m.tables then Mem(ReleaseLoop(m.used, m.tables[pid], 0), m.tables - {pid}) else m
    case Resize(pid, pages) =>
      var t := m.tables[pid];
      if pages < t.count then
        var (used, frames) := ShrinkLoop(num, m.used, t.frames, t.count, 0, t.count - pages);
        Mem(used, m.tables[pid := PageTable(pages, frames)])
      else if t.count < pages then
        var g := GrowLoop(m.used, t.frames, t.count, pages - t.count);
        Mem(g.used, m.tables[pid := PageTable(pages, g.frames)])
      else m
  }

  /** What a resize answers; nothing at all when the page count does not change. */
  function ResizeReply(m: Mem, pid: int, pages: nat): seq<Reply>
    requires pid in m.tables
  {
    var t := m.tables[pid];
    if pages < t.count then [Done]
    else if t.count < pages then
      [if GrowLoop(m.used, t.frames, t.count, pages - t.count).ok then Done else OutOfMemory]
    else []
  }

  // ----- Invariants -----

  predicate Mapped(m: Mem, pid: int, page: int) {
    pid in m.tables && page in m.tables[pid].frames
  }

  function FrameAt(m: Mem, pid: int, page: int): nat
    requires Mapped(m, pid, page)
  {
    m.tables[pid].frames[page]
  }

  /** No frame is mapped twice and every mapped frame exists and is marked. */
  ghost predicate Safe(m: Mem) {
    && (forall p, i :: Mapped(m, p, i) ==> FrameAt(m, p, i) < |m.used| && m.used[FrameAt(m, p, i)])
    && (forall p, i, q, j :: Mapped(m, p, i) && Mapped(m, q, j) && FrameAt(m, p, i) == FrameAt(m, q, j) ==>
         p == q && i == j)
  }

  ghost predicate MappedSomewhere(m: Mem, f: nat) {
    exists p, i :: Mapped(m, p, i) && FrameAt(m, p, i) == f
  }

  /** Every marked frame is mapped: none is lost. */
  ghost predicate Exact(m: Mem) {
    forall f :: 0 <= f < |m.used| && m.used[f] ==> MappedSomewhere(m, f)
  }

  /** Every page in the dictionary is below the page count. */
  ghost predicate Tidy(t: PageTable) {
    forall i :: i in t.frames ==> 0 <= i < t.count
  }

  ghost predicate AllTidy(m: Mem) {
    forall p :: p in m.tables ==> Tidy(m.tables[p])
  }

  // ----- What the loops do -----

  lemma {:induction false} FreeCount(used: seq<bool>)
    ensures FirstFree(used) == -1 <==> CountUsed(used) == |used|
  {
    if used != [] {
      var last := |used| - 1;
      FreeCount(used[..last]);
      if used[last] && FirstFree(used) != -1 {
        assert !used[..last][FirstFree(used)];
      }
    }
  }

  lemma MarkCount(used: seq<bool>, f: nat)
    requires f < |used| && !used[f]
    ensures CountUsed(used[f := true]) == CountUsed(used) + 1
  {
    CountFill(used, f, 1, true);
    assert Fill(used, f, 1, true) == used[f := true];
  }

  /** Pages a growth by `k` obtains. */
  function Got(used: seq<bool>, k: nat): nat {
    var free := |used| - CountUsed(used);
    if k <= free then k else free
  }

  /** Some page of `lo` to `hi - 1` is mapped to frame `f`. */
  ghost predicate Held(frames: map<int, nat>, lo: int, hi: int, f: nat) {
    exists i :: lo <= i < hi && i in frames && frames[i] == f
  }

  /** Growth maps the pages from `page` on to frames that were free, and changes nothing else. */
  ghost predicate Grows(used: seq<bool>, frames: map<int, nat>, page: nat, n: nat, g: Growth) {
    && |g.used| == |used|
    && (forall i :: i in g.frames <==> i in frames || page <= i < page + n)
    && (forall i :: i in frames && !(page <= i < page + n) ==> g.frames[i] == frames[i])
    && (forall i :: page <= i < page + n ==> g.frames[i] < |used| && !used[g.frames[i]])
    && (forall i, j :: page <= i < j < page + n ==> g.frames[i] != g.frames[j])
    && (forall f :: 0 <= f < |used| ==> (g.used[f] <==> used[f] || Held(g.frames, page, page + n, f)))
  }

  /** Growth succeeds exactly when enough frames are free; otherwise it takes all there are. */
  lemma {:induction false} GrowLoopGrows(used: seq<bool>, frames: map<int, nat>, page: nat, k: nat)
    ensures var g := GrowLoop(used, frames, page, k);
            && Grows(used, frames, page, Got(used, k), g)
            && (g.ok <==> k <= |used| - CountUsed(used))
            && (!g.ok ==> CountUsed(g.used) == |used|)
    decreases k
  {
    hide Grows, CountUsed;
    var f := FirstFree(used);
    FreeCount(used);
    if k == 0 || f == -1 {
      GrowsNone(used, frames, page, GrowLoop(used, frames, page, k));
    } else {
      MarkCount(used, f);
      GrowLoopGrows(used[f := true], frames[page := f], page + 1, k - 1);
      GrowsMore(used, frames, page, f, Got(used, k), GrowLoop(used, frames, page, k));
    }
  }

  lemma GrowsNone(used: seq<bool>, frames: map<int, nat>, page: nat, g: Growth)
    requires g.used == used && g.frames == frames
    ensures Grows(used, frames, page, 0, g)
  {
  }

  lemma GrowsMore(used: seq<bool>, frames: map<int, nat>, page: nat, f: nat, n: nat, g: Growth)
    requires f < |used| && !used[f] && n > 0
    requires Grows(used[f := true], frames[page := f], page + 1, n - 1, g)
    ensures Grows(used, frames, page, n, g)
  {
    assert page in g.frames && g.frames[page] == f;
    forall h | 0 <= h < |used|
      ensures g.used[h] <==> used[h] || Held(g.frames, page, page + n, h)
    {
      assert Held(g.frames, page, page + n, h) <==> h == f || Held(g.frames, page + 1, page + n, h);
    }
  }

  /** `after` is `before` without the marks of the frames of pages `lo` to `hi - 1`. */
  ghost predicate Unmarks(before: seq<bool>, after: seq<bool>, frames: map<int, nat>, lo: int, hi: int) {
    && |after| == |before|
    && forall f :: 0 <= f < |before| ==>
         (after[f] <==> before[f] && !Held(frames, lo, hi, f))
  }

  lemma {:induction false} ReleaseLoopUnmarks(used: seq<bool>, t: PageTable, i: nat)
    requires i <= t.count
    ensures Unmarks(used, ReleaseLoop(used, t, i), t.frames, i, t.count)
    decreases t.count - i
  {
    if i < t.count {
      ReleaseLoopUnmarks(Unmark(used, t.frames, i), t, i + 1);
    }
  }

  /** The pages a shrink by `k` removes: `Low` up to, but not including, `High`. */
  function Low(num: Numbering, count: nat, k: nat): int {
    if num.Written? then count - k + 1 else count - k
  }

  function High(num: Numbering, count: nat, i: nat): int {
    if num.Written? then count - i + 1 else count - i
  }

  lemma {:induction false} ShrinkLoopUnmarks(num: Numbering, used: seq<bool>, frames: map<int, nat>, count: nat,
      i: nat, k: nat)
    requires i <= k
    ensures var (used', frames') := ShrinkLoop(num, used, frames, count, i, k);
            && Unmarks(used, used', frames, Low(num, count, k), High(num, count, i))
            && frames' == map p | p in frames && !(Low(num, count, k) <= p < High(num, count, i)) :: frames[p]
    decreases k - i
  {
    if i < k {
      var page := Victim(num, count, i);
      var rest := frames - {page};
      ShrinkLoopUnmarks(num, Unmark(used, frames, page), rest, count, i + 1, k);
      var lo, hi := Low(num, count, k), High(num, count, i);
      forall f | 0 <= f < |used|
        ensures Held(frames, lo, hi, f) <==> (page in frames && frames[page] == f) || Held(rest, lo, hi - 1, f)
      {
        if Held(frames, lo, hi, f) {
          var p :| lo <= p < hi && p in frames && frames[p] == f;
          assert p == page || p in rest;
        }
        if Held(rest, lo, hi - 1, f) {
          var p :| lo <= p < hi - 1 && p in rest && rest[p] == f;
          assert p in frames && frames[p] == f;
        }
      }
    }
  }
}
