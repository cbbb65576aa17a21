/** Stores and loads as a process makes them: the CPU translates a logical address, through its buffer, and
    the memory follows the page table from there (cpu/src/cpu.c:679-706, memoria/src/memoria.c:430-573). */
module AddressSpace {
  import opened Common
  import opened PagedMemoryModel
  import opened PagedMemoryRuns
  import opened PagedMemoryView
  import opened TlbModel
  import Private = PagedMemoryPrivate
  import Tlb

  datatype Machine = Machine(mem: Private.Sys, tlb: seq<Entry>, nextPid: nat)

  datatype Action =
    | Change(event: Event)
    | Store(pid: nat, l: nat, data: seq<byte>)
    | Load(pid: nat, l: nat, n: nat)

  function Cpu(x: Machine): Tlb.Sys {
    Tlb.Sys(x.mem.m, x.tlb, x.nextPid)
  }

  ghost predicate Sound(num: Numbering, ps: nat, x: Machine) {
    ps > 0 && Private.Sound(num, ps, x.mem) && Tlb.Coherent(Cpu(x))
  }

  /** Page `l / ps` is one that the process has, and its last growth was not refused. */
  predicate Reaches(ps: nat, x: Machine, pid: nat, l: nat)
    requires ps > 0
  {
    pid in x.mem.m.tables && pid !in x.mem.failed && l / ps < Reach(x.mem.m.tables[pid])
  }

  /** Requests move no cached page; stores and loads are made from a page that the process has. */
  predicate Allowed(num: Numbering, ps: nat, x: Machine, a: Action)
    requires ps > 0
  {
    match a
    case Change(e) =>
      && Private.Allowed(ps, x.mem, Private.Change(e))
      && Tlb.Possible(Cpu(x), Tlb.Change(e)) && Tlb.Untouched(num, Cpu(x), e)
    case Store(pid, l, _) => Reaches(ps, x, pid, l)
    case Load(pid, l, _) => Reaches(ps, x, pid, l)
  }

  /** `obtener_direccion_fisica`. */
  function Address(ps: nat, x: Machine, pid: nat, l: nat): int
    requires ps > 0
  {
    Tlb.Address(x.tlb, x.mem.m, ps, pid, l)
  }

  lemma QuotientIs(f: nat, o: nat, ps: nat)
    requires o < ps
    ensures (f * ps + o) / ps == f && (f * ps + o) % ps == o
  {
    var a := f * ps + o;
    AtIsProduct(f, ps);
    LogicalParts(a, ps);
    AtUnique(f, o, a / ps, a % ps, ps);
  }

  /** Whatever the buffer holds, the address is the one the page table gives. */
  lemma AddressIs(num: Numbering, ps: nat, x: Machine, pid: nat, l: nat)
    requires Sound(num, ps, x) && Reaches(ps, x, pid, l)
    ensures Address(ps, x, pid, l) == Physical(x.mem.m.tables[pid], ps, l)
    ensures Address(ps, x, pid, l) / ps == FramesOf(x.mem.m.tables[pid])[l / ps]
    ensures Address(ps, x, pid, l) % ps == l % ps
  {
    hide Safe, AllTidy, Fits, Tlb.AllAgree;
    Tlb.CoherentFrame(Cpu(x), Key(pid, l / ps));
    var f := FramesOf(x.mem.m.tables[pid])[l / ps];
    FrameIs(x.mem.m, pid, l / ps);
    AtIsProduct(f, ps);
    QuotientIs(f, l % ps, ps);
  }

  lemma FrameIs(m: Mem, pid: nat, page: nat)
    requires pid in m.tables && Shape(m.tables[pid]) && page < Reach(m.tables[pid])
    ensures Tlb.AskMemory(m, Key(pid, page)) == FramesOf(m.tables[pid])[page]
  {
  }

  lemma WalkFits(num: Numbering, ps: nat, x: Machine, pid: nat, l: nat)
    requires Sound(num, ps, x) && Reaches(ps, x, pid, l)
    ensures Address(ps, x, pid, l) >= 0
    ensures Inside(|x.mem.space|, ps, Walk(FramesOf(x.mem.m.tables[pid]), Address(ps, x, pid, l) / ps))
  {
    hide Safe, AllTidy, Fits, Shape, Inside, Walk, FramesOf, Tlb.Coherent, Address, Physical;
    AddressIs(num, ps, x, pid, l);
    ReadAt(x.mem.space, ps, x.mem.m, pid, l, 0);
  }

  /** A load's answer, None for OUT_OF_MEMORY. */
  ghost function Loaded(num: Numbering, ps: nat, x: Machine, pid: nat, l: nat, n: nat): Option<seq<byte>>
    requires Sound(num, ps, x) && Reaches(ps, x, pid, l)
  {
    WalkFits(num, ps, x, pid, l);
    var address := Address(ps, x, pid, l);
    ReadLoop(x.mem.space, ps, Walk(FramesOf(x.mem.m.tables[pid]), address / ps), address % ps, n)
  }

  ghost function Act(num: Numbering, policy: Policy, ps: nat, x: Machine, a: Action): Machine
    requires Sound(num, ps, x) && Allowed(num, ps, x, a)
  {
    match a
    case Change(e) =>
      x.(mem := Private.Act(num, ps, x.mem, Private.Change(e)), nextPid := if e.Register?
        then x.nextPid + 1 else x.nextPid)
    case Store(pid, l, data) =>
      WalkFits(num, ps, x, pid, l);
      var address := Address(ps, x, pid, l);
      var w := Walk(FramesOf(x.mem.m.tables[pid]), address / ps);
      x.(mem := x.mem.(space := WriteLoop(x.mem.space, ps, w, address % ps, data).0),
         tlb := Tlb.Used(policy, x.tlb, x.mem.m, Key(pid, l / ps)))
    case Load(pid, l, _) =>
      x.(tlb := Tlb.Used(policy, x.tlb, x.mem.m, Key(pid, l / ps)))
  }

  /** A store through the buffer is a store through the page table. */
  lemma StoreIs(num: Numbering, policy: Policy, ps: nat, x: Machine, pid: nat, l: nat, data: seq<byte>)
    requires Sound(num, ps, x) && Reaches(ps, x, pid, l)
    ensures Private.Allowed(ps, x.mem, Private.Store(pid, l / ps, l % ps, data))
    ensures Act(num, policy, ps, x, Store(pid, l, data)).mem ==
            Private.Act(num, ps, x.mem, Private.Store(pid, l / ps, l % ps, data))
  {
    hide Safe, AllTidy, Fits, Shape, Inside, Walk, FramesOf, Tlb.Coherent, Private.Sound, Address, Physical,
      WriteLoop, Tlb.Used;
    AddressIs(num, ps, x, pid, l);
  }

  /** A load through the buffer is a load from the memory of the process. */
  lemma LoadIs(num: Numbering, ps: nat, x: Machine, pid: nat, l: nat, n: nat)
    requires Sound(num, ps, x) && Reaches(ps, x, pid, l)
    ensures Shape(x.mem.m.tables[pid])
    ensures Loaded(num, ps, x, pid, l, n) == LoadedAt(x.mem.space, ps, x.mem.m, pid, l, n)
  {
    hide Safe, AllTidy, Fits, Shape, Inside, Walk, FramesOf, Tlb.Coherent, Address, Physical, ReadLoop, LoadedAt;
    AddressIs(num, ps, x, pid, l);
    ReadAt(x.mem.space, ps, x.mem.m, pid, l, n);
  }

  lemma ChangeSound(num: Numbering, policy: Policy, ps: nat, x: Machine, e: Event)
    requires Sound(num, ps, x) && Allowed(num, ps, x, Change(e))
    ensures Sound(num, ps, Act(num, policy, ps, x, Change(e)))
  {
    hide Private.Sound, Tlb.Coherent, Tlb.Used, Tlb.Untouched, Tlb.Possible, Private.Act, Private.Allowed, Step,
      WriteLoop, Address;
    Private.ActSound(num, ps, x.mem, Private.Change(e));
    Tlb.ChangeCoherent(num, policy, Cpu(x), e);
    ChangeIs(num, ps, x.mem, e);
  }

  lemma StoreSound(num: Numbering, policy: Policy, ps: nat, x: Machine, pid: nat, l: nat, data: seq<byte>)
    requires Sound(num, ps, x) && Reaches(ps, x, pid, l)
    ensures Sound(num, ps, Act(num, policy, ps, x, Store(pid, l, data)))
  {
    hide Private.Sound, Tlb.Coherent, Tlb.Used, Private.Act, Private.Allowed, WriteLoop, Address, Reach;
    StoreIs(num, policy, ps, x, pid, l, data);
    Private.ActSound(num, ps, x.mem, Private.Store(pid, l / ps, l % ps, data));
    Tlb.CoherentTranslate(policy, Cpu(x), Key(pid, l / ps));
  }

  lemma LoadSound(num: Numbering, policy: Policy, ps: nat, x: Machine, pid: nat, l: nat, n: nat)
    requires Sound(num, ps, x) && Reaches(ps, x, pid, l)
    ensures Sound(num, ps, Act(num, policy, ps, x, Load(pid, l, n)))
  {
    hide Private.Sound, Tlb.Coherent, Tlb.Used, WriteLoop, Address, Reach;
    Tlb.CoherentTranslate(policy, Cpu(x), Key(pid, l / ps));
  }

  lemma ActSound(num: Numbering, policy: Policy, ps: nat, x: Machine, a: Action)
    requires Sound(num, ps, x) && Allowed(num, ps, x, a)
    ensures Sound(num, ps, Act(num, policy, ps, x, a))
  {
    hide Sound, Act, Reaches, Tlb.Untouched, Tlb.Possible, Private.Allowed;
    match a
    case Change(e) => ChangeSound(num, policy, ps, x, e);
    case Store(pid, l, data) => StoreSound(num, policy, ps, x, pid, l, data);
    case Load(pid, l, n) => LoadSound(num, policy, ps, x, pid, l, n);
  }

  lemma ChangeIs(num: Numbering, ps: nat, s: Private.Sys, e: Event)
    requires Private.Sound(num, ps, s) && Private.Allowed(ps, s, Private.Change(e))
    ensures Private.Act(num, ps, s, Private.Change(e)).m == Step(num, s.m, e)
    ensures Private.Act(num, ps, s, Private.Change(e)).space == s.space
  {
  }

  // ----- Runs -----

  ghost predicate Runs(num: Numbering, policy: Policy, ps: nat, x: Machine, acts: seq<Action>, y: Machine)
    decreases |acts|
  {
    if acts == [] then y == x
    else
      && Sound(num, ps, x) && Allowed(num, ps, x, acts[0])
      && Runs(num, policy, ps, Act(num, policy, ps, x, acts[0]), acts[1..], y)
  }

  /** The action is another process's, or only loads. */
  predicate Spares(a: Action, q: nat) {
    match a
    case Change(e) => e.pid != q
    case Store(pid, _, _) => pid != q
    case Load(_, _, _) => true
  }

  /** Process `q` is the same in both: its page table, its bytes, and that it has not failed. */
  ghost predicate SameProcess(num: Numbering, ps: nat, x: Machine, y: Machine, q: nat) {
    && Sound(num, ps, x) && Sound(num, ps, y)
    && q in x.mem.m.tables && q in y.mem.m.tables && q !in x.mem.failed && q !in y.mem.failed
    && y.mem.m.tables[q] == x.mem.m.tables[q]
    && Private.Memory(num, ps, y.mem, q) == Private.Memory(num, ps, x.mem, q)
  }

  lemma ActSpares(num: Numbering, policy: Policy, ps: nat, x: Machine, a: Action, q: nat)
    requires Sound(num, ps, x) && Allowed(num, ps, x, a) && Spares(a, q)
    requires q in x.mem.m.tables && q !in x.mem.failed
    ensures SameProcess(num, ps, x, Act(num, policy, ps, x, a), q)
  {
    hide Private.Sound, Tlb.Coherent, Tlb.Used, Tlb.Untouched, Tlb.Possible, Private.Memory, Step, WriteLoop, Address,
      Reach;
    ActSound(num, policy, ps, x, a);
    match a
    case Change(e) =>
      Private.OthersKeep(num, ps, x.mem, Private.Change(e), q);
      Private.ChangeOthers(num, x.mem.m, e, q);
      ChangeIs(num, ps, x.mem, e);
    case Store(pid, l, data) =>
      StoreIs(num, policy, ps, x, pid, l, data);
      Private.OthersKeep(num, ps, x.mem, Private.Store(pid, l / ps, l % ps, data), q);
    case Load(_, _, _) =>
  }

  lemma SameTwice(num: Numbering, ps: nat, x: Machine, y: Machine, z: Machine, q: nat)
    requires SameProcess(num, ps, x, y, q) && SameProcess(num, ps, y, z, q)
    ensures SameProcess(num, ps, x, z, q)
  {
  }

  lemma {:induction false} RunSpares(num: Numbering, policy: Policy, ps: nat, x: Machine, acts: seq<Action>,
                                     y: Machine, q: nat)
    requires Sound(num, ps, x) && Runs(num, policy, ps, x, acts, y) && q in x.mem.m.tables && q !in x.mem.failed
    requires forall i :: 0 <= i < |acts| ==> Spares(acts[i], q)
    ensures SameProcess(num, ps, x, y, q)
    decreases |acts|
  {
    hide Sound, Allowed, Act, Private.Memory;
    if acts != [] {
      ActSpares(num, policy, ps, x, acts[0], q);
      var mid := Act(num, policy, ps, x, acts[0]);
      RunSpares(num, policy, ps, mid, acts[1..], y, q);
      SameTwice(num, ps, x, mid, y, q);
    }
  }

  /** What a process stores at a logical address, it loads from there: through a buffer of any size under either
      policy, whatever the other processes stored, grew, shrank and released in between, as long as no request
      moved a page that was cached. Each page's part comes back up to its first zero. */
  lemma StoreThenLoad(num: Numbering, policy: Policy, ps: nat, x: Machine, p: nat, l: nat, data: seq<byte>,
                      acts: seq<Action>, y: Machine)
    requires Sound(num, ps, x) && Reaches(ps, x, p, l) && l + |data| <= At(Reach(x.mem.m.tables[p]), ps)
    requires Runs(num, policy, ps, Act(num, policy, ps, x, Store(p, l, data)), acts, y)
    requires forall i :: 0 <= i < |acts| ==> Spares(acts[i], p)
    ensures Sound(num, ps, y) && Reaches(ps, y, p, l)
    ensures Loaded(num, ps, y, p, l, |data|) == Some(CutPages(data, ps - l % ps, ps))
    ensures Loaded(num, ps, y, p, l, |data|) == Some(data) <==> 0 !in data
  {
    hide Private.Sound, Tlb.Coherent, Tlb.Used, Private.Memory, Runs, WriteLoop, Address, Loaded, LoadedAt, CutPages,
      Reach, At, Private.Act;
    var z := Act(num, policy, ps, x, Store(p, l, data));
    ActSound(num, policy, ps, x, Store(p, l, data));
    StoreIs(num, policy, ps, x, p, l, data);
    RunSpares(num, policy, ps, z, acts, y, p);
    LoadIs(num, ps, y, p, l, |data|);
    LoadedAfter(num, ps, x, y, p, l, data);
    CutPagesIs(data, ps - l % ps, ps);
  }

  lemma StoreEffect(num: Numbering, ps: nat, s: Private.Sys, p: nat, l: nat, data: seq<byte>)
    requires ps > 0 && Private.Sound(num, ps, s)
    requires Private.Allowed(ps, s, Private.Store(p, l / ps, l % ps, data)) && l <= At(Reach(s.m.tables[p]), ps)
    ensures var t := Private.Act(num, ps, s, Private.Store(p, l / ps, l % ps, data));
            && t.m == s.m && t.failed == s.failed && |t.space| == |s.space|
            && Safe(s.m) && Fits(s.space, ps, s.m) && Shape(s.m.tables[p])
            && StoredAt(s.space, t.space, ps, s.m, p, l, data)
  {
    hide Safe, AllTidy, Fits, Shape, Reach, At, WriteLoop, Walk, FramesOf, StoredAt;
    WriteAt(s.space, ps, s.m, p, l, data);
  }

  /** A load depends on nothing but the memory of the process. */
  lemma LoadedSame(ps: nat, a: seq<byte>, m: Mem, b: seq<byte>, m': Mem, p: nat, l: nat, n: nat)
    requires ps > 0 && Safe(m) && Fits(a, ps, m) && Safe(m') && Fits(b, ps, m')
    requires p in m.tables && p in m'.tables && m'.tables[p] == m.tables[p] && Shape(m.tables[p])
    requires Flat(a, ps, m, p) == Flat(b, ps, m', p)
    ensures LoadedAt(a, ps, m, p, l, n) == LoadedAt(b, ps, m', p, l, n)
  {
    hide Safe, Fits, Shape, Reach, At, CutPages;
  }

  lemma LoadedAfter(num: Numbering, ps: nat, x: Machine, y: Machine, p: nat, l: nat, data: seq<byte>)
    requires Sound(num, ps, x) && Reaches(ps, x, p, l) && l + |data| <= At(Reach(x.mem.m.tables[p]), ps)
    requires Private.Allowed(ps, x.mem, Private.Store(p, l / ps, l % ps, data))
    requires var s := Private.Act(num, ps, x.mem, Private.Store(p, l / ps, l % ps, data));
             && Private.Sound(num, ps, s) && Private.Sound(num, ps, y.mem)
             && p in y.mem.m.tables && p !in y.mem.failed && y.mem.m.tables[p] == x.mem.m.tables[p]
             && Private.Memory(num, ps, y.mem, p) == Private.Memory(num, ps, s, p)
    ensures Shape(y.mem.m.tables[p])
    ensures LoadedAt(y.mem.space, ps, y.mem.m, p, l, |data|) == Some(CutPages(data, ps - l % ps, ps))
  {
    hide Safe, AllTidy, Fits, Shape, Tlb.Coherent, CutPages, Reach, At, WriteLoop, Flat, StoredAt, LoadedAt,
      Private.Act;
    var s := Private.Act(num, ps, x.mem, Private.Store(p, l / ps, l % ps, data));
    StoreEffect(num, ps, x.mem, p, l, data);
    LoadStored(x.mem.space, s.space, ps, x.mem.m, p, l, data);
    LoadedSame(ps, s.space, s.m, y.mem.space, y.mem.m, p, l, |data|);
  }
}
