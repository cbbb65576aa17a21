/** Address translation through the buffer (cpu/src/cpu.c:374-475, 674-706), and its agreement with
    the page tables of the memory. */
module Tlb {
  import opened Common
  import opened PagedMemoryModel
  import opened PagedMemoryRuns
  import opened PagedMemoryView
  import opened TlbModel

  /** `enviar_marco`: what the memory answers for a page, -1 when it is not mapped. */
  function AskMemory(m: Mem, k: Key): int {
    if k.pid in m.tables then FrameOrNone(m.tables[k.pid], k.page) else -1
  }

  /** The frame a translation works with: the cached one, or else the memory's. */
  function Frame(es: seq<Entry>, m: Mem, k: Key): int {
    if Lookup(es, k) != -1 then Lookup(es, k) else AskMemory(m, k)
  }

  /** The buffer after a translation; with no entries, or for an unmapped page, it is left alone. */
  function Used(policy: Policy, es: seq<Entry>, m: Mem, k: Key): seq<Entry> {
    var f := Frame(es, m, k);
    if es == [] || f < 0 then es else Replace(policy, es, k, f)
  }

  /** The physical address of a logical one, or -1. */
  function Address(es: seq<Entry>, m: Mem, ps: nat, pid: nat, l: nat): int
    requires ps > 0
  {
    var f := Frame(es, m, Key(pid, l / ps));
    if f < 0 then -1 else f * ps + l % ps
  }

  class TlbUnit {
    const policy: Policy
    const pageSize: nat
    var entries: seq<Entry>

    /** `inicializar_tlb`. */
    constructor (policy: Policy, pageSize: nat, n: nat)
      requires pageSize > 0
      ensures this.policy == policy && this.pageSize == pageSize && entries == Repeat(n, BLANK)
    {
      this.policy := policy;
      this.pageSize := pageSize;
      entries := [];
      new;
      for i := 0 to n
        invariant entries == Repeat(i, BLANK)
      {
        entries := entries + [BLANK];
      }
    }

    /** `list_find` over the entries, -1 for none. */
    method Search(k: Key) returns (at: int)
      ensures at == Find(entries, k)
    {
      at := -1;
      var i := 0;
      while i < |entries|
        invariant i <= |entries| && at == -1
        invariant forall j :: 0 <= j < i ==> KeyOf(entries[j]) != k
      {
        if KeyOf(entries[i]) == k {
          assert Keys(entries)[i] == k;
          return i;
        }
        i := i + 1;
      }
    }

    /** `buscar_en_tlb`. */
    method Cached(k: Key) returns (frame: int)
      ensures frame == Lookup(entries, k)
    {
      var at := Search(k);
      frame := if at == -1 then -1 else entries[at].frame;
    }

    /** `reemplazar_en_tlb`. */
    method Refresh(k: Key, frame: nat)
      requires entries != []
      modifies this
      ensures entries == Replace(policy, old(entries), k, frame)
    {
      var at := Search(k);
      match policy {
        case Fifo =>
          if at == -1 {
            entries := entries[1..] + [Entry(k.pid, k.page, frame)];
          }
        case Lru =>
          if at == -1 {
            entries := entries[1..] + [Entry(k.pid, k.page, frame)];
          } else {
            var again := entries[at];
            entries := RemoveAt(entries, at) + [again];
          }
      }
    }

    /** `obtener_direccion_fisica`: the physical address of a logical one, or -1. */
    method Translate(m: Mem, pid: nat, address: nat) returns (physical: int)
      requires pageSize > 0
      modifies this
      ensures entries == Used(policy, old(entries), m, Key(pid, address / pageSize))
      ensures physical == Address(old(entries), m, pageSize, pid, address)
    {
      var page := address / pageSize;
      var k := Key(pid, page);
      var frame := -1;
      if entries != [] {
        frame := Cached(k);
      }
      if frame == -1 {
        frame := AskMemory(m, k);
      }
      if frame != -1 {
        assert address - page * pageSize == address % pageSize;
        physical := frame * pageSize + (address - page * pageSize);
        if entries != [] {
          Refresh(k, frame);
        }
      } else {
        physical := -1;
      }
    }
  }

  // ----- Agreement with the page tables -----

  /** A run of the CPU and the memory. Pids are given in order from 1 (`contador_pid`). */
  datatype Sys = Sys(m: Mem, tlb: seq<Entry>, nextPid: nat)

  datatype Action =
    | Change(event: Event)
    | Translate(k: Key)

  /** Creation uses the next pid, a process that is resized exists, and only live processes translate. */
  predicate Possible(s: Sys, a: Action) {
    match a
    case Change(Register(pid)) => pid == s.nextPid
    case Change(Release(pid)) => true
    case Change(Resize(pid, pages)) => pid in s.m.tables
    case Translate(k) => k.pid in s.m.tables
  }

  /** The pages of a process to which a request gives another frame, or none: those that a shrink removes,
      and those that a growth fills although a shrink of the code as written had left one behind. */
  predicate Moves(num: Numbering, m: Mem, e: Event, page: int) {
    && e.Resize? && e.pid in m.tables
    && var count := m.tables[e.pid].count;
       if e.pages < count then Low(num, count, count - e.pages) <= page < High(num, count, 0)
       else count <= page < count + Got(m.used, e.pages - count)
  }

  /** No cached page of the process is one that the request moves. */
  predicate Untouched(num: Numbering, s: Sys, e: Event) {
    forall i :: 0 <= i < |s.tlb| && s.tlb[i].pid in s.m.tables && s.tlb[i].pid == e.pid ==>
      !Moves(num, s.m, e, s.tlb[i].page)
  }

  function Act(num: Numbering, policy: Policy, s: Sys, a: Action): Sys
    requires Possible(s, a)
  {
    match a
    case Change(e) => s.(m := Step(num, s.m, e), nextPid := if e.Register? then s.nextPid + 1 else s.nextPid)
    case Translate(k) => s.(tlb := Used(policy, s.tlb, s.m, k))
  }

  /** Every cached entry of a live process says what its page table says; processes have pids below
      the next one, and no frame is shared. */
  ghost predicate Coherent(s: Sys) {
    && s.nextPid > 0
    && (forall p :: p in s.m.tables ==> 0 < p < s.nextPid)
    && Safe(s.m)
    && (forall i :: 0 <= i < |s.tlb| ==> s.tlb[i].pid < s.nextPid)
    && AllAgree(s.m, s.tlb)
  }

  predicate AllAgree(m: Mem, es: seq<Entry>) {
    forall i :: 0 <= i < |es| && es[i].pid in m.tables ==> Agrees(m, es[i])
  }

  predicate Agrees(m: Mem, e: Entry) {
    Mapped(m, e.pid, e.page) && FrameAt(m, e.pid, e.page) == e.frame
  }

  lemma CoherentFrame(s: Sys, k: Key)
    requires Coherent(s) && k.pid in s.m.tables
    ensures Frame(s.tlb, s.m, k) == AskMemory(s.m, k)
  {
    var i := Find(s.tlb, k);
    if i != -1 {
      assert Agrees(s.m, s.tlb[i]);
    }
  }

  /** A replacement brings in no entry but the new one. */
  lemma ReplaceMembers(policy: Policy, es: seq<Entry>, k: Key, frame: nat)
    requires es != []
    ensures forall e :: e in Replace(policy, es, k, frame) ==> e in es || e == Entry(k.pid, k.page, frame)
  {
  }

  lemma CoherentTranslate(policy: Policy, s: Sys, k: Key)
    requires Coherent(s) && k.pid in s.m.tables
    ensures Coherent(s.(tlb := Used(policy, s.tlb, s.m, k)))
  {
    hide Replace, Lookup;
    CoherentFrame(s, k);
    var f := Frame(s.tlb, s.m, k);
    if s.tlb != [] && f >= 0 {
      var after := Replace(policy, s.tlb, k, f);
      ReplaceMembers(policy, s.tlb, k, f);
      assert Agrees(s.m, Entry(k.pid, k.page, f));
      forall j | 0 <= j < |after|
        ensures after[j].pid < s.nextPid && (after[j].pid in s.m.tables ==> Agrees(s.m, after[j]))
      {
        assert after[j] in after;
        if after[j] in s.tlb {
          var h :| 0 <= h < |s.tlb| && s.tlb[h] == after[j];
        }
      }
    }
  }

  // ----- Requests -----

  /** A page that is not moved keeps its frame. */
  lemma PageStays(num: Numbering, s: Sys, e: Event, pid: nat, page: nat)
    requires Coherent(s) && Possible(s, Change(e)) && Mapped(s.m, pid, page)
    requires pid in Step(num, s.m, e).tables && !(pid == e.pid && Moves(num, s.m, e, page))
    ensures Mapped(Step(num, s.m, e), pid, page) && FrameAt(Step(num, s.m, e), pid, page) == FrameAt(s.m, pid, page)
  {
    hide AllAgree, Safe;
    if e.Resize? && pid == e.pid {
      var t := s.m.tables[pid];
      if t.count < e.pages {
        GrowLoopGrows(s.m.used, t.frames, t.count, e.pages - t.count);
      } else if e.pages < t.count {
        ShrinkLoopUnmarks(num, s.m.used, t.frames, t.count, 0, t.count - e.pages);
      }
    }
  }

  /** A page that is moved is no longer mapped, or to a frame that was free. */
  lemma PageMoves(num: Numbering, m: Mem, e: Event, page: nat)
    requires Safe(m) && Served(m, e) && Moves(num, m, e, page) && Mapped(m, e.pid, page)
    ensures Mapped(Step(num, m, e), e.pid, page) ==> FrameAt(Step(num, m, e), e.pid, page) != FrameAt(m, e.pid, page)
  {
    var t := m.tables[e.pid];
    if t.count < e.pages {
      GrowLoopGrows(m.used, t.frames, t.count, e.pages - t.count);
    } else if e.pages < t.count {
      ShrinkLoopUnmarks(num, m.used, t.frames, t.count, 0, t.count - e.pages);
    }
  }

  /** A request leaves every cached entry of a live process right if and only if no page that it moves is cached. */
  lemma ChangeAgreesIff(num: Numbering, s: Sys, e: Event)
    requires Coherent(s) && Possible(s, Change(e))
    ensures AllAgree(Step(num, s.m, e), s.tlb) <==> Untouched(num, s, e)
  {
    hide Safe, Moves, Step, Mapped;
    var m' := Step(num, s.m, e);
    Tables(num, s.m, e);
    if Untouched(num, s, e) {
      forall i | 0 <= i < |s.tlb| && s.tlb[i].pid in m'.tables ensures Agrees(m', s.tlb[i]) {
        OldEntry(num, s, e, i);
        PageStays(num, s, e, s.tlb[i].pid, s.tlb[i].page);
      }
    } else {
      var i :| 0 <= i < |s.tlb| && s.tlb[i].pid in s.m.tables && s.tlb[i].pid == e.pid &&
        Moves(num, s.m, e, s.tlb[i].page);
      MovesResize(num, s.m, e, s.tlb[i].page);
      PageMoves(num, s.m, e, s.tlb[i].page);
    }
  }

  /** Only a request for a process adds or removes its table. */
  lemma Tables(num: Numbering, m: Mem, e: Event)
    requires Served(m, e)
    ensures forall p :: p in Step(num, m, e).tables <==>
            (e.Register? && p == e.pid) || (p in m.tables && !(e.Release? && p == e.pid))
  {
  }

  lemma MovesResize(num: Numbering, m: Mem, e: Event, page: int)
    requires Moves(num, m, e, page)
    ensures e.Resize? && e.pid in m.tables
  {
  }

  /** An entry of a process that lives on is of a process that lived before. */
  lemma OldEntry(num: Numbering, s: Sys, e: Event, i: nat)
    requires Coherent(s) && Possible(s, Change(e)) && i < |s.tlb| && s.tlb[i].pid in Step(num, s.m, e).tables
    ensures s.tlb[i].pid in s.m.tables && Agrees(s.m, s.tlb[i])
  {
    Tables(num, s.m, e);
  }

  /** The condition for a shrink in the code's terms: RESIZE to `pages` keeps the buffer right if and only if no
      cached page of the process is among those removed. */
  lemma ShrinkAgreesIff(num: Numbering, s: Sys, pid: int, pages: nat)
    requires Coherent(s) && pid in s.m.tables && pages < s.m.tables[pid].count
    ensures var count := s.m.tables[pid].count;
            AllAgree(Step(num, s.m, Resize(pid, pages)), s.tlb) <==>
            forall i :: 0 <= i < |s.tlb| && s.tlb[i].pid == pid ==>
              !(Low(num, count, count - pages) <= s.tlb[i].page < High(num, count, 0))
  {
    ChangeAgreesIff(num, s, Resize(pid, pages));
  }

  /** Entries with one key, if they agree, hold one frame, so every translation after a request is right if and
      only if every entry is. */
  lemma TranslationsIff(m: Mem, m': Mem, es: seq<Entry>)
    requires AllAgree(m, es) && forall i :: 0 <= i < |es| && es[i].pid in m'.tables ==> es[i].pid in m.tables
    ensures AllAgree(m', es) <==> forall k: Key :: k.pid in m'.tables ==> Frame(es, m', k) == AskMemory(m', k)
  {
    if AllAgree(m', es) {
      forall k: Key | k.pid in m'.tables ensures Frame(es, m', k) == AskMemory(m', k) {
        var i := Find(es, k);
        if i != -1 {
          assert Agrees(m', es[i]);
        }
      }
    } else {
      var i :| 0 <= i < |es| && es[i].pid in m'.tables && !Agrees(m', es[i]);
      var k := KeyOf(es[i]);
      assert Keys(es)[i] == k;
      var j := Find(es, k);
      assert Agrees(m, es[i]) && Agrees(m, es[j]);
      assert Frame(es, m', k) == es[i].frame != AskMemory(m', k);
    }
  }

  lemma ChangeCoherent(num: Numbering, policy: Policy, s: Sys, e: Event)
    requires Coherent(s) && Possible(s, Change(e)) && Untouched(num, s, e)
    ensures Coherent(Act(num, policy, s, Change(e)))
  {
    hide Safe, AllAgree, Step, Untouched;
    ChangeAgreesIff(num, s, e);
    Tables(num, s.m, e);
    StepKeeps(num, s.m, e);
  }

  /** Creation, release and, of a process with no page beyond its count, growth never move a cached page. */
  lemma OnlyShrinksMove(num: Numbering, s: Sys, e: Event)
    requires Coherent(s) && Possible(s, Change(e))
    requires e.Resize? ==> s.m.tables[e.pid].count <= e.pages && Tidy(s.m.tables[e.pid])
    ensures Untouched(num, s, e)
  {
    if e.Resize? {
      forall i | 0 <= i < |s.tlb| && s.tlb[i].pid in s.m.tables && s.tlb[i].pid == e.pid
        ensures !Moves(num, s.m, e, s.tlb[i].page)
      {
        assert Agrees(s.m, s.tlb[i]);
      }
    }
  }

  // ----- Transparency -----

  /** The frames that the translations of a run work with, in order, up to the first action that is not possible. */
  ghost function Frames(num: Numbering, policy: Policy, s: Sys, acts: seq<Action>): seq<int>
    decreases |acts|
  {
    if acts == [] || !Possible(s, acts[0]) then []
    else
      (if acts[0].Translate? then [Frame(s.tlb, s.m, acts[0].k)] else []) +
      Frames(num, policy, Act(num, policy, s, acts[0]), acts[1..])
  }

  /** No request of a run moves a page that is cached when it comes. */
  ghost predicate Careful(num: Numbering, policy: Policy, s: Sys, acts: seq<Action>)
    decreases |acts|
  {
    acts == [] || !Possible(s, acts[0]) ||
    ((acts[0].Change? ==> Untouched(num, s, acts[0].event)) &&
      Careful(num, policy, Act(num, policy, s, acts[0]), acts[1..]))
  }

  /** In every run where no request moves a cached page, a buffer of any size under either policy changes no
      translation: the frames are those of a run without one. */
  lemma {:induction false} Transparent(num: Numbering, policy: Policy, s: Sys, acts: seq<Action>)
    requires Coherent(s) && Careful(num, policy, s, acts)
    ensures Frames(num, policy, s, acts) == Frames(num, policy, s.(tlb := []), acts)
    decreases |acts|
  {
    hide Coherent, Untouched, Step, Used, Frame;
    var bare := s.(tlb := []);
    if acts != [] && Possible(s, acts[0]) {
      var s' := Act(num, policy, s, acts[0]);
      match acts[0] {
        case Change(e) => ChangeCoherent(num, policy, s, e);
        case Translate(k) =>
          CoherentFrame(s, k);
          CoherentTranslate(policy, s, k);
          Bare(policy, s.m, k);
      }
      assert Act(num, policy, bare, acts[0]) == s'.(tlb := []);
      Transparent(num, policy, s', acts[1..]);
    }
  }

  lemma Bare(policy: Policy, m: Mem, k: Key)
    ensures Frame([], m, k) == AskMemory(m, k) && Used(policy, [], m, k) == []
  {
    assert Find([], k) == -1;
  }

  /** The first request that moves a cached page shows: a translation just after it goes wrong. */
  lemma CarelessShows(num: Numbering, policy: Policy, s: Sys, e: Event)
    requires Coherent(s) && Possible(s, Change(e))
    ensures var s' := Act(num, policy, s, Change(e));
            Untouched(num, s, e) <==> forall k: Key :: k.pid in s'.m.tables ==>
              Frame(s'.tlb, s'.m, k) == AskMemory(s'.m, k)
  {
    hide Safe, AllAgree, Step, Untouched, Frame, AskMemory;
    ChangeAgreesIff(num, s, e);
    forall i | 0 <= i < |s.tlb| && s.tlb[i].pid in Step(num, s.m, e).tables ensures s.tlb[i].pid in s.m.tables {
      OldEntry(num, s, e, i);
    }
    CoherentAgrees(s);
    TranslationsIff(s.m, Step(num, s.m, e), s.tlb);
  }

  lemma CoherentAgrees(s: Sys)
    requires Coherent(s)
    ensures AllAgree(s.m, s.tlb)
  {
  }

  // ----- What the buffer holds over a run -----

  /** The state a run leads to, up to the first action that is not possible. */
  ghost function Final(num: Numbering, policy: Policy, s: Sys, acts: seq<Action>): Sys
    decreases |acts|
  {
    if acts == [] || !Possible(s, acts[0]) then s else Final(num, policy, Act(num, policy, s, acts[0]), acts[1..])
  }

  /** The translations of mapped pages in a run, with the frames of the page tables. */
  ghost function Translations(num: Numbering, s: Sys, acts: seq<Action>): seq<Use>
    decreases |acts|
  {
    if acts == [] || !Possible(s, acts[0]) then []
    else
      match acts[0]
      case Change(e) => Translations(num, Act(num, Fifo, s, acts[0]), acts[1..])
      case Translate(k) =>
        var f := AskMemory(s.m, k);
        (if f < 0 then [] else [Use(k, f)]) + Translations(num, s, acts[1..])
  }

  /** The translations do not depend on the buffer. */
  lemma {:induction false} TranslationsSame(num: Numbering, s: Sys, t: Sys, acts: seq<Action>)
    requires t.m == s.m && t.nextPid == s.nextPid
    ensures Translations(num, s, acts) == Translations(num, t, acts)
    decreases |acts|
  {
    hide Step;
    if acts != [] && Possible(s, acts[0]) {
      match acts[0]
      case Change(e) => TranslationsSame(num, Act(num, Fifo, s, acts[0]), Act(num, Fifo, t, acts[0]), acts[1..]);
      case Translate(k) => TranslationsSame(num, s, t, acts[1..]);
    }
  }

  lemma AfterMore(policy: Policy, us: seq<Use>, u: Use, n: nat)
    ensures After(policy, us + [u], n) == if n == 0 then [] else Replace(policy, After(policy, us, n), u.key, u.frame)
  {
    assert (us + [u])[..|us|] == us;
  }

  lemma RealMore(us: seq<Use>, u: Use)
    requires Real(UseKeys(us)) && u.key.pid > 0
    ensures Real(UseKeys(us + [u]))
  {
    assert forall i :: 0 <= i < |us| ==> UseKeys(us + [u])[i] == UseKeys(us)[i];
  }

  /** One translation, hit or miss, is one replacement; none, for an unmapped page. */
  lemma UsedIs(policy: Policy, s: Sys, us: seq<Use>, k: Key, n: nat)
    requires Coherent(s) && k.pid in s.m.tables && s.tlb == After(policy, us, n) && Real(UseKeys(us))
    ensures var f := AskMemory(s.m, k);
            && (f < 0 ==> Used(policy, s.tlb, s.m, k) == s.tlb)
            && (f >= 0 ==>
                 && Used(policy, s.tlb, s.m, k) == After(policy, us + [Use(k, f)], n)
                 && Real(UseKeys(us + [Use(k, f)])))
  {
    hide After, Replace, Frame, AskMemory, Real, AllAgree, Safe;
    CoherentFrame(s, k);
    var f := AskMemory(s.m, k);
    if f >= 0 {
      AfterMore(policy, us, Use(k, f), n);
      RealMore(us, Use(k, f));
    }
  }

  /** Over any run in which no request moves a cached page, the buffer is what the translations of mapped pages,
      hits too, make of it. */
  lemma {:induction false} HoldsTranslations(num: Numbering, policy: Policy, s: Sys, us: seq<Use>, n: nat,
      acts: seq<Action>)
    requires Coherent(s) && Careful(num, policy, s, acts) && s.tlb == After(policy, us, n) && Real(UseKeys(us))
    ensures var all := us + Translations(num, s, acts);
            Real(UseKeys(all)) && Final(num, policy, s, acts).tlb == After(policy, all, n)
    decreases |acts|
  {
    hide Coherent, Untouched, Step, Used, After, Real;
    if acts == [] || !Possible(s, acts[0]) {
      assert us + [] == us;
    } else {
      var s' := Act(num, policy, s, acts[0]);
      match acts[0]
      case Change(e) =>
        ChangeCoherent(num, policy, s, e);
        HoldsTranslations(num, policy, s', us, n, acts[1..]);
        assert s' == Act(num, Fifo, s, acts[0]);
      case Translate(k) =>
        CoherentTranslate(policy, s, k);
        UsedIs(policy, s, us, k, n);
        TranslationsSame(num, s, s', acts[1..]);
        var head := if AskMemory(s.m, k) < 0 then [] else [Use(k, AskMemory(s.m, k))];
        Assoc(us, head, Translations(num, s', acts[1..]));
        assert us + [] == us;
        HoldsTranslations(num, policy, s', us + head, n, acts[1..]);
    }
  }

  /** From the start, the buffer holds the last `n` distinct pages translated in order of last use under LRU, and the
      last `n` loaded under FIFO. */
  lemma HeldFromStart(num: Numbering, policy: Policy, frames: nat, n: nat, acts: seq<Action>)
    requires Careful(num, policy, Start(frames, n), acts)
    ensures var s := Start(frames, n);
            Keys(Final(num, policy, s, acts).tlb) == TlbModel.Held(policy, UseKeys(Translations(num, s, acts)), n)
  {
    hide Coherent, Careful, Final, Translations, TlbModel.Held;
    StartsCoherent(frames, n);
    HoldsTranslations(num, policy, Start(frames, n), [], n, acts);
    var us := Translations(num, Start(frames, n), acts);
    assert [] + us == us;
    Contents(policy, us, n);
  }

  /** For the same run, the LRU buffer of `n` entries is that of `n + 1` without its first: whatever hits in the one
      hits in the other. */
  lemma InclusionFromStart(num: Numbering, frames: nat, n: nat, acts: seq<Action>)
    requires Careful(num, Lru, Start(frames, n), acts) && Careful(num, Lru, Start(frames, n + 1), acts)
    ensures var small, large := Final(num, Lru, Start(frames, n), acts).tlb,
            Final(num, Lru, Start(frames, n + 1), acts).tlb;
            && |large| == n + 1 && Keys(small) == Keys(large)[1..]
            && forall k: Key :: Find(small, k) != -1 ==> Find(large, k) != -1
  {
    hide Coherent, Careful, Final, Translations;
    StartsCoherent(frames, n);
    StartsCoherent(frames, n + 1);
    HoldsTranslations(num, Lru, Start(frames, n), [], n, acts);
    HoldsTranslations(num, Lru, Start(frames, n + 1), [], n + 1, acts);
    TranslationsSame(num, Start(frames, n), Start(frames, n + 1), acts);
    var us := Translations(num, Start(frames, n), acts);
    assert [] + us == us;
    LruInclusion(us, n);
  }

  /** The state the system starts in. */
  function Start(frames: nat, n: nat): Sys {
    Sys(Mem(Repeat(frames, false), map[]), Repeat(n, BLANK), 1)
  }

  lemma StartsCoherent(frames: nat, n: nat)
    ensures Coherent(Start(frames, n))
  {
  }

  /** No request of the run is a RESIZE below the page count. */
  ghost predicate NoShrink(num: Numbering, policy: Policy, s: Sys, acts: seq<Action>)
    decreases |acts|
  {
    acts == [] || !Possible(s, acts[0]) ||
    ((acts[0].Change? && acts[0].event.Resize? ==> s.m.tables[acts[0].event.pid].count <= acts[0].event.pages) &&
     NoShrink(num, policy, Act(num, policy, s, acts[0]), acts[1..]))
  }

  lemma GrowthTidy(num: Numbering, m: Mem, e: Event)
    requires AllTidy(m) && Served(m, e) && (e.Resize? ==> m.tables[e.pid].count <= e.pages)
    ensures AllTidy(Step(num, m, e))
  {
    if e.Resize? && m.tables[e.pid].count < e.pages {
      GrowLoopGrows(m.used, m.tables[e.pid].frames, m.tables[e.pid].count, e.pages - m.tables[e.pid].count);
    }
  }

  /** Runs without shrinks are careful. */
  lemma {:induction false} NoShrinkCareful(num: Numbering, policy: Policy, s: Sys, acts: seq<Action>)
    requires Coherent(s) && AllTidy(s.m) && NoShrink(num, policy, s, acts)
    ensures Careful(num, policy, s, acts)
    decreases |acts|
  {
    hide Coherent, Untouched, Step, Used, Tidy;
    if acts != [] && Possible(s, acts[0]) {
      match acts[0] {
        case Change(e) =>
          OnlyShrinksMove(num, s, e);
          GrowthTidy(num, s.m, e);
          ChangeCoherent(num, policy, s, e);
        case Translate(k) => CoherentTranslate(policy, s, k);
      }
      NoShrinkCareful(num, policy, Act(num, policy, s, acts[0]), acts[1..]);
    }
  }

  /** From the start, in every run without shrinks, `n` entries translate as none do. */
  lemma TransparentFromStart(num: Numbering, policy: Policy, frames: nat, n: nat, acts: seq<Action>)
    requires NoShrink(num, policy, Start(frames, n), acts)
    ensures Frames(num, policy, Start(frames, n), acts) == Frames(num, policy, Start(frames, 0), acts)
  {
    hide Coherent, NoShrink, Frames;
    StartsCoherent(frames, n);
    NoShrinkCareful(num, policy, Start(frames, n), acts);
    Transparent(num, policy, Start(frames, n), acts);
    assert Repeat(0, BLANK) == [];
  }

  /** A shrink that moves a cached page, under either numbering: a process of two pages whose page 1 is
      cached shrinks to none, and the buffer still translates the page that the memory denies. */
  lemma ShrinkBreaksIt(num: Numbering)
    ensures var m := Mem([true, true], map[1 := PageTable(2, map[0 := 0, 1 := 1])]);
            var s := Sys(m, [Entry(1, 1, 1)], 2);
            var m' := Step(num, m, Resize(1, 0));
            && Coherent(s)
            && Frame(s.tlb, m', Key(1, 1)) == 1 && AskMemory(m', Key(1, 1)) == -1
  {
    hide Safe, ShrinkLoop;
    var m := Mem([true, true], map[1 := PageTable(2, map[0 := 0, 1 := 1])]);
    TwoPagesSafe();
    assert Agrees(m, Entry(1, 1, 1));
    ShrinkLoopUnmarks(num, m.used, m.tables[1].frames, 2, 0, 2);
    FirstInWindow([Entry(1, 1, 1)], Key(1, 1), 0);
  }

  lemma TwoPagesSafe()
    ensures Safe(Mem([true, true], map[1 := PageTable(2, map[0 := 0, 1 := 1])]))
  {
    hide ShrinkLoop;
  }
}
