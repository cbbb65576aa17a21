/** The translation look-aside buffer as a value (cpu/src/cpu.c:374-475). */
module TlbModel {
  import opened Common

  /** `base_tlb`. The initial entries hold pid 0, which no process has. */
  datatype Entry = Entry(pid: nat, page: nat, frame: nat)

  datatype Key = Key(pid: nat, page: nat)

  datatype Policy = Fifo | Lru

  const BLANK := Entry(0, 0, 0)
  const BLANK_KEY := Key(0, 0)

  function KeyOf(e: Entry): Key {
    Key(e.pid, e.page)
  }

  function Keys(es: seq<Entry>): (ks: seq<Key>)
    ensures |ks| == |es|
    ensures forall i :: 0 <= i < |es| ==> ks[i] == KeyOf(es[i])
  {
    seq(|es|, i requires 0 <= i < |es| => KeyOf(es[i]))
  }

  /** The position of the first entry for `k`, or -1. */
  function Find(es: seq<Entry>, k: Key): (i: int)
    ensures -1 <= i < |es|
    ensures i == -1 <==> k !in Keys(es)
    ensures i != -1 ==> KeyOf(es[i]) == k && forall j :: 0 <= j < i ==> KeyOf(es[j]) != k
  {
    FindFrom(es, k, 0)
  }

  function FindFrom(es: seq<Entry>, k: Key, at: nat): (i: int)
    requires at <= |es|
    requires forall j :: 0 <= j < at ==> KeyOf(es[j]) != k
    ensures -1 <= i < |es|
    ensures i == -1 <==> k !in Keys(es)
    ensures i != -1 ==> KeyOf(es[i]) == k && forall j :: 0 <= j < i ==> KeyOf(es[j]) != k
    decreases |es| - at
  {
    if at == |es| then -1
    else if KeyOf(es[at]) == k then assert Keys(es)[at] == k; at
    else FindFrom(es, k, at + 1)
  }

  /** `buscar_en_tlb`: the frame cached for a key, or -1. */
  function Lookup(es: seq<Entry>, k: Key): int {
    var i := Find(es, k);
    if i == -1 then -1 else es[i].frame
  }

  /** `reemplazar_en_tlb`. On a hit LRU moves the entry to the end with the frame it had. */
  function Replace(policy: Policy, es: seq<Entry>, k: Key, frame: nat): (r: seq<Entry>)
    requires es != []
    ensures |r| == |es|
  {
    var i := Find(es, k);
    if i == -1 then es[1..] + [Entry(k.pid, k.page, frame)]
    else if policy.Lru? then RemoveAt(es, i) + [es[i]]
    else es
  }

  // ----- What the buffer holds -----

  /** The last `n` of `ks`, with blanks in front when there are fewer. */
  function Window(ks: seq<Key>, n: nat): (w: seq<Key>)
    ensures |w| == n
  {
    seq(n, i requires 0 <= i < n => if i + |ks| < n then BLANK_KEY else ks[i + |ks| - n])
  }

  function Without(ks: seq<Key>, k: Key): (r: seq<Key>)
    ensures k !in r
    ensures forall x :: x in r <==> x in ks && x != k
    ensures k !in ks ==> r == ks
  {
    if ks == [] then []
    else if ks[|ks| - 1] == k then Without(ks[..|ks| - 1], k)
    else Without(ks[..|ks| - 1], k) + [ks[|ks| - 1]]
  }

  /** The distinct keys of a history, in order of last use. */
  function ByLastUse(ks: seq<Key>): seq<Key> {
    if ks == [] then []
    else Without(ByLastUse(ks[..|ks| - 1]), ks[|ks| - 1]) + [ks[|ks| - 1]]
  }

  /** The keys that a FIFO buffer of `n` entries loads, in order of load. */
  function Loads(ks: seq<Key>, n: nat): seq<Key> {
    if ks == [] then []
    else
      var before, k := Loads(ks[..|ks| - 1], n), ks[|ks| - 1];
      if k in Window(before, n) then before else before + [k]
  }

  /** The keys in a buffer of `n` entries after the translations `ks`. */
  function Held(policy: Policy, ks: seq<Key>, n: nat): seq<Key> {
    Window(if policy.Lru? then ByLastUse(ks) else Loads(ks, n), n)
  }

  ghost predicate DistinctKeys(ks: seq<Key>) {
    forall i, j :: 0 <= i < j < |ks| ==> ks[i] != ks[j]
  }

  /** Keys of processes: pids start at 1. */
  ghost predicate Real(ks: seq<Key>) {
    forall i :: 0 <= i < |ks| ==> ks[i].pid > 0
  }

  // ----- Window lemmas -----

  lemma WindowAppend(ks: seq<Key>, k: Key, n: nat)
    requires n > 0
    ensures Window(ks + [k], n) == Window(ks, n)[1..] + [k]
  {
  }

  /** A key in the window is one of the last `n`. */
  lemma WindowHas(ks: seq<Key>, k: Key, n: nat) returns (i: nat)
    requires k in Window(ks, n) && k != BLANK_KEY
    ensures i < |ks| && i + n >= |ks| && ks[i] == k && Window(ks, n)[i + n - |ks|] == k
  {
    var j :| 0 <= j < n && Window(ks, n)[j] == k;
    i := j + |ks| - n;
  }

  lemma InWindow(ks: seq<Key>, i: nat, n: nat)
    requires i < |ks|
    ensures i + n >= |ks| ==> ks[i] in Window(ks, n)
  {
    if i + n >= |ks| {
      assert Window(ks, n)[i + n - |ks|] == ks[i];
    }
  }

  lemma {:induction false} WithoutDistinct(ks: seq<Key>, i: nat)
    requires DistinctKeys(ks) && i < |ks|
    ensures Without(ks, ks[i]) == RemoveAt(ks, i)
    ensures DistinctKeys(RemoveAt(ks, i))
  {
    var last := |ks| - 1;
    if i == last {
      assert ks[i] !in ks[..last];
      assert RemoveAt(ks, i) == ks[..last];
    } else {
      WithoutDistinct(ks[..last], i);
      assert RemoveAt(ks, i) == RemoveAt(ks[..last], i) + [ks[last]];
    }
  }

  lemma {:induction false} WithoutKeepsDistinct(ks: seq<Key>, k: Key)
    requires DistinctKeys(ks)
    ensures DistinctKeys(Without(ks, k)) && (Real(ks) ==> Real(Without(ks, k)))
  {
    if k in ks {
      var i :| 0 <= i < |ks| && ks[i] == k;
      WithoutDistinct(ks, i);
    }
  }

  lemma {:induction false} ByLastUseDistinct(ks: seq<Key>)
    requires Real(ks)
    ensures DistinctKeys(ByLastUse(ks)) && Real(ByLastUse(ks))
    ensures forall k :: k in ByLastUse(ks) <==> k in ks
  {
    hide Without;
    if ks != [] {
      var last := |ks| - 1;
      ByLastUseDistinct(ks[..last]);
      WithoutKeepsDistinct(ByLastUse(ks[..last]), ks[last]);
      assert ks == ks[..last] + [ks[last]];
    }
  }

  // ----- One translation -----

  /** Using a key that is among the last `n` moves it to the end of the window. */
  lemma WindowHit(d: seq<Key>, i: nat, n: nat)
    requires DistinctKeys(d) && i < |d| && i + n >= |d|
    ensures 0 <= i + n - |d| < n
    ensures Window(RemoveAt(d, i) + [d[i]], n) == RemoveAt(Window(d, n), i + n - |d|) + [d[i]]
  {
  }

  lemma WindowDropOld(d: seq<Key>, i: nat, k: Key, n: nat)
    requires i < |d| && i + n < |d| && n > 0
    ensures Window(RemoveAt(d, i) + [k], n) == Window(d, n)[1..] + [k]
  {
  }

  /** Using one that is not pushes the first of the window out. */
  lemma {:induction false} WindowMiss(d: seq<Key>, k: Key, n: nat)
    requires DistinctKeys(d) && k !in Window(d, n) && n > 0
    ensures Window(Without(d, k) + [k], n) == Window(d, n)[1..] + [k]
  {
    hide DistinctKeys, Without, Window;
    if k in d {
      var i :| 0 <= i < |d| && d[i] == k;
      WithoutDistinct(d, i);
      InWindow(d, i, n);
      WindowDropOld(d, i, k, n);
    } else {
      WindowAppend(d, k, n);
    }
  }

  lemma FirstInWindow(es: seq<Entry>, k: Key, j: nat)
    requires j < |es| && KeyOf(es[j]) == k
    requires forall i :: 0 <= i < |es| && KeyOf(es[i]) == k ==> i == j
    ensures Find(es, k) == j
  {
    assert Keys(es)[j] == k;
  }

  lemma ByLastUseAppend(ks: seq<Key>, k: Key)
    ensures ByLastUse(ks + [k]) == Without(ByLastUse(ks), k) + [k]
  {
    assert (ks + [k])[..|ks|] == ks;
  }

  lemma LruHit(es: seq<Entry>, d: seq<Key>, k: Key, frame: nat, n: nat)
    requires |es| == n && DistinctKeys(d) && k.pid > 0 && Keys(es) == Window(d, n) && k in Window(d, n)
    ensures Keys(Replace(Lru, es, k, frame)) == Window(Without(d, k) + [k], n)
  {
    hide DistinctKeys, Without;
    var i := WindowHas(d, k, n);
    WindowHit(d, i, n);
    WithoutDistinct(d, i);
    var j := i + n - |d|;
    OnlyInWindow(es, d, k, i, n);
    FirstInWindow(es, k, j);
    assert Keys(RemoveAt(es, j) + [es[j]]) == RemoveAt(Keys(es), j) + [k];
  }

  lemma OnlyInWindow(es: seq<Entry>, d: seq<Key>, k: Key, i: nat, n: nat)
    requires |es| == n && DistinctKeys(d) && k.pid > 0 && Keys(es) == Window(d, n)
    requires i < |d| && i + n >= |d| && d[i] == k
    ensures var j := i + n - |d|;
            j < n && KeyOf(es[j]) == k && forall h :: 0 <= h < n && KeyOf(es[h]) == k ==> h == j
  {
    var j := i + n - |d|;
    assert Keys(es)[j] == k;
    forall h | 0 <= h < n && KeyOf(es[h]) == k ensures h == j {
      assert Keys(es)[h] == k;
    }
  }

  lemma LruMiss(es: seq<Entry>, d: seq<Key>, k: Key, frame: nat, n: nat)
    requires n > 0 && |es| == n && DistinctKeys(d) && Keys(es) == Window(d, n) && k !in Window(d, n)
    ensures Keys(Replace(Lru, es, k, frame)) == Window(Without(d, k) + [k], n)
  {
    hide DistinctKeys, Without;
    WindowMiss(d, k, n);
    assert Keys(es[1..] + [Entry(k.pid, k.page, frame)]) == Keys(es)[1..] + [k];
  }

  lemma {:induction false} LruStep(es: seq<Entry>, ks: seq<Key>, k: Key, frame: nat, n: nat)
    requires n > 0 && |es| == n && Real(ks) && k.pid > 0 && Keys(es) == Held(Lru, ks, n)
    ensures Keys(Replace(Lru, es, k, frame)) == Held(Lru, ks + [k], n)
  {
    hide ByLastUse, Without, Replace, DistinctKeys;
    ByLastUseDistinct(ks);
    ByLastUseAppend(ks, k);
    if k in Window(ByLastUse(ks), n) {
      LruHit(es, ByLastUse(ks), k, frame, n);
    } else {
      LruMiss(es, ByLastUse(ks), k, frame, n);
    }
  }

  lemma {:induction false} FifoStep(es: seq<Entry>, ks: seq<Key>, k: Key, frame: nat, n: nat)
    requires n > 0 && |es| == n && Keys(es) == Held(Fifo, ks, n)
    ensures Keys(Replace(Fifo, es, k, frame)) == Held(Fifo, ks + [k], n)
  {
    assert (ks + [k])[..|ks|] == ks;
    WindowAppend(Loads(ks, n), k, n);
    assert Keys(es[1..] + [Entry(k.pid, k.page, frame)]) == Keys(es)[1..] + [k];
  }

  // ----- Histories -----

  /** A translation that reached `reemplazar_en_tlb`: a key and the frame it was given. */
  datatype Use = Use(key: Key, frame: nat)

  function UseKeys(us: seq<Use>): (ks: seq<Key>)
    ensures |ks| == |us| && forall i :: 0 <= i < |us| ==> ks[i] == us[i].key
  {
    seq(|us|, i requires 0 <= i < |us| => us[i].key)
  }

  /** `inicializar_tlb` and the replacements after it. */
  function After(policy: Policy, us: seq<Use>, n: nat): (es: seq<Entry>)
    ensures |es| == n
  {
    if us == [] || n == 0 then Repeat(n, BLANK)
    else Replace(policy, After(policy, us[..|us| - 1], n), us[|us| - 1].key, us[|us| - 1].frame)
  }

  /** After any sequence of translations LRU holds the last `n` distinct keys in order of last use,
      and FIFO the last `n` loaded in order of load, whatever the frames; its size never changes. */
  lemma {:induction false} Contents(policy: Policy, us: seq<Use>, n: nat)
    requires Real(UseKeys(us))
    ensures |After(policy, us, n)| == n && Keys(After(policy, us, n)) == Held(policy, UseKeys(us), n)
  {
    if n == 0 {
      assert Keys(After(policy, us, n)) == [] == Held(policy, UseKeys(us), n);
    } else if us == [] {
      assert UseKeys(us) == [];
      assert Keys(Repeat(n, BLANK)) == Window([], n);
    } else {
      var last := |us| - 1;
      Contents(policy, us[..last], n);
      assert UseKeys(us) == UseKeys(us[..last]) + [us[last].key];
      assert us[last].key == UseKeys(us)[last];
      if policy.Lru? {
        LruStep(After(policy, us[..last], n), UseKeys(us[..last]), us[last].key, us[last].frame, n);
      } else {
        FifoStep(After(policy, us[..last], n), UseKeys(us[..last]), us[last].key, us[last].frame, n);
      }
    }
  }

  /** LRU inclusion: a buffer of `n` entries holds the same keys, in the same order, as one of
      `n + 1` without its first. */
  lemma LruInclusion(us: seq<Use>, n: nat)
    requires Real(UseKeys(us))
    ensures Keys(After(Lru, us, n)) == Keys(After(Lru, us, n + 1))[1..]
    ensures forall k: Key :: Find(After(Lru, us, n), k) != -1 ==> Find(After(Lru, us, n + 1), k) != -1
  {
    hide After, Real, ByLastUse;
    Contents(Lru, us, n);
    Contents(Lru, us, n + 1);
    var small, large := Keys(After(Lru, us, n)), Keys(After(Lru, us, n + 1));
    assert small == large[1..];
    assert forall k: Key :: k in small ==> k in large;
  }

  /** A FIFO buffer never loads a key that is among the last `n` loaded. */
  lemma {:induction false} LoadsApart(ks: seq<Key>, n: nat, i: nat, j: nat)
    requires Real(ks) && i < j < |Loads(ks, n)| && Loads(ks, n)[i] == Loads(ks, n)[j]
    ensures j - i > n
  {
    var last := |ks| - 1;
    var before := Loads(ks[..last], n);
    if j < |before| {
      LoadsApart(ks[..last], n, i, j);
    } else {
      InWindow(before, i, n);
    }
  }

  /** No process key is held twice, under either policy. */
  lemma {:induction false} HeldDistinct(policy: Policy, ks: seq<Key>, n: nat, i: nat, j: nat)
    requires Real(ks) && i < j < n
    requires Held(policy, ks, n)[i].pid > 0
    ensures Held(policy, ks, n)[i] != Held(policy, ks, n)[j]
  {
    ByLastUseDistinct(ks);
    var d := if policy.Lru? then ByLastUse(ks) else Loads(ks, n);
    if policy.Fifo? && d[i + |d| - n] == d[j + |d| - n] {
      LoadsApart(ks, n, i + |d| - n, j + |d| - n);
    }
  }
}
