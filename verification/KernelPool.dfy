/** Counting resources, their wait queues and the list of held instances
    (kernel/src/kernel.c:1307-1321, 1446-1586). */
module KernelPool {
  import opened Common

  type Pid = nat

  /** `cola_block_recurso`. */
  datatype Resource = Resource(count: int, waiters: seq<Pid>)

  /** `recursos_retenidos`: one instance of a resource that a process holds or waits for. */
  datatype Holding = Holding(pid: Pid, resource: string)

  datatype Pool = Pool(resources: map<string, Resource>, held: seq<Holding>)

  /** A process taken off the wait queue of a resource. */
  datatype Wake = Wake(pid: Pid, resource: string)

  function Max0(n: int): nat {
    if n < 0 then 0 else n
  }

  function Min(a: nat, b: nat): nat {
    if a <= b then a else b
  }

  // ----- Lists of holdings -----

  /** `list_remove_by_condition`: without the first occurrence. */
  function RemoveFirst(held: seq<Holding>, h: Holding): seq<Holding>
    requires h in held
  {
    if held[0] == h then held[1..] else [held[0]] + RemoveFirst(held[1..], h)
  }

  function WithoutPid(held: seq<Holding>, p: Pid): seq<Holding> {
    if held == [] then []
    else (if held[0].pid == p then [] else [held[0]]) + WithoutPid(held[1..], p)
  }

  /** Instances of `r` taken by all processes. */
  function Taken(held: seq<Holding>, r: string): nat {
    if held == [] then 0 else (if held[0].resource == r then 1 else 0) + Taken(held[1..], r)
  }

  /** Instances of `r` taken by `p`. */
  function Units(held: seq<Holding>, p: Pid, r: string): nat {
    if held == [] then 0 else (if held[0] == Holding(p, r) then 1 else 0) + Units(held[1..], p, r)
  }

  function CountOf(held: seq<Holding>, p: Pid): nat {
    if held == [] then 0 else (if held[0].pid == p then 1 else 0) + CountOf(held[1..], p)
  }

  /** The resource of the first entry of `p` (`list_find`), if it has one. */
  function FirstOf(held: seq<Holding>, p: Pid): (r: Option<string>)
    ensures r.Some? ==> Holding(p, r.value) in held
    ensures r.None? ==> forall h :: h in held ==> h.pid != p
  {
    if held == [] then None
    else if held[0].pid == p then Some(held[0].resource)
    else FirstOf(held[1..], p)
  }

  lemma {:induction false} RemoveFirstCounts(held: seq<Holding>, h: Holding)
    requires h in held
    ensures var after := RemoveFirst(held, h);
            && |after| == |held| - 1
            && (forall r :: Taken(after, r) == Taken(held, r) - if r == h.resource then 1 else 0)
            && (forall p, r :: Units(after, p, r) == Units(held, p, r) - if Holding(p, r) == h then 1 else 0)
            && (forall p :: CountOf(after, p) == CountOf(held, p) - if p == h.pid then 1 else 0)
            && (forall x :: x in after ==> x in held)
            && (forall x :: x in held && x != h ==> x in after)
            && WithoutPid(after, h.pid) == WithoutPid(held, h.pid)
  {
    if held[0] != h {
      RemoveFirstCounts(held[1..], h);
    }
  }

  lemma {:induction false} AppendCounts(held: seq<Holding>, h: Holding)
    ensures forall r :: Taken(held + [h], r) == Taken(held, r) + if r == h.resource then 1 else 0
    ensures forall p, r :: Units(held + [h], p, r) == Units(held, p, r) + if Holding(p, r) == h then 1 else 0
  {
    if held != [] {
      AppendCounts(held[1..], h);
      assert (held + [h])[1..] == held[1..] + [h];
    }
  }

  lemma {:induction false} NoneOf(held: seq<Holding>, p: Pid)
    requires forall h :: h in held ==> h.pid != p
    ensures WithoutPid(held, p) == held && CountOf(held, p) == 0 && forall r :: Units(held, p, r) == 0
  {
    if held != [] {
      NoneOf(held[1..], p);
    }
  }

  // ----- Requests -----

  /** `wait` on an existing resource: takes an instance, or a place in its queue. */
  function Wait(pool: Pool, p: Pid, r: string): Pool
    requires r in pool.resources
  {
    var before := pool.resources[r];
    var count := before.count - 1;
    Pool(pool.resources[r := Resource(count, if count < 0 then before.waiters + [p] else before.waiters)],
         pool.held + [Holding(p, r)])
  }

  /** `signal` on an existing resource by a process that holds an instance of it. */
  function Signal(pool: Pool, p: Pid, r: string): (Pool, seq<Wake>)
    requires r in pool.resources && Holding(p, r) in pool.held
  {
    var before := pool.resources[r];
    var count := before.count + 1;
    var held := RemoveFirst(pool.held, Holding(p, r));
    if count <= 0 && before.waiters != [] then
      (Pool(pool.resources[r := Resource(count, before.waiters[1..])], held), [Wake(before.waiters[0], r)])
    else
      (Pool(pool.resources[r := Resource(count, before.waiters)], held), [])
  }

  /** Every entry of `p` names a resource that exists. */
  ghost predicate Known(pool: Pool, p: Pid) {
    forall h :: h in pool.held && h.pid == p ==> h.resource in pool.resources
  }

  /** `liberar_recursos`: signals, one entry after another, until `p` holds none. */
  ghost function Release(pool: Pool, p: Pid): (Pool, seq<Wake>)
    requires Known(pool, p)
    decreases CountOf(pool.held, p)
  {
    var r := FirstOf(pool.held, p);
    if r.None? then (pool, [])
    else
      RemoveFirstCounts(pool.held, Holding(p, r.value));
      var (mid, woken) := Signal(pool, p, r.value);
      var (after, more) := Release(mid, p);
      (after, woken + more)
  }

  /** Takes a waiting process out of the middle of a queue (resource branch of `encontrar_pcb`). */
  function TakeOut(pool: Pool, p: Pid, r: string): Pool
    requires r in pool.resources && Holding(p, r) in pool.held
  {
    var before := pool.resources[r];
    Pool(pool.resources[r := Resource(before.count + 1, Filtered(before.waiters, p))],
         RemoveFirst(pool.held, Holding(p, r)))
  }

  /** The rotation of `pcb_en_cola`: every other process, in the same order. */
  function Filtered(queue: seq<Pid>, p: Pid): seq<Pid> {
    if queue == [] then []
    else (if queue[0] == p then [] else [queue[0]]) + Filtered(queue[1..], p)
  }

  // ----- The invariant -----

  ghost predicate NoRepeats(queue: seq<Pid>) {
    forall i, j :: 0 <= i < j < |queue| ==> queue[i] != queue[j]
  }

  ghost predicate ResourceOk(x: Resource, held: seq<Holding>, r: string, initial: nat) {
    && x.count + Taken(held, r) == initial
    && |x.waiters| == Max0(-x.count)
    && NoRepeats(x.waiters)
    && (forall p :: p in x.waiters ==> Holding(p, r) in held)
  }

  /** Available instances plus entries make the initial count; a queue is as long as the count is
      negative; and every waiter has an entry. */
  ghost predicate PoolOk(pool: Pool, initial: map<string, nat>) {
    && pool.resources.Keys == initial.Keys
    && (forall r :: r in pool.resources ==> ResourceOk(pool.resources[r], pool.held, r, initial[r]))
    && (forall h :: h in pool.held ==> h.resource in pool.resources)
  }

  /** Entries that are not waiting never exceed the initial count, and a signal that has to wake
      a process always finds one. */
  lemma PoolBounds(pool: Pool, initial: map<string, nat>, r: string)
    requires PoolOk(pool, initial) && r in pool.resources
    ensures var x := pool.resources[r];
            && Taken(pool.held, r) - |x.waiters| <= initial[r]
            && (x.count < 0 ==> x.waiters != [])
            && (x.waiters != [] ==> Taken(pool.held, r) - |x.waiters| == initial[r])
  {
  }

  lemma {:induction false} WaitOk(pool: Pool, initial: map<string, nat>, p: Pid, r: string)
    requires PoolOk(pool, initial) && r in pool.resources && p !in pool.resources[r].waiters
    ensures PoolOk(Wait(pool, p, r), initial)
  {
    var after := Wait(pool, p, r);
    AppendCounts(pool.held, Holding(p, r));
    forall s | s in after.resources ensures ResourceOk(after.resources[s], after.held, s, initial[s]) {
      assert ResourceOk(pool.resources[s], pool.held, s, initial[s]);
      forall q | q in after.resources[s].waiters ensures Holding(q, s) in after.held {
        if s == r && q == p {
          assert after.held[|pool.held|] == Holding(p, r);
        }
      }
    }
  }

  lemma {:induction false} SignalOk(pool: Pool, initial: map<string, nat>, p: Pid, r: string)
    requires PoolOk(pool, initial) && r in pool.resources && Holding(p, r) in pool.held
    requires p !in pool.resources[r].waiters
    ensures PoolOk(Signal(pool, p, r).0, initial)
  {
    var after := Signal(pool, p, r).0;
    RemoveFirstCounts(pool.held, Holding(p, r));
    forall s | s in after.resources ensures ResourceOk(after.resources[s], after.held, s, initial[s]) {
      assert ResourceOk(pool.resources[s], pool.held, s, initial[s]);
    }
  }

  lemma {:induction false} FilteredIn(queue: seq<Pid>, p: Pid)
    ensures forall q :: q in Filtered(queue, p) <==> q in queue && q != p
    ensures p !in queue ==> Filtered(queue, p) == queue
  {
    if queue != [] {
      FilteredIn(queue[1..], p);
      assert queue == [queue[0]] + queue[1..];
    }
  }

  lemma NoRepeatsTail(queue: seq<Pid>)
    requires NoRepeats(queue) && queue != []
    ensures NoRepeats(queue[1..]) && queue[0] !in queue[1..]
  {
  }

  lemma NoRepeatsCons(p: Pid, queue: seq<Pid>)
    requires NoRepeats(queue) && p !in queue
    ensures NoRepeats([p] + queue)
  {
  }

  lemma {:induction false} FilteredSize(queue: seq<Pid>, p: Pid)
    requires NoRepeats(queue)
    ensures NoRepeats(Filtered(queue, p))
    ensures p in queue ==> |Filtered(queue, p)| == |queue| - 1
  {
    hide NoRepeats;
    if queue != [] {
      NoRepeatsTail(queue);
      FilteredSize(queue[1..], p);
      FilteredIn(queue[1..], p);
      assert [] + Filtered(queue[1..], p) == Filtered(queue[1..], p);
      if queue[0] != p {
        NoRepeatsCons(queue[0], Filtered(queue[1..], p));
        assert p in queue ==> p in queue[1..];
      }
    }
  }

  lemma FilteredIs(queue: seq<Pid>, p: Pid)
    ensures forall q :: q in Filtered(queue, p) <==> q in queue && q != p
    ensures p !in queue ==> Filtered(queue, p) == queue
    ensures NoRepeats(queue) ==> NoRepeats(Filtered(queue, p))
    ensures NoRepeats(queue) && p in queue ==> |Filtered(queue, p)| == |queue| - 1
  {
    hide NoRepeats, Filtered;
    FilteredIn(queue, p);
    if NoRepeats(queue) {
      FilteredSize(queue, p);
    }
  }

  /** The others keep their order. */
  lemma {:induction false} FilteredOrder(queue: seq<Pid>, i: nat)
    requires NoRepeats(queue) && i < |queue|
    ensures Filtered(queue, queue[i]) == queue[..i] + queue[i + 1..]
  {
    var rest := queue[1..];
    if i == 0 {
      assert queue[0] !in rest;
      FilteredIs(rest, queue[0]);
      assert Filtered(queue, queue[0]) == [] + Filtered(rest, queue[0]);
    } else {
      FilteredOrder(rest, i - 1);
      assert queue[..i] == [queue[0]] + rest[..i - 1] && queue[i + 1..] == rest[i..];
      assert [queue[0]] + (rest[..i - 1] + rest[i..]) == ([queue[0]] + rest[..i - 1]) + rest[i..];
    }
  }

  lemma {:induction false} TakeOutOk(pool: Pool, initial: map<string, nat>, p: Pid, r: string)
    requires PoolOk(pool, initial) && r in pool.resources && p in pool.resources[r].waiters
    ensures Holding(p, r) in pool.held
    ensures PoolOk(TakeOut(pool, p, r), initial)
  {
    assert ResourceOk(pool.resources[r], pool.held, r, initial[r]);
    var after := TakeOut(pool, p, r);
    RemoveFirstCounts(pool.held, Holding(p, r));
    FilteredIs(pool.resources[r].waiters, p);
    forall s | s in after.resources ensures ResourceOk(after.resources[s], after.held, s, initial[s]) {
      assert ResourceOk(pool.resources[s], pool.held, s, initial[s]);
    }
  }

  // ----- Releasing everything -----

  /** The processes woken from the queue of `r`, in order. */
  function WokenFrom(ws: seq<Wake>, r: string): seq<Pid> {
    if ws == [] then []
    else (if ws[0].resource == r then [ws[0].pid] else []) + WokenFrom(ws[1..], r)
  }

  /** `p` is in no wait queue. */
  ghost predicate NotWaiting(pool: Pool, p: Pid) {
    forall r :: r in pool.resources ==> p !in pool.resources[r].waiters
  }

  /** What releasing `p` leaves of resource `r`, and whom it wakes. */
  ghost predicate Released(before: Resource, after: Resource, n: nat, woken: seq<Pid>) {
    var k := Min(n, |before.waiters|);
    after == Resource(before.count + n, before.waiters[k..]) && woken == before.waiters[..k]
  }

  lemma SignalWakes(pool: Pool, initial: map<string, nat>, p: Pid, r: string)
    requires PoolOk(pool, initial) && r in pool.resources && Holding(p, r) in pool.held
    ensures var (mid, w) := Signal(pool, p, r);
            && (forall s :: s in pool.resources && s != r ==>
                 mid.resources[s] == pool.resources[s] && WokenFrom(w, s) == [])
            && Released(pool.resources[r], mid.resources[r], 1, WokenFrom(w, r))
  {
    assert ResourceOk(pool.resources[r], pool.held, r, initial[r]);
    var (mid, w) := Signal(pool, p, r);
    if w != [] {
      assert w[1..] == [];
    }
  }

  /** One signal by the releasing process, seen from each resource. */
  lemma SignalReleases(pool: Pool, initial: map<string, nat>, p: Pid, r: string)
    requires PoolOk(pool, initial) && r in pool.resources && Holding(p, r) in pool.held && NotWaiting(pool, p)
    ensures var (mid, w) := Signal(pool, p, r);
            && PoolOk(mid, initial) && NotWaiting(mid, p) && mid.resources.Keys == pool.resources.Keys
            && (forall s :: s in pool.resources && s != r ==>
                 mid.resources[s] == pool.resources[s] && WokenFrom(w, s) == [])
            && Released(pool.resources[r], mid.resources[r], 1, WokenFrom(w, r))
  {
    hide PoolOk, WokenFrom, Released;
    SignalOk(pool, initial, p, r);
    SignalWakes(pool, initial, p, r);
  }

  lemma ReleasedTwice(a: Resource, b: Resource, c: Resource, m: nat, n: nat, first: seq<Pid>, second: seq<Pid>)
    requires Released(a, b, m, first) && Released(b, c, n, second)
    ensures Released(a, c, m + n, first + second)
  {
    var k := Min(m, |a.waiters|);
    var l := Min(n, |b.waiters|);
    assert a.waiters[..k] + b.waiters[..l] == a.waiters[..k + l];
    assert b.waiters[l..] == a.waiters[k + l..];
  }

  lemma {:induction false} WokenFromAppend(a: seq<Wake>, b: seq<Wake>, r: string)
    ensures WokenFrom(a + b, r) == WokenFrom(a, r) + WokenFrom(b, r)
  {
    if a == [] {
      NoneBefore(b);
      NoneBefore(WokenFrom(b, r));
    } else {
      WokenFromAppend(a[1..], b, r);
      AppendTail(a, b);
      Assoc(if a[0].resource == r then [a[0].pid] else [], WokenFrom(a[1..], r), WokenFrom(b, r));
    }
  }

  /** For each resource, releasing wakes as many as `p` had units, or all there are. */
  ghost predicate ReleasedAll(pool: Pool, after: Pool, p: Pid, woken: seq<Wake>) {
    && after.resources.Keys == pool.resources.Keys
    && forall r :: r in pool.resources ==>
         Released(pool.resources[r], after.resources[r], Units(pool.held, p, r), WokenFrom(woken, r))
  }

  lemma ReleasedAllNone(pool: Pool, p: Pid)
    requires forall h :: h in pool.held ==> h.pid != p
    ensures ReleasedAll(pool, pool, p, [])
  {
    NoneOf(pool.held, p);
  }

  lemma UnitsAfter(held: seq<Holding>, h: Holding, p: Pid, r: string)
    requires h in held
    ensures Units(RemoveFirst(held, h), p, r) == Units(held, p, r) - if Holding(p, r) == h then 1 else 0
  {
    hide Units, Taken, CountOf, WithoutPid, RemoveFirst;
    RemoveFirstCounts(held, h);
  }

  lemma ReleasedAllAt(pool: Pool, after: Pool, p: Pid, woken: seq<Wake>, r: string)
    requires ReleasedAll(pool, after, p, woken) && r in pool.resources
    ensures r in after.resources && Released(pool.resources[r], after.resources[r], Units(pool.held, p, r),
            WokenFrom(woken, r))
  {
  }

  /** One resource, over a signal and what comes after it. */
  lemma ReleasedStep(a: Resource, b: Resource, c: Resource, own: bool, m: nat, first: seq<Pid>, second: seq<Pid>)
    requires own ==> Released(a, b, 1, first)
    requires !own ==> b == a && first == []
    requires Released(b, c, m, second)
    ensures Released(a, c, m + if own then 1 else 0, first + second)
  {
    hide Released;
    if own {
      ReleasedTwice(a, b, c, 1, m, first, second);
    } else {
      NoneBefore(second);
    }
  }

  lemma ReleasedAllStep(pool: Pool, mid: Pool, after: Pool, p: Pid, r: string, w: seq<Wake>, more: seq<Wake>)
    requires r in pool.resources && Holding(p, r) in pool.held && mid.resources.Keys == pool.resources.Keys
    requires mid.held == RemoveFirst(pool.held, Holding(p, r))
    requires forall s :: s in pool.resources && s != r ==>
             mid.resources[s] == pool.resources[s] && WokenFrom(w, s) == []
    requires Released(pool.resources[r], mid.resources[r], 1, WokenFrom(w, r))
    requires ReleasedAll(mid, after, p, more)
    ensures ReleasedAll(pool, after, p, w + more)
  {
    hide Released, Units, WokenFrom, RemoveFirst;
    forall s | s in pool.resources
      ensures s in after.resources
      ensures Released(pool.resources[s], after.resources[s], Units(pool.held, p, s), WokenFrom(w + more, s))
    {
      UnitsAfter(pool.held, Holding(p, r), p, s);
      ReleasedAllAt(mid, after, p, more, s);
      WokenFromAppend(w, more, s);
      ReleasedStep(pool.resources[s], mid.resources[s], after.resources[s], s == r, Units(mid.held, p, s),
                   WokenFrom(w, s), WokenFrom(more, s));
    }
  }

  /** An exiting process leaves no entry and everyone else's entries as they were; for each resource it
      wakes exactly the first of the queue, as many as it had units, in order; and the invariant holds. */
  lemma {:induction false} ReleaseEffect(pool: Pool, initial: map<string, nat>, p: Pid)
    requires PoolOk(pool, initial) && NotWaiting(pool, p)
    ensures Known(pool, p)
    ensures var (after, woken) := Release(pool, p);
            && PoolOk(after, initial) && NotWaiting(after, p)
            && after.held == WithoutPid(pool.held, p)
            && ReleasedAll(pool, after, p, woken)
    decreases CountOf(pool.held, p)
  {
    hide NotWaiting, ReleasedAll, Released, Units, WithoutPid, WokenFrom, ResourceOk;
    var r := FirstOf(pool.held, p);
    if r.None? {
      NoneOf(pool.held, p);
      ReleasedAllNone(pool, p);
    } else {
      var (mid, woken) := Signal(pool, p, r.value);
      RemoveFirstCounts(pool.held, Holding(p, r.value));
      SignalReleases(pool, initial, p, r.value);
      ReleaseEffect(mid, initial, p);
      var (after, more) := Release(mid, p);
      ReleasedAllStep(pool, mid, after, p, r.value, woken, more);
    }
  }

  lemma {:induction false} WithoutPidIs(held: seq<Holding>, p: Pid)
    ensures forall h :: h in WithoutPid(held, p) <==> h in held && h.pid != p
    ensures forall q, r :: q != p ==> Units(WithoutPid(held, p), q, r) == Units(held, q, r)
    ensures CountOf(WithoutPid(held, p), p) == 0
  {
    if held != [] {
      var rest := WithoutPid(held[1..], p);
      WithoutPidIs(held[1..], p);
      if held[0].pid == p {
        assert WithoutPid(held, p) == rest;
      } else {
        assert WithoutPid(held, p)[1..] == rest;
      }
    }
  }

  // ----- The order of waking -----

  /** The resources of the entries of `p`, in the order it took them. */
  function EntriesOf(held: seq<Holding>, p: Pid): seq<string> {
    if held == [] then []
    else (if held[0].pid == p then [held[0].resource] else []) + EntriesOf(held[1..], p)
  }

  function Occurrences(rs: seq<string>, r: string): nat {
    if rs == [] then 0 else (if rs[0] == r then 1 else 0) + Occurrences(rs[1..], r)
  }

  /** Whom the entries `rs` wake from position `i` on: the entry that is the n-th for its resource wakes the n-th of
      that queue, if there is one. */
  function WakesFrom(resources: map<string, Resource>, rs: seq<string>, i: nat): seq<Wake>
    requires i <= |rs| && forall r :: r in rs ==> r in resources
    decreases |rs| - i
  {
    if i == |rs| then [] else WakeAt(resources, rs, i) + WakesFrom(resources, rs, i + 1)
  }

  lemma {:induction false} EntriesAre(held: seq<Holding>, p: Pid)
    ensures forall r :: r in EntriesOf(held, p) <==> Holding(p, r) in held
    ensures FirstOf(held, p) == if EntriesOf(held, p) == [] then None else Some(EntriesOf(held, p)[0])
  {
    if held != [] {
      EntriesAre(held[1..], p);
    }
  }

  lemma {:induction false} EntriesLess(held: seq<Holding>, p: Pid, r: string)
    requires FirstOf(held, p) == Some(r) && EntriesOf(held, p) != []
    ensures EntriesOf(RemoveFirst(held, Holding(p, r)), p) == EntriesOf(held, p)[1..]
  {
    if held[0].pid != p {
      EntriesLess(held[1..], p, r);
      var after := RemoveFirst(held, Holding(p, r));
      assert after[0] == held[0] && after[1..] == RemoveFirst(held[1..], Holding(p, r));
      NoneBefore(EntriesOf(after[1..], p));
      NoneBefore(EntriesOf(held[1..], p));
    } else {
      assert EntriesOf(held, p) == [r] + EntriesOf(held[1..], p);
    }
  }

  /** After the first entry has had its effect, the others have theirs as before. */
  lemma {:induction false} WakesLater(resources: map<string, Resource>, mid: map<string, Resource>, rs: seq<string>,
                                      i: nat)
    requires i < |rs| && mid.Keys == resources.Keys && forall r :: r in rs ==> r in resources
    requires forall r :: r in resources && r != rs[0] ==> mid[r] == resources[r]
    requires var w := resources[rs[0]].waiters; mid[rs[0]].waiters == if w == [] then [] else w[1..]
    ensures forall r :: r in rs[1..] ==> r in mid
    ensures WakesFrom(mid, rs[1..], i) == WakesFrom(resources, rs, i + 1)
    decreases |rs| - i
  {
    hide Occurrences, WakesFrom;
    TailIn(rs, mid);
    if i + 1 < |rs| {
      WakesLater(resources, mid, rs, i + 1);
      WakesHead(resources, rs, i + 1);
      WakesHead(mid, rs[1..], i);
      SameWake(resources, mid, rs, i);
    } else {
      WakesEnd(resources, rs);
      WakesEnd(mid, rs[1..]);
    }
  }

  lemma TailIn(rs: seq<string>, mid: map<string, Resource>)
    requires rs != [] && forall r :: r in rs ==> r in mid
    ensures forall r :: r in rs[1..] ==> r in mid
  {
    assert forall r :: r in rs[1..] ==> r in rs;
  }

  /** Whom the entry at position `i` wakes. */
  function WakeAt(resources: map<string, Resource>, rs: seq<string>, i: nat): seq<Wake>
    requires i < |rs| && rs[i] in resources
  {
    var r, n := rs[i], Occurrences(rs[..i], rs[i]);
    if n < |resources[r].waiters| then [Wake(resources[r].waiters[n], r)] else []
  }

  lemma WakesHead(resources: map<string, Resource>, rs: seq<string>, i: nat)
    requires i < |rs| && forall r :: r in rs ==> r in resources
    ensures rs[i] in resources
    ensures WakesFrom(resources, rs, i) == WakeAt(resources, rs, i) + WakesFrom(resources, rs, i + 1)
  {
    assert rs[i] in rs;
  }

  lemma WakesEnd(resources: map<string, Resource>, rs: seq<string>)
    requires forall r :: r in rs ==> r in resources
    ensures WakesFrom(resources, rs, |rs|) == []
  {
  }

  lemma SameWake(resources: map<string, Resource>, mid: map<string, Resource>, rs: seq<string>, i: nat)
    requires i + 1 < |rs| && mid.Keys == resources.Keys && forall r :: r in rs ==> r in resources
    requires forall r :: r in resources && r != rs[0] ==> mid[r] == resources[r]
    requires var w := resources[rs[0]].waiters; mid[rs[0]].waiters == if w == [] then [] else w[1..]
    ensures rs[1..][i] == rs[i + 1] && rs[i + 1] in resources
    ensures WakeAt(mid, rs[1..], i) == WakeAt(resources, rs, i + 1)
  {
    hide Occurrences;
    assert rs[i + 1] in rs;
    OccurrencesLater(rs, i, rs[i + 1]);
  }

  lemma OccurrencesLater(rs: seq<string>, i: nat, r: string)
    requires i < |rs|
    ensures Occurrences(rs[..i + 1], r) == Occurrences(rs[1..][..i], r) + if rs[0] == r then 1 else 0
  {
    assert rs[..i + 1][1..] == rs[1..][..i] && rs[..i + 1][0] == rs[0];
  }

  /** An exiting process wakes the others in the order in which it took the resources, and each queue in its own. */
  lemma {:induction false} ReleaseInOrder(pool: Pool, initial: map<string, nat>, p: Pid)
    requires PoolOk(pool, initial) && NotWaiting(pool, p)
    ensures Known(pool, p) && forall r :: r in EntriesOf(pool.held, p) ==> r in pool.resources
    ensures Release(pool, p).1 == WakesFrom(pool.resources, EntriesOf(pool.held, p), 0)
    decreases CountOf(pool.held, p)
  {
    hide NotWaiting, ResourceOk, WakesFrom, EntriesOf, WithoutPid, Units, Taken, WokenFrom, Released;
    EntriesKnown(pool, initial, p);
    var r := FirstOf(pool.held, p);
    if r.None? {
      EntriesAre(pool.held, p);
      NoWakes(pool.resources);
    } else {
      RemoveFirstCounts(pool.held, Holding(p, r.value));
      SignalReleases(pool, initial, p, r.value);
      ReleaseInOrder(Signal(pool, p, r.value).0, initial, p);
      OneRelease(pool, initial, p, r.value);
    }
  }

  lemma EntriesKnown(pool: Pool, initial: map<string, nat>, p: Pid)
    requires PoolOk(pool, initial)
    ensures Known(pool, p) && forall r :: r in EntriesOf(pool.held, p) ==> r in pool.resources
  {
    hide ResourceOk;
    EntriesAre(pool.held, p);
  }

  /** The first entry wakes its own, and the rest are left as they were. */
  lemma OneRelease(pool: Pool, initial: map<string, nat>, p: Pid, r: string)
    requires PoolOk(pool, initial) && r in pool.resources && FirstOf(pool.held, p) == Some(r)
    requires forall x :: x in EntriesOf(pool.held, p) ==> x in pool.resources
    ensures var (mid, w) := Signal(pool, p, r);
            && (forall x :: x in EntriesOf(mid.held, p) ==> x in mid.resources)
            && WakesFrom(pool.resources, EntriesOf(pool.held, p), 0) ==
                 w + WakesFrom(mid.resources, EntriesOf(mid.held, p), 0)
  {
    hide ResourceOk, WakesFrom, EntriesOf, PoolOk;
    var (mid, w) := Signal(pool, p, r);
    var rs := EntriesOf(pool.held, p);
    EntriesAre(pool.held, p);
    EntriesLess(pool.held, p, r);
    SignalsFirst(pool, initial, p, r);
    WakesLater(pool.resources, mid.resources, rs, 0);
    FirstWakes(pool.resources, rs);
  }

  lemma NoWakes(resources: map<string, Resource>)
    ensures WakesFrom(resources, [], 0) == []
  {
  }

  lemma SignalsFirst(pool: Pool, initial: map<string, nat>, p: Pid, r: string)
    requires PoolOk(pool, initial) && r in pool.resources && Holding(p, r) in pool.held
    ensures var (mid, w) := Signal(pool, p, r);
            var waiters := pool.resources[r].waiters;
            && mid.resources[r].waiters == (if waiters == [] then [] else waiters[1..])
            && w == (if waiters == [] then [] else [Wake(waiters[0], r)])
  {
    assert ResourceOk(pool.resources[r], pool.held, r, initial[r]);
  }

  lemma FirstWakes(resources: map<string, Resource>, rs: seq<string>)
    requires rs != [] && forall r :: r in rs ==> r in resources
    ensures var waiters := resources[rs[0]].waiters;
            WakesFrom(resources, rs, 0) ==
            (if waiters == [] then [] else [Wake(waiters[0], rs[0])]) + WakesFrom(resources, rs, 1)
  {
    assert rs[..0] == [];
  }
}
