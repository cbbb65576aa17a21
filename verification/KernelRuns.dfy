/** What every run of the kernel keeps (kernel/src/kernel.c). */
module KernelRuns {
  import opened Common
  import opened KernelPool
  import Devices = KernelDevices
  import opened KernelModel
  import opened KernelSteps

  // ----- One process back to READY or READY+ -----

  /** The queue of `a` loses `p`, and nothing else moves. */
  ghost predicate Popped(s: State, t: State, p: Pid, a: Status) {
    && t.status == s.status
    && NoRepeats(QueueOf(t, a))
    && (forall q :: q in QueueOf(t, a) <==> q in QueueOf(s, a) && q != p)
    && (forall st: Status :: st != a ==> QueueOf(t, st) == QueueOf(s, st))
  }

  lemma EnqueueQueues(t: State, p: Pid, quantum: bool)
    requires Alive(t, p)
    ensures var b := if quantum || !t.algorithm.VRR? then Ready else ReadyPlus;
            var u := Enqueue(t, p, quantum);
            && u.status == t.status[p - 1 := b]
            && QueueOf(u, b) == QueueOf(t, b) + [p]
            && (forall st: Status :: st != b ==> QueueOf(u, st) == QueueOf(t, st))
  {
  }

  lemma EnqueueLinked(s: State, t: State, p: Pid, a: Status, quantum: bool, out: Pid)
    requires AllLinked(s, out) && Alive(s, p) && p != out && s.status[p - 1] == a && a != Ready && a != ReadyPlus
    requires Popped(s, t, p, a)
    ensures AllLinked(Enqueue(t, p, quantum), out)
  {
    hide QueueOf, AllLinked, Enqueue, NoRepeats;
    EnqueueQueues(t, p, quantum);
    var b := if quantum || !t.algorithm.VRR? then Ready else ReadyPlus;
    MoveLinked(s, Enqueue(t, p, quantum), p, a, b, out);
  }

  lemma EnqueueTokens(t: State, p: Pid, quantum: bool, degree: nat)
    requires Tokens(t, degree) && Alive(t, p) && IsLive(t.status[p - 1])
    ensures Tokens(Enqueue(t, p, quantum), degree)
  {
    LiveUpdate(t.status, p - 1, Ready);
    LiveUpdate(t.status, p - 1, ReadyPlus);
  }

  lemma EnqueueHeld(t: State, p: Pid, quantum: bool)
    requires HeldLive(t) && Alive(t, p)
    ensures HeldLive(Enqueue(t, p, quantum))
  {
  }

  lemma EnqueueRest(t: State, p: Pid, quantum: bool)
    requires Alive(t, p)
    ensures var u := Enqueue(t, p, quantum);
            OnlyReady(t, u) && u.pool == t.pool && forall q :: Alive(t, q) && q != p ==>
              u.status[q - 1] == t.status[q - 1]
  {
  }

  /** `t` differs from `s` at most in READY, READY+, the resources and the states of processes. */
  ghost predicate OnlyReady(s: State, t: State) {
    && |t.status| == |s.status|
    && t == s.(ready := t.ready, readyPlus := t.readyPlus, pidsReady := t.pidsReady, pidsReadyPlus := t.pidsReadyPlus,
               semReady := t.semReady, semReadyPlus := t.semReadyPlus, pool := t.pool, status := t.status)
  }

  lemma EnqueueKeeps(s: State, t: State, initial: map<string, nat>, degree: nat, p: Pid, a: Status, quantum: bool,
                     out: Pid)
    requires AllLinked(s, out) && Alive(s, p) && p != out && s.status[p - 1] == a && a != Ready && a != ReadyPlus &&
             IsLive(a)
    requires Popped(s, t, p, a)
    requires Tokens(t, degree) && PoolOk(t.pool, initial) && HeldLive(t) && DevicesOk(t) && (t.first <==> t.cpu.Idle?)
    ensures InvBut(Enqueue(t, p, quantum), initial, degree, out)
  {
    hide Tokens, HeldLive, AllLinked, PoolOk;
    assert t.status == s.status by { hide *; }
    EnqueueLinked(s, t, p, a, quantum, out);
    EnqueueTokens(t, p, quantum, degree);
    EnqueueHeld(t, p, quantum);
  }

  // ----- Signals -----

  lemma SignalPops(s: State, p: Pid, r: string, out: Pid)
    requires AllLinked(s, out) && Holding(p, r) in s.pool.held && r in s.pool.resources
    requires Signal(s.pool, p, r).1 != []
    ensures var w := s.pool.resources[r].waiters;
            && w != [] && Signal(s.pool, p, r).1[0].pid == w[0] && Alive(s, w[0]) && w[0] != out
            && s.status[w[0] - 1] == BlockResource(r)
            && Popped(s, s.(pool := Signal(s.pool, p, r).0), w[0], BlockResource(r))
  {
    assert Linked(QueueOf(s, BlockResource(r)), s.status, BlockResource(r), out);
    var w := s.pool.resources[r].waiters;
    assert w[0] in w;
    HeadGone(w);
  }

  lemma SignalQuiet(s: State, p: Pid, r: string, out: Pid)
    requires AllLinked(s, out) && Holding(p, r) in s.pool.held && r in s.pool.resources
    requires Signal(s.pool, p, r).1 == []
    ensures AllLinked(s.(pool := Signal(s.pool, p, r).0), out)
  {
    var t := s.(pool := Signal(s.pool, p, r).0);
    forall st: Status ensures Linked(QueueOf(t, st), t.status, st, out) {
      assert Linked(QueueOf(s, st), s.status, st, out);
      assert QueueOf(t, st) == QueueOf(s, st);
    }
  }

  lemma SignalHeld(s: State, p: Pid, r: string)
    requires HeldLive(s) && Holding(p, r) in s.pool.held && r in s.pool.resources
    ensures HeldLive(s.(pool := Signal(s.pool, p, r).0))
  {
    RemoveFirstCounts(s.pool.held, Holding(p, r));
  }

  lemma WaiterAlive(s: State, r: string, q: Pid, out: Pid)
    requires AllLinked(s, out) && r in s.pool.resources && q in s.pool.resources[r].waiters
    ensures Alive(s, q) && s.status[q - 1] == BlockResource(r) && q != out
  {
    hide NoRepeats;
    var queue := QueueOf(s, BlockResource(r));
    assert Linked(queue, s.status, BlockResource(r), out);
    assert q in queue;
  }

  lemma WaitersAlive(s: State, out: Pid)
    requires AllLinked(s, out)
    ensures forall r, q :: r in s.pool.resources && q in s.pool.resources[r].waiters ==>
              Alive(s, q) && s.status[q - 1] == BlockResource(r) && q != out
  {
    hide AllLinked;
    forall r, q | r in s.pool.resources && q in s.pool.resources[r].waiters
      ensures Alive(s, q) && s.status[q - 1] == BlockResource(r) && q != out
    {
      WaiterAlive(s, r, q, out);
    }
  }

  lemma SignalKeeps(s: State, initial: map<string, nat>, degree: nat, p: Pid, r: string, out: Pid)
    requires InvBut(s, initial, degree, out) && Holding(p, r) in s.pool.held && r in s.pool.resources
    requires p !in s.pool.resources[r].waiters
    ensures forall q :: q in s.pool.resources[r].waiters ==> Alive(s, q)
    ensures var t := SignalStep(s, p, r);
            && InvBut(t, initial, degree, out) && OnlyReady(s, t)
            && (Alive(s, p) ==> t.status[p - 1] == s.status[p - 1])
  {
    hide AllLinked, HeldLive, PoolOk, Popped, Enqueue;
    WaitersAlive(s, out);
    SignalOk(s.pool, initial, p, r);
    SignalHeld(s, p, r);
    var (pool, woken) := Signal(s.pool, p, r);
    var t := s.(pool := pool);
    if woken == [] {
      SignalQuiet(s, p, r, out);
    } else {
      SignalPops(s, p, r, out);
      assert woken[0].pid in s.pool.resources[r].waiters;
      EnqueueKeeps(s, t, initial, degree, woken[0].pid, BlockResource(r), false, out);
      EnqueueRest(t, woken[0].pid, false);
      assert Alive(s, p) ==> Alive(t, p) && p != woken[0].pid;
    }
  }

  // ----- Releasing everything -----

  function Pids(ws: seq<Wake>): seq<Pid> {
    if ws == [] then [] else [ws[0].pid] + Pids(ws[1..])
  }

  lemma SoundFrom(s: State, initial: map<string, nat>, p: Pid, out: Pid)
    requires AllLinked(s, out) && PoolOk(s.pool, initial)
    ensures Sound(s, p)
  {
    hide AllLinked;
    WaitersAlive(s, out);
  }

  /** The woken processes join the end of READY, or of READY+ under VRR, in the order they are woken. */
  ghost predicate WokenJoin(s: State, t: State, woken: seq<Wake>) {
    && t.ready == s.ready + (if s.algorithm.VRR? then [] else Pids(woken))
    && t.readyPlus == s.readyPlus + (if s.algorithm.VRR? then Pids(woken) else [])
  }

  lemma NoneWoken(s: State)
    ensures WokenJoin(s, s, [])
  {
  }

  lemma SignalJoins(s: State, p: Pid, r: string)
    requires r in s.pool.resources && Holding(p, r) in s.pool.held
    requires forall q :: q in s.pool.resources[r].waiters ==> Alive(s, q)
    ensures WokenJoin(s, SignalStep(s, p, r), Signal(s.pool, p, r).1)
  {
    var woken := Signal(s.pool, p, r).1;
    if woken != [] {
      assert Pids(woken) == [woken[0].pid] + Pids([]);
    }
  }

  lemma {:induction false} PidsAppend(a: seq<Wake>, b: seq<Wake>)
    ensures Pids(a + b) == Pids(a) + Pids(b)
  {
    if a == [] {
      NoneBefore(b);
      NoneBefore(Pids(b));
    } else {
      PidsAppend(a[1..], b);
      AppendTail(a, b);
      Assoc([a[0].pid], Pids(a[1..]), Pids(b));
    }
  }

  lemma WokenTwice(s: State, t: State, u: State, a: seq<Wake>, b: seq<Wake>)
    requires WokenJoin(s, t, a) && WokenJoin(t, u, b) && s.algorithm == t.algorithm
    ensures WokenJoin(s, u, a + b)
  {
    hide Pids;
    PidsAppend(a, b);
    if s.algorithm.VRR? {
      Assoc(s.readyPlus, Pids(a), Pids(b));
      NoneBefore(s.ready);
    } else {
      Assoc(s.ready, Pids(a), Pids(b));
      NoneBefore(s.readyPlus);
    }
  }

  /** An exiting process that is in no queue of a resource leaves the pool as `Release` says, and moves
      exactly the processes it wakes. */
  lemma {:induction false} ReleaseKeeps(s: State, initial: map<string, nat>, degree: nat, p: Pid, out: Pid)
    requires InvBut(s, initial, degree, out) && NotWaiting(s.pool, p) && Alive(s, p)
    ensures Sound(s, p) && Known(s.pool, p)
    ensures var t := ReleaseAll(s, p);
            && InvBut(t, initial, degree, out) && OnlyReady(s, t)
            && t.status[p - 1] == s.status[p - 1]
            && t.pool == Release(s.pool, p).0
            && WokenJoin(s, t, Release(s.pool, p).1)
    decreases CountOf(s.pool.held, p)
  {
    hide AllLinked, Tokens, HeldLive, DevicesOk, SignalStep, Signal, WokenJoin, NotWaiting, Sound, ResourceOk;
    SoundFrom(s, initial, p, out);
    var r := FirstOf(s.pool.held, p);
    if r.None? {
      NoneWoken(s);
    } else {
      SignalIn(s.pool, initial, p, r.value);
      SignalKeeps(s, initial, degree, p, r.value, out);
      SignalSound(s, p, r.value);
      SignalJoins(s, p, r.value);
      var t := SignalStep(s, p, r.value);
      ReleaseKeeps(t, initial, degree, p, out);
      var (mid, woken) := Signal(s.pool, p, r.value);
      WokenTwice(s, t, ReleaseAll(t, p), woken, Release(mid, p).1);
    }
  }

  lemma SignalIn(pool: Pool, initial: map<string, nat>, p: Pid, r: string)
    requires PoolOk(pool, initial) && NotWaiting(pool, p) && Holding(p, r) in pool.held
    ensures r in pool.resources && p !in pool.resources[r].waiters && NotWaiting(Signal(pool, p, r).0, p)
  {
  }
}
