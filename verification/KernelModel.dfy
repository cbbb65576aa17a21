/** The kernel's queues, semaphores and process states as one transition system (kernel/src/kernel.c). */
module KernelModel {
  import opened Common
  import opened KernelPool
  import opened KernelDevices

  datatype Algorithm = FIFO | RR | VRR

  /** `lista_estados`: one entry for each pid, from 1. */
  datatype Status = New | Ready | ReadyPlus | Exec | BlockIo(device: string) | BlockResource(resource: string) | Exit

  /** What the CPU is given: nothing yet; a process; or the next of READY+ or READY, whichever
      `replanificar` chose, once its semaphore allows. */
  datatype Cpu = Idle | Running(pid: Pid) | Choosing(plus: bool)

  datatype State = State(
    algorithm: Algorithm,
    newQ: seq<Pid>, ready: seq<Pid>, readyPlus: seq<Pid>, exited: seq<Pid>,
    pidsReady: seq<Pid>, pidsReadyPlus: seq<Pid>,
    semNew: int, semReady: int, semReadyPlus: int, slots: int,
    first: bool, cpu: Cpu, pool: Pool, devices: map<string, Device>, status: seq<Status>)

  predicate Alive(s: State, p: Pid) {
    0 < p <= |s.status|
  }

  function WithStatus(s: State, p: Pid, st: Status): State
    requires Alive(s, p)
  {
    s.(status := s.status[p - 1 := st])
  }

  // ----- The pieces of a step -----

  function JoinReady(s: State, p: Pid): (t: State)
    requires Alive(s, p)
    ensures |t.status| == |s.status|
  {
    WithStatus(s, p, Ready).(ready := s.ready + [p], pidsReady := s.pidsReady + [p], semReady := s.semReady + 1)
  }

  function JoinReadyPlus(s: State, p: Pid): (t: State)
    requires Alive(s, p)
    ensures |t.status| == |s.status|
  {
    WithStatus(s, p, ReadyPlus).(readyPlus := s.readyPlus + [p], pidsReadyPlus := s.pidsReadyPlus + [p],
      semReadyPlus := s.semReadyPlus + 1)
  }

  /** `iniciar`: back to READY, or to READY+ under VRR when it is not for its quantum. */
  function Enqueue(s: State, p: Pid, quantum: bool): (t: State)
    requires Alive(s, p)
    ensures |t.status| == |s.status|
  {
    if quantum || !s.algorithm.VRR? then JoinReady(s, p) else JoinReadyPlus(s, p)
  }

  /** `replanificar` up to its choice; `blocking` tells a motive that contains IO or is WAIT. */
  function Replan(s: State, blocking: bool): State {
    s.(cpu := Choosing(s.algorithm.VRR? && (s.readyPlus != [] || (s.ready == [] && blocking))))
  }

  /** `signal` on an existing resource. */
  function SignalStep(s: State, p: Pid, r: string): (t: State)
    requires r in s.pool.resources && Holding(p, r) in s.pool.held
    requires forall q :: q in s.pool.resources[r].waiters ==> Alive(s, q)
    ensures |t.status| == |s.status| && t.pool == Signal(s.pool, p, r).0
  {
    var (pool, woken) := Signal(s.pool, p, r);
    var waiters := s.pool.resources[r].waiters;
    var s' := s.(pool := pool);
    if woken == [] then s' else (assert woken[0].pid == waiters[0] &&
      Alive(s, waiters[0]); Enqueue(s', woken[0].pid, false))
  }

  /** The last part of `exit_prima`. */
  function Leave(s: State, p: Pid): State
    requires Alive(s, p)
  {
    WithStatus(s, p, Exit).(exited := s.exited + [p], slots := s.slots + 1)
  }

  // ----- The invariant -----

  /** The queue whose members are in state `st`. */
  function QueueOf(s: State, st: Status): seq<Pid> {
    match st
    case New => s.newQ
    case Ready => s.ready
    case ReadyPlus => s.readyPlus
    case Exec => if s.cpu.Running? then [s.cpu.pid] else []
    case BlockIo(d) => if d in s.devices then s.devices[d].queue else []
    case BlockResource(r) => if r in s.pool.resources then s.pool.resources[r].waiters else []
    case Exit => s.exited
  }

  /** A queue holds, once each, the processes in its state. While a process is between two
      queues, `out` is its pid; otherwise 0. */
  ghost predicate Linked(queue: seq<Pid>, status: seq<Status>, st: Status, out: Pid) {
    && NoRepeats(queue)
    && forall p :: p in queue <==> 0 < p <= |status| && status[p - 1] == st && p != out
  }

  ghost predicate AllLinked(s: State, out: Pid) {
    forall st: Status :: Linked(QueueOf(s, st), s.status, st, out)
  }

  predicate IsLive(st: Status) {
    st != New && st != Exit
  }

  function Live(status: seq<Status>): nat {
    if status == [] then 0 else Live(status[..|status| - 1]) + if IsLive(status[|status| - 1]) then 1 else 0
  }

  /** Semaphores mirror queues, the pid lists mirror them too, and free slots plus admitted unfinished
      processes make the degree of multiprogramming. */
  ghost predicate Tokens(s: State, degree: nat) {
    && s.pidsReady == s.ready && s.pidsReadyPlus == s.readyPlus
    && s.semReady == |s.ready| && s.semReadyPlus == |s.readyPlus| && s.semNew == |s.newQ|
    && s.slots >= 0 && s.slots + Live(s.status) == degree
  }

  /** Only admitted, unfinished processes hold resources. */
  ghost predicate HeldLive(s: State) {
    forall h :: h in s.pool.held ==> Alive(s, h.pid) && IsLive(s.status[h.pid - 1])
  }

  ghost predicate DevicesOk(s: State) {
    forall d :: d in s.devices ==> DeviceOk(s.devices[d])
  }

  ghost predicate InvBut(s: State, initial: map<string, nat>, degree: nat, out: Pid) {
    && AllLinked(s, out)
    && Tokens(s, degree)
    && PoolOk(s.pool, initial)
    && HeldLive(s)
    && DevicesOk(s)
    && (s.first <==> s.cpu.Idle?)
  }

  ghost predicate Inv(s: State, initial: map<string, nat>, degree: nat) {
    InvBut(s, initial, degree, 0)
  }

  // ----- Moves -----

  lemma {:induction false} LiveUpdate(status: seq<Status>, i: nat, st: Status)
    requires i < |status|
    ensures Live(status[i := st]) == Live(status) - (if IsLive(status[i]) then 1 else 0) + (if IsLive(st) then 1 else 0)
  {
    var last := |status| - 1;
    if i == last {
      assert status[i := st][..last] == status[..last];
    } else {
      assert status[i := st][..last] == status[..last][i := st];
      LiveUpdate(status[..last], i, st);
    }
  }

  lemma Pushed(queue: seq<Pid>, p: Pid)
    requires NoRepeats(queue) && p !in queue
    ensures NoRepeats(queue + [p]) && forall q :: q in queue + [p] <==> q in queue || q == p
  {
  }

  /** Moving one process from the queue of `a` to the end of the queue of `b`. */
  lemma MoveLinked(s: State, s': State, p: Pid, a: Status, b: Status, out: Pid)
    requires AllLinked(s, out) && Alive(s, p) && s.status[p - 1] == a && a != b && p != out
    requires s'.status == s.status[p - 1 := b]
    requires NoRepeats(QueueOf(s', a)) && forall q :: q in QueueOf(s', a) <==> q in QueueOf(s, a) && q != p
    requires QueueOf(s', b) == QueueOf(s, b) + [p]
    requires forall st: Status :: st != a && st != b ==> QueueOf(s', st) == QueueOf(s, st)
    ensures AllLinked(s', out)
  {
    forall st: Status ensures Linked(QueueOf(s', st), s'.status, st, out) {
      assert Linked(QueueOf(s, st), s.status, st, out);
      if st == b {
        Pushed(QueueOf(s, b), p);
      }
    }
  }

  lemma HeadGone(queue: seq<Pid>)
    requires NoRepeats(queue) && queue != []
    ensures NoRepeats(queue[1..]) && forall q :: q in queue[1..] <==> q in queue && q != queue[0]
  {
  }

  /** A process between queues joins the queue of `b`. */
  lemma JoinLinked(s: State, s': State, p: Pid, b: Status)
    requires AllLinked(s, p) && Alive(s, p) && s.status[p - 1] != b
    requires s'.status == s.status[p - 1 := b]
    requires QueueOf(s', b) == QueueOf(s, b) + [p]
    requires forall st: Status :: st != b ==> QueueOf(s', st) == QueueOf(s, st)
    ensures AllLinked(s', 0)
  {
    forall st: Status ensures Linked(QueueOf(s', st), s'.status, st, 0) {
      assert Linked(QueueOf(s, st), s.status, st, p);
      if st == b {
        Pushed(QueueOf(s, b), p);
      }
    }
  }
}
