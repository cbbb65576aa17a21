/** Every state that a run of the kernel reaches (kernel/src/kernel.c). */
module KernelReach {
  import opened Common
  import opened KernelPool
  import Devices = KernelDevices
  import opened KernelModel
  import opened KernelSteps
  import opened KernelRuns
  import opened KernelEvents

  /** Nothing has arrived; `initial` gives the instances of each resource. */
  function Start(algorithm: Algorithm, initial: map<string, nat>, degree: nat): State {
    State(algorithm, [], [], [], [], [], [], 0, 0, 0, degree, true, Idle,
          Pool(map r | r in initial :: Resource(initial[r], []), []), map[], [])
  }

  lemma StartOk(algorithm: Algorithm, initial: map<string, nat>, degree: nat)
    ensures Inv(Start(algorithm, initial, degree), initial, degree)
  {
    var s := Start(algorithm, initial, degree);
    forall st: Status ensures Linked(QueueOf(s, st), s.status, st, 0) {
      assert QueueOf(s, st) == [];
    }
  }

  /** Whatever is allowed to happen finds what it looks up, pops no empty queue, and keeps the invariant. */
  lemma StepKeeps(s: State, initial: map<string, nat>, degree: nat, e: Event)
    requires Inv(s, initial, degree) && Enabled(s, e)
    ensures Defined(s, e) && Inv(Step(s, e), initial, degree)
  {
    hide AllLinked, PoolOk, HeldLive, Tokens, DevicesOk, Sound, ReleaseAll, QueueOf, FinishStep, KillStep,
      Devices.DeviceOk;
    match e
    case Create => CreateKeeps(s, initial, degree);
    case Connect(d) => if d !in s.devices { ConnectKeeps(s, initial, degree, d); }
    case Admit => AdmitKeeps(s, initial, degree);
    case Dispatch => DispatchKeeps(s, initial, degree);
    case Quantum => QuantumKeeps(s, initial, degree);
    case AskIo(d, allowed) => if d in s.devices && allowed { AskKeeps(s, initial, degree, d); }
      else { FinishKeeps(s, initial, degree); }
    case AtDevice(d, step) => AtDeviceKeeps(s, initial, degree, d, step);
    case IoDone(d) => IoDoneKeeps(s, initial, degree, d);
    case WaitFor(r) =>
      FinishKeeps(s, initial, degree);
      if r in s.pool.resources { WaitKeeps(s, initial, degree, r); }
    case SignalOn(r) =>
      FinishKeeps(s, initial, degree);
      if r in s.pool.resources {
        RunningNotWaiting(s, r);
        SignalKeeps(s, initial, degree, s.cpu.pid, r, 0);
      }
    case Finish => FinishKeeps(s, initial, degree);
    case Kill(p) => KillKeeps(s, initial, degree, p);
  }

  lemma RunningNotWaiting(s: State, r: string)
    requires AllLinked(s, 0) && s.cpu.Running? && r in s.pool.resources
    ensures s.cpu.pid !in s.pool.resources[r].waiters
  {
    hide AllLinked;
    OnCpu(s, 0);
  }

  // ----- An idle CPU -----

  /** Releasing touches neither the CPU nor the devices nor NEW. */
  lemma {:induction false} ReleaseSame(s: State, p: Pid)
    requires Sound(s, p)
    ensures var t := ReleaseAll(s, p);
            t.cpu == s.cpu && t.devices == s.devices && t.algorithm == s.algorithm && t.newQ == s.newQ
    decreases CountOf(s.pool.held, p)
  {
    hide Sound, Signal;
    var r := FirstOf(s.pool.held, p);
    if r.Some? {
      SoundKnown(s, p, r.value);
      SignalSound(s, p, r.value);
      ReleaseSame(SignalStep(s, p, r.value), p);
    }
  }

  lemma KillCpu(s: State, p: Pid)
    requires Enabled(s, Kill(p)) && Defined(s, Kill(p))
    ensures Step(s, Kill(p)).cpu == s.cpu
  {
    hide Sound, ReleaseAll;
    ReleaseSame(s.(pool := TakeOut(s.pool, p, s.status[p - 1].resource)), p);
  }

  /** The CPU is idle only before the first admission: nothing is ready and no process is admitted and unfinished. */
  ghost predicate IdleEmpty(s: State) {
    s.cpu.Idle? ==> s.ready == [] && s.readyPlus == [] && Live(s.status) == 0
  }

  lemma {:induction false} NoneLive(status: seq<Status>, i: nat)
    requires Live(status) == 0 && i < |status|
    ensures !IsLive(status[i])
  {
    if i < |status| - 1 {
      NoneLive(status[..|status| - 1], i);
    }
  }

  /** Once it has left that state, it never comes back. */
  lemma NeverIdleAgain(s: State, e: Event)
    requires Enabled(s, e) && Defined(s, e) && !s.cpu.Idle?
    ensures !Step(s, e).cpu.Idle?
  {
    hide Sound, ReleaseAll, Signal, Wait, TakeOut, Devices.DeviceOk, Devices.Enabled, Devices.Next;
    match e
    case Kill(p) => KillCpu(s, p);
    case _ =>
  }

  lemma IdleStep(s: State, initial: map<string, nat>, degree: nat, e: Event)
    requires Inv(s, initial, degree) && IdleEmpty(s) && Enabled(s, e)
    ensures Defined(s, e) && IdleEmpty(Step(s, e))
  {
    hide AllLinked, PoolOk, HeldLive, Tokens, Sound, ReleaseAll, Devices.DeviceOk, Devices.Enabled, Devices.Next;
    StepKeeps(s, initial, degree, e);
    if !s.cpu.Idle? {
      NeverIdleAgain(s, e);
    } else {
      IdleEvents(s, initial, degree, e);
    }
  }

  /** With an idle CPU there is no completion to receive and no blocked process to kill. */
  lemma IdleEvents(s: State, initial: map<string, nat>, degree: nat, e: Event)
    requires Inv(s, initial, degree) && IdleEmpty(s) && Enabled(s, e) && Defined(s, e) && s.cpu.Idle?
    ensures IdleEmpty(Step(s, e))
    ensures e.Create? || e.Connect? || e.Admit? || e.AtDevice?
  {
    hide AllLinked, PoolOk, HeldLive, Tokens, Sound, ReleaseAll;
    match e
    case Create => assert Step(s, e).status[..|s.status|] == s.status;
    case IoDone(d) =>
      InQueue(s, BlockIo(d), s.devices[d].queue[0], 0);
      NoneLive(s.status, s.devices[d].queue[0] - 1);
    case Kill(p) => NoneLive(s.status, p - 1);
    case _ =>
  }

  // ----- Whole runs -----

  ghost predicate Reaches(s: State, events: seq<Event>, t: State)
    decreases |events|
  {
    if events == [] then t == s
    else Enabled(s, events[0]) && Defined(s, events[0]) && Reaches(Step(s, events[0]), events[1..], t)
  }

  lemma {:induction false} RunKeeps(s: State, initial: map<string, nat>, degree: nat, events: seq<Event>, t: State)
    requires Inv(s, initial, degree) && Reaches(s, events, t)
    ensures Inv(t, initial, degree)
    decreases |events|
  {
    hide Inv, Step, Enabled, Defined;
    if events != [] {
      StepKeeps(s, initial, degree, events[0]);
      RunKeeps(Step(s, events[0]), initial, degree, events[1..], t);
    }
  }

  lemma {:induction false} RunIdle(s: State, initial: map<string, nat>, degree: nat, events: seq<Event>, t: State)
    requires Inv(s, initial, degree) && IdleEmpty(s) && Reaches(s, events, t)
    ensures IdleEmpty(t)
    decreases |events|
  {
    hide Inv, IdleEmpty, Step, Enabled, Defined;
    if events != [] {
      StepKeeps(s, initial, degree, events[0]);
      IdleStep(s, initial, degree, events[0]);
      RunIdle(Step(s, events[0]), initial, degree, events[1..], t);
    }
  }

  /** In every reachable state: semaphores and lists mirror the queues; every process is in exactly the
      queue of its state; slots and resources are conserved; and whatever may happen next is safe. */
  lemma Reachable(algorithm: Algorithm, initial: map<string, nat>, degree: nat, events: seq<Event>, t: State)
    requires Reaches(Start(algorithm, initial, degree), events, t)
    ensures t.semReady == |t.ready| && t.semReadyPlus == |t.readyPlus| && t.semNew == |t.newQ|
    ensures t.pidsReady == t.ready && t.pidsReadyPlus == t.readyPlus
    ensures forall p, st :: Alive(t, p) ==> (p in QueueOf(t, st) <==> t.status[p - 1] == st)
    ensures t.slots >= 0 && t.slots + Live(t.status) == degree
    ensures PoolOk(t.pool, initial)
    ensures forall e :: Enabled(t, e) ==> Defined(t, e)
    ensures t.cpu.Idle? ==> t.ready == [] && t.readyPlus == [] && Live(t.status) == 0
  {
    hide Reaches, PoolOk, Enabled, Defined, QueueOf;
    StartOk(algorithm, initial, degree);
    RunIdle(Start(algorithm, initial, degree), initial, degree, events, t);
    RunKeeps(Start(algorithm, initial, degree), initial, degree, events, t);
    forall e | Enabled(t, e) ensures Defined(t, e) {
      StepKeeps(t, initial, degree, e);
    }
    forall p, st | Alive(t, p) ensures p in QueueOf(t, st) <==> t.status[p - 1] == st {
      assert Linked(QueueOf(t, st), t.status, st, 0);
    }
  }

  // ----- Who is woken -----

  ghost predicate AllInTurn(s: State) {
    forall d :: d in s.devices ==> Devices.InTurn(s.devices[d])
  }

  lemma SoundKnown(s: State, p: Pid, r: string)
    requires Sound(s, p) && Holding(p, r) in s.pool.held
    ensures r in s.pool.resources && forall q :: q in s.pool.resources[r].waiters ==> Alive(s, q)
  {
  }

  lemma InTurnStep(s: State, e: Event)
    requires AllInTurn(s) && Enabled(s, e) && Defined(s, e) && !(e.AtDevice? && e.step.Drop?)
    ensures AllInTurn(Step(s, e))
  {
    hide Sound, ReleaseAll, Signal, Wait, TakeOut, Devices.InTurn, Devices.Enabled, Devices.Next;
    match e
    case Connect(d) => Devices.NewDeviceOk();
    case AtDevice(d, step) => Devices.InTurnNext(s.devices[d], step);
    case IoDone(d) => Devices.InTurnNext(s.devices[d], Devices.Receive);
    case AskIo(d, allowed) =>
      if d in s.devices && allowed {
        Devices.InTurnNext(s.devices[d], Devices.Ask(s.cpu.pid));
      } else {
        ReleaseSame(s, s.cpu.pid);
      }
    case WaitFor(r) => ReleaseSame(s, s.cpu.pid);
    case SignalOn(r) => ReleaseSame(s, s.cpu.pid);
    case Finish => ReleaseSame(s, s.cpu.pid);
    case Kill(p) => ReleaseSame(s.(pool := TakeOut(s.pool, p, s.status[p - 1].resource)), p);
    case _ =>
  }

  lemma {:induction false} InTurnRun(s: State, events: seq<Event>, t: State)
    requires AllInTurn(s) && Reaches(s, events, t)
    requires forall i :: 0 <= i < |events| ==> !(events[i].AtDevice? && events[i].step.Drop?)
    ensures AllInTurn(t)
    decreases |events|
  {
    hide AllInTurn, Step, Enabled, Defined;
    if events != [] {
      InTurnStep(s, events[0]);
      InTurnRun(Step(s, events[0]), events[1..], t);
    }
  }

  /** If no device drops a request, a completion makes ready exactly the process whose request it answers. */
  lemma CompletionWakes(algorithm: Algorithm, initial: map<string, nat>, degree: nat, events: seq<Event>, t: State,
                        d: string)
    requires Reaches(Start(algorithm, initial, degree), events, t) && Enabled(t, IoDone(d))
    requires forall i :: 0 <= i < |events| ==> !(events[i].AtDevice? && events[i].step.Drop?)
    ensures Defined(t, IoDone(d))
    ensures var dev := t.devices[d];
            var k := dev.finished[dev.woken];
            && k < |dev.asked| && Alive(t, dev.asked[k]) && t.status[dev.asked[k] - 1] == BlockIo(d)
            && Step(t, IoDone(d)).status == t.status[dev.asked[k] - 1 := if t.algorithm.VRR? then ReadyPlus else Ready]
  {
    hide Reaches, PoolOk, HeldLive, AllLinked, Tokens;
    StartOk(algorithm, initial, degree);
    RunKeeps(Start(algorithm, initial, degree), initial, degree, events, t);
    StepKeeps(t, initial, degree, IoDone(d));
    InTurnRun(Start(algorithm, initial, degree), events, t);
    InQueue(t, BlockIo(d), t.devices[d].queue[0], 0);
  }

  // ----- Waiting for the CPU -----

  function ReadyQueue(s: State, plus: bool): seq<Pid> {
    if plus then s.readyPlus else s.ready
  }

  function Took(s: State, e: Event, plus: bool): nat
    requires Enabled(s, e)
  {
    if e.Dispatch? && s.cpu.plus == plus then 1 else 0
  }

  /** Dispatches from one of the two queues in a run. */
  ghost function Turns(s: State, events: seq<Event>, plus: bool, t: State): nat
    requires Reaches(s, events, t)
    decreases |events|
  {
    if events == [] then 0
    else Took(s, events[0], plus) + Turns(Step(s, events[0]), events[1..], plus, t)
  }

  /** `a` begins with `b`, give or take its first `n`. */
  ghost predicate Continues(a: seq<Pid>, b: seq<Pid>, n: nat) {
    n <= |a| && |a| - n <= |b| && forall i :: n <= i < |a| ==> b[i - n] == a[i]
  }

  lemma {:induction false} ReleaseContinues(s: State, p: Pid, plus: bool)
    requires Sound(s, p)
    ensures Continues(ReadyQueue(s, plus), ReadyQueue(ReleaseAll(s, p), plus), 0)
    decreases CountOf(s.pool.held, p)
  {
    hide Sound, Signal, SignalStep, ReadyQueue;
    var r := FirstOf(s.pool.held, p);
    if r.Some? {
      SoundKnown(s, p, r.value);
      SignalSound(s, p, r.value);
      SignalContinues(s, p, r.value, plus);
      ReleaseContinues(SignalStep(s, p, r.value), p, plus);
    }
  }

  lemma SignalContinues(s: State, p: Pid, r: string, plus: bool)
    requires r in s.pool.resources && Holding(p, r) in s.pool.held
    requires forall q :: q in s.pool.resources[r].waiters ==> Alive(s, q)
    ensures Continues(ReadyQueue(s, plus), ReadyQueue(SignalStep(s, p, r), plus), 0)
  {
  }

  lemma FinishContinues(s: State, plus: bool)
    requires s.cpu.Running? && Alive(s, s.cpu.pid) && Sound(s, s.cpu.pid)
    ensures Continues(ReadyQueue(s, plus), ReadyQueue(FinishStep(s), plus), 0)
  {
    hide Sound, ReleaseAll;
    ReleaseContinues(s, s.cpu.pid, plus);
  }

  lemma KillContinues(s: State, p: Pid, r: string, plus: bool)
    requires Alive(s, p) && r in s.pool.resources && Holding(p, r) in s.pool.held &&
             Sound(s.(pool := TakeOut(s.pool, p, r)), p)
    ensures Continues(ReadyQueue(s, plus), ReadyQueue(KillStep(s, p, r), plus), 0)
  {
    hide Sound, ReleaseAll, TakeOut;
    ReleaseContinues(s.(pool := TakeOut(s.pool, p, r)), p, plus);
  }

  lemma EnqueueContinues(s: State, p: Pid, quantum: bool, plus: bool)
    requires Alive(s, p)
    ensures Continues(ReadyQueue(s, plus), ReadyQueue(Enqueue(s, p, quantum), plus), 0)
  {
  }

  lemma AdmitContinues(s: State, plus: bool)
    requires s.newQ != [] && Alive(s, s.newQ[0])
    ensures Continues(ReadyQueue(s, plus), ReadyQueue(AdmitStep(s), plus), 0)
  {
  }

  lemma DispatchContinues(s: State, plus: bool)
    requires Enabled(s, Dispatch) && Defined(s, Dispatch)
    ensures Continues(ReadyQueue(s, plus), ReadyQueue(DispatchStep(s), plus), Took(s, Dispatch, plus))
  {
  }

  lemma IoDoneContinues(s: State, d: string, plus: bool)
    requires Enabled(s, IoDone(d)) && Defined(s, IoDone(d))
    ensures Continues(ReadyQueue(s, plus), ReadyQueue(IoDoneStep(s, d), plus), 0)
  {
    hide Enqueue, Continues, Devices.Next;
    var t := s.(devices := s.devices[d := Devices.Next(s.devices[d], Devices.Receive)]);
    EnqueueContinues(t, s.devices[d].queue[0], false, plus);
    SameQueues(s, t, plus);
  }

  lemma SameContinues(s: State, t: State, plus: bool)
    requires t.ready == s.ready && t.readyPlus == s.readyPlus
    ensures Continues(ReadyQueue(s, plus), ReadyQueue(t, plus), 0)
  {
  }

  /** Only a dispatch takes from READY or READY+, and only the head. */
  lemma StepContinues(s: State, e: Event, plus: bool)
    requires Enabled(s, e) && Defined(s, e)
    ensures Continues(ReadyQueue(s, plus), ReadyQueue(Step(s, e), plus), Took(s, e, plus))
  {
    hide Sound, FinishStep, KillStep, SignalStep, AdmitStep, DispatchStep, Enqueue, Wait, TakeOut, Continues,
      ReadyQueue,
      Devices.DeviceOk, Devices.Enabled, Devices.Next;
    match e
    case Create => SameContinues(s, Step(s, e), plus);
    case Connect(_) => SameContinues(s, Step(s, e), plus);
    case Admit => AdmitContinues(s, plus);
    case Dispatch => DispatchContinues(s, plus);
    case Quantum =>
      EnqueueContinues(s, s.cpu.pid, true, plus);
      SameQueues(Enqueue(s, s.cpu.pid, true), Step(s, e), plus);
    case AskIo(d, allowed) =>
      if d in s.devices && allowed { SameContinues(s, Step(s, e), plus); } else { FinishContinues(s, plus); }
    case AtDevice(_, _) => SameContinues(s, Step(s, e), plus);
    case IoDone(d) =>
      IoDoneContinues(s, d, plus);
    case WaitFor(r) =>
      if r in s.pool.resources { SameContinues(s, Step(s, e), plus); } else { FinishContinues(s, plus); }
    case SignalOn(r) =>
      if r in s.pool.resources {
        SoundKnown(s, s.cpu.pid, r);
        SignalContinues(s, s.cpu.pid, r, plus);
      } else {
        FinishContinues(s, plus);
      }
    case Finish => FinishContinues(s, plus);
    case Kill(p) => KillContinues(s, p, s.status[p - 1].resource, plus);
  }

  lemma SameQueues(s: State, t: State, plus: bool)
    requires t.ready == s.ready && t.readyPlus == s.readyPlus
    ensures ReadyQueue(t, plus) == ReadyQueue(s, plus)
  {
  }

  /** Nobody is overtaken: over any run, the process with `i` others ahead of it in READY (or in READY+)
      is still there, with one less ahead for each dispatch from that queue, until its own turn. */
  lemma {:induction false} NobodyIsOvertaken(s: State, events: seq<Event>, t: State, plus: bool, i: nat)
    requires Reaches(s, events, t) && i < |ReadyQueue(s, plus)| && Turns(s, events, plus, t) <= i
    ensures var k := i - Turns(s, events, plus, t);
            k < |ReadyQueue(t, plus)| && ReadyQueue(t, plus)[k] == ReadyQueue(s, plus)[i]
    decreases |events|
  {
    hide Enabled, Defined, Step, ReadyQueue, Took;
    if events != [] {
      var m := Took(s, events[0], plus);
      StepContinues(s, events[0], plus);
      NobodyIsOvertaken(Step(s, events[0]), events[1..], t, plus, i - m);
    }
  }

  /** Once nobody is ahead, the next dispatch from the queue runs it. */
  lemma RunsInTurn(s: State, events: seq<Event>, t: State, plus: bool, i: nat)
    requires Reaches(s, events, t) && i < |ReadyQueue(s, plus)| && Turns(s, events, plus, t) == i
    requires Enabled(t, Dispatch) && Defined(t, Dispatch) && t.cpu.plus == plus
    ensures Step(t, Dispatch).cpu == Running(ReadyQueue(s, plus)[i])
  {
    hide Reaches, Turns;
    NobodyIsOvertaken(s, events, t, plus, i);
  }
}
