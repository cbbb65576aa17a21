/** Every step of the kernel, and what it keeps (kernel/src/kernel.c). */
module KernelSteps {
  import opened Common
  import opened KernelPool
  import Devices = KernelDevices
  import opened KernelModel

  // ----- Releasing the resources of a process -----

  /** Signals by `p` find what they look for. */
  ghost predicate Sound(s: State, p: Pid) {
    && Known(s.pool, p)
    && forall r, q :: r in s.pool.resources && q in s.pool.resources[r].waiters ==> Alive(s, q)
  }

  lemma SignalSound(s: State, p: Pid, r: string)
    requires Sound(s, p) && Holding(p, r) in s.pool.held && r in s.pool.resources
    ensures Sound(SignalStep(s, p, r), p)
    ensures CountOf(SignalStep(s, p, r).pool.held, p) == CountOf(s.pool.held, p) - 1
  {
    RemoveFirstCounts(s.pool.held, Holding(p, r));
    var t := SignalStep(s, p, r);
    forall x, q | x in t.pool.resources && q in t.pool.resources[x].waiters ensures Alive(t, q) {
      assert q in s.pool.resources[x].waiters && Alive(s, q);
    }
  }

  /** `liberar_recursos`: signals until `p` holds nothing; each may put a process back in READY or READY+. */
  ghost function ReleaseAll(s: State, p: Pid): (t: State)
    requires Sound(s, p)
    ensures |t.status| == |s.status|
    decreases CountOf(s.pool.held, p)
  {
    var r := FirstOf(s.pool.held, p);
    if r.None? then s else (SignalSound(s, p, r.value); ReleaseAll(SignalStep(s, p, r.value), p))
  }

  // ----- Steps -----

  datatype Event =
    | Create
    | Connect(device: string)
    | Admit
    | Dispatch
    | Quantum
    | AskIo(device: string, allowed: bool)
    | AtDevice(device: string, step: Devices.Step)
    | IoDone(device: string)
    | WaitFor(resource: string)
    | SignalOn(resource: string)
    | Finish
    | Kill(pid: Pid)

  /** What semaphores, the CPU, the devices and the user let happen. A process signals resources that
      it holds, or that do not exist. */
  predicate Enabled(s: State, e: Event) {
    match e
    case Create => true
    case Connect(_) => true
    case Admit => s.semNew > 0 && s.slots > 0
    case Dispatch => s.cpu.Choosing? && (if s.cpu.plus then s.semReadyPlus else s.semReady) > 0
    case Quantum => s.cpu.Running? && !s.algorithm.FIFO?
    case AskIo(_, _) => s.cpu.Running?
    case AtDevice(d, step) => d in s.devices && (step.Take? || step.Finish? || step.Drop?) &&
      Devices.Enabled(s.devices[d], step)
    case IoDone(d) => d in s.devices && Devices.Enabled(s.devices[d], Devices.Receive)
    case WaitFor(_) => s.cpu.Running?
    case SignalOn(r) => s.cpu.Running? && (r in s.pool.resources ==> Holding(s.cpu.pid, r) in s.pool.held)
    case Finish => s.cpu.Running?
    case Kill(p) => Alive(s, p) && s.status[p - 1].BlockResource?
  }

  /** What the code takes for granted: it pops no empty queue, and finds every process, queue and entry
      it looks up. */
  ghost predicate Defined(s: State, e: Event)
    requires Enabled(s, e)
  {
    match e
    case Create => true
    case Connect(_) => true
    case Admit => s.newQ != [] && Alive(s, s.newQ[0])
    case Dispatch =>
      if s.cpu.plus then s.readyPlus != [] && s.pidsReadyPlus != [] && Alive(s, s.readyPlus[0])
      else s.ready != [] && s.pidsReady != [] && Alive(s, s.ready[0])
    case Quantum => Alive(s, s.cpu.pid)
    case AskIo(d, allowed) =>
      && Alive(s, s.cpu.pid)
      && if d in s.devices && allowed
         then Devices.Enabled(s.devices[d], Devices.Ask(s.cpu.pid)) && Devices.DeviceOk(s.devices[d])
         else Sound(s, s.cpu.pid)
    case AtDevice(d, step) => Devices.DeviceOk(s.devices[d])
    case IoDone(d) => Devices.DeviceOk(s.devices[d]) && s.devices[d].queue != [] && Alive(s, s.devices[d].queue[0])
    case WaitFor(r) => Alive(s, s.cpu.pid) && Sound(s, s.cpu.pid)
    case SignalOn(r) => Alive(s, s.cpu.pid) && Sound(s, s.cpu.pid)
    case Finish => Alive(s, s.cpu.pid) && Sound(s, s.cpu.pid)
    case Kill(p) =>
      var r := s.status[p - 1].resource;
      && r in s.pool.resources && Holding(p, r) in s.pool.held && p in s.pool.resources[r].waiters
      && Sound(s.(pool := TakeOut(s.pool, p, r)), p)
  }

  /** The queue that `replanificar` settled on. */
  function Next(s: State): seq<Pid>
    requires s.cpu.Choosing?
  {
    if s.cpu.plus then s.readyPlus else s.ready
  }

  function CreateStep(s: State): State {
    s.(newQ := s.newQ + [|s.status| + 1], status := s.status + [New], semNew := s.semNew + 1)
  }

  function LeaveNew(s: State): State
    requires s.newQ != []
  {
    s.(newQ := s.newQ[1..], semNew := s.semNew - 1, slots := s.slots - 1)
  }

  function AdmitStep(s: State): State
    requires s.newQ != [] && Alive(s, s.newQ[0])
  {
    var t := JoinReady(LeaveNew(s), s.newQ[0]);
    if s.first then Replan(t, false).(first := false) else t
  }

  /** The head of the queue that `replanificar` settled on leaves it, and its pid list. */
  function LeaveReady(s: State): (t: State)
    requires s.cpu.Choosing? && Next(s) != []
    requires (s.cpu.plus ==> s.pidsReadyPlus != []) && (!s.cpu.plus ==> s.pidsReady != [])
    ensures t.status == s.status
  {
    if s.cpu.plus then s.(readyPlus := s.readyPlus[1..], pidsReadyPlus := s.pidsReadyPlus[1..],
      semReadyPlus := s.semReadyPlus - 1)
    else s.(ready := s.ready[1..], pidsReady := s.pidsReady[1..], semReady := s.semReady - 1)
  }

  function DispatchStep(s: State): State
    requires s.cpu.Choosing? && Next(s) != [] && Alive(s, Next(s)[0])
    requires (s.cpu.plus ==> s.pidsReadyPlus != []) && (!s.cpu.plus ==> s.pidsReady != [])
  {
    WithStatus(LeaveReady(s), Next(s)[0], Exec).(cpu := Running(Next(s)[0]))
  }

  function AskStep(s: State, d: string): State
    requires Enabled(s, AskIo(d, true)) && d in s.devices && Defined(s, AskIo(d, true))
  {
    var p := s.cpu.pid;
    Replan(WithStatus(s, p, BlockIo(d)).(devices := s.devices[d := Devices.Next(s.devices[d], Devices.Ask(p))]), true)
  }

  function IoDoneStep(s: State, d: string): State
    requires Enabled(s, IoDone(d)) && Defined(s, IoDone(d))
  {
    var dev := s.devices[d];
    Enqueue(s.(devices := s.devices[d := Devices.Next(dev, Devices.Receive)]), dev.queue[0], false)
  }

  function WaitStep(s: State, r: string): State
    requires s.cpu.Running? && Alive(s, s.cpu.pid) && r in s.pool.resources
  {
    var p := s.cpu.pid;
    var pool := Wait(s.pool, p, r);
    if pool.resources[r].count < 0 then Replan(WithStatus(s, p, BlockResource(r)).(pool := pool), true)
    else s.(pool := pool)
  }

  /** `exit_prima` for a process that is out of its queue. */
  ghost function ExitStep(s: State, p: Pid): State
    requires Alive(s, p) && Sound(s, p)
  {
    Leave(ReleaseAll(s, p), p)
  }

  /** FINALIZAR_PROCESO for a process that waits for resource `r`. */
  ghost function KillStep(s: State, p: Pid, r: string): State
    requires Alive(s, p) && r in s.pool.resources && Holding(p, r) in s.pool.held &&
             Sound(s.(pool := TakeOut(s.pool, p, r)), p)
  {
    ExitStep(s.(pool := TakeOut(s.pool, p, r)), p)
  }

  ghost function FinishStep(s: State): State
    requires s.cpu.Running? && Alive(s, s.cpu.pid) && Sound(s, s.cpu.pid)
  {
    Replan(ExitStep(s, s.cpu.pid), false)
  }

  ghost function Step(s: State, e: Event): State
    requires Enabled(s, e) && Defined(s, e)
  {
    match e
    case Create => CreateStep(s)
    case Connect(d) => if d in s.devices then s else s.(devices := s.devices[d := Devices.NEW_DEVICE])
    case Admit => AdmitStep(s)
    case Dispatch => DispatchStep(s)
    case Quantum => Replan(Enqueue(s, s.cpu.pid, true), false)
    case AskIo(d, allowed) => if d in s.devices && allowed then AskStep(s, d) else FinishStep(s)
    case AtDevice(d, step) => s.(devices := s.devices[d := Devices.Next(s.devices[d], step)])
    case IoDone(d) => IoDoneStep(s, d)
    case WaitFor(r) => if r in s.pool.resources then WaitStep(s, r) else FinishStep(s)
    case SignalOn(r) => if r in s.pool.resources then SignalStep(s, s.cpu.pid, r) else FinishStep(s)
    case Finish => FinishStep(s)
    case Kill(p) => KillStep(s, p, s.status[p - 1].resource)
  }
}
