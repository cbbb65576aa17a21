/** The kernel as it runs: queues, lists and semaphores changed in place (kernel/src/kernel.c). */
module Kernel {
  import opened Common
  import opened KernelPool
  import Devices = KernelDevices
  import opened KernelModel
  import opened KernelSteps
  import opened KernelRuns
  import opened KernelEvents
  import opened KernelReach

  lemma {:induction false} FilteredAppend(queue: seq<Pid>, x: Pid, p: Pid)
    ensures Filtered(queue + [x], p) == Filtered(queue, p) + (if x == p then [] else [x])
  {
    var last := if x == p then [] else [x];
    if queue == [] {
      assert queue + [x] == [x];
      assert Filtered([x][1..], p) == [];
    } else {
      var head := if queue[0] == p then [] else [queue[0]];
      assert (queue + [x])[1..] == queue[1..] + [x];
      FilteredAppend(queue[1..], x, p);
      assert head + (Filtered(queue[1..], p) + last) == (head + Filtered(queue[1..], p)) + last;
    }
  }

  lemma {:induction false} RemoveFirstAt(held: seq<Holding>, h: Holding, i: nat)
    requires i < |held| && held[i] == h && h !in held[..i]
    ensures RemoveFirst(held, h) == held[..i] + held[i + 1..]
  {
    if i > 0 {
      assert held[0] in held[..i];
      assert held[1..][..i - 1] == held[..i][1..];
      RemoveFirstAt(held[1..], h, i - 1);
      assert held[..i] + held[i + 1..] == [held[0]] + (held[1..][..i - 1] + held[1..][i..]);
    }
  }

  lemma {:induction false} FirstAt(held: seq<Holding>, p: Pid, i: nat)
    requires i < |held| && held[i].pid == p && forall j :: 0 <= j < i ==> held[j].pid != p
    ensures FirstOf(held, p) == Some(held[i].resource)
  {
    if i > 0 {
      FirstAt(held[1..], p, i - 1);
    }
  }

  lemma AdmitKeepsAll(s: State)
    requires s.newQ != [] && Alive(s, s.newQ[0])
    ensures Enabled(s, Event.Admit) ==> forall initial, degree :: Inv(s, initial, degree) ==>
            Inv(AdmitStep(s), initial, degree)
  {
    hide Inv, AdmitStep;
    forall initial, degree | Enabled(s, Event.Admit) &&
      Inv(s, initial, degree) ensures Inv(AdmitStep(s), initial, degree) {
      AdmitKeeps(s, initial, degree);
    }
  }

  /** `pcb_en_cola`: goes once around the queue, putting back everyone but `p`. */
  method TakeFromQueue(queue: seq<Pid>, p: Pid) returns (rest: seq<Pid>, found: bool)
    ensures rest == Filtered(queue, p)
    ensures found <==> p in queue
  {
    rest, found := queue, false;
    var i := 0;
    while i < |queue|
      invariant 0 <= i <= |queue|
      invariant rest == queue[i..] + Filtered(queue[..i], p)
      invariant found <==> p in queue[..i]
    {
      var head := rest[0];
      FilteredAppend(queue[..i], head, p);
      assert queue[..i] + [head] == queue[..i + 1];
      rest := rest[1..];
      if head == p {
        found := true;
      } else {
        rest := rest + [head];
      }
      i := i + 1;
    }
    assert queue[..i] == queue;
  }

  class Kernel {
    const algorithm: Algorithm
    var newQ: seq<Pid>
    var ready: seq<Pid>
    var readyPlus: seq<Pid>
    var exited: seq<Pid>
    var pidsReady: seq<Pid>
    var pidsReadyPlus: seq<Pid>
    var semNew: int
    var semReady: int
    var semReadyPlus: int
    var slots: int
    var first: bool
    var cpu: Cpu
    var resources: map<string, Resource>
    var held: seq<Holding>
    var devices: map<string, Devices.Device>
    var status: seq<Status>

    function View(): State
      reads this
    {
      State(algorithm, newQ, ready, readyPlus, exited, pidsReady, pidsReadyPlus, semNew, semReady, semReadyPlus,
            slots, first, cpu, Pool(resources, held), devices, status)
    }

    constructor (algorithm: Algorithm, initial: map<string, nat>, degree: nat)
      ensures View() == Start(algorithm, initial, degree)
      ensures Inv(View(), initial, degree)
    {
      this.algorithm := algorithm;
      newQ, ready, readyPlus, exited, pidsReady, pidsReadyPlus := [], [], [], [], [], [];
      semNew, semReady, semReadyPlus, slots := 0, 0, 0, degree;
      first, cpu := true, Idle;
      resources := map r | r in initial :: Resource(initial[r], []);
      held, devices, status := [], map[], [];
      new;
      StartOk(algorithm, initial, degree);
    }

    /** `cambiar_estado`, for a process that exists. */
    method SetStatus(p: Pid, st: Status)
      requires Alive(View(), p)
      modifies this`status
      ensures View() == WithStatus(old(View()), p, st)
    {
      status := status[p - 1 := st];
    }

    /** INICIAR_PROCESO. */
    method NewProcess() returns (p: Pid)
      modifies this
      ensures View() == CreateStep(old(View()))
      ensures p == |status| && p == old(|status|) + 1
      ensures forall initial, degree :: Inv(old(View()), initial, degree) ==> Inv(View(), initial, degree)
    {
      hide Inv;
      p := |status| + 1;
      newQ := newQ + [p];
      status := status + [New];
      semNew := semNew + 1;
      forall initial, degree | Inv(old(View()), initial, degree) ensures Inv(View(), initial, degree) {
        CreateKeeps(old(View()), initial, degree);
      }
    }

    /** One round of `administrar_procesos_new`. */
    method Admit()
      requires newQ != [] && Alive(View(), newQ[0])
      modifies this
      ensures View() == AdmitStep(old(View()))
      ensures old(Enabled(View(), Event.Admit)) ==>
                forall initial, degree :: Inv(old(View()), initial, degree) ==> Inv(View(), initial, degree)
    {
      hide KernelModel.Replan, Inv, Enabled;
      AdmitKeepsAll(View());
      var p := newQ[0];
      newQ := newQ[1..];
      semNew, slots := semNew - 1, slots - 1;
      assert View() == LeaveNew(old(View()));
      PushReady(p);
      if first {
        Replan(false);
        first := false;
      }
    }

    method PushReady(p: Pid)
      requires Alive(View(), p)
      modifies this
      ensures View() == JoinReady(old(View()), p)
    {
      ready := ready + [p];
      pidsReady := pidsReady + [p];
      SetStatus(p, Ready);
      semReady := semReady + 1;
    }

    method PushReadyPlus(p: Pid)
      requires Alive(View(), p)
      modifies this
      ensures View() == JoinReadyPlus(old(View()), p)
    {
      readyPlus := readyPlus + [p];
      pidsReadyPlus := pidsReadyPlus + [p];
      SetStatus(p, ReadyPlus);
      semReadyPlus := semReadyPlus + 1;
    }

    /** `replanificar` until it waits on a semaphore. */
    method Replan(blocking: bool)
      modifies this`cpu
      ensures View() == KernelModel.Replan(old(View()), blocking)
    {
      if algorithm.VRR? {
        if readyPlus != [] || (ready == [] && blocking) {
          cpu := Choosing(true);
        } else {
          cpu := Choosing(false);
        }
      } else {
        cpu := Choosing(false);
      }
    }

    /** The rest of `replanificar`. */
    method Dispatch()
      requires cpu.Choosing? && Next(View()) != [] && Alive(View(), Next(View())[0])
      requires (cpu.plus ==> pidsReadyPlus != []) && (!cpu.plus ==> pidsReady != [])
      modifies this
      ensures View() == DispatchStep(old(View()))
      ensures old(Enabled(View(), Event.Dispatch)) ==>
                forall initial, degree :: Inv(old(View()), initial, degree) ==> Inv(View(), initial, degree)
    {
      hide LeaveReady;
      var p := PopNext();
      cpu := Running(p);
      SetStatus(p, Exec);
      forall initial, degree | old(Enabled(View(), Event.Dispatch)) && Inv(old(View()), initial, degree)
        ensures Inv(View(), initial, degree)
      {
        DispatchKeeps(old(View()), initial, degree);
      }
    }

    method PopNext() returns (p: Pid)
      requires cpu.Choosing? && Next(View()) != []
      requires (cpu.plus ==> pidsReadyPlus != []) && (!cpu.plus ==> pidsReady != [])
      modifies this
      ensures View() == LeaveReady(old(View())) && p == Next(old(View()))[0]
    {
      if cpu.plus {
        semReadyPlus := semReadyPlus - 1;
        p := readyPlus[0];
        readyPlus := readyPlus[1..];
        pidsReadyPlus := pidsReadyPlus[1..];
      } else {
        semReady := semReady - 1;
        p := ready[0];
        ready := ready[1..];
        pidsReady := pidsReady[1..];
      }
    }

    /** `iniciar`. */
    method Enqueue(p: Pid, quantum: bool)
      requires Alive(View(), p)
      modifies this
      ensures View() == KernelModel.Enqueue(old(View()), p, quantum)
    {
      hide JoinReady, JoinReadyPlus;
      if quantum || !algorithm.VRR? {
        PushReady(p);
      } else {
        PushReadyPlus(p);
      }
    }

    /** End of quantum. */
    method EndQuantum()
      requires cpu.Running? && Alive(View(), cpu.pid)
      modifies this
      ensures View() == KernelModel.Replan(KernelModel.Enqueue(old(View()), old(cpu.pid), true), false)
      ensures forall initial, degree :: Inv(old(View()), initial, degree) ==> Inv(View(), initial, degree)
    {
      hide Inv;
      Enqueue(cpu.pid, true);
      Replan(false);
      forall initial, degree | Inv(old(View()), initial, degree) ensures Inv(View(), initial, degree) {
        QuantumKeeps(old(View()), initial, degree);
      }
    }

    // ----- I/O -----

    /** `bloquear_i`, the request, and `replanificar`. */
    method AskDevice(d: string)
      requires Enabled(View(), AskIo(d, true)) && d in devices && Defined(View(), AskIo(d, true))
      modifies this
      ensures View() == AskStep(old(View()), d)
      ensures forall initial, degree :: Inv(old(View()), initial, degree) ==> Inv(View(), initial, degree)
    {
      hide Inv;
      var p := cpu.pid;
      devices := devices[d := Devices.Next(devices[d], Devices.Ask(p))];
      SetStatus(p, BlockIo(d));
      Replan(true);
      forall initial, degree | Inv(old(View()), initial, degree) ensures Inv(View(), initial, degree) {
        AskKeeps(old(View()), initial, degree, d);
      }
    }

    /** `END_OF_…` in `atender_interfaz`. */
    method IoDone(d: string)
      requires Enabled(View(), Event.IoDone(d)) && Defined(View(), Event.IoDone(d))
      modifies this
      ensures View() == IoDoneStep(old(View()), d)
      ensures forall initial, degree :: Inv(old(View()), initial, degree) ==> Inv(View(), initial, degree)
    {
      hide Inv;
      var p := devices[d].queue[0];
      devices := devices[d := Devices.Next(devices[d], Devices.Receive)];
      Enqueue(p, false);
      forall initial, degree | Inv(old(View()), initial, degree) ensures Inv(View(), initial, degree) {
        IoDoneKeeps(old(View()), initial, degree, d);
      }
    }

    // ----- Resources -----

    /** `wait`; false means that the resource does not exist. */
    method Wait(r: string) returns (known: bool)
      requires cpu.Running? && Alive(View(), cpu.pid)
      modifies this
      ensures known <==> r in old(resources)
      ensures View() == if known then WaitStep(old(View()), r) else old(View())
    {
      known := r in resources;
      if known {
        var p := cpu.pid;
        var count := resources[r].count - 1;
        resources := resources[r := Resource(count, resources[r].waiters)];
        if count < 0 {
          resources := resources[r := Resource(count, resources[r].waiters + [p])];
          SetStatus(p, BlockResource(r));
          Replan(true);
        }
        held := held + [Holding(p, r)];
      }
    }

    /** `quitar_de_lista_recursos_retenidos`. */
    method RemoveHolding(p: Pid, r: string)
      requires Holding(p, r) in held
      modifies this`held
      ensures held == RemoveFirst(old(held), Holding(p, r))
    {
      var i := 0;
      while held[i] != Holding(p, r)
        invariant 0 <= i < |held| && held == old(held)
        invariant Holding(p, r) !in held[..i] && Holding(p, r) in held[i..]
        decreases |held| - i
      {
        assert held[i..][1..] == held[i + 1..] && held[..i + 1] == held[..i] + [held[i]];
        i := i + 1;
      }
      RemoveFirstAt(held, Holding(p, r), i);
      held := held[..i] + held[i + 1..];
    }

    /** `signal`; false means that the resource does not exist. */
    method Signal(p: Pid, r: string) returns (known: bool)
      requires r in resources ==> Holding(p, r) in held && forall q :: q in resources[r].waiters ==> Alive(View(), q)
      modifies this
      ensures known <==> r in old(resources)
      ensures View() == if known then SignalStep(old(View()), p, r) else old(View())
    {
      known := r in resources;
      if known {
        var count := resources[r].count + 1;
        var waiters := resources[r].waiters;
        if count <= 0 && waiters != [] {
          resources := resources[r := Resource(count, waiters[1..])];
          assert waiters[0] in waiters;
          Enqueue(waiters[0], false);
        } else {
          resources := resources[r := Resource(count, waiters)];
        }
        RemoveHolding(p, r);
      }
    }

    /** `list_find` for a process. */
    method FindHolding(p: Pid) returns (r: Option<string>)
      ensures r == FirstOf(held, p)
    {
      var i := 0;
      while i < |held|
        invariant 0 <= i <= |held|
        invariant forall j :: 0 <= j < i ==> held[j].pid != p
      {
        if held[i].pid == p {
          FirstAt(held, p, i);
          return Some(held[i].resource);
        }
        i := i + 1;
      }
      assert forall h :: h in held ==> h.pid != p;
      return None;
    }

    /** `liberar_recursos`. */
    method ReleaseResources(p: Pid)
      requires Sound(View(), p)
      modifies this
      ensures View() == ReleaseAll(old(View()), p)
    {
      var r := FindHolding(p);
      while r.Some?
        invariant Sound(View(), p) && r == FirstOf(held, p)
        invariant ReleaseAll(View(), p) == ReleaseAll(old(View()), p)
        decreases CountOf(held, p)
      {
        SignalSound(View(), p, r.value);
        var found := Signal(p, r.value);
        r := FindHolding(p);
      }
    }

    /** `exit_prima`. */
    method Exit(p: Pid)
      requires Alive(View(), p) && Sound(View(), p)
      modifies this
      ensures View() == ExitStep(old(View()), p)
    {
      ReleaseResources(p);
      exited := exited + [p];
      slots := slots + 1;
      SetStatus(p, Status.Exit);
    }

    /** A running process ends. */
    method Finish()
      requires cpu.Running? && Alive(View(), cpu.pid) && Sound(View(), cpu.pid)
      modifies this
      ensures View() == FinishStep(old(View()))
      ensures forall initial, degree :: Inv(old(View()), initial, degree) ==> Inv(View(), initial, degree)
    {
      hide Inv;
      Exit(cpu.pid);
      Replan(false);
      forall initial, degree | Inv(old(View()), initial, degree) ensures Inv(View(), initial, degree) {
        FinishKeeps(old(View()), initial, degree);
      }
    }

    /** FINALIZAR_PROCESO for a process that waits for a resource. */
    method Kill(p: Pid)
      requires Alive(View(), p) && status[p - 1].BlockResource?
      requires var r := status[p - 1].resource;
               && r in resources && Holding(p, r) in held && p in resources[r].waiters
               && Sound(View().(pool := TakeOut(View().pool, p, r)), p)
      modifies this
      ensures View() == KillStep(old(View()), p, old(status[p - 1].resource))
    {
      hide Sound, ExitStep, Filtered, RemoveFirst;
      ghost var s := View();
      var r := status[p - 1].resource;
      var rest, found := TakeFromQueue(resources[r].waiters, p);
      resources := resources[r := Resource(resources[r].count, rest)];
      resources := resources[r := Resource(resources[r].count + 1, rest)];
      RemoveHolding(p, r);
      assert View() == s.(pool := TakeOut(s.pool, p, r));
      Exit(p);
    }

    // ----- Everything that can happen -----

    /** Whatever happens, the kernel does the step of the model, and the invariant stays. */
    method Happen(e: Event, ghost initial: map<string, nat>, ghost degree: nat)
      requires Inv(View(), initial, degree) && Enabled(View(), e)
      modifies this
      ensures Defined(old(View()), e) && View() == Step(old(View()), e)
      ensures Inv(View(), initial, degree)
    {
      hide Inv;
      StepKeeps(View(), initial, degree, e);
      match e
      case Create =>
        var p := NewProcess();
      case Connect(d) =>
        if d !in devices {
          devices := devices[d := Devices.NEW_DEVICE];
        }
      case Admit => Admit();
      case Dispatch => Dispatch();
      case Quantum => EndQuantum();
      case AskIo(d, allowed) =>
        if d in devices && allowed {
          AskDevice(d);
        } else {
          Finish();
        }
      case AtDevice(d, step) =>
        devices := devices[d := Devices.Next(devices[d], step)];
      case IoDone(d) => IoDone(d);
      case WaitFor(r) =>
        var found := Wait(r);
        if !found {
          Finish();
        }
      case SignalOn(r) =>
        var found := Signal(cpu.pid, r);
        if !found {
          Finish();
        }
      case Finish => Finish();
      case Kill(p) => Kill(p);
    }
  }
}
