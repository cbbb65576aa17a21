/** What each event does to the CPU, the queues and the process it is about (kernel/src/kernel.c). */
module KernelEffects {
  import opened Common
  import opened KernelPool
  import Devices = KernelDevices
  import opened KernelModel
  import opened KernelSteps
  import opened KernelRuns
  import opened KernelEvents
  import opened KernelReach
  import opened KernelStall

  /** The running process blocks: on a device that allows the instruction, or on a resource with no instance left. */
  predicate Blocks(s: State, e: Event) {
    match e
    case AskIo(d, allowed) => d in s.devices && allowed
    case WaitFor(r) => r in s.pool.resources && s.pool.resources[r].count <= 0
    case _ => false
  }

  /** The running process ends: by itself, or because it names a device or resource that it may not use. */
  predicate Ends(s: State, e: Event) {
    match e
    case AskIo(d, allowed) => !(d in s.devices && allowed)
    case WaitFor(r) => r !in s.pool.resources
    case SignalOn(r) => r !in s.pool.resources
    case Finish => true
    case _ => false
  }

  // ----- The CPU -----

  /** The queue waited on, of the queues as they are: READY+ under VRR whenever it has a process, and also when
      nobody is ready and the process left the CPU to block. */
  predicate WaitsOn(t: State, blocked: bool) {
    t.cpu == Choosing(t.algorithm.VRR? && (t.readyPlus != [] || (blocked && t.ready == [])))
  }

  lemma BlockChoice(s: State, e: Event)
    requires Enabled(s, e) && Defined(s, e) && Blocks(s, e)
    ensures WaitsOn(Step(s, e), true)
  {
    hide Sound, Devices.DeviceOk, Devices.Enabled, Devices.Next;
  }

  lemma EndChoice(s: State, e: Event)
    requires Enabled(s, e) && Defined(s, e) && (Ends(s, e) || e.Quantum?)
    ensures WaitsOn(Step(s, e), false)
  {
    hide Sound, ExitStep, Devices.DeviceOk, Devices.Enabled, Devices.Next;
  }

  lemma FirstChoice(s: State)
    requires Enabled(s, Admit) && Defined(s, Admit) && s.first
    ensures WaitsOn(Step(s, Admit), false)
  {
  }

  lemma OtherChoice(s: State, e: Event)
    requires Enabled(s, e) && Defined(s, e)
    requires !Blocks(s, e) && !Ends(s, e) && !e.Quantum? && !e.Dispatch? && !(e.Admit? && s.first)
    ensures Step(s, e).cpu == s.cpu
  {
    hide Sound, ExitStep, KillStep, Devices.DeviceOk, Devices.Enabled, Devices.Next;
    if e.Kill? {
      KillCpu(s, e.pid);
    }
  }

  /** After every event: which queue the CPU waits on, or who runs. The first admission starts the scheduler, under
      every algorithm; nothing else touches the CPU. */
  lemma CpuAfter(s: State, initial: map<string, nat>, degree: nat, e: Event)
    requires Inv(s, initial, degree) && Enabled(s, e)
    ensures Defined(s, e)
    ensures var t := Step(s, e);
            && t.algorithm == s.algorithm
            && (Blocks(s, e) ==> WaitsOn(t, true))
            && (Ends(s, e) || e.Quantum? || (e.Admit? && s.cpu.Idle?) ==> WaitsOn(t, false))
            && (e.Dispatch? ==> Next(s) != [] && t.cpu == Running(Next(s)[0]))
            && (!Blocks(s, e) && !Ends(s, e) && !e.Quantum? && !e.Dispatch? && !(e.Admit? && s.cpu.Idle?) ==>
                 t.cpu == s.cpu)
  {
    hide AllLinked, PoolOk, HeldLive, Tokens, DevicesOk, Sound, Step, Enabled, WaitsOn, Blocks, Ends;
    StepKeeps(s, initial, degree, e);
    SameAlgorithm(s, e);
    if Blocks(s, e) {
      BlockChoice(s, e);
    } else if Ends(s, e) || e.Quantum? {
      EndChoice(s, e);
    } else if e.Admit? && s.first {
      FirstChoice(s);
    } else if e.Dispatch? {
      DispatchRuns(s);
    } else {
      OtherChoice(s, e);
    }
    OneKind(s, e);
  }

  lemma OneKind(s: State, e: Event)
    requires Enabled(s, e)
    ensures Blocks(s, e) ==> !Ends(s, e) && !e.Quantum? && !e.Admit? && !e.Dispatch?
    ensures Ends(s, e) ==> !e.Quantum? && !e.Admit? && !e.Dispatch?
  {
  }

  lemma DispatchRuns(s: State)
    requires Enabled(s, Dispatch) && Defined(s, Dispatch)
    ensures Next(s) != [] && Step(s, Dispatch).cpu == Running(Next(s)[0])
  {
  }

  lemma SameAlgorithm(s: State, e: Event)
    requires Enabled(s, e) && Defined(s, e)
    ensures Step(s, e).algorithm == s.algorithm
  {
    hide Sound, ReleaseAll, Signal, Wait, TakeOut, Devices.DeviceOk, Devices.Enabled, Devices.Next;
    match e
    case AskIo(d, allowed) => if !(d in s.devices && allowed) { ReleaseSame(s, s.cpu.pid); }
    case WaitFor(r) => ReleaseSame(s, s.cpu.pid);
    case SignalOn(r) => ReleaseSame(s, s.cpu.pid);
    case Finish => ReleaseSame(s, s.cpu.pid);
    case Kill(p) => ReleaseSame(s.(pool := TakeOut(s.pool, p, s.status[p - 1].resource)), p);
    case _ =>
  }

  /** Under FIFO a process keeps the CPU until it asks, waits, signals or ends itself. */
  lemma FifoKeepsTheCpu(s: State, initial: map<string, nat>, degree: nat, e: Event)
    requires Inv(s, initial, degree) && Enabled(s, e) && s.algorithm.FIFO? && s.cpu.Running?
    ensures Defined(s, e)
    ensures Step(s, e).cpu == s.cpu || Blocks(s, e) || Ends(s, e)
  {
    hide Inv, Step, Blocks, Ends, WaitsOn;
    CpuAfter(s, initial, degree, e);
    IdleIsFirst(s, initial, degree);
  }

  lemma IdleIsFirst(s: State, initial: map<string, nat>, degree: nat)
    requires Inv(s, initial, degree)
    ensures s.first <==> s.cpu.Idle?
  {
  }

  // ----- The process -----

  /** A process that ends, also because it names an unknown resource or a device that it may not use, is gone. */
  lemma EndsGone(s: State, initial: map<string, nat>, degree: nat, e: Event)
    requires Inv(s, initial, degree) && Enabled(s, e) && Ends(s, e)
    ensures s.cpu.Running? && Defined(s, e) && Gone(s, Step(s, e), s.cpu.pid, s.pool)
  {
    hide InvBut, Sound, Gone, FinishStep, Devices.DeviceOk, Devices.Enabled, Devices.Next;
    FinishEffect(s, initial, degree);
    StepKeeps(s, initial, degree, e);
  }

  /** A process that asks a device joins the end of its queue. */
  lemma AsksAtTheEnd(s: State, d: string)
    requires Enabled(s, AskIo(d, true)) && Defined(s, AskIo(d, true)) && d in s.devices
    ensures var t := Step(s, AskIo(d, true));
            && t.devices.Keys == s.devices.Keys && t.devices[d].queue == s.devices[d].queue + [s.cpu.pid]
            && (forall x :: x in s.devices && x != d ==> t.devices[x] == s.devices[x])
            && t.pool == s.pool && t.ready == s.ready && t.readyPlus == s.readyPlus
  {
    hide Sound, Devices.DeviceOk;
  }

  /** WAIT takes one instance away and adds its entry at the end of the list; if there was none, the process joins
      the end of the queue of the resource. */
  lemma WaitsAtTheEnd(s: State, r: string)
    requires Enabled(s, WaitFor(r)) && Defined(s, WaitFor(r)) && r in s.pool.resources
    ensures var t, x := Step(s, WaitFor(r)), s.pool.resources[r];
            && t.pool.resources.Keys == s.pool.resources.Keys
            && t.pool.resources[r].count == x.count - 1
            && t.pool.resources[r].waiters == (if x.count <= 0 then x.waiters + [s.cpu.pid] else x.waiters)
            && (forall y :: y in s.pool.resources && y != r ==> t.pool.resources[y] == s.pool.resources[y])
            && t.pool.held == s.pool.held + [Holding(s.cpu.pid, r)]
            && t.devices == s.devices && t.ready == s.ready && t.readyPlus == s.readyPlus
  {
    hide Sound;
  }

  /** SIGNAL gives the instance back, and the first of the queue, if anyone waits, joins READY or READY+. */
  lemma SignalWakesFirst(s: State, initial: map<string, nat>, degree: nat, r: string)
    requires Inv(s, initial, degree) && Enabled(s, SignalOn(r)) && r in s.pool.resources
    ensures Defined(s, SignalOn(r))
    ensures var t, x := Step(s, SignalOn(r)), s.pool.resources[r];
            var woken := if x.waiters == [] then [] else [x.waiters[0]];
            && r in t.pool.resources && t.pool.resources[r].count == x.count + 1
            && t.pool.resources[r].waiters == x.waiters[|woken|..]
            && t.ready == s.ready + (if s.algorithm.VRR? then [] else woken)
            && t.readyPlus == s.readyPlus + (if s.algorithm.VRR? then woken else [])
            && t.devices == s.devices && t.newQ == s.newQ
  {
    hide AllLinked, HeldLive, Tokens, DevicesOk, Sound, RemoveFirst;
    StepKeeps(s, initial, degree, SignalOn(r));
    PoolBounds(s.pool, initial, r);
  }

  /** At the end of its quantum a process joins the end of READY, under VRR too. */
  lemma QuantumToReady(s: State)
    requires Enabled(s, Quantum) && Defined(s, Quantum)
    ensures var t := Step(s, Quantum);
            && t.ready == s.ready + [s.cpu.pid] && t.readyPlus == s.readyPlus
            && t.status == s.status[s.cpu.pid - 1 := Ready]
            && t.pool == s.pool && t.devices == s.devices && t.newQ == s.newQ
  {
  }

  /** A completion moves the first of the queue of the device to the end of READY+ under VRR, of READY otherwise. */
  lemma IoDoneToReady(s: State, d: string)
    requires Enabled(s, IoDone(d)) && Defined(s, IoDone(d))
    ensures var t, p := Step(s, IoDone(d)), s.devices[d].queue[0];
            && t.ready == s.ready + (if s.algorithm.VRR? then [] else [p])
            && t.readyPlus == s.readyPlus + (if s.algorithm.VRR? then [p] else [])
            && t.devices.Keys == s.devices.Keys && t.devices[d].queue == s.devices[d].queue[1..]
            && (forall x :: x in s.devices && x != d ==> t.devices[x] == s.devices[x])
            && t.pool == s.pool && t.newQ == s.newQ
  {
    hide Devices.DeviceOk;
  }

  /** A device that connects has an empty queue; one that connects again keeps its queue and its requests. */
  lemma ConnectAdds(s: State, d: string)
    ensures var t := Step(s, Connect(d));
            && d in t.devices
            && (d in s.devices ==> t == s)
            && (d !in s.devices ==>
                 && t.devices[d].queue == [] && t.devices - {d} == s.devices
                 && t == s.(devices := t.devices))
  {
  }

  /** A device at work changes no queue of the kernel. */
  lemma DeviceWorksAlone(s: State, d: string, step: Devices.Step)
    requires Enabled(s, AtDevice(d, step)) && Defined(s, AtDevice(d, step))
    ensures var t := Step(s, AtDevice(d, step));
            && t == s.(devices := t.devices) && t.devices.Keys == s.devices.Keys
            && t.devices[d] == Devices.Next(s.devices[d], step) && t.devices[d].queue == s.devices[d].queue
  {
  }

  // ----- NEW -----

  /** A new process joins the end of NEW. */
  lemma CreateAtTheEnd(s: State)
    ensures var t := Step(s, Create);
            && t.newQ == s.newQ + [|s.status| + 1] && t.status == s.status + [New]
            && t.ready == s.ready && t.readyPlus == s.readyPlus && t.pool == s.pool && t.devices == s.devices
  {
  }

  /** The first of NEW joins the end of READY. */
  lemma AdmitFirst(s: State)
    requires Enabled(s, Admit) && Defined(s, Admit)
    ensures var t := Step(s, Admit);
            && t.newQ == s.newQ[1..] && t.ready == s.ready + [s.newQ[0]] && t.readyPlus == s.readyPlus
            && t.status == s.status[s.newQ[0] - 1 := Ready] && t.slots == s.slots - 1
            && t.pool == s.pool && t.devices == s.devices
  {
  }

  lemma NewStays(s: State, e: Event)
    requires Enabled(s, e) && Defined(s, e) && !e.Create? && !e.Admit?
    ensures Step(s, e).newQ == s.newQ
  {
    hide Sound, ReleaseAll, Signal, Wait, TakeOut, Devices.DeviceOk, Devices.Enabled, Devices.Next;
    match e
    case AskIo(d, allowed) => if !(d in s.devices && allowed) { ReleaseSame(s, s.cpu.pid); }
    case WaitFor(r) => ReleaseSame(s, s.cpu.pid);
    case SignalOn(r) => ReleaseSame(s, s.cpu.pid);
    case Finish => ReleaseSame(s, s.cpu.pid);
    case Kill(p) => ReleaseSame(s.(pool := TakeOut(s.pool, p, s.status[p - 1].resource)), p);
    case _ =>
  }

  /** Admissions in a run. */
  function Admissions(events: seq<Event>): nat {
    if events == [] then 0 else (if events[0].Admit? then 1 else 0) + Admissions(events[1..])
  }

  lemma NewContinues(s: State, e: Event)
    requires Enabled(s, e) && Defined(s, e)
    ensures Continues(s.newQ, Step(s, e).newQ, if e.Admit? then 1 else 0)
  {
    hide Enabled, Defined, Step;
    if e.Create? {
      CreateAtTheEnd(s);
    } else if e.Admit? {
      AdmitSome(s);
      AdmitFirst(s);
    } else {
      NewStays(s, e);
    }
  }

  lemma AdmitSome(s: State)
    requires Enabled(s, Admit) && Defined(s, Admit)
    ensures s.newQ != []
  {
  }

  /** Processes are admitted in the order in which they arrive: over any run, the one with `i` others ahead of it in
      NEW has one less ahead for each admission, until its own. */
  lemma {:induction false} AdmittedInOrder(s: State, events: seq<Event>, t: State, i: nat)
    requires Reaches(s, events, t) && i < |s.newQ| && Admissions(events) <= i
    ensures var k := i - Admissions(events);
            k < |t.newQ| && t.newQ[k] == s.newQ[i]
    decreases |events|
  {
    hide Enabled, Defined, Step;
    if events != [] {
      NewContinues(s, events[0]);
      AdmittedInOrder(Step(s, events[0]), events[1..], t, i - if events[0].Admit? then 1 else 0);
    }
  }

  // ----- Alone on the CPU -----

  /** While nothing is dispatched, a CPU that waits on READY+ goes on waiting there. */
  lemma {:induction false} GoesOnWaiting(s: State, initial: map<string, nat>, degree: nat, events: seq<Event>, t: State)
    requires Inv(s, initial, degree) && Reaches(s, events, t) && s.cpu.Choosing?
    requires forall i :: 0 <= i < |events| ==> !events[i].Dispatch?
    ensures t.cpu == s.cpu && t.algorithm == s.algorithm && Inv(t, initial, degree)
    decreases |events|
  {
    hide Inv, Enabled, Defined, Step, WaitsOn, Blocks, Ends;
    if events != [] {
      var e := events[0];
      CpuAfter(s, initial, degree, e);
      StepKeeps(s, initial, degree, e);
      NotRunning(s, e);
      GoesOnWaiting(Step(s, e), initial, degree, events[1..], t);
    }
  }

  lemma NotRunning(s: State, e: Event)
    requires Enabled(s, e) && !s.cpu.Running?
    ensures !Blocks(s, e) && !Ends(s, e) && !e.Quantum?
  {
  }

  /** Under VRR, a process that asks a device while nobody else is ready runs again once its answer is received: the
      dispatch is possible then, the process is the last of READY+, and it is the one to run if nobody else came
      back before it. */
  lemma AskerRunsAgain(s: State, initial: map<string, nat>, degree: nat, d: string, events: seq<Event>, u: State)
    requires Inv(s, initial, degree) && s.algorithm.VRR? && s.cpu.Running? && s.ready == [] && s.readyPlus == []
    requires d in s.devices && Defined(s, AskIo(d, true)) && Reaches(Step(s, AskIo(d, true)), events, u)
    requires forall i :: 0 <= i < |events| ==> !events[i].Dispatch?
    requires d in u.devices && Enabled(u, IoDone(d)) && u.devices[d].queue != [] && u.devices[d].queue[0] == s.cpu.pid
    ensures Defined(u, IoDone(d))
    ensures var v := Step(u, IoDone(d));
            && v.readyPlus == u.readyPlus + [s.cpu.pid]
            && Enabled(v, Dispatch) && Defined(v, Dispatch)
            && (u.readyPlus == [] ==> Step(v, Dispatch).cpu == Running(s.cpu.pid))
  {
    hide Inv, Enabled, Defined, Step, Sound;
    EnabledAsk(s, d);
    CpuAfter(s, initial, degree, AskIo(d, true));
    AsksAtTheEnd(s, d);
    StepKeeps(s, initial, degree, AskIo(d, true));
    GoesOnWaiting(Step(s, AskIo(d, true)), initial, degree, events, u);
    StepKeeps(u, initial, degree, IoDone(d));
    NotBlocked(u, d);
    CpuAfter(u, initial, degree, IoDone(d));
    IoDoneToReady(u, d);
    var v := Step(u, IoDone(d));
    DispatchEnabled(v, initial, degree);
    CpuAfter(v, initial, degree, Dispatch);
  }

  // ----- A whole request -----

  /** The device has nothing left to do and nothing left to tell. */
  predicate AtRest(d: Devices.Device) {
    !d.busy && d.taken == |d.asked| && d.woken == |d.finished| && d.queue == []
  }

  lemma DeviceAnswers(d: Devices.Device, p: Pid)
    requires Devices.DeviceOk(d) && AtRest(d)
    ensures Devices.Enabled(d, Devices.Ask(p))
    ensures var a := Devices.Next(d, Devices.Ask(p));
            && Devices.DeviceOk(a) && Devices.Enabled(a, Devices.Take)
            && var b := Devices.Next(a, Devices.Take);
               && Devices.DeviceOk(b) && Devices.Enabled(b, Devices.Finish)
               && var c := Devices.Next(b, Devices.Finish);
                  Devices.DeviceOk(c) && Devices.Enabled(c, Devices.Receive) && c.queue == [p]
  {
    hide Devices.DeviceOk, Devices.Next;
    EnabledAtRest(d, p);
    Devices.StepOk(d, Devices.Ask(p));
    AskedAtRest(d, p);
    var a := Devices.Next(d, Devices.Ask(p));
    Devices.StepOk(a, Devices.Take);
    TakenAfter(a);
    var b := Devices.Next(a, Devices.Take);
    Devices.StepOk(b, Devices.Finish);
    FinishedAfter(b);
  }

  lemma EnabledAtRest(d: Devices.Device, p: Pid)
    requires AtRest(d)
    ensures Devices.Enabled(d, Devices.Ask(p)) && !d.busy
  {
  }

  lemma AskedAtRest(d: Devices.Device, p: Pid)
    requires AtRest(d)
    ensures var a := Devices.Next(d, Devices.Ask(p));
            && !a.busy && a.taken < |a.asked| && a.queue == [p] && a.woken == |a.finished|
  {
  }

  lemma TakenAfter(a: Devices.Device)
    requires !a.busy && a.taken < |a.asked|
    ensures var b := Devices.Next(a, Devices.Take);
            b.busy && b.taken > 0 && b.queue == a.queue && b.woken == a.woken && b.finished == a.finished
  {
  }

  lemma FinishedAfter(b: Devices.Device)
    requires b.busy && b.taken > 0
    ensures var c := Devices.Next(b, Devices.Finish);
            c.queue == b.queue && c.woken == b.woken && |c.finished| == |b.finished| + 1
  {
  }

  /** `e` is possible in `s` and leads to `t`. */
  ghost predicate Leads(s: State, e: Event, t: State) {
    Enabled(s, e) && Defined(s, e) && Step(s, e) == t
  }

  /** Under every algorithm, a process that asks a device at rest while nobody else is ready runs again: it asks, the
      device takes the request and answers, the kernel receives the answer and dispatches it. */
  lemma RequestComesBack(s: State, initial: map<string, nat>, degree: nat, d: string)
    requires Inv(s, initial, degree) && s.cpu.Running? && s.ready == [] && s.readyPlus == []
    requires d in s.devices && AtRest(s.devices[d])
    ensures exists s1, s2, s3, s4, s5 ::
              && Leads(s, AskIo(d, true), s1) && Leads(s1, AtDevice(d, Devices.Take), s2)
              && Leads(s2, AtDevice(d, Devices.Finish), s3) && Leads(s3, IoDone(d), s4) && Leads(s4, Dispatch, s5)
              && s5.cpu == s.cpu && s5.ready == [] && s5.readyPlus == []
  {
    hide Inv, Enabled, Defined, Step, Sound, WaitsOn, Devices.DeviceOk, Devices.Enabled, Devices.Next, AtRest;
    var p := s.cpu.pid;
    EnabledAsk(s, d);
    StepKeeps(s, initial, degree, AskIo(d, true));
    CpuAfter(s, initial, degree, AskIo(d, true));
    AsksAtTheEnd(s, d);
    AskedOf(s, d);
    DevicesSound(s, initial, degree, d);
    DeviceAnswers(s.devices[d], p);
    var s1 := Step(s, AskIo(d, true));
    Possible(s1, d, Devices.Take);
    StepKeeps(s1, initial, degree, AtDevice(d, Devices.Take));
    DeviceWorksAlone(s1, d, Devices.Take);
    var s2 := Step(s1, AtDevice(d, Devices.Take));
    Possible(s2, d, Devices.Finish);
    StepKeeps(s2, initial, degree, AtDevice(d, Devices.Finish));
    DeviceWorksAlone(s2, d, Devices.Finish);
    var s3 := Step(s2, AtDevice(d, Devices.Finish));
    Received(s3, d);
    StepKeeps(s3, initial, degree, IoDone(d));
    IoDoneToReady(s3, d);
    NotBlocked(s3, d);
    CpuAfter(s3, initial, degree, IoDone(d));
    var s4 := Step(s3, IoDone(d));
    WaitsForIt(s1, s4, p);
    DispatchEnabled(s4, initial, degree);
    StepKeeps(s4, initial, degree, Dispatch);
    CpuAfter(s4, initial, degree, Dispatch);
    Emptied(s4, p);
    var s5 := Step(s4, Dispatch);
    assert Leads(s, AskIo(d, true), s1) && Leads(s1, AtDevice(d, Devices.Take), s2);
    assert Leads(s2, AtDevice(d, Devices.Finish), s3) && Leads(s3, IoDone(d), s4) && Leads(s4, Dispatch, s5);
  }

  lemma AskedOf(s: State, d: string)
    requires Enabled(s, AskIo(d, true)) && Defined(s, AskIo(d, true)) && d in s.devices
    ensures Devices.Enabled(s.devices[d], Devices.Ask(s.cpu.pid)) && Devices.DeviceOk(s.devices[d])
    ensures var t := Step(s, AskIo(d, true));
            d in t.devices && t.devices[d] == Devices.Next(s.devices[d], Devices.Ask(s.cpu.pid))
  {
    hide Sound, Devices.DeviceOk, Devices.Next;
  }

  lemma DevicesSound(s: State, initial: map<string, nat>, degree: nat, d: string)
    requires Inv(s, initial, degree) && d in s.devices
    ensures Devices.DeviceOk(s.devices[d])
  {
  }

  lemma Possible(s: State, d: string, step: Devices.Step)
    requires d in s.devices && Devices.Enabled(s.devices[d], step) && (step.Take? || step.Finish?)
    ensures Enabled(s, AtDevice(d, step))
  {
  }

  lemma Received(s: State, d: string)
    requires d in s.devices && Devices.Enabled(s.devices[d], Devices.Receive)
    ensures Enabled(s, IoDone(d))
  {
  }

  /** The CPU waits on the queue that the process comes back to. */
  lemma WaitsForIt(s1: State, s4: State, p: Pid)
    requires WaitsOn(s1, true) && s1.ready == [] && s1.readyPlus == [] && s4.cpu == s1.cpu &&
             s4.algorithm == s1.algorithm
    requires s4.ready == (if s1.algorithm.VRR? then [] else [p]) &&
             s4.readyPlus == (if s1.algorithm.VRR? then [p] else [])
    ensures s4.cpu.Choosing? && Next(s4) == [p]
    ensures s4.cpu.plus == s4.algorithm.VRR?
  {
  }

  lemma Emptied(s: State, p: Pid)
    requires Enabled(s, Dispatch) && Defined(s, Dispatch) && s.cpu.plus == s.algorithm.VRR? && Next(s) == [p]
    requires s.ready == (if s.algorithm.VRR? then [] else [p]) && s.readyPlus == (if s.algorithm.VRR? then [p] else [])
    ensures Step(s, Dispatch).ready == [] && Step(s, Dispatch).readyPlus == []
  {
  }

  lemma EnabledAsk(s: State, d: string)
    requires s.cpu.Running?
    ensures Enabled(s, AskIo(d, true))
  {
  }

  lemma NotBlocked(s: State, d: string)
    requires Enabled(s, IoDone(d))
    ensures !Blocks(s, IoDone(d)) && !Ends(s, IoDone(d)) && d in s.devices
  {
  }

  lemma DispatchEnabled(s: State, initial: map<string, nat>, degree: nat)
    requires Inv(s, initial, degree) && s.cpu.Choosing? && Next(s) != []
    ensures Enabled(s, Dispatch)
  {
  }
}
