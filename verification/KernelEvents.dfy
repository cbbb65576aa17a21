/** Every event keeps the kernel's invariant, and so does every run (kernel/src/kernel.c). */
module KernelEvents {
  import opened Common
  import opened KernelPool
  import Devices = KernelDevices
  import opened KernelModel
  import opened KernelSteps
  import opened KernelRuns

  // ----- What a queue tells -----

  lemma InQueue(s: State, st: Status, p: Pid, out: Pid)
    requires AllLinked(s, out) && p in QueueOf(s, st)
    ensures Alive(s, p) && s.status[p - 1] == st && p != out
  {
    assert Linked(QueueOf(s, st), s.status, st, out);
  }

  lemma AtQueue(s: State, p: Pid, out: Pid)
    requires AllLinked(s, out) && Alive(s, p) && p != out
    ensures p in QueueOf(s, s.status[p - 1])
  {
    assert Linked(QueueOf(s, s.status[p - 1]), s.status, s.status[p - 1], out);
  }

  lemma OnCpu(s: State, out: Pid)
    requires AllLinked(s, out) && s.cpu.Running?
    ensures Alive(s, s.cpu.pid) && s.status[s.cpu.pid - 1] == Exec && s.cpu.pid != out && NotWaiting(s.pool, s.cpu.pid)
  {
    hide AllLinked;
    InQueue(s, Exec, s.cpu.pid, out);
    WaitersAlive(s, out);
  }

  lemma Repeats(s: State, st: Status, out: Pid)
    requires AllLinked(s, out)
    ensures NoRepeats(QueueOf(s, st))
  {
    assert Linked(QueueOf(s, st), s.status, st, out);
  }

  /** Moving the running process away, or one process between two queues. */
  lemma Moved(s: State, t: State, p: Pid, a: Status, b: Status, out: Pid)
    requires AllLinked(s, out) && Alive(s, p) && s.status[p - 1] == a && a != b && p != out
    requires t.status == s.status[p - 1 := b]
    requires QueueOf(s, a) != [] && QueueOf(s, a)[0] == p && QueueOf(t, a) == QueueOf(s, a)[1..]
    requires QueueOf(t, b) == QueueOf(s, b) + [p]
    requires forall st: Status :: st != a && st != b ==> QueueOf(t, st) == QueueOf(s, st)
    ensures AllLinked(t, out)
  {
    hide AllLinked, QueueOf;
    Repeats(s, a, out);
    HeadGone(QueueOf(s, a));
    MoveLinked(s, t, p, a, b, out);
  }

  lemma HeldKeep(s: State, t: State, p: Pid, b: Status)
    requires HeldLive(s) && Alive(s, p) && t.status == s.status[p - 1 := b] && IsLive(b)
    requires forall h :: h in t.pool.held ==> h in s.pool.held || h.pid == p
    ensures HeldLive(t)
  {
  }

  // ----- Arrival, admission, dispatch -----

  lemma CreateKeeps(s: State, initial: map<string, nat>, degree: nat)
    requires Inv(s, initial, degree)
    ensures Inv(CreateStep(s), initial, degree)
  {
    hide PoolOk, DevicesOk;
    var t := CreateStep(s);
    var p := |s.status| + 1;
    forall st: Status ensures Linked(QueueOf(t, st), t.status, st, 0) {
      assert Linked(QueueOf(s, st), s.status, st, 0);
      if st == New {
        Pushed(s.newQ, p);
      } else {
        assert QueueOf(t, st) == QueueOf(s, st);
      }
    }
    assert t.status[..|s.status|] == s.status;
    DevicesSame(s, t);
  }

  lemma ConnectKeeps(s: State, initial: map<string, nat>, degree: nat, d: string)
    requires Inv(s, initial, degree) && d !in s.devices
    ensures Inv(s.(devices := s.devices[d := Devices.NEW_DEVICE]), initial, degree)
  {
    hide PoolOk, Linked;
    var t := s.(devices := s.devices[d := Devices.NEW_DEVICE]);
    forall st: Status ensures Linked(QueueOf(t, st), t.status, st, 0) {
      assert Linked(QueueOf(s, st), s.status, st, 0);
      assert QueueOf(t, st) == QueueOf(s, st);
    }
    Devices.NewDeviceOk();
  }

  lemma AdmitQueues(s: State)
    requires s.newQ != [] && Alive(s, s.newQ[0]) && s.status[s.newQ[0] - 1] == New && (s.first ==> s.cpu.Idle?)
    ensures var t := AdmitStep(s);
            && t.status == s.status[s.newQ[0] - 1 := Ready]
            && QueueOf(t, New) == QueueOf(s, New)[1..]
            && QueueOf(t, Ready) == QueueOf(s, Ready) + [s.newQ[0]]
            && forall st: Status :: st != New && st != Ready ==> QueueOf(t, st) == QueueOf(s, st)
  {
  }

  lemma AdmitKeeps(s: State, initial: map<string, nat>, degree: nat)
    requires Inv(s, initial, degree) && Enabled(s, Admit)
    ensures Defined(s, Admit) && Inv(AdmitStep(s), initial, degree)
  {
    hide AllLinked, PoolOk, DevicesOk, HeldLive;
    var p := s.newQ[0];
    InQueue(s, New, p, 0);
    AdmitQueues(s);
    Moved(s, AdmitStep(s), p, New, Ready, 0);
    LiveUpdate(s.status, p - 1, Ready);
    HeldKeep(s, AdmitStep(s), p, Ready);
    DevicesSame(s, AdmitStep(s));
  }

  lemma DispatchQueues(s: State)
    requires s.cpu.Choosing? && Next(s) != [] && Alive(s, Next(s)[0])
    requires (s.cpu.plus ==> s.pidsReadyPlus != []) && (!s.cpu.plus ==> s.pidsReady != [])
    ensures var t := DispatchStep(s);
            var a := if s.cpu.plus then ReadyPlus else Ready;
            && QueueOf(s, a) != []
            && t.status == s.status[QueueOf(s, a)[0] - 1 := Exec]
            && QueueOf(t, a) == QueueOf(s, a)[1..]
            && QueueOf(t, Exec) == QueueOf(s, Exec) + [QueueOf(s, a)[0]]
            && forall st: Status :: st != a && st != Exec ==> QueueOf(t, st) == QueueOf(s, st)
  {
  }

  lemma DispatchKeeps(s: State, initial: map<string, nat>, degree: nat)
    requires Inv(s, initial, degree) && Enabled(s, Dispatch)
    ensures Defined(s, Dispatch) && Inv(DispatchStep(s), initial, degree)
  {
    hide AllLinked, PoolOk, DevicesOk, HeldLive;
    var a := if s.cpu.plus then ReadyPlus else Ready;
    var p := QueueOf(s, a)[0];
    InQueue(s, a, p, 0);
    DispatchQueues(s);
    Moved(s, DispatchStep(s), p, a, Exec, 0);
    LiveUpdate(s.status, p - 1, Exec);
    HeldKeep(s, DispatchStep(s), p, Exec);
    DevicesSame(s, DispatchStep(s));
  }

  lemma QuantumKeeps(s: State, initial: map<string, nat>, degree: nat)
    requires Inv(s, initial, degree) && s.cpu.Running?
    ensures Alive(s, s.cpu.pid) && Inv(Replan(Enqueue(s, s.cpu.pid, true), false), initial, degree)
  {
    hide AllLinked, PoolOk, HeldLive;
    OnCpu(s, 0);
    var p := s.cpu.pid;
    var u := Replan(Enqueue(s, p, true), false);
    var t := s.(cpu := u.cpu);
    assert u == Enqueue(t, p, true);
    CpuFree(s, t);
    HeldSame(s, t);
    EnqueueKeeps(s, t, initial, degree, p, Exec, true, 0);
  }

  lemma HeldSame(s: State, t: State)
    requires HeldLive(s) && t.pool.held == s.pool.held && t.status == s.status
    ensures HeldLive(t)
  {
  }

  lemma CpuFree(s: State, t: State)
    requires s.cpu.Running? && t == s.(cpu := t.cpu) && !t.cpu.Running?
    ensures Popped(s, t, s.cpu.pid, Exec)
  {
  }

  // ----- I/O -----

  lemma AskQueues(s: State, d: string)
    requires d in s.devices && Enabled(s, AskIo(d, true)) && Defined(s, AskIo(d, true))
    ensures var t := AskStep(s, d);
            && t.status == s.status[s.cpu.pid - 1 := BlockIo(d)]
            && QueueOf(t, Exec) == []
            && QueueOf(t, BlockIo(d)) == QueueOf(s, BlockIo(d)) + [s.cpu.pid]
            && forall st: Status :: st != Exec && st != BlockIo(d) ==> QueueOf(t, st) == QueueOf(s, st)
  {
  }

  lemma AskKeeps(s: State, initial: map<string, nat>, degree: nat, d: string)
    requires Inv(s, initial, degree) && s.cpu.Running? && d in s.devices
    ensures Defined(s, AskIo(d, true)) && Inv(AskStep(s, d), initial, degree)
  {
    hide AllLinked, PoolOk, HeldLive, Devices.DeviceOk;
    OnCpu(s, 0);
    var p := s.cpu.pid;
    if p in QueueOf(s, BlockIo(d)) {
      InQueue(s, BlockIo(d), p, 0);
    }
    AskQueues(s, d);
    Moved(s, AskStep(s, d), p, Exec, BlockIo(d), 0);
    LiveUpdate(s.status, p - 1, BlockIo(d));
    HeldKeep(s, AskStep(s, d), p, BlockIo(d));
    Devices.StepOk(s.devices[d], Devices.Ask(p));
  }

  lemma AtDeviceKeeps(s: State, initial: map<string, nat>, degree: nat, d: string, step: Devices.Step)
    requires Inv(s, initial, degree) && Enabled(s, AtDevice(d, step))
    ensures Defined(s, AtDevice(d, step)) && Inv(s.(devices := s.devices[d := Devices.Next(s.devices[d], step)]),
            initial, degree)
  {
    hide PoolOk, Linked;
    Devices.StepOk(s.devices[d], step);
    var t := s.(devices := s.devices[d := Devices.Next(s.devices[d], step)]);
    forall st: Status ensures Linked(QueueOf(t, st), t.status, st, 0) {
      assert Linked(QueueOf(s, st), s.status, st, 0);
      assert QueueOf(t, st) == QueueOf(s, st);
    }
  }

  lemma IoDonePops(s: State, d: string)
    requires AllLinked(s, 0) && d in s.devices && s.devices[d].queue != []
    requires Devices.Enabled(s.devices[d], Devices.Receive) && (s.devices[d].busy ==> s.devices[d].taken > 0)
    ensures Popped(s, s.(devices := s.devices[d := Devices.Next(s.devices[d], Devices.Receive)]),
            s.devices[d].queue[0], BlockIo(d))
  {
    hide AllLinked, NoRepeats;
    Repeats(s, BlockIo(d), 0);
    HeadGone(s.devices[d].queue);
  }

  lemma DeviceWorks(d: Devices.Device)
    requires Devices.DeviceOk(d)
    ensures d.busy ==> d.taken > 0
  {
  }

  lemma IoDoneKeeps(s: State, initial: map<string, nat>, degree: nat, d: string)
    requires Inv(s, initial, degree) && Enabled(s, IoDone(d))
    ensures Defined(s, IoDone(d)) && Inv(IoDoneStep(s, d), initial, degree)
  {
    hide AllLinked, PoolOk, HeldLive, Devices.DeviceOk;
    Devices.StepOk(s.devices[d], Devices.Receive);
    var p := s.devices[d].queue[0];
    InQueue(s, BlockIo(d), p, 0);
    var t := s.(devices := s.devices[d := Devices.Next(s.devices[d], Devices.Receive)]);
    DeviceWorks(s.devices[d]);
    IoDonePops(s, d);
    HeldSame(s, t);
    EnqueueKeeps(s, t, initial, degree, p, BlockIo(d), false, 0);
  }

  // ----- Resources -----

  lemma WaitQueues(s: State, r: string)
    requires s.cpu.Running? && Alive(s, s.cpu.pid) && r in s.pool.resources && s.pool.resources[r].count <= 0
    ensures var t := WaitStep(s, r);
            && t.status == s.status[s.cpu.pid - 1 := BlockResource(r)]
            && QueueOf(t, Exec) == []
            && QueueOf(t, BlockResource(r)) == QueueOf(s, BlockResource(r)) + [s.cpu.pid]
            && forall st: Status :: st != Exec && st != BlockResource(r) ==> QueueOf(t, st) == QueueOf(s, st)
  {
  }

  lemma WaitQuiet(s: State, r: string)
    requires AllLinked(s, 0) && s.cpu.Running? && Alive(s, s.cpu.pid) && r in s.pool.resources &&
             s.pool.resources[r].count > 0
    ensures AllLinked(WaitStep(s, r), 0)
  {
    hide Linked;
    var t := WaitStep(s, r);
    forall st: Status ensures Linked(QueueOf(t, st), t.status, st, 0) {
      assert Linked(QueueOf(s, st), s.status, st, 0);
      assert QueueOf(t, st) == QueueOf(s, st);
    }
  }

  lemma WaitBlocks(s: State, degree: nat, r: string)
    requires AllLinked(s, 0) && Tokens(s, degree) && HeldLive(s) && s.cpu.Running? && r in s.pool.resources &&
             s.pool.resources[r].count <= 0
    ensures Alive(s, s.cpu.pid)
    ensures var t := WaitStep(s, r); AllLinked(t, 0) && Tokens(t, degree) && HeldLive(t)
  {
    hide AllLinked, HeldLive, NotWaiting;
    OnCpu(s, 0);
    var p := s.cpu.pid;
    WaitQueues(s, r);
    Moved(s, WaitStep(s, r), p, Exec, BlockResource(r), 0);
    LiveUpdate(s.status, p - 1, BlockResource(r));
    HeldKeep(s, WaitStep(s, r), p, BlockResource(r));
  }

  lemma WaitPasses(s: State, degree: nat, r: string)
    requires AllLinked(s, 0) && Tokens(s, degree) && HeldLive(s) && s.cpu.Running? && r in s.pool.resources &&
             s.pool.resources[r].count > 0
    ensures Alive(s, s.cpu.pid)
    ensures var t := WaitStep(s, r); AllLinked(t, 0) && Tokens(t, degree) && HeldLive(t)
  {
    hide AllLinked, HeldLive, NotWaiting;
    OnCpu(s, 0);
    var p := s.cpu.pid;
    assert s.status[p - 1 := Exec] == s.status;
    WaitQuiet(s, r);
    HeldKeep(s, WaitStep(s, r), p, Exec);
  }

  lemma WaitKeeps(s: State, initial: map<string, nat>, degree: nat, r: string)
    requires Inv(s, initial, degree) && s.cpu.Running? && r in s.pool.resources
    ensures Alive(s, s.cpu.pid) && Inv(WaitStep(s, r), initial, degree)
  {
    hide AllLinked, PoolOk, HeldLive, NotWaiting, Tokens, DevicesOk;
    OnCpu(s, 0);
    NotIn(s.pool, s.cpu.pid, r);
    WaitOk(s.pool, initial, s.cpu.pid, r);
    DevicesSame(s, WaitStep(s, r));
    if s.pool.resources[r].count <= 0 {
      WaitBlocks(s, degree, r);
    } else {
      WaitPasses(s, degree, r);
    }
  }

  lemma NotIn(pool: Pool, p: Pid, r: string)
    requires NotWaiting(pool, p) && r in pool.resources
    ensures p !in pool.resources[r].waiters
  {
  }

  // ----- Leaving -----

  lemma LeaveTokens(s: State, p: Pid, cpu: Cpu, degree: nat)
    requires Tokens(s, degree) && Alive(s, p) && IsLive(s.status[p - 1])
    ensures Tokens(Leave(s, p).(cpu := cpu), degree)
  {
    LiveUpdate(s.status, p - 1, Exit);
  }

  lemma LeaveHeld(s: State, p: Pid, cpu: Cpu)
    requires HeldLive(s) && Alive(s, p) && forall h :: h in s.pool.held ==> h.pid != p
    ensures HeldLive(Leave(s, p).(cpu := cpu))
  {
  }

  lemma ReleasedHoldsNone(pool: Pool, initial: map<string, nat>, p: Pid)
    requires PoolOk(pool, initial) && NotWaiting(pool, p) && Known(pool, p)
    ensures forall h :: h in Release(pool, p).0.held ==> h.pid != p
  {
    ReleaseEffect(pool, initial, p);
    WithoutPidIs(pool.held, p);
  }

  lemma FinishQueues(s: State, p: Pid, u: State)
    requires Alive(s, p) && s.cpu == Running(p) && u == Replan(Leave(s, p), false)
    ensures u.status == s.status[p - 1 := Exit]
    ensures QueueOf(s, Exec) == [p] && QueueOf(u, Exec) == [] && QueueOf(u, Exit) == QueueOf(s, Exit) + [p]
    ensures forall st: Status :: st != Exec && st != Exit ==> QueueOf(u, st) == QueueOf(s, st)
  {
  }

  lemma FinishKeeps(s: State, initial: map<string, nat>, degree: nat)
    requires Inv(s, initial, degree) && s.cpu.Running?
    ensures Alive(s, s.cpu.pid) && Sound(s, s.cpu.pid) && Inv(FinishStep(s), initial, degree)
  {
    hide AllLinked, PoolOk, HeldLive, NotWaiting, Tokens, DevicesOk, Sound, Release, QueueOf;
    OnCpu(s, 0);
    var p := s.cpu.pid;
    ReleaseKeeps(s, initial, degree, p, 0);
    ReleasedHoldsNone(s.pool, initial, p);
    var t := ReleaseAll(s, p);
    var u := FinishStep(s);
    assert u == Leave(t, p).(cpu := u.cpu);
    LeaveTokens(t, p, u.cpu, degree);
    LeaveHeld(t, p, u.cpu);
    FinishQueues(t, p, u);
    Moved(t, u, p, Exec, Exit, 0);
    DevicesSame(t, u);
  }

  lemma DevicesSame(s: State, t: State)
    requires DevicesOk(s) && t.devices == s.devices
    ensures DevicesOk(t)
  {
  }

  lemma TakenLinked(s: State, p: Pid, r: string)
    requires AllLinked(s, 0) && Alive(s, p) && s.status[p - 1] == BlockResource(r)
    requires r in s.pool.resources && Holding(p, r) in s.pool.held
    ensures AllLinked(s.(pool := TakeOut(s.pool, p, r)), p)
  {
    hide NoRepeats;
    var t := s.(pool := TakeOut(s.pool, p, r));
    FilteredIs(s.pool.resources[r].waiters, p);
    forall st: Status ensures Linked(QueueOf(t, st), t.status, st, p) {
      assert Linked(QueueOf(s, st), s.status, st, 0);
      if st != BlockResource(r) {
        assert QueueOf(t, st) == QueueOf(s, st);
      }
    }
  }

  lemma TakenHeld(s: State, p: Pid, r: string)
    requires HeldLive(s) && r in s.pool.resources && Holding(p, r) in s.pool.held
    ensures HeldLive(s.(pool := TakeOut(s.pool, p, r)))
  {
    RemoveFirstCounts(s.pool.held, Holding(p, r));
  }

  lemma LeaveJoins(s: State, p: Pid)
    requires AllLinked(s, p) && Alive(s, p) && s.status[p - 1] != Exit && s.status[p - 1] != Exec
    ensures AllLinked(Leave(s, p), 0)
  {
    hide AllLinked;
    JoinLinked(s, Leave(s, p), p, Exit);
  }

  lemma LimboNotWaiting(s: State, p: Pid)
    requires AllLinked(s, p)
    ensures NotWaiting(s.pool, p)
  {
    forall r | r in s.pool.resources ensures p !in s.pool.resources[r].waiters {
      assert Linked(QueueOf(s, BlockResource(r)), s.status, BlockResource(r), p);
    }
  }

  lemma KillKeeps(s: State, initial: map<string, nat>, degree: nat, p: Pid)
    requires Inv(s, initial, degree) && Enabled(s, Kill(p))
    ensures Defined(s, Kill(p)) && Inv(Step(s, Kill(p)), initial, degree)
  {
    hide AllLinked, PoolOk, HeldLive, NotWaiting, Tokens, DevicesOk, Sound, Release, ReleaseAll;
    var r := s.status[p - 1].resource;
    AtQueue(s, p, 0);
    TakeOutOk(s.pool, initial, p, r);
    TakenLinked(s, p, r);
    TakenHeld(s, p, r);
    var t := s.(pool := TakeOut(s.pool, p, r));
    TokensSame(s, t, degree);
    DevicesSame(s, t);
    LimboNotWaiting(t, p);
    ReleaseKeeps(t, initial, degree, p, p);
    ReleasedHoldsNone(t.pool, initial, p);
    var u := ReleaseAll(t, p);
    var v := Leave(u, p);
    LeaveTokens(u, p, v.cpu, degree);
    LeaveHeld(u, p, v.cpu);
    LeaveJoins(u, p);
    DevicesSame(u, v);
  }

  lemma TokensSame(s: State, t: State, degree: nat)
    requires Tokens(s, degree) && t == s.(pool := t.pool)
    ensures Tokens(t, degree)
  {
  }

  /** A process that ends leaves no entry; everyone else's stay; each resource wakes the first of its
      queue, one for each unit, and these join READY or READY+ in that order. */
  ghost predicate Gone(s: State, t: State, p: Pid, pool: Pool) {
    && Known(pool, p)
    && var woken := Release(pool, p).1;
    && t.pool.held == WithoutPid(pool.held, p)
    && ReleasedAll(pool, t.pool, p, woken)
    && WokenJoin(s, t, woken)
    && t.exited == s.exited + [p] && Alive(t, p) && t.status[p - 1] == Exit
  }

  lemma GoneBy(s: State, initial: map<string, nat>, degree: nat, p: Pid, out: Pid, cpu: Cpu)
    requires InvBut(s, initial, degree, out) && NotWaiting(s.pool, p) && Alive(s, p)
    ensures Sound(s, p) && Gone(s, ExitStep(s, p).(cpu := cpu), p, s.pool)
  {
    hide InvBut, Sound, ReleaseAll, Release, NotWaiting, WokenJoin, ReleasedAll;
    Opened(s, initial, degree, out);
    ReleaseKeeps(s, initial, degree, p, out);
    ReleaseEffect(s.pool, initial, p);
    WokenElsewhere(s, ReleaseAll(s, p), ExitStep(s, p).(cpu := cpu), Release(s.pool, p).1);
  }

  lemma Opened(s: State, initial: map<string, nat>, degree: nat, out: Pid)
    requires InvBut(s, initial, degree, out)
    ensures PoolOk(s.pool, initial) && AllLinked(s, out)
  {
  }

  lemma WokenElsewhere(s: State, t: State, u: State, woken: seq<Wake>)
    requires WokenJoin(s, t, woken) && u.ready == t.ready && u.readyPlus == t.readyPlus
    ensures WokenJoin(s, u, woken)
  {
  }

  lemma FinishEffect(s: State, initial: map<string, nat>, degree: nat)
    requires Inv(s, initial, degree) && s.cpu.Running?
    ensures Alive(s, s.cpu.pid) && Sound(s, s.cpu.pid) && Gone(s, FinishStep(s), s.cpu.pid, s.pool)
  {
    hide InvBut, Sound, Gone, NotWaiting, ExitStep;
    Opened(s, initial, degree, 0);
    OnCpu(s, 0);
    SoundFrom(s, initial, s.cpu.pid, 0);
    var u := FinishStep(s);
    GoneBy(s, initial, degree, s.cpu.pid, 0, u.cpu);
  }

  /** The same for a process killed while it waits, after its place in the queue, the others in order,
      and its entry are gone. */
  lemma KillEffect(s: State, initial: map<string, nat>, degree: nat, p: Pid)
    requires Inv(s, initial, degree) && Enabled(s, Kill(p))
    ensures Defined(s, Kill(p)) && Gone(s, Step(s, Kill(p)), p, TakeOut(s.pool, p, s.status[p - 1].resource))
  {
    hide AllLinked, PoolOk, HeldLive, NotWaiting, Tokens, DevicesOk, Sound, ExitStep, Gone;
    KillKeeps(s, initial, degree, p);
    var r := s.status[p - 1].resource;
    var t := s.(pool := TakeOut(s.pool, p, r));
    TakeOutOk(s.pool, initial, p, r);
    TakenLinked(s, p, r);
    TakenHeld(s, p, r);
    TokensSame(s, t, degree);
    DevicesSame(s, t);
    LimboNotWaiting(t, p);
    var u := Step(s, Kill(p));
    GoneBy(t, initial, degree, p, p, u.cpu);
    GoneSame(s, t, u, p);
  }

  lemma GoneSame(s: State, t: State, u: State, p: Pid)
    requires Gone(t, u, p, t.pool) && t == s.(pool := t.pool)
    ensures Gone(s, u, p, t.pool)
  {
  }
}
