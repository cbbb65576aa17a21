/** When the CPU waits although a process is ready (kernel/src/kernel.c:971-1048). */
module KernelStall {
  import opened Common
  import opened KernelPool
  import Devices = KernelDevices
  import opened KernelModel
  import opened KernelSteps
  import opened KernelRuns
  import opened KernelEvents
  import opened KernelReach

  // ----- The choice of replanificar -----

  /** Nothing runs and nothing can be dispatched although a process is ready. */
  ghost predicate Stalled(s: State) {
    !s.cpu.Running? && !Enabled(s, Dispatch) && (s.ready != [] || s.readyPlus != [])
  }

  /** READY+ is only for VRR. */
  ghost predicate PlusIsVrr(s: State) {
    !s.algorithm.VRR? ==> s.readyPlus == [] && s.cpu != Choosing(true)
  }

  lemma {:induction false} ReleasePlus(s: State, p: Pid)
    requires PlusIsVrr(s) && Sound(s, p)
    ensures var t := ReleaseAll(s, p);
            PlusIsVrr(t) && t.cpu == s.cpu && t.algorithm == s.algorithm
    decreases CountOf(s.pool.held, p)
  {
    hide Sound, Signal;
    var r := FirstOf(s.pool.held, p);
    if r.Some? {
      SoundKnown(s, p, r.value);
      SignalSound(s, p, r.value);
      ReleasePlus(SignalStep(s, p, r.value), p);
    }
  }

  lemma PlusStep(s: State, e: Event)
    requires PlusIsVrr(s) && Enabled(s, e) && Defined(s, e)
    ensures PlusIsVrr(Step(s, e)) && Step(s, e).algorithm == s.algorithm
  {
    hide Sound, ReleaseAll, Signal, Wait, TakeOut, Devices.DeviceOk, Devices.Enabled, Devices.Next;
    match e
    case AskIo(d, allowed) => if !(d in s.devices && allowed) { ReleasePlus(s, s.cpu.pid); }
    case WaitFor(r) => ReleasePlus(s, s.cpu.pid);
    case SignalOn(r) => ReleasePlus(s, s.cpu.pid);
    case Finish => ReleasePlus(s, s.cpu.pid);
    case Kill(p) => ReleasePlus(s.(pool := TakeOut(s.pool, p, s.status[p - 1].resource)), p);
    case _ =>
  }

  lemma {:induction false} PlusRun(s: State, events: seq<Event>, t: State)
    requires PlusIsVrr(s) && Reaches(s, events, t)
    ensures PlusIsVrr(t) && t.algorithm == s.algorithm
    decreases |events|
  {
    hide PlusIsVrr, Step, Enabled, Defined;
    if events != [] {
      PlusStep(s, events[0]);
      PlusRun(Step(s, events[0]), events[1..], t);
    }
  }

  /** Under FIFO and RR, whenever nothing runs and a process is ready, one can be dispatched. */
  lemma NeverStalls(algorithm: Algorithm, initial: map<string, nat>, degree: nat, events: seq<Event>, t: State)
    requires !algorithm.VRR? && Reaches(Start(algorithm, initial, degree), events, t)
    ensures !Stalled(t)
  {
    hide Reaches;
    PlusRun(Start(algorithm, initial, degree), events, t);
    Reachable(algorithm, initial, degree, events, t);
  }

  /** The queue that `replanificar` did not settle on. */
  function Other(s: State): seq<Pid>
    requires s.cpu.Choosing?
  {
    if s.cpu.plus then s.ready else s.readyPlus
  }

  /** A stall seen in the queues, which the semaphores mirror. */
  predicate Waits(s: State) {
    s.cpu.Choosing? && Next(s) == [] && Other(s) != []
  }

  lemma StalledWaits(s: State, degree: nat)
    requires Tokens(s, degree) && IdleEmpty(s)
    ensures Stalled(s) <==> Waits(s)
  {
  }

  /** Once `replanificar` has chosen, it waits on an empty queue exactly when both are empty: by itself it
      never stalls. */
  lemma ChoosesWell(s: State, blocking: bool)
    requires s.cpu == Replan(s, blocking).cpu && PlusIsVrr(s)
    ensures Next(s) == [] <==> s.ready == [] && s.readyPlus == []
    ensures !Waits(s)
  {
  }

  // ----- Which events start a stall, and which end one -----

  /** Releasing `p` wakes someone: it has a unit of a resource that others wait for. */
  ghost predicate WakesSomeone(pool: Pool, p: Pid) {
    exists r :: r in pool.resources && Units(pool.held, p, r) > 0 && pool.resources[r].waiters != []
  }

  lemma {:induction false} WokenKnown(pool: Pool, p: Pid)
    requires Known(pool, p)
    ensures forall w :: w in Release(pool, p).1 ==> w.resource in pool.resources
    decreases CountOf(pool.held, p)
  {
    var r := FirstOf(pool.held, p);
    if r.Some? {
      RemoveFirstCounts(pool.held, Holding(p, r.value));
      WokenKnown(Signal(pool, p, r.value).0, p);
    }
  }

  lemma WakesIff(pool: Pool, initial: map<string, nat>, p: Pid)
    requires PoolOk(pool, initial) && NotWaiting(pool, p)
    ensures Known(pool, p)
    ensures Release(pool, p).1 != [] <==> WakesSomeone(pool, p)
  {
    hide PoolOk, NotWaiting, Release, Units, WokenFrom;
    ReleaseEffect(pool, initial, p);
    WokenKnown(pool, p);
    var woken := Release(pool, p).1;
    if woken != [] {
      var r := woken[0].resource;
      assert woken[0] in woken;
      WokenHead(woken);
      assert WokenFrom(woken, r) != [];
      assert Released(pool.resources[r], Release(pool, p).0.resources[r], Units(pool.held, p, r), WokenFrom(woken, r));
      assert Units(pool.held, p, r) > 0 && pool.resources[r].waiters != [];
      assert WakesSomeone(pool, p);
    }
    if WakesSomeone(pool, p) {
      var r :| r in pool.resources && Units(pool.held, p, r) > 0 && pool.resources[r].waiters != [];
      assert Released(pool.resources[r], Release(pool, p).0.resources[r], Units(pool.held, p, r), WokenFrom(woken, r));
      WokenNone(woken, r);
    }
  }

  lemma WokenNone(ws: seq<Wake>, r: string)
    ensures WokenFrom(ws, r) != [] ==> ws != []
  {
  }

  lemma WokenHead(ws: seq<Wake>)
    requires ws != []
    ensures WokenFrom(ws, ws[0].resource) != []
  {
  }

  /** Killing `p` wakes someone, as far as its resources are concerned. */
  ghost predicate KillWakes(s: State, p: Pid)
    requires Alive(s, p) && s.status[p - 1].BlockResource?
  {
    var r := s.status[p - 1].resource;
    r in s.pool.resources && Holding(p, r) in s.pool.held && WakesSomeone(TakeOut(s.pool, p, r), p)
  }

  /** The event puts a process in READY although the CPU waits on READY+, or the other way around. */
  ghost predicate Feeds(s: State, e: Event, plus: bool)
    requires Enabled(s, e)
  {
    match e
    case Admit => !plus
    case IoDone(_) => plus == s.algorithm.VRR?
    case Kill(p) => plus == s.algorithm.VRR? && KillWakes(s, p)
    case _ => false
  }

  /** What to check before an event. */
  ghost predicate Stalls(s: State, e: Event)
    requires Enabled(s, e)
  {
    s.cpu.Choosing? && Next(s) == [] && Feeds(s, e, !s.cpu.plus)
  }

  lemma KillQueues(s: State, initial: map<string, nat>, degree: nat, p: Pid)
    requires Inv(s, initial, degree) && Enabled(s, Kill(p)) && Defined(s, Kill(p))
    ensures var t := Step(s, Kill(p));
            && t.cpu == s.cpu
            && (t.ready == s.ready <==> s.algorithm.VRR? || !KillWakes(s, p))
            && (t.readyPlus == s.readyPlus <==> !s.algorithm.VRR? || !KillWakes(s, p))
            && |t.ready| >= |s.ready| && |t.readyPlus| >= |s.readyPlus|
  {
    hide InvBut, Sound, ReleaseAll, Release, PoolOk, NotWaiting, AllLinked, WakesSomeone;
    KillEffect(s, initial, degree, p);
    var r := s.status[p - 1].resource;
    Opened(s, initial, degree, 0);
    AtQueue(s, p, 0);
    TakeOutOk(s.pool, initial, p, r);
    TakenLinked(s, p, r);
    LimboNotWaiting(s.(pool := TakeOut(s.pool, p, r)), p);
    WakesIff(TakeOut(s.pool, p, r), initial, p);
    PidsCount(Release(TakeOut(s.pool, p, r), p).1);
    KillCpu(s, p);
  }

  lemma {:induction false} PidsCount(ws: seq<Wake>)
    ensures |Pids(ws)| == |ws|
  {
    if ws != [] {
      PidsCount(ws[1..]);
    }
  }

  /** An event while the CPU waits on a queue: which queue it feeds. */
  lemma Fed(s: State, initial: map<string, nat>, degree: nat, e: Event)
    requires Inv(s, initial, degree) && Enabled(s, e) && Defined(s, e) && s.cpu.Choosing? && !e.Dispatch?
    ensures var t := Step(s, e);
            && t.cpu == s.cpu
            && (t.ready == s.ready <==> !Feeds(s, e, false)) && (t.readyPlus == s.readyPlus <==> !Feeds(s, e, true))
            && |t.ready| >= |s.ready| && |t.readyPlus| >= |s.readyPlus|
  {
    hide AllLinked, PoolOk, HeldLive, Tokens, DevicesOk, Sound, KillStep, KillWakes, Devices.DeviceOk, Devices.Next,
      Devices.Enabled;
    match e
    case Kill(p) => KillQueues(s, initial, degree, p);
    case _ =>
  }

  /** Exactly when an event starts a stall: the CPU waits on an empty queue and the event puts a process in the
      other one. A stall that has begun goes on until an event puts a process in the queue waited for. */
  lemma StallIff(s: State, initial: map<string, nat>, degree: nat, e: Event)
    requires Inv(s, initial, degree) && PlusIsVrr(s) && IdleEmpty(s) && Enabled(s, e)
    ensures Defined(s, e)
    ensures Stalled(s) ==> s.cpu.Choosing?
    ensures !Stalled(s) ==> (Stalled(Step(s, e)) <==> Stalls(s, e))
    ensures Stalled(s) ==> (!Stalled(Step(s, e)) <==> Feeds(s, e, s.cpu.plus))
  {
    hide AllLinked, PoolOk, HeldLive, DevicesOk, Stalled, Step, Enabled, Defined, PlusIsVrr, Feeds, Tokens, IdleEmpty;
    IdleStep(s, initial, degree, e);
    FeedsOne(s, e);
    StepKeeps(s, initial, degree, e);
    var t := Step(s, e);
    PlusStep(s, e);
    StalledWaits(s, degree);
    StalledWaits(t, degree);
    if s.cpu.Choosing? && !e.Dispatch? {
      Fed(s, initial, degree, e);
    } else {
      NewChoice(s, initial, degree, e);
    }
  }

  lemma FeedsOne(s: State, e: Event)
    requires Enabled(s, e)
    ensures !(Feeds(s, e, true) && Feeds(s, e, false))
  {
  }

  /** No event that makes `replanificar` choose stalls, and a process that runs is no stall. */
  lemma NewChoice(s: State, initial: map<string, nat>, degree: nat, e: Event)
    requires Inv(s, initial, degree) && Enabled(s, e) && Defined(s, e) && PlusIsVrr(Step(s, e))
    requires !s.cpu.Choosing? || e.Dispatch?
    ensures !Waits(Step(s, e)) && !Waits(s)
    ensures s.cpu.Choosing? ==> Next(s) != []
  {
    hide AllLinked, PoolOk, HeldLive, DevicesOk, Sound, KillStep, ExitStep, Devices.DeviceOk, Devices.Next,
      Devices.Enabled, Wait, Waits, PlusIsVrr;
    NoChoice(s);
    var t := Step(s, e);
    match e
    case Kill(p) =>
      KillCpu(s, p);
      NoChoice(t);
    case _ =>
      if t.cpu == Replan(t, true).cpu {
        ChoosesWell(t, true);
      } else if t.cpu == Replan(t, false).cpu {
        ChoosesWell(t, false);
      } else {
        NoChoice(t);
      }
  }

  lemma NoChoice(s: State)
    ensures Waits(s) ==> s.cpu.Choosing? && Next(s) == []
  {
  }

  /** Under VRR the head of READY+ runs next whenever it had one when `replanificar` chose. */
  lemma PlusFirst(s: State, blocking: bool)
    requires s.algorithm.VRR? && s.readyPlus != [] && s.pidsReadyPlus != [] && Alive(s, s.readyPlus[0])
    ensures DispatchStep(Replan(s, blocking)).cpu == Running(s.readyPlus[0])
  {
  }

  // ----- Runs -----

  /** No state of the run is stalled. */
  ghost predicate StallFree(s: State, events: seq<Event>)
    decreases |events|
  {
    && !Stalled(s)
    && (events == [] || (Enabled(s, events[0]) && Defined(s, events[0]) && StallFree(Step(s, events[0]), events[1..])))
  }

  /** Every event of the run passes the check made before it. */
  ghost predicate Guarded(s: State, events: seq<Event>)
    decreases |events|
  {
    || events == []
    || (Enabled(s, events[0]) && Defined(s, events[0]) && !Stalls(s, events[0]) &&
         Guarded(Step(s, events[0]), events[1..]))
  }

  lemma {:induction false} StallFreeIff(s: State, initial: map<string, nat>, degree: nat, events: seq<Event>, t: State)
    requires Inv(s, initial, degree) && PlusIsVrr(s) && IdleEmpty(s) && Reaches(s, events, t) && !Stalled(s)
    ensures StallFree(s, events) <==> Guarded(s, events)
    decreases |events|
  {
    hide Inv, PlusIsVrr, IdleEmpty, Stalled, Stalls, Feeds, Enabled, Defined, Step;
    if events != [] {
      IdleStep(s, initial, degree, events[0]);
      StallIff(s, initial, degree, events[0]);
      StepKeeps(s, initial, degree, events[0]);
      PlusStep(s, events[0]);
      var mid := Step(s, events[0]);
      if !Stalled(mid) {
        StallFreeIff(mid, initial, degree, events[1..], t);
      } else {
        NotFree(mid, events[1..]);
      }
    }
  }

  lemma NotFree(s: State, events: seq<Event>)
    requires Stalled(s)
    ensures !StallFree(s, events)
  {
  }

  /** Over a whole run from the start, under any algorithm, the CPU never waits while a process is ready if and
      only if every event passes that check. */
  lemma RunStallFreeIff(algorithm: Algorithm, initial: map<string, nat>, degree: nat, events: seq<Event>, t: State)
    requires Reaches(Start(algorithm, initial, degree), events, t)
    ensures StallFree(Start(algorithm, initial, degree), events) <==> Guarded(Start(algorithm, initial, degree), events)
  {
    hide Inv, StallFree, Guarded, Reaches;
    StartOk(algorithm, initial, degree);
    StallFreeIff(Start(algorithm, initial, degree), initial, degree, events, t);
  }

  // ----- A stall -----

  lemma OneMore(s: State, e: Event, mid: State, events: seq<Event>, t: State)
    requires Enabled(s, e) && Defined(s, e) && Step(s, e) == mid && Reaches(mid, events, t)
    ensures Reaches(s, [e] + events, t)
  {
    hide Enabled, Defined, Step;
    assert ([e] + events)[1..] == events;
  }

  function Stall(r: string): seq<Event> {
    [Create, Admit, Dispatch, WaitFor(r), Create, Admit]
  }

  /** The states that Stall goes through; resource `r` has no instances. */
  function StallAt(r: string, k: nat): State {
    var s := State(VRR, [], [], [], [], [], [], 0, 0, 0, 1, false, Idle, Pool(map[r := Resource(0, [])], []), map[],
      []);
    var blocked := s.(cpu := Choosing(true), pool := Pool(map[r := Resource(-1, [1])], [Holding(1, r)]));
    match k
    case 0 => s.(slots := 2, first := true)
    case 1 => s.(slots := 2, first := true, newQ := [1], semNew := 1, status := [New])
    case 2 => s.(cpu := Choosing(false), ready := [1], pidsReady := [1], semReady := 1, status := [Ready])
    case 3 => s.(cpu := Running(1), status := [Exec])
    case 4 => blocked.(status := [BlockResource(r)])
    case 5 => blocked.(newQ := [2], semNew := 1, status := [BlockResource(r), New])
    case _ => blocked.(ready := [2], pidsReady := [2], semReady := 1, slots := 0, status := [BlockResource(r), Ready])
  }

  /** `e` leads from `s` to `t`. */
  ghost predicate Leads(s: State, e: Event, t: State) {
    Enabled(s, e) && Defined(s, e) && Step(s, e) == t
  }

  lemma StallStart(r: string)
    ensures StallAt(r, 0) == Start(VRR, map[r := 0], 2)
  {
    assert Start(VRR, map[r := 0], 2).pool.resources == map[r := Resource(0, [])];
  }

  lemma StallCreate(r: string)
    ensures Leads(StallAt(r, 0), Create, StallAt(r, 1))
  {
  }

  lemma AdmitLeads(s: State, t: State)
    requires s.semNew > 0 && s.slots > 0 && s.newQ != [] && Alive(s, s.newQ[0]) && AdmitStep(s) == t
    ensures Leads(s, Admit, t)
  {
    hide AdmitStep;
  }

  lemma StallAdmitStep(r: string)
    ensures var s := StallAt(r, 1);
            && s.semNew > 0 && s.slots > 0 && s.newQ != [] && Alive(s, s.newQ[0])
            && AdmitStep(s) == StallAt(r, 2)
  {
    var s := StallAt(r, 1);
    var left := s.(newQ := [], semNew := 0, slots := 1);
    var joined := left.(ready := [1], pidsReady := [1], semReady := 1, status := [Ready]);
    assert s.newQ == [1] && s.newQ[1..] == [] && s.status[0 := Ready] == [Ready] && s.ready + [1] == [1] &&
      s.pidsReady + [1] == [1];
    assert LeaveNew(s) == left;
    assert JoinReady(left, 1) == joined;
    assert AdmitStep(s) == Replan(joined, false).(first := false);
  }

  lemma StallDispatch(r: string)
    ensures Leads(StallAt(r, 2), Dispatch, StallAt(r, 3))
  {
  }

  lemma StallWait(r: string)
    ensures Leads(StallAt(r, 3), WaitFor(r), StallAt(r, 4))
  {
    var s := StallAt(r, 3);
    assert s.pool.resources[r] == Resource(0, []) && s.pool.resources[r].waiters + [1] == [1];
    assert Wait(s.pool, 1, r).resources[r] == Resource(-1, [1]);
    assert Wait(s.pool, 1, r).resources == map[r := Resource(-1, [1])];
    assert Wait(s.pool, 1, r).held == [Holding(1, r)];
    assert s.status[0 := BlockResource(r)] == [BlockResource(r)];
  }

  lemma StallCreateAgain(r: string)
    ensures Leads(StallAt(r, 4), Create, StallAt(r, 5))
  {
  }

  lemma StallAdmitAgainStep(r: string)
    ensures var s := StallAt(r, 5);
            && s.semNew > 0 && s.slots > 0 && s.newQ != [] && Alive(s, s.newQ[0])
            && AdmitStep(s) == StallAt(r, 6)
  {
    var s := StallAt(r, 5);
    var left := s.(newQ := [], semNew := 0, slots := 0);
    assert s.newQ == [2] && s.newQ[1..] == [] && s.status[1 := Ready] == [BlockResource(r), Ready];
    assert s.ready + [2] == [2] && s.pidsReady + [2] == [2];
    assert LeaveNew(s) == left;
    assert AdmitStep(s) == JoinReady(left, 2);
  }

  /** Under VRR: a process blocks while both queues are empty, so the CPU waits on READY+; the next
      process admitted goes to READY, and stays there. */
  lemma StallReached(r: string)
    ensures Reaches(Start(VRR, map[r := 0], 2), Stall(r), StallAt(r, 6)) && Stalled(StallAt(r, 6))
  {
    hide Reaches, Defined, Enabled, Step, StallAt, AdmitStep;
    StallStart(r);
    StallCreate(r);
    StallAdmitStep(r);
    AdmitLeads(StallAt(r, 1), StallAt(r, 2));
    StallDispatch(r);
    StallWait(r);
    StallCreateAgain(r);
    StallAdmitAgainStep(r);
    AdmitLeads(StallAt(r, 5), StallAt(r, 6));
    StallEnd(r);
    var six := [Admit] + [];
    var five := [Create] + six;
    var four := [WaitFor(r)] + five;
    var three := [Dispatch] + four;
    var two := [Admit] + three;
    OneMore(StallAt(r, 5), Admit, StallAt(r, 6), [], StallAt(r, 6));
    OneMore(StallAt(r, 4), Create, StallAt(r, 5), six, StallAt(r, 6));
    OneMore(StallAt(r, 3), WaitFor(r), StallAt(r, 4), five, StallAt(r, 6));
    OneMore(StallAt(r, 2), Dispatch, StallAt(r, 3), four, StallAt(r, 6));
    OneMore(StallAt(r, 1), Admit, StallAt(r, 2), three, StallAt(r, 6));
    OneMore(StallAt(r, 0), Create, StallAt(r, 1), two, StallAt(r, 6));
    assert [Create] + two == Stall(r);
  }

  lemma StallEnd(r: string)
    ensures Reaches(StallAt(r, 6), [], StallAt(r, 6)) && Stalled(StallAt(r, 6))
  {
  }
}
