/** The request and reply protocol between the kernel and one I/O device
    (kernel/src/kernel.c:216-319, 1050-1061, 1156-1192; entradasalida/src/inout.c:14-32, 630-669). */
module KernelDevices {
  import opened Common
  import opened KernelPool

  /** `queue` is the kernel's wait queue. The rest is history: `asked` lists every request sent, in
      order; the device has taken the first `taken` of them and is at work on the last of those when
      `busy`; `finished` lists, by position in `asked`, the ones it has answered; and the kernel has
      received the first `woken` answers. A reply names no process: the kernel wakes its queue's head. */
  datatype Device = Device(queue: seq<Pid>, asked: seq<Pid>, taken: nat, busy: bool, finished: seq<nat>, woken: nat)

  const NEW_DEVICE := Device([], [], 0, false, [], 0)

  datatype Step = Ask(pid: Pid) | Take | Finish | Drop | Receive

  predicate Enabled(d: Device, s: Step) {
    match s
    case Ask(p) => p !in d.queue
    case Take => !d.busy && d.taken < |d.asked|
    case Finish => d.busy
    case Drop => d.busy
    case Receive => d.woken < |d.finished|
  }

  /** `Drop` is a request that ends without an answer: a file creation on a full disk
      (entradasalida/src/inout.c:721-755). */
  function Next(d: Device, s: Step): Device
    requires Enabled(d, s)
    requires d.busy ==> d.taken > 0
  {
    match s
    case Ask(p) => d.(queue := d.queue + [p], asked := d.asked + [p])
    case Take => d.(taken := d.taken + 1, busy := true)
    case Finish => d.(busy := false, finished := d.finished + [d.taken - 1])
    case Drop => d.(busy := false)
    case Receive => d.(queue := if d.queue == [] then [] else d.queue[1..], woken := d.woken + 1)
  }

  /** Requests the device is through with. */
  function Through(d: Device): int {
    if d.busy then d.taken - 1 else d.taken
  }

  ghost predicate DeviceOk(d: Device) {
    && (d.busy ==> d.taken > 0)
    && d.taken <= |d.asked|
    && d.woken <= |d.finished|
    && (forall i, j :: 0 <= i < j < |d.finished| ==> d.finished[i] < d.finished[j])
    && (forall i :: 0 <= i < |d.finished| ==> i <= d.finished[i] < Through(d))
    && |d.finished| <= Through(d)
    && d.queue == d.asked[d.woken..]
    && NoRepeats(d.queue)
  }

  lemma StepOk(d: Device, s: Step)
    requires DeviceOk(d) && Enabled(d, s)
    ensures DeviceOk(Next(d, s))
    ensures s.Receive? ==> d.queue != []
  {
    var e := Next(d, s);
    match s
    case Ask(p) => assert e.asked[e.woken..] == d.asked[d.woken..] + [p];
    case Receive => assert d.asked[d.woken..][1..] == d.asked[d.woken + 1..];
    case Take =>
    case Finish =>
    case Drop =>
  }

  /** Requests dropped before the one at position `k`. */
  function DroppedBefore(d: Device, k: nat): int {
    k - AnsweredBefore(d.finished, k)
  }

  function AnsweredBefore(finished: seq<nat>, k: nat): nat {
    if finished == [] then 0 else AnsweredBefore(finished[..|finished| - 1], k) + if finished[|finished| - 1] < k
      then 1 else 0
  }

  lemma {:induction false} AnsweredBeforeAt(finished: seq<nat>, i: nat)
    requires forall a, b :: 0 <= a < b < |finished| ==> finished[a] < finished[b]
    requires i < |finished|
    ensures AnsweredBefore(finished, finished[i]) == i
  {
    var last := |finished| - 1;
    if i < last {
      AnsweredBeforeAt(finished[..last], i);
    } else {
      AnsweredAll(finished[..last], finished[i]);
    }
  }

  lemma {:induction false} AnsweredAll(finished: seq<nat>, k: nat)
    requires forall a :: 0 <= a < |finished| ==> finished[a] < k
    ensures AnsweredBefore(finished, k) == |finished|
  {
    if finished != [] {
      AnsweredAll(finished[..|finished| - 1], k);
    }
  }

  /** A completion wakes the process whose request finished exactly when no earlier request was dropped. */
  lemma WakesTheRightProcess(d: Device)
    requires DeviceOk(d) && Enabled(d, Receive)
    ensures d.queue != []
    ensures var k := d.finished[d.woken];
            k < |d.asked| && (d.queue[0] == d.asked[k] <==> DroppedBefore(d, k) == 0)
  {
    StepOk(d, Receive);
    var k := d.finished[d.woken];
    AnsweredBeforeAt(d.finished, d.woken);
    assert d.queue[0] == d.asked[d.woken];
    assert d.asked[k] == d.queue[k - d.woken];
  }

  // ----- Whole runs -----

  ghost predicate Runs(d: Device, steps: seq<Step>)
    requires DeviceOk(d)
    decreases |steps|
  {
    steps == [] || (Enabled(d, steps[0]) && (StepOk(d, steps[0]); Runs(Next(d, steps[0]), steps[1..])))
  }

  ghost function After(d: Device, steps: seq<Step>): (e: Device)
    requires DeviceOk(d) && Runs(d, steps)
    ensures DeviceOk(e)
    decreases |steps|
  {
    if steps == [] then d else (StepOk(d, steps[0]); After(Next(d, steps[0]), steps[1..]))
  }

  /** Every answered request so far was answered in turn. */
  ghost predicate InTurn(d: Device) {
    |d.finished| == Through(d) && forall i :: 0 <= i < |d.finished| ==> d.finished[i] == i
  }

  lemma InTurnNext(d: Device, s: Step)
    requires InTurn(d) && Enabled(d, s) && !s.Drop? && (d.busy ==> d.taken > 0)
    ensures InTurn(Next(d, s))
  {
  }

  /** Without drops, the wait queue is always: replies in flight, then the request in service, then
      requests in flight. */
  lemma {:induction false} QueueMirrorsChannels(d: Device, steps: seq<Step>)
    requires DeviceOk(d) && InTurn(d) && Runs(d, steps)
    requires forall i :: 0 <= i < |steps| ==> !steps[i].Drop?
    ensures var e := After(d, steps);
            && InTurn(e)
            && e.queue == e.asked[e.woken..|e.finished|] + e.asked[|e.finished|..e.taken] + e.asked[e.taken..]
            && e.taken - |e.finished| == if e.busy then 1 else 0
    decreases |steps|
  {
    if steps == [] {
      assert d.asked[d.woken..] == d.asked[d.woken..|d.finished|] + d.asked[|d.finished|..d.taken] + d.asked[d.taken..];
    } else {
      StepOk(d, steps[0]);
      QueueMirrorsChannels(Next(d, steps[0]), steps[1..]);
    }
  }

  /** One dropped request is enough: of two processes that asked, the first is woken by the answer
      to the second. */
  lemma DropWakesTheWrongProcess(p: Pid, q: Pid)
    requires p != q
    ensures var steps := [Ask(p), Ask(q), Take, Drop, Take, Finish];
            && DeviceOk(NEW_DEVICE) && Runs(NEW_DEVICE, steps)
            && var d := After(NEW_DEVICE, steps);
               Enabled(d, Receive) && d.queue[0] == p && d.asked[d.finished[d.woken]] == q
  {
    hide After, Runs, DeviceOk;
    var d1 := Device([p], [p], 0, false, [], 0);
    var d2 := Device([p, q], [p, q], 0, false, [], 0);
    var d3 := d2.(taken := 1, busy := true);
    var d4 := d2.(taken := 1);
    var d5 := d2.(taken := 2, busy := true);
    var d6 := d2.(taken := 2, finished := [1]);
    assert [] + [p] == [p] && [p] + [q] == [p, q] && [] + [1] == [1];
    NewDeviceOk();
    StepOk(NEW_DEVICE, Ask(p));
    StepOk(d1, Ask(q));
    StepOk(d2, Take);
    StepOk(d3, Drop);
    StepOk(d4, Take);
    StepOk(d5, Finish);
    NoSteps(d6);
    var s5 := [Finish] + [];
    var s4 := [Take] + s5;
    var s3 := [Drop] + s4;
    var s2 := [Take] + s3;
    var s1 := [Ask(q)] + s2;
    OneStep(d5, Finish, [], d6);
    OneStep(d4, Take, s5, d5);
    OneStep(d3, Drop, s4, d4);
    OneStep(d2, Take, s3, d3);
    OneStep(d1, Ask(q), s2, d2);
    OneStep(NEW_DEVICE, Ask(p), s1, d1);
    assert [Ask(p)] + s1 == [Ask(p), Ask(q), Take, Drop, Take, Finish];
  }

  lemma NewDeviceOk()
    ensures DeviceOk(NEW_DEVICE) && InTurn(NEW_DEVICE)
  {
  }

  lemma NoSteps(d: Device)
    requires DeviceOk(d)
    ensures Runs(d, []) && After(d, []) == d
  {
  }

  lemma OneStep(d: Device, s: Step, rest: seq<Step>, e: Device)
    requires DeviceOk(d) && Enabled(d, s) && (d.busy ==> d.taken > 0) && e == Next(d, s)
    requires DeviceOk(e) && Runs(e, rest)
    ensures Runs(d, [s] + rest) && After(d, [s] + rest) == After(e, rest)
  {
    assert ([s] + rest)[1..] == rest;
  }
}
