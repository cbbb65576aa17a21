/** A DialFS device at the other end of the kernel's requests: which of them it answers, and so which
    process each answer wakes (kernel/src/kernel.c:1156-1192, 255-266; entradasalida/src/inout.c:14-32, 630-755). */
module DialFsService {
  import opened Directory = DialFsDirectory
  import opened KernelPool
  import opened KernelDevices

  /** A device, the operation of each request it was sent, and the directory it starts with. */
  datatype Service = Service(device: Device, ops: seq<Op>, start: Directory.Directory, bs: nat, cap: nat)

  /** The directory when the device gets to the request at position `j`, if it gets there. */
  function Before(s: Service, j: nat): Directory.Directory
    requires s.bs > 0 && j <= |s.ops|
  {
    if j == 0 then s.start
    else
      var d := Before(s, j - 1);
      if Served(d.es, s.ops[j - 1], s.bs) then Directory.Step(d, s.ops[j - 1], s.bs, s.cap) else d
  }

  predicate Answers(s: Service, j: nat)
    requires s.bs > 0 && j < |s.ops|
  {
    Replies(Before(s, j).es, s.ops[j], s.bs, s.cap)
  }

  datatype Event = Request(pid: Pid, op: Op) | Start | End | Reply

  /** The device ends a request with an answer or without one, as its directory says. */
  function Kind(s: Service, e: Event): KernelDevices.Step
    requires s.bs > 0 && |s.ops| == |s.device.asked|
  {
    match e
    case Request(p, _) => Ask(p)
    case Start => Take
    case End => if 0 < s.device.taken <= |s.ops| && Answers(s, s.device.taken - 1) then Finish else Drop
    case Reply => Receive
  }

  /** What may happen. The code does not survive a lookup when no file exists, so such a request is never taken. */
  predicate CanServe(s: Service, e: Event)
    requires s.bs > 0 && |s.ops| == |s.device.asked|
  {
    && Enabled(s.device, Kind(s, e))
    && (e.Start? ==> Served(Before(s, s.device.taken).es, s.ops[s.device.taken], s.bs))
  }

  function Serve(s: Service, e: Event): Service
    requires s.bs > 0 && |s.ops| == |s.device.asked| && DeviceOk(s.device) && CanServe(s, e)
  {
    s.(device := Next(s.device, Kind(s, e)), ops := if e.Request? then s.ops + [e.op] else s.ops)
  }

  /** The answers sent are for exactly the requests, among those the device is through with, that
      the directory answers. */
  ghost predicate ServiceOk(s: Service) {
    && s.bs > 0 && |s.ops| == |s.device.asked| && DeviceOk(s.device)
    && (forall j :: 0 <= j < Through(s.device) ==> (j in s.device.finished <==> Answers(s, j)))
    && (forall j :: 0 <= j < s.device.taken ==> Served(Before(s, j).es, s.ops[j], s.bs))
  }

  lemma {:induction false} BeforeSame(s: Service, t: Service, j: nat)
    requires s.bs > 0 && s.ops <= t.ops && t == s.(device := t.device, ops := t.ops) && j <= |s.ops|
    ensures Before(t, j) == Before(s, j)
  {
    if j > 0 {
      BeforeSame(s, t, j - 1);
    }
  }

  lemma AnswersSame(s: Service, t: Service)
    requires s.bs > 0 && s.ops <= t.ops && t == s.(device := t.device, ops := t.ops)
    ensures forall j :: 0 <= j < |s.ops| ==> Answers(t, j) == Answers(s, j)
  {
    forall j | 0 <= j < |s.ops| ensures Answers(t, j) == Answers(s, j) {
      BeforeSame(s, t, j);
    }
  }

  lemma BeforeAllSame(s: Service, t: Service)
    requires s.bs > 0 && s.ops <= t.ops && t == s.(device := t.device, ops := t.ops)
    ensures forall j :: 0 <= j < |s.ops| ==> Before(t, j) == Before(s, j)
  {
    forall j | 0 <= j < |s.ops| ensures Before(t, j) == Before(s, j) {
      BeforeSame(s, t, j);
    }
  }

  lemma ServeOk(s: Service, e: Event)
    requires ServiceOk(s) && CanServe(s, e)
    ensures ServiceOk(Serve(s, e))
  {
    hide Answers, Before;
    var t := Serve(s, e);
    AnswersSame(s, t);
    BeforeAllSame(s, t);
    StepOk(s.device, Kind(s, e));
    if e.End? {
      FinishedGrows(s, t);
    }
  }

  lemma FinishedGrows(s: Service, t: Service)
    requires ServiceOk(s) && CanServe(s, End) && t == Serve(s, End)
    requires forall j :: 0 <= j < |s.ops| ==> Answers(t, j) == Answers(s, j)
    ensures forall j :: 0 <= j < Through(t.device) ==> (j in t.device.finished <==> Answers(t, j))
  {
    hide Answers;
    assert s.device.taken - 1 !in s.device.finished;
  }

  ghost predicate Runs(s: Service, events: seq<Event>, t: Service)
    decreases |events|
  {
    if events == [] then t == s
    else
      && s.bs > 0 && |s.ops| == |s.device.asked| && DeviceOk(s.device)
      && CanServe(s, events[0]) && Runs(Serve(s, events[0]), events[1..], t)
  }

  lemma {:induction false} RunsOk(s: Service, events: seq<Event>, t: Service)
    requires ServiceOk(s) && Runs(s, events, t)
    ensures ServiceOk(t) && (t.start, t.bs, t.cap) == (s.start, s.bs, s.cap)
    decreases |events|
  {
    hide ServiceOk;
    if events != [] {
      ServeOk(s, events[0]);
      RunsOk(Serve(s, events[0]), events[1..], t);
    }
  }

  /** In a strictly increasing sequence of positions, none is skipped below `finished[i]` exactly when all are there. */
  lemma {:induction false} NoneSkipped(finished: seq<nat>, i: nat)
    requires forall a, b :: 0 <= a < b < |finished| ==> finished[a] < finished[b]
    requires i < |finished|
    ensures finished[i] >= i
    ensures finished[i] == i <==> forall j :: 0 <= j < finished[i] ==> j in finished
  {
    Between(finished, i);
    if i > 0 {
      NoneSkipped(finished, i - 1);
      if finished[i] == i {
        forall j | 0 <= j < finished[i] ensures j in finished {
          assert j < finished[i - 1] || finished[i - 1] == j;
        }
      } else {
        assert finished[i] > finished[i - 1] + 1 ==> finished[i - 1] + 1 !in finished;
      }
    } else {
      assert finished[0] > 0 ==> 0 !in finished;
    }
  }

  lemma Between(finished: seq<nat>, i: nat)
    requires forall a, b :: 0 <= a < b < |finished| ==> finished[a] < finished[b]
    requires i < |finished|
    ensures forall x :: x in finished ==> x >= finished[i] || (i > 0 && x <= finished[i - 1])
  {
  }

  /** After any run, a reply wakes the process whose request it answers exactly when no earlier request
      was a creation on a full disk. */
  lemma WakesUnlessCreationRefused(start: Directory.Directory, bs: nat, cap: nat, events: seq<Event>, t: Service)
    requires bs > 0 && Runs(Service(NEW_DEVICE, [], start, bs, cap), events, t)
    requires Enabled(t.device, Receive)
    ensures t.device.queue != []
    ensures var k := t.device.finished[t.device.woken];
            && k < |t.device.asked| == |t.ops| && t.bs > 0
            && (t.device.queue[0] == t.device.asked[k] <==>
                 forall j :: 0 <= j < k ==> !(t.ops[j].Create? && Used(Before(t, j).es, t.bs) >= t.cap))
  {
    hide Runs, Before, AnsweredBefore;
    NewDeviceOk();
    RunsOk(Service(NEW_DEVICE, [], start, bs, cap), events, t);
    var d := t.device;
    WakesTheRightProcess(d);
    var k := d.finished[d.woken];
    NoneSkipped(d.finished, d.woken);
    AnsweredBeforeAt(d.finished, d.woken);
    if d.queue[0] == d.asked[k] {
      forall j | 0 <= j < k ensures !(t.ops[j].Create? && Used(Before(t, j).es, t.bs) >= t.cap) {
        assert Answers(t, j);
      }
    } else {
      var j :| 0 <= j < k && j !in d.finished;
      assert !Answers(t, j);
    }
  }

  // ----- A full disk -----

  lemma OneMore(s: Service, e: Event, mid: Service, events: seq<Event>, t: Service)
    requires s.bs > 0 && |s.ops| == |s.device.asked| && DeviceOk(s.device) && CanServe(s, e) && Serve(s, e) == mid
    requires Runs(mid, events, t)
    ensures Runs(s, [e] + events, t)
  {
    assert ([e] + events)[1..] == events;
  }

  lemma NoMore(s: Service)
    ensures Runs(s, [], s)
  {
  }

  /** The requests of a run on a disk of one block that `x` already takes: `p` creates `y`, `q` deletes `x`. */
  function FullDisk(p: Pid, q: Pid, x: string, y: string): seq<Event> {
    [Request(p, Op.Create(y)), Request(q, Op.Delete(x)), Start, End, Start, End]
  }

  function FullDiskAt(p: Pid, q: Pid, x: string, y: string, k: nat): Service {
    var start := Directory.Directory([Entry(x, [])], {x});
    var s := Service(NEW_DEVICE, [Op.Create(y), Op.Delete(x)], start, 1, 1);
    var asked := [p, q];
    match k
    case 0 => s.(ops := [])
    case 1 => s.(device := Device([p], [p], 0, false, [], 0), ops := [Op.Create(y)])
    case 2 => s.(device := Device(asked, asked, 0, false, [], 0))
    case 3 => s.(device := Device(asked, asked, 1, true, [], 0))
    case 4 => s.(device := Device(asked, asked, 1, false, [], 0))
    case 5 => s.(device := Device(asked, asked, 2, true, [], 0))
    case _ => s.(device := Device(asked, asked, 2, false, [1], 0))
  }

  lemma FullDiskUsed(p: Pid, q: Pid, x: string, y: string, k: nat)
    requires k >= 2
    ensures var s := FullDiskAt(p, q, x, y, k);
            && Before(s, 0) == s.start && Used(s.start.es, 1) == 1 && Before(s, 1).es == s.start.es
            && !Answers(s, 0) && Answers(s, 1)
  {
    var s := FullDiskAt(p, q, x, y, k);
    var es := s.start.es;
    assert es[..0] == [] && Used(es[..0], 1) == 0;
    assert Before(s, 1) == Directory.Step(Before(s, 0), s.ops[0], s.bs, s.cap);
  }

  ghost predicate Leads(s: Service, e: Event, t: Service) {
    s.bs > 0 && |s.ops| == |s.device.asked| && DeviceOk(s.device) && CanServe(s, e) && Serve(s, e) == t
  }

  lemma FullDiskCreate(p: Pid, q: Pid, x: string, y: string)
    ensures Leads(FullDiskAt(p, q, x, y, 0), Request(p, Op.Create(y)), FullDiskAt(p, q, x, y, 1))
  {
    hide Before, Answers;
    NewDeviceOk();
    assert [] + [p] == [p] && [] + [Op.Create(y)] == [Op.Create(y)];
  }

  lemma FullDiskDelete(p: Pid, q: Pid, x: string, y: string)
    requires p != q
    ensures Leads(FullDiskAt(p, q, x, y, 1), Request(q, Op.Delete(x)), FullDiskAt(p, q, x, y, 2))
  {
    hide Before, Answers;
    assert [p] + [q] == [p, q] && [Op.Create(y)] + [Op.Delete(x)] == [Op.Create(y), Op.Delete(x)];
  }

  lemma FullDiskFirst(p: Pid, q: Pid, x: string, y: string)
    requires p != q
    ensures Leads(FullDiskAt(p, q, x, y, 2), Start, FullDiskAt(p, q, x, y, 3))
    ensures Leads(FullDiskAt(p, q, x, y, 3), End, FullDiskAt(p, q, x, y, 4))
  {
    hide Before, Answers;
    FullDiskUsed(p, q, x, y, 3);
    FullDiskUsed(p, q, x, y, 2);
  }

  lemma FullDiskSecond(p: Pid, q: Pid, x: string, y: string)
    requires p != q
    ensures Leads(FullDiskAt(p, q, x, y, 4), Start, FullDiskAt(p, q, x, y, 5))
    ensures Leads(FullDiskAt(p, q, x, y, 5), End, FullDiskAt(p, q, x, y, 6))
  {
    hide Before, Answers;
    FullDiskUsed(p, q, x, y, 4);
    FullDiskUsed(p, q, x, y, 5);
    assert [] + [1] == [1];
  }

  /** On a full disk, `p` asks for a creation and `q` for a deletion: the one answer, to `q`, wakes `p`. */
  lemma FullDiskWakesTheWrongProcess(p: Pid, q: Pid, x: string, y: string)
    requires p != q
    ensures var t := FullDiskAt(p, q, x, y, 6);
            && Runs(FullDiskAt(p, q, x, y, 0), FullDisk(p, q, x, y), t)
            && Enabled(t.device, Receive) && t.device.queue[0] == p &&
                 t.device.asked[t.device.finished[t.device.woken]] == q
  {
    hide Runs, CanServe, Serve, DeviceOk, FullDiskAt;
    FullDiskCreate(p, q, x, y);
    FullDiskDelete(p, q, x, y);
    FullDiskFirst(p, q, x, y);
    FullDiskSecond(p, q, x, y);
    FullDiskEnd(p, q, x, y);
    var t := FullDiskAt(p, q, x, y, 6);
    var e5 := [End] + [];
    var e4 := [Start] + e5;
    var e3 := [End] + e4;
    var e2 := [Start] + e3;
    var e1 := [Request(q, Op.Delete(x))] + e2;
    NoMore(t);
    OneMore(FullDiskAt(p, q, x, y, 5), End, t, [], t);
    OneMore(FullDiskAt(p, q, x, y, 4), Start, FullDiskAt(p, q, x, y, 5), e5, t);
    OneMore(FullDiskAt(p, q, x, y, 3), End, FullDiskAt(p, q, x, y, 4), e4, t);
    OneMore(FullDiskAt(p, q, x, y, 2), Start, FullDiskAt(p, q, x, y, 3), e3, t);
    OneMore(FullDiskAt(p, q, x, y, 1), Request(q, Op.Delete(x)), FullDiskAt(p, q, x, y, 2), e2, t);
    OneMore(FullDiskAt(p, q, x, y, 0), Request(p, Op.Create(y)), FullDiskAt(p, q, x, y, 1), e1, t);
    assert [Request(p, Op.Create(y))] + e1 == FullDisk(p, q, x, y);
  }

  lemma FullDiskEnd(p: Pid, q: Pid, x: string, y: string)
    ensures var t := FullDiskAt(p, q, x, y, 6);
            Enabled(t.device, Receive) && t.device.queue[0] == p &&
              t.device.asked[t.device.finished[t.device.woken]] == q
  {
  }
}
