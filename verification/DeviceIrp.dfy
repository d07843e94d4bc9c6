/** The device manager's IRP lifecycle (server/device.c with the flags of server/async.c).

    IRPs, asyncs, files and devices are numbered in creation order and never renumbered; an
    IRP whose reference count is zero has been freed.  The fields `dispatched`, `left`,
    `origin`, `lost` and `cancelReq` of an IRP, the `irp` of an async and the target of a
    CANCEL request only record history: no step reads them.
 */
module DeviceIrp {

  import opened Options

  type Id = nat

  datatype Kind = Call | CancelCall(ptr: nat, target: Id) | FreeCall

  datatype Irp = Irp(
    kind: Kind,
    file: Option<Id>,        // file whose request list holds the IRP, until it has a result
    async: Option<Id>,
    canceled: bool,
    userPtr: nat,            // the driver's pointer, 0 until it reports the dispatch
    refs: int,
    handles: nat,            // driver handles to the IRP, each of which is one reference
    dispatched: bool,
    left: bool,              // the driver reported the call as pending
    origin: Option<Id>,      // the async the IRP was created for
    lost: bool,              // the CANCEL request could not be allocated
    cancelReq: Option<Id>)   // the CANCEL request sent for this IRP

  datatype Async = Async(irp: Id, terminated: bool, canceled: bool, notified: nat)

  datatype File = File(device: Id, queue: seq<Id>)

  /** `live[d]` says that device d still has its manager. */
  datatype State = State(irps: seq<Irp>, asyncs: seq<Async>, files: seq<File>, live: seq<bool>,
                         requests: seq<Id>, current: Option<Id>)

  const Initial := State([], [], [], [], [], None)

  /** What the driver sends with get_next_device_request, and how the allocations go. */
  datatype Report = Report(userPtr: nat, prev: bool, fits: bool, handleOk: bool, paramsOk: bool, allocOk: bool)

  function Bit(b: bool): nat { if b then 1 else 0 }

  // ---------------------------------------------------------------- the operations, as functions of the state

  function Remove(q: seq<Id>, i: Id): (r: seq<Id>) {
    if q == [] then [] else if q[0] == i then q[1..] else [q[0]] + Remove(q[1..], i)
  }

  /** async_terminate: only the first call tells the client. */
  function Terminate(a: Async): Async {
    if a.terminated then a else a.(terminated := true, notified := a.notified + 1)
  }

  function TerminateIn(asyncs: seq<Async>, a: Option<Id>): seq<Async> {
    if a.Some? && a.value < |asyncs| then asyncs[a.value := Terminate(asyncs[a.value])] else asyncs
  }

  function RemoveFrom(files: seq<File>, f: Id, i: Id): seq<File> {
    if f < |files| then files[f := files[f].(queue := Remove(files[f].queue, i))] else files
  }

  /** The file's device still has its manager. */
  predicate HasManager(s: State, f: Id) {
    f < |s.files| && s.files[f].device < |s.live| && s.live[s.files[f].device]
  }

  /** set_irp_result */
  function SetResult(s: State, i: Id): State
    requires i < |s.irps|
  {
    var irp := s.irps[i];
    if irp.file.None? then s
    else s.(irps := s.irps[i := irp.(file := None, async := None, refs := irp.refs - 1)],
            files := RemoveFrom(s.files, irp.file.value, i),
            asyncs := TerminateIn(s.asyncs, irp.async))
  }

  /** A request without a file: CANCEL or FREE. */
  function QueueNote(s: State, kind: Kind): State {
    s.(irps := s.irps + [Irp(kind, None, None, false, 0, 1, 0, false, false, None, false, None)],
       requests := s.requests + [|s.irps|])
  }

  /** cancel_irp_call */
  function CancelIrp(s: State, i: Id, allocOk: bool): State
    requires i < |s.irps|
  {
    var irp := s.irps[i].(canceled := true);
    if irp.userPtr == 0 || irp.file.None? || !HasManager(s, irp.file.value)
    then s.(irps := s.irps[i := irp])
    else if !allocOk then s.(irps := s.irps[i := irp.(lost := true)])
    else QueueNote(s.(irps := s.irps[i := irp.(cancelReq := Some(|s.irps|))]), CancelCall(irp.userPtr, i))
  }

  /** queue_irp and its callers, and the CREATE and CLOSE requests, which have no async. */
  function Submit(s: State, f: Id, hasAsync: bool, allocOk: bool): State {
    if !HasManager(s, f) || !allocOk then s
    else
      var i, async := |s.irps|, if hasAsync then Some(|s.asyncs|) else None;
      s.(irps := s.irps + [Irp(Call, Some(f), async, false, 0, 1, 0, false, false, async, false, None)],
         asyncs := if hasAsync then s.asyncs + [Async(i, false, false, 0)] else s.asyncs,
         files := s.files[f := s.files[f].(queue := s.files[f].queue + [i])],
         requests := s.requests + [i])
  }

  /** The first IRP of a request list that belongs to an async. */
  function FirstWith(irps: seq<Irp>, q: seq<Id>, a: Id): Option<Id> {
    if q == [] then None
    else if q[0] < |irps| && irps[q[0]].async == Some(a) then Some(q[0])
    else FirstWith(irps, q[1..], a)
  }

  /** cancel_async marks the async so that it is cancelled once; device_file_cancel_async then
      looks for its IRP on the file. */
  function CancelAsync(s: State, f: Id, a: Id, allocOk: bool): State {
    if f >= |s.files| || a >= |s.asyncs| || s.asyncs[a].terminated || s.asyncs[a].canceled then s
    else
      var marked := s.(asyncs := s.asyncs[a := s.asyncs[a].(canceled := true)]);
      match FirstWith(s.irps, s.files[f].queue, a)
      case Some(i) => if i < |s.irps| then CancelIrp(marked, i, allocOk) else marked
      case None => marked
  }

  function CloseHandle(s: State, i: Id): State
    requires i < |s.irps|
  {
    var irp := s.irps[i];
    if irp.handles == 0 then s
    else s.(irps := s.irps[i := irp.(handles := irp.handles - 1, refs := irp.refs - 1)])
  }

  /** The current call as the driver leaves it. */
  function Reported(s: State, i: Id, r: Report): State
    requires i < |s.irps|
  {
    var irp := s.irps[i];
    var left := irp.async.Some? && !r.prev;
    s.(current := None, irps := s.irps[i := irp.(userPtr := r.userPtr, left := left, refs := irp.refs - 1)])
  }

  /** First half of get_next_device_request: the driver reports on the current call. */
  function Finish(s: State, r: Report): State {
    if s.current.None? || s.current.value >= |s.irps| then s
    else
      var i, irp := s.current.value, s.irps[s.current.value];
      var pending, s0 := irp.async.Some? && !r.prev, Reported(s, i, r);
      if pending then (if irp.canceled then CancelIrp(s0, i, r.allocOk) else s0)
      else if r.prev then CloseHandle(SetResult(s0, i), i)
      else SetResult(s0, i)
  }

  /** Second half: the head of the manager's queue becomes the current call. */
  function Dispatch(s: State, r: Report): State {
    if s.requests == [] || s.requests[0] >= |s.irps| then s
    else
      var i, irp := s.requests[0], s.irps[s.requests[0]];
      if (irp.async.Some? && !r.fits) || (irp.file.Some? && (!r.handleOk || !r.paramsOk)) then s
      else
        var extra := Bit(irp.file.Some?);
        s.(requests := s.requests[1..], current := Some(i),
           irps := s.irps[i := irp.(dispatched := true, handles := irp.handles + extra, refs := irp.refs + 2 * extra)])
  }

  /** delete_file, for one IRP of the file. */
  function Drop(s: State, i: Id): State
    requires i < |s.irps|
  {
    SetResult(s.(requests := Remove(s.requests, i)), i)
  }

  function DropAll(s: State, q: seq<Id>): (r: State)
    ensures |r.irps| == |s.irps| && |r.files| == |s.files| && r.live == s.live && r.current == s.current
    decreases q
  {
    if q == [] then s else DropAll(if q[0] < |s.irps| then Drop(s, q[0]) else s, q[1..])
  }

  /** delete_device over the files from number f on. */
  function DeleteFiles(s: State, d: Id, f: nat): (r: State)
    ensures |r.irps| == |s.irps| && |r.files| == |s.files| && r.live == s.live && r.current == s.current
    decreases |s.files| - f
  {
    if f >= |s.files| then s
    else DeleteFiles(if s.files[f].device == d then DropAll(s, s.files[f].queue) else s, d, f + 1)
  }

  function DeleteDevice(s: State, d: Id): (r: State)
    ensures |r.irps| == |s.irps| && |r.live| == |s.live| && r.current == s.current
  {
    if d >= |s.live| || !s.live[d] then s
    else DeleteFiles(s, d, 0).(live := s.live[d := false])
  }

  function DeleteDevices(s: State, d: nat): (r: State)
    ensures |r.irps| == |s.irps| && |r.live| == |s.live| && r.current == s.current
    decreases |s.live| - d
  {
    if d >= |s.live| then s else DeleteDevices(DeleteDevice(s, d), d + 1)
  }

  function ReleaseCurrent(s: State): State {
    if s.current.None? || s.current.value >= |s.irps| then s
    else
      var i := s.current.value;
      s.(current := None, irps := s.irps[i := s.irps[i].(refs := s.irps[i].refs - 1)])
  }

  /** The last loop of device_manager_destroy, behind its assertion. */
  function FreeRequests(s: State): State
    decreases s.requests
  {
    if s.requests == [] then s
    else
      var i := s.requests[0];
      FreeRequests(s.(requests := s.requests[1..],
                      irps := if i < |s.irps| then s.irps[i := s.irps[i].(refs := s.irps[i].refs - 1)] else s.irps))
  }

  /** device_manager_destroy */
  function Shutdown(s: State): State {
    FreeRequests(DeleteDevices(ReleaseCurrent(s), 0))
  }

  datatype Op =
    | AddDevice
    | OpenFile(d: Id)
    | NewCall(f: Id, hasAsync: bool, allocOk: bool)
    | CancelOf(f: Id, a: Id, allocOk: bool)
    | AsyncEnds(a: Id)                          // a timeout, or the fd going away
    | FreeNote
    | GetNext(r: Report)
    | ResultByHandle(i: Id)
    | Unplug(d: Id)

  function Apply(s: State, op: Op): State {
    match op
    case AddDevice => s.(live := s.live + [true])
    case OpenFile(d) => if d < |s.live| then s.(files := s.files + [File(d, [])]) else s
    case NewCall(f, hasAsync, allocOk) => Submit(s, f, hasAsync, allocOk)
    case CancelOf(f, a, allocOk) => CancelAsync(s, f, a, allocOk)
    case AsyncEnds(a) => s.(asyncs := TerminateIn(s.asyncs, Some(a)))
    case FreeNote => QueueNote(s, FreeCall)
    case GetNext(r) => Dispatch(Finish(s, r), r)
    case ResultByHandle(i) =>
      if i < |s.irps| && s.irps[i].handles > 0 then CloseHandle(SetResult(s, i), i) else s
    case Unplug(d) => DeleteDevice(s, d)
  }

  /** The state after any sequence of requests. */
  function Run(ops: seq<Op>): State {
    if ops == [] then Initial else Apply(Run(ops[..|ops| - 1]), ops[|ops| - 1])
  }

  // ---------------------------------------------------------------- the invariant

  /** References are exactly: one for the queues, one for being the current call, one a handle. */
  predicate RefsOk(s: State, i: Id)
    requires i < |s.irps|
  {
    s.irps[i].refs == Bit(s.irps[i].file.Some? || i in s.requests) + Bit(s.current == Some(i)) + s.irps[i].handles
  }

  predicate ListedOk(s: State, i: Id)
    requires i < |s.irps|
  {
    s.irps[i].file.Some? ==>
      var f := s.irps[i].file.value;
      HasManager(s, f) && i in s.files[f].queue
  }

  /** The async is notified exactly once, and has been by the time the IRP has its result. */
  predicate AsyncOk(s: State, i: Id)
    requires i < |s.irps|
  {
    var irp := s.irps[i];
    && irp.async == (if irp.file.Some? then irp.origin else None)
    && (irp.origin.Some? ==>
          && irp.origin.value < |s.asyncs|
          && s.asyncs[irp.origin.value].irp == i
          && s.asyncs[irp.origin.value].notified == Bit(s.asyncs[irp.origin.value].terminated)
          && (irp.file.None? ==> s.asyncs[irp.origin.value].terminated))
    && (irp.canceled ==> irp.origin.Some? && s.asyncs[irp.origin.value].canceled)
    && (!irp.kind.Call? ==> irp.file.None? && irp.origin.None?)
  }

  /** One CANCEL request for every cancelled IRP that was left pending, carrying its pointer. */
  predicate CancelOk(s: State, i: Id)
    requires i < |s.irps|
  {
    var irp := s.irps[i];
    && (irp.cancelReq.Some? <==> irp.canceled && irp.left && irp.userPtr != 0 && !irp.lost)
    && (irp.cancelReq.Some? ==>
          irp.cancelReq.value < |s.irps| && s.irps[irp.cancelReq.value].kind == CancelCall(irp.userPtr, i))
    && (irp.kind.CancelCall? ==>
          && irp.kind.target < |s.irps| && irp.kind.ptr != 0
          && s.irps[irp.kind.target].cancelReq == Some(i) && s.irps[irp.kind.target].userPtr == irp.kind.ptr)
    && (irp.lost ==> irp.canceled && irp.left)
  }

  predicate StageOk(s: State, i: Id)
    requires i < |s.irps|
  {
    var irp := s.irps[i];
    && (i in s.requests ==> !irp.dispatched && s.current != Some(i))
    && (s.current == Some(i) ==> irp.dispatched && !irp.left && irp.userPtr == 0)
    && (!irp.dispatched ==> !irp.left && irp.userPtr == 0 && irp.handles == 0)
  }

  predicate IrpOk(s: State, i: Id)
    requires i < |s.irps|
  {
    RefsOk(s, i) && ListedOk(s, i) && AsyncOk(s, i) && CancelOk(s, i) && StageOk(s, i)
  }

  ghost predicate Distinct(q: seq<Id>) {
    forall j, k | 0 <= j < k < |q| :: q[j] != q[k]
  }

  ghost predicate FileOk(s: State, f: Id)
    requires f < |s.files|
  {
    && s.files[f].device < |s.live|
    && Distinct(s.files[f].queue)
    && (forall i {:trigger i in s.files[f].queue} | i in s.files[f].queue :: i < |s.irps| && s.irps[i].file == Some(f))
  }

  /** An IRP without a result waits for dispatch, is being dispatched, or was left pending. */
  predicate Placed(s: State, i: Id)
    requires i < |s.irps|
  {
    s.irps[i].file.Some? ==> i in s.requests || s.current == Some(i) || s.irps[i].left
  }

  ghost predicate Base(s: State) {
    && Distinct(s.requests)
    && (forall i {:trigger i in s.requests} | i in s.requests :: i < |s.irps|)
    && (s.current.Some? ==> s.current.value < |s.irps|)
    && (forall i {:trigger IrpOk(s, i)} | 0 <= i < |s.irps| :: IrpOk(s, i))
    && (forall f {:trigger FileOk(s, f)} | 0 <= f < |s.files| :: FileOk(s, f))
  }

  ghost predicate Inv(s: State) {
    && Base(s)
    && (forall i {:trigger Placed(s, i)} | 0 <= i < |s.irps| :: Placed(s, i))
  }

  // ---------------------------------------------------------------- set_irp_result keeps it

  lemma RemoveFromDistinct(q: seq<Id>, i: Id)
    requires Distinct(q)
    ensures Distinct(Remove(q, i))
    ensures forall x :: x in Remove(q, i) <==> x in q && x != i
  {
    if q != [] {
      RemoveFromDistinct(q[1..], i);
      assert q[0] !in q[1..];
      assert forall x :: x in q <==> x == q[0] || x in q[1..];
    }
  }

  lemma SetResultOnOther(s: State, i: Id, j: Id)
    requires i < |s.irps| && j < |s.irps| && i != j && IrpOk(s, i) && IrpOk(s, j)
    requires s.irps[i].file.Some? ==> FileOk(s, s.irps[i].file.value)
    ensures IrpOk(SetResult(s, i), j)
  {
    if s.irps[i].file.Some? {
      RemoveFromDistinct(s.files[s.irps[i].file.value].queue, i);
      var s' := SetResult(s, i);
      assert RefsOk(s', j);
      assert ListedOk(s', j);
      assert AsyncOk(s', j);
      assert CancelOk(s', j);
      assert StageOk(s', j);
    }
  }

  lemma SetResultOnIrp(s: State, i: Id)
    requires i < |s.irps| && IrpOk(s, i) && i !in s.requests
    ensures IrpOk(SetResult(s, i), i)
  {
  }

  lemma SetResultOnFile(s: State, i: Id, f: Id)
    requires i < |s.irps| && f < |s.files| && IrpOk(s, i) && FileOk(s, f)
    ensures FileOk(SetResult(s, i), f)
  {
    RemoveFromDistinct(s.files[f].queue, i);
  }

  lemma SetResultKeepsBase(s: State, i: Id)
    requires Base(s) && i < |s.irps| && i !in s.requests
    requires IrpOk(s, i)
    ensures Base(SetResult(s, i)) && SetResult(s, i).irps[i].file.None?
    ensures SetResult(s, i).requests == s.requests && SetResult(s, i).current == s.current
    ensures |SetResult(s, i).irps| == |s.irps|
  {
    var s' := SetResult(s, i);
    if s.irps[i].file.Some? { assert FileOk(s, s.irps[i].file.value); }
    forall j | 0 <= j < |s'.irps| ensures IrpOk(s', j) {
      assert IrpOk(s, j);
      if j == i { SetResultOnIrp(s, i); } else { SetResultOnOther(s, i, j); }
    }
    forall f | 0 <= f < |s'.files| ensures FileOk(s', f) {
      assert FileOk(s, f);
      SetResultOnFile(s, i, f);
    }
  }

  /** The IRP has its result: it is on no file's list, and its async was notified once. */
  ghost predicate Ended(s: State, i: Id)
    requires i < |s.irps|
  {
    && s.irps[i].file.None? && (forall f | 0 <= f < |s.files| :: i !in s.files[f].queue)
    && (s.irps[i].origin.Some? ==>
          var a := s.irps[i].origin.value;
          a < |s.asyncs| && s.asyncs[a].terminated && s.asyncs[a].notified == 1)
  }

  lemma WithoutFile(s: State, i: Id)
    requires Base(s) && i < |s.irps| && s.irps[i].file.None?
    ensures Ended(s, i)
  {
    assert IrpOk(s, i);
    forall f | 0 <= f < |s.files| ensures i !in s.files[f].queue { assert FileOk(s, f); }
  }

  /** The IRP ends, and gives up the queue's reference if it still had one. */
  lemma SetResultKeepsInv(s: State, i: Id)
    requires Inv(s) && i < |s.irps| && i !in s.requests
    ensures Inv(SetResult(s, i)) && Ended(SetResult(s, i), i)
    ensures SetResult(s, i).irps[i].refs == s.irps[i].refs - Bit(s.irps[i].file.Some?)
  {
    assert IrpOk(s, i);
    SetResultKeepsBase(s, i);
    forall j | 0 <= j < |s.irps| ensures Placed(SetResult(s, i), j) { assert Placed(s, j); }
    WithoutFile(SetResult(s, i), i);
  }

  // ---------------------------------------------------------------- cancelling keeps it

  /** Everything but the count of CANCEL requests holds of an IRP about to be cancelled. */
  predicate AboutToCancel(s: State, i: Id)
    requires i < |s.irps|
  {
    && RefsOk(s, i) && ListedOk(s, i) && AsyncOk(s, i) && StageOk(s, i) && s.irps[i].kind.Call?
    && s.irps[i].cancelReq.None? && !s.irps[i].lost && s.irps[i].file.Some? && Placed(s, i)
    && s.irps[i].origin.Some? && s.asyncs[s.irps[i].origin.value].canceled
    && (s.irps[i].userPtr != 0 ==> s.irps[i].left)
  }

  ghost predicate InvBut(s: State, i: Id) {
    && Distinct(s.requests)
    && (forall j {:trigger j in s.requests} | j in s.requests :: j < |s.irps|)
    && (s.current.Some? ==> s.current.value < |s.irps|)
    && (forall j {:trigger IrpOk(s, j)} | 0 <= j < |s.irps| && j != i :: IrpOk(s, j))
    && (forall f {:trigger FileOk(s, f)} | 0 <= f < |s.files| :: FileOk(s, f))
    && (forall j {:trigger Placed(s, j)} | 0 <= j < |s.irps| :: Placed(s, j))
  }

  lemma CancelOnTarget(s: State, i: Id, allocOk: bool)
    requires i < |s.irps| && AboutToCancel(s, i) && InvBut(s, i)
    ensures IrpOk(CancelIrp(s, i, allocOk), i) && Placed(CancelIrp(s, i, allocOk), i)
  {
    assert i in CancelIrp(s, i, allocOk).requests <==> i in s.requests;
  }

  lemma CancelOnOther(s: State, i: Id, allocOk: bool, j: Id)
    requires i < |s.irps| && AboutToCancel(s, i) && InvBut(s, i) && j < |s.irps| && j != i
    ensures IrpOk(CancelIrp(s, i, allocOk), j) && Placed(CancelIrp(s, i, allocOk), j)
  {
    assert IrpOk(s, j) && Placed(s, j);
    assert j in CancelIrp(s, i, allocOk).requests <==> j in s.requests;
  }

  lemma CancelOnIrp(s: State, i: Id, allocOk: bool, j: Id)
    requires i < |s.irps| && AboutToCancel(s, i) && InvBut(s, i) && j < |CancelIrp(s, i, allocOk).irps|
    ensures IrpOk(CancelIrp(s, i, allocOk), j) && Placed(CancelIrp(s, i, allocOk), j)
  {
    if j == i {
      CancelOnTarget(s, i, allocOk);
    } else if j < |s.irps| {
      CancelOnOther(s, i, allocOk, j);
    } else {
      assert j !in s.requests;
      assert j in CancelIrp(s, i, allocOk).requests;
    }
  }

  lemma CancelKeepsInv(s: State, i: Id, allocOk: bool)
    requires i < |s.irps| && AboutToCancel(s, i) && InvBut(s, i)
    ensures Inv(CancelIrp(s, i, allocOk))
  {
    var s' := CancelIrp(s, i, allocOk);
    forall j | 0 <= j < |s'.irps| ensures IrpOk(s', j) && Placed(s', j) { CancelOnIrp(s, i, allocOk, j); }
    forall f | 0 <= f < |s'.files| ensures FileOk(s', f) { assert FileOk(s, f); }
    assert |s.irps| !in s.requests;
  }

  lemma {:induction false} FirstWithProps(irps: seq<Irp>, q: seq<Id>, a: Id)
    ensures var r := FirstWith(irps, q, a);
            if r.Some? then r.value in q && r.value < |irps| && irps[r.value].async == Some(a)
            else forall i | i in q && i < |irps| :: irps[i].async != Some(a)
  {
    if q != [] {
      FirstWithProps(irps, q[1..], a);
      assert forall i | i in q :: i == q[0] || i in q[1..];
    }
  }

  /** What a cancel of the async on this file is for. */
  predicate IsFor(s: State, f: Id, a: Id, i: Id)
    requires i < |s.irps|
  {
    && f < |s.files| && a < |s.asyncs| && !s.asyncs[a].terminated && !s.asyncs[a].canceled
    && i in s.files[f].queue && s.irps[i].async == Some(a)
  }

  /** An async has one IRP at most, so it does not matter that the search stops at the first. */
  lemma OneIrp(s: State, a: Id, i: Id, j: Id)
    requires Inv(s) && i < |s.irps| && j < |s.irps| && s.irps[i].async == Some(a) == s.irps[j].async
    ensures i == j
  {
    assert IrpOk(s, i) && IrpOk(s, j);
  }

  /** Exactly the IRP of that async on the file's list is cancelled. */
  lemma CancelAsyncCancels(s: State, f: Id, a: Id, allocOk: bool, i: Id)
    requires Inv(s) && i < |s.irps|
    ensures var r := CancelAsync(s, f, a, allocOk);
            i < |r.irps| && if IsFor(s, f, a, i) then r.irps[i].canceled else r.irps[i] == s.irps[i]
  {
    if f < |s.files| {
      FirstWithProps(s.irps, s.files[f].queue, a);
      var r := FirstWith(s.irps, s.files[f].queue, a);
      if r.Some? && s.irps[i].async == Some(a) { OneIrp(s, a, i, r.value); }
    }
  }

  lemma CancelAsyncInv(s: State, f: Id, a: Id, allocOk: bool)
    requires Inv(s)
    ensures Inv(CancelAsync(s, f, a, allocOk))
  {
    if f < |s.files| && a < |s.asyncs| && !s.asyncs[a].terminated && !s.asyncs[a].canceled {
      var m := s.(asyncs := s.asyncs[a := s.asyncs[a].(canceled := true)]);
      forall j | 0 <= j < |m.irps| ensures IrpOk(m, j) && Placed(m, j) { assert IrpOk(s, j) && Placed(s, j); }
      forall g | 0 <= g < |m.files| ensures FileOk(m, g) { assert FileOk(s, g); }
      FirstWithProps(s.irps, s.files[f].queue, a);
      var r := FirstWith(s.irps, s.files[f].queue, a);
      if r.Some? {
        assert IrpOk(s, r.value) && Placed(s, r.value);
        CancelKeepsInv(m, r.value, allocOk);
      }
    }
  }

  /** Cancelling an async keeps the invariant, and cancels its IRP and no other. */
  lemma CancelAsyncKeepsInv(s: State, f: Id, a: Id, allocOk: bool, i: Id)
    requires Inv(s)
    ensures Inv(CancelAsync(s, f, a, allocOk))
    ensures i < |s.irps| ==>
              var r := CancelAsync(s, f, a, allocOk);
              i < |r.irps| && if IsFor(s, f, a, i) then r.irps[i].canceled else r.irps[i] == s.irps[i]
  {
    CancelAsyncInv(s, f, a, allocOk);
    if i < |s.irps| { CancelAsyncCancels(s, f, a, allocOk, i); }
  }

  // ---------------------------------------------------------------- the other requests keep it

  lemma SubmitKeepsInv(s: State, f: Id, hasAsync: bool, allocOk: bool)
    requires Inv(s)
    ensures Inv(Submit(s, f, hasAsync, allocOk))
  {
    if HasManager(s, f) && allocOk {
      var s' := Submit(s, f, hasAsync, allocOk);
      var i := |s.irps|;
      assert i !in s.requests;
      assert FileOk(s, f);
      assert i !in s.files[f].queue;
      forall j | 0 <= j < |s'.irps| ensures IrpOk(s', j) && Placed(s', j) {
        if j < i { assert IrpOk(s, j) && Placed(s, j); }
        assert j in s'.requests <==> j == i || j in s.requests;
      }
      forall g | 0 <= g < |s'.files| ensures FileOk(s', g) { assert FileOk(s, g); }
    }
  }

  lemma NoteKeepsInv(s: State)
    requires Inv(s)
    ensures Inv(QueueNote(s, FreeCall))
  {
    var s' := QueueNote(s, FreeCall);
    assert |s.irps| !in s.requests;
    forall j | 0 <= j < |s'.irps| ensures IrpOk(s', j) && Placed(s', j) {
      if j < |s.irps| { assert IrpOk(s, j) && Placed(s, j); }
      assert j in s'.requests <==> j == |s.irps| || j in s.requests;
    }
    forall f | 0 <= f < |s'.files| ensures FileOk(s', f) { assert FileOk(s, f); }
  }

  lemma AsyncEndsKeepsInv(s: State, a: Id)
    requires Inv(s)
    ensures Inv(s.(asyncs := TerminateIn(s.asyncs, Some(a))))
  {
    var s' := s.(asyncs := TerminateIn(s.asyncs, Some(a)));
    forall j | 0 <= j < |s'.irps| ensures IrpOk(s', j) && Placed(s', j) { assert IrpOk(s, j) && Placed(s, j); }
    forall f | 0 <= f < |s'.files| ensures FileOk(s', f) { assert FileOk(s, f); }
  }

  lemma CloseHandleKeepsInv(s: State, i: Id)
    requires Inv(s) && i < |s.irps|
    ensures Inv(CloseHandle(s, i))
  {
    var s' := CloseHandle(s, i);
    forall j | 0 <= j < |s'.irps| ensures IrpOk(s', j) && Placed(s', j) { assert IrpOk(s, j) && Placed(s, j); }
    forall f | 0 <= f < |s'.files| ensures FileOk(s', f) { assert FileOk(s, f); }
  }

  lemma ReportedOthers(s: State, i: Id, r: Report)
    requires Inv(s) && s.current == Some(i)
    ensures var m := Reported(s, i, r);
            && (forall j | 0 <= j < |s.irps| && j != i :: IrpOk(m, j) && Placed(m, j))
            && (forall f | 0 <= f < |s.files| :: FileOk(m, f))
  {
    var m := Reported(s, i, r);
    assert IrpOk(s, i);
    forall j | 0 <= j < |s.irps| && j != i ensures IrpOk(m, j) && Placed(m, j) { assert IrpOk(s, j) && Placed(s, j); }
    forall f | 0 <= f < |s.files| ensures FileOk(m, f) { assert FileOk(s, f); }
  }

  lemma ReportPending(s: State, i: Id, r: Report)
    requires Inv(s) && s.current == Some(i) && s.irps[i].async.Some? && !r.prev
    ensures Inv(Finish(s, r)) && Finish(s, r).current.None?
  {
    ReportedOthers(s, i, r);
    assert IrpOk(s, i);
    if s.irps[i].canceled {
      assert AboutToCancel(Reported(s, i, r), i);
      CancelKeepsInv(Reported(s, i, r), i, r.allocOk);
    }
  }

  lemma ReportResult(s: State, i: Id, r: Report)
    requires Inv(s) && s.current == Some(i) && (s.irps[i].async.None? || r.prev)
    ensures Inv(Finish(s, r)) && Finish(s, r).current.None?
  {
    var m := Reported(s, i, r);
    ReportedOthers(s, i, r);
    assert IrpOk(s, i);
    assert IrpOk(m, i);
    SetResultKeepsBase(m, i);
    forall j | 0 <= j < |s.irps| ensures Placed(SetResult(m, i), j) { if j != i { assert Placed(m, j); } }
    if r.prev { CloseHandleKeepsInv(SetResult(m, i), i); }
  }

  lemma ReportKeepsInv(s: State, r: Report)
    requires Inv(s) && s.current.Some?
    ensures Inv(Finish(s, r)) && Finish(s, r).current.None?
  {
    var i := s.current.value;
    if s.irps[i].async.Some? && !r.prev { ReportPending(s, i, r); } else { ReportResult(s, i, r); }
  }

  lemma DispatchKeepsInv(s: State, r: Report)
    requires Inv(s) && s.current.None?
    ensures Inv(Dispatch(s, r))
  {
    if s.requests != [] {
      var s' := Dispatch(s, r);
      assert s.requests[0] in s.requests;
      assert forall j :: j in s.requests <==> j == s.requests[0] || j in s.requests[1..];
      assert IrpOk(s, s.requests[0]);
      forall j | 0 <= j < |s'.irps| ensures IrpOk(s', j) && Placed(s', j) { assert IrpOk(s, j) && Placed(s, j); }
      forall f | 0 <= f < |s'.files| ensures FileOk(s', f) { assert FileOk(s, f); }
    }
  }

  // ---------------------------------------------------------------- deleting files and devices

  lemma DropKeepsBase(s: State, i: Id)
    requires Base(s) && i < |s.irps| && s.irps[i].file.Some?
    ensures Base(Drop(s, i)) && Drop(s, i).irps[i].file.None?
  {
    RemoveFromDistinct(s.requests, i);
    var s1 := s.(requests := Remove(s.requests, i));
    forall j | 0 <= j < |s.irps| ensures IrpOk(s1, j) { assert IrpOk(s, j); }
    forall f | 0 <= f < |s.files| ensures FileOk(s1, f) { assert FileOk(s, f); }
    SetResultKeepsBase(s1, i);
  }

  /** Dropping IRPs changes nothing about the others. */
  ghost predicate OthersKept(s: State, r: State, q: seq<Id>) {
    && |r.irps| == |s.irps| && |r.files| == |s.files|
    && (forall j {:trigger r.irps[j]} | 0 <= j < |s.irps| ::
          if j in q then r.irps[j].file.None? else r.irps[j] == s.irps[j])
    && (forall j {:trigger j in r.requests} :: j in r.requests <==> j in s.requests && j !in q)
    && (forall f {:trigger r.files[f]} | 0 <= f < |s.files| :: r.files[f].device == s.files[f].device)
  }

  lemma {:induction false} DropAllKeepsBase(s: State, q: seq<Id>)
    requires Base(s) && Distinct(q)
    requires forall i | i in q :: i < |s.irps| && s.irps[i].file.Some?
    ensures Base(DropAll(s, q)) && OthersKept(s, DropAll(s, q), q)
    decreases q
  {
    if q != [] {
      assert q[0] in q;
      DropKeepsBase(s, q[0]);
      var m := Drop(s, q[0]);
      RemoveFromDistinct(s.requests, q[0]);
      assert OthersKept(s, m, [q[0]]);
      assert forall i :: i in q <==> i == q[0] || i in q[1..];
      DropAllKeepsBase(m, q[1..]);
    }
  }

  /** The IRPs of the device's files from number f on have ended; the others are as they were. */
  ghost predicate FilesDeleted(s: State, r: State, d: Id, f: nat) {
    && |r.irps| == |s.irps| && |r.files| == |s.files|
    && (forall g | 0 <= g < |s.files| :: r.files[g].device == s.files[g].device)
    && (forall j | 0 <= j < |s.irps| && r.irps[j].file.Some? ::
          && r.irps[j] == s.irps[j] && (j in r.requests <==> j in s.requests)
          && (r.irps[j].file.value >= f && r.irps[j].file.value < |s.files| ==>
                s.files[r.irps[j].file.value].device != d))
    && (forall j | 0 <= j < |s.irps| && s.irps[j].file.Some? && r.irps[j].file.None? :: j !in r.requests)
    && (forall j {:trigger j in r.requests} | j in r.requests :: j in s.requests)
    && (forall j | 0 <= j < |s.irps| && s.irps[j].file.Some? && s.irps[j].file.value < |s.files| ::
          s.files[s.irps[j].file.value].device != d ==> r.irps[j] == s.irps[j])
  }

  lemma DropThenDelete(s: State, m: State, r: State, d: Id, f: nat)
    requires Base(s) && f < |s.files| && s.files[f].device == d
    requires OthersKept(s, m, s.files[f].queue) && FilesDeleted(m, r, d, f + 1)
    ensures FilesDeleted(s, r, d, f)
  {
    assert FileOk(s, f);
    forall j | 0 <= j < |s.irps| && s.irps[j].file == Some(f) ensures j in s.files[f].queue { assert IrpOk(s, j); }
  }

  lemma {:induction false} DeleteFilesKeepsBase(s: State, d: Id, f: nat)
    requires Base(s)
    ensures Base(DeleteFiles(s, d, f)) && FilesDeleted(s, DeleteFiles(s, d, f), d, f)
    decreases |s.files| - f
  {
    if f < |s.files| {
      if s.files[f].device == d {
        assert FileOk(s, f);
        DropAllKeepsBase(s, s.files[f].queue);
        var m := DropAll(s, s.files[f].queue);
        DeleteFilesKeepsBase(m, d, f + 1);
        DropThenDelete(s, m, DeleteFiles(s, d, f), d, f);
      } else {
        DeleteFilesKeepsBase(s, d, f + 1);
      }
    }
  }

  /** A request, without a result so far, on a file of this device. */
  predicate OfDevice(s: State, d: Id, j: Id)
    requires j < |s.irps|
  {
    && d < |s.live| && s.live[d] && s.irps[j].file.Some?
    && s.irps[j].file.value < |s.files| && s.files[s.irps[j].file.value].device == d
  }

  lemma DeleteDeviceKeepsBase(s: State, d: Id)
    requires Base(s)
    ensures var r := DeleteDevice(s, d);
            && Base(r)
            && (d < |s.live| ==> !r.live[d])
            && (forall e | 0 <= e < |s.live| && e != d :: r.live[e] == s.live[e])
            && (forall j | 0 <= j < |s.irps| && r.irps[j].file.Some? ::
                  r.irps[j] == s.irps[j] && (j in r.requests <==> j in s.requests))
            && (forall j | 0 <= j < |s.irps| && OfDevice(s, d, j) :: r.irps[j].file.None? && j !in r.requests)
            && (forall j | 0 <= j < |s.irps| && s.irps[j].file.Some? && !OfDevice(s, d, j) :: r.irps[j] == s.irps[j])
  {
    if d < |s.live| && s.live[d] {
      DeleteFilesKeepsBase(s, d, 0);
      var m := DeleteFiles(s, d, 0);
      var r := DeleteDevice(s, d);
      forall j | 0 <= j < |s.irps| && s.irps[j].file.Some? ensures s.irps[j].file.value < |s.files| {
        assert IrpOk(s, j);
      }
      forall j | 0 <= j < |r.irps| ensures IrpOk(r, j) { assert IrpOk(m, j); }
      forall f | 0 <= f < |r.files| ensures FileOk(r, f) { assert FileOk(m, f); }
    }
  }

  /** Every IRP of the device's files ends and leaves the queue; the others are as they were. */
  lemma DeleteDeviceKeepsInv(s: State, d: Id)
    requires Inv(s)
    ensures Inv(DeleteDevice(s, d))
    ensures forall j | 0 <= j < |s.irps| && OfDevice(s, d, j) ::
              Ended(DeleteDevice(s, d), j) && j !in DeleteDevice(s, d).requests
    ensures forall j | 0 <= j < |s.irps| && s.irps[j].file.Some? && !OfDevice(s, d, j) ::
              DeleteDevice(s, d).irps[j] == s.irps[j]
  {
    DeleteDeviceKeepsBase(s, d);
    forall j | 0 <= j < |s.irps| && OfDevice(s, d, j) ensures Ended(DeleteDevice(s, d), j) {
      WithoutFile(DeleteDevice(s, d), j);
    }
    forall j | 0 <= j < |s.irps| ensures Placed(DeleteDevice(s, d), j) { assert Placed(s, j); }
  }

  lemma {:induction false} DeleteDevicesKeepsBase(s: State, d: nat)
    requires Base(s)
    requires forall e | 0 <= e < d && e < |s.live| :: !s.live[e]
    ensures Base(DeleteDevices(s, d))
    ensures forall e | 0 <= e < |s.live| :: !DeleteDevices(s, d).live[e]
    decreases |s.live| - d
  {
    if d < |s.live| {
      DeleteDeviceKeepsBase(s, d);
      DeleteDevicesKeepsBase(DeleteDevice(s, d), d + 1);
    }
  }

  lemma ReleaseCurrentKeepsBase(s: State)
    requires Base(s)
    ensures Base(ReleaseCurrent(s))
  {
    var r := ReleaseCurrent(s);
    forall j | 0 <= j < |r.irps| ensures IrpOk(r, j) { assert IrpOk(s, j); }
    forall f | 0 <= f < |r.files| ensures FileOk(r, f) { assert FileOk(s, f); }
  }

  /** The assertion in device_manager_destroy: once every device is deleted, what is left on
      the manager's queue has neither a file nor an async. */
  lemma ShutdownAssertion(s: State, i: Id)
    requires Inv(s) && i in DeleteDevices(ReleaseCurrent(s), 0).requests
    ensures var r := DeleteDevices(ReleaseCurrent(s), 0);
            i < |r.irps| && r.irps[i].file.None? && r.irps[i].async.None?
  {
    ReleaseCurrentKeepsBase(s);
    DeleteDevicesKeepsBase(ReleaseCurrent(s), 0);
    assert IrpOk(DeleteDevices(ReleaseCurrent(s), 0), i);
  }

  // ---------------------------------------------------------------- every run

  lemma OpenKeepsInv(s: State, op: Op)
    requires Inv(s) && (op.AddDevice? || op.OpenFile?)
    ensures Inv(Apply(s, op))
  {
    var r := Apply(s, op);
    forall j | 0 <= j < |r.irps| ensures IrpOk(r, j) && Placed(r, j) { assert IrpOk(s, j) && Placed(s, j); }
    forall f | 0 <= f < |r.files| ensures FileOk(r, f) { if f < |s.files| { assert FileOk(s, f); } }
  }

  lemma ApplyKeepsInv(s: State, op: Op)
    requires Inv(s)
    ensures Inv(Apply(s, op))
  {
    match op
    case NewCall(f, hasAsync, allocOk) => SubmitKeepsInv(s, f, hasAsync, allocOk);
    case CancelOf(f, a, allocOk) => CancelAsyncKeepsInv(s, f, a, allocOk, 0);
    case AsyncEnds(a) => AsyncEndsKeepsInv(s, a);
    case FreeNote => NoteKeepsInv(s);
    case GetNext(r) =>
      if s.current.Some? { ReportKeepsInv(s, r); }
      DispatchKeepsInv(Finish(s, r), r);
    case ResultByHandle(i) =>
      if i < |s.irps| && s.irps[i].handles > 0 {
        assert IrpOk(s, i);
        SetResultKeepsInv(s, i);
        CloseHandleKeepsInv(SetResult(s, i), i);
      }
    case Unplug(d) => DeleteDeviceKeepsInv(s, d);
    case _ => OpenKeepsInv(s, op);
  }

  lemma {:induction false} RunKeepsInv(ops: seq<Op>)
    ensures Inv(Run(ops))
  {
    if ops != [] {
      RunKeepsInv(ops[..|ops| - 1]);
      ApplyKeepsInv(Run(ops[..|ops| - 1]), ops[|ops| - 1]);
    }
  }

  /** After any run: references balance, an IRP without a result is on its file's list, its
      async is told exactly once, and the CANCEL requests are one for each cancelled IRP the
      driver left pending. */
  lemma EveryRun(ops: seq<Op>, i: Id)
    requires i < |Run(ops).irps|
    ensures RefsOk(Run(ops), i) && ListedOk(Run(ops), i) && AsyncOk(Run(ops), i) && CancelOk(Run(ops), i)
  {
    RunKeepsInv(ops);
    assert IrpOk(Run(ops), i);
  }

  lemma OneCancelRequest(ops: seq<Op>, j: Id, k: Id)
    requires j < |Run(ops).irps| && k < |Run(ops).irps|
    requires Run(ops).irps[j].kind.CancelCall? && Run(ops).irps[k].kind.CancelCall?
    requires Run(ops).irps[j].kind.target == Run(ops).irps[k].kind.target
    ensures j == k
  {
    EveryRun(ops, j);
    EveryRun(ops, k);
  }

  lemma {:induction false} FreeRequestsAt(s: State, i: Id)
    requires i < |s.irps| && Distinct(s.requests)
    ensures |FreeRequests(s).irps| == |s.irps|
    ensures FreeRequests(s).irps[i] == s.irps[i].(refs := s.irps[i].refs - Bit(i in s.requests))
    decreases s.requests
  {
    if s.requests != [] {
      var k := s.requests[0];
      var m := s.(requests := s.requests[1..],
                  irps := if k < |s.irps| then s.irps[k := s.irps[k].(refs := s.irps[k].refs - 1)] else s.irps);
      FreeRequestsAt(m, i);
      assert i in s.requests <==> i == k || i in s.requests[1..];
    }
  }

  /** Destroying the manager in any reachable state: the last loop finds neither files nor
      asyncs, and afterwards only driver handles still refer to IRPs. */
  lemma ShutdownReleasesAll(s: State, i: Id)
    requires Inv(s) && i < |s.irps|
    ensures i < |Shutdown(s).irps|
    ensures Shutdown(s).irps[i].refs == Shutdown(s).irps[i].handles
    ensures Shutdown(s).irps[i].file.None? && Shutdown(s).irps[i].async.None?
  {
    ReleaseCurrentKeepsBase(s);
    DeleteDevicesKeepsBase(ReleaseCurrent(s), 0);
    var r := DeleteDevices(ReleaseCurrent(s), 0);
    assert IrpOk(r, i);
    FreeRequestsAt(r, i);
  }

  /** The step gives the IRP its result: a report on the current call that does not leave it
      pending, the driver's result by handle, or its device going away. */
  predicate GivesResult(s: State, op: Op, i: Id)
    requires i < |s.irps|
  {
    match op
    case GetNext(r) => s.current == Some(i) && (s.irps[i].async.None? || r.prev)
    case ResultByHandle(j) => i == j && s.irps[i].handles > 0
    case Unplug(d) => OfDevice(s, d, i)
    case _ => false
  }

  lemma FinishOnFile(s: State, r: Report, i: Id)
    requires i < |s.irps|
    ensures var t := Finish(s, r);
            i < |t.irps| && t.irps[i].file == if GivesResult(s, GetNext(r), i) then None else s.irps[i].file
  {
  }

  lemma DispatchOnFile(s: State, r: Report, i: Id)
    requires i < |s.irps|
    ensures var t := Dispatch(s, r); i < |t.irps| && t.irps[i].file == s.irps[i].file
  {
  }

  /** An IRP leaves its file's list in a step if and only if that step gives it its result. */
  lemma LeavesListOnlyWithResult(s: State, op: Op, i: Id, f: Id)
    requires Inv(s) && i < |s.irps| && s.irps[i].file == Some(f) && f < |s.files|
    ensures i < |Apply(s, op).irps|
    ensures Apply(s, op).irps[i].file == if GivesResult(s, op, i) then None else Some(f)
  {
    match op
    case GetNext(r) =>
      FinishOnFile(s, r, i);
      DispatchOnFile(Finish(s, r), r, i);
    case Unplug(d) => DeleteDeviceKeepsInv(s, d);
    case _ =>
  }

  // ---------------------------------------------------------------- first come, first served

  ghost predicate Ascending(q: seq<Id>) {
    forall j, k | 0 <= j < k < |q| :: q[j] < q[k]
  }

  /** The manager's queue and the files' lists hold their IRPs oldest first, what was handed to
      the driver is older than what still waits, and no CANCEL or FREE request goes astray. */
  ghost predicate Ordered(s: State) {
    && Ascending(s.requests) && (forall f | 0 <= f < |s.files| :: Ascending(s.files[f].queue))
    && (forall i, j | 0 <= i < |s.irps| && s.irps[i].dispatched && j in s.requests :: i < j)
    && (forall i | 0 <= i < |s.irps| && !s.irps[i].kind.Call? :: s.irps[i].dispatched || i in s.requests)
  }

  lemma ConsAscending(i: Id, q: seq<Id>)
    requires Ascending(q) && forall j | j in q :: i < j
    ensures Ascending([i] + q)
  {
    var r := [i] + q;
    forall j, k | 0 <= j < k < |r| ensures r[j] < r[k] { assert r[k] == q[k - 1] && q[k - 1] in q; }
  }

  lemma TailAscending(q: seq<Id>)
    requires Ascending(q) && q != []
    ensures Ascending(q[1..]) && (forall j | j in q[1..] :: q[0] < j)
    ensures forall j :: j in q <==> j == q[0] || j in q[1..]
  {
    forall j | j in q[1..] ensures q[0] < j {
      var k :| 0 <= k < |q[1..]| && q[1..][k] == j;
      assert q[k + 1] == j;
    }
  }

  lemma {:induction false} RemoveAscending(q: seq<Id>, i: Id)
    requires Ascending(q)
    ensures Ascending(Remove(q, i)) && forall x :: x in Remove(q, i) <==> x in q && x != i
  {
    if q != [] {
      TailAscending(q);
      RemoveAscending(q[1..], i);
      if q[0] != i { ConsAscending(q[0], Remove(q[1..], i)); }
    }
  }

  lemma SnocAscending(q: seq<Id>, n: Id)
    requires Ascending(q) && forall j | j in q :: j < n
    ensures Ascending(q + [n]) && forall j :: j in q + [n] <==> j in q || j == n
  {
    assert forall k | 0 <= k < |q| :: q[k] in q;
  }

  lemma SetResultOrdered(s: State, i: Id)
    requires Ordered(s) && i < |s.irps|
    ensures Ordered(SetResult(s, i))
  {
    var irp := s.irps[i];
    if irp.file.Some? && irp.file.value < |s.files| { RemoveAscending(s.files[irp.file.value].queue, i); }
  }

  lemma DropOrdered(s: State, i: Id)
    requires Ordered(s) && i < |s.irps| && s.irps[i].kind.Call?
    ensures Ordered(Drop(s, i)) && forall j | 0 <= j < |s.irps| :: Drop(s, i).irps[j].kind == s.irps[j].kind
  {
    RemoveAscending(s.requests, i);
    SetResultOrdered(s.(requests := Remove(s.requests, i)), i);
  }

  lemma {:induction false} DropAllOrdered(s: State, q: seq<Id>)
    requires Ordered(s) && forall i | i in q :: i < |s.irps| && s.irps[i].kind.Call?
    ensures Ordered(DropAll(s, q)) && forall j | 0 <= j < |s.irps| :: DropAll(s, q).irps[j].kind == s.irps[j].kind
    decreases q
  {
    if q != [] {
      assert q[0] in q;
      DropOrdered(s, q[0]);
      assert forall i | i in q[1..] :: i in q;
      DropAllOrdered(Drop(s, q[0]), q[1..]);
    }
  }

  lemma ListedAreCalls(s: State, f: Id)
    requires Base(s) && f < |s.files|
    ensures forall i | i in s.files[f].queue :: i < |s.irps| && s.irps[i].kind.Call? && s.irps[i].file.Some?
  {
    assert FileOk(s, f);
    forall i | i in s.files[f].queue ensures s.irps[i].kind.Call? { assert IrpOk(s, i); }
  }

  lemma {:induction false} DeleteFilesOrdered(s: State, d: Id, f: nat)
    requires Base(s) && Ordered(s)
    ensures Ordered(DeleteFiles(s, d, f))
    decreases |s.files| - f
  {
    if f < |s.files| {
      var m := s;
      if s.files[f].device == d {
        m := DropAll(s, s.files[f].queue);
        ListedAreCalls(s, f);
        assert FileOk(s, f);
        DropAllKeepsBase(s, s.files[f].queue);
        DropAllOrdered(s, s.files[f].queue);
      }
      DeleteFilesOrdered(m, d, f + 1);
    }
  }

  lemma CancelOrdered(s: State, i: Id, allocOk: bool)
    requires Ordered(s) && i < |s.irps| && forall j | j in s.requests :: j < |s.irps|
    ensures Ordered(CancelIrp(s, i, allocOk))
  {
    SnocAscending(s.requests, |s.irps|);
  }

  lemma FinishOrdered(s: State, r: Report)
    requires Inv(s) && Ordered(s)
    ensures Ordered(Finish(s, r))
  {
    if s.current.Some? {
      var i := s.current.value;
      var m := Reported(s, i, r);
      assert Ordered(m);
      CancelOrdered(m, i, r.allocOk);
      SetResultOrdered(m, i);
    }
  }

  lemma DispatchOrdered(s: State, r: Report)
    requires Ordered(s) && forall j | j in s.requests :: j < |s.irps|
    ensures Ordered(Dispatch(s, r))
  {
    if s.requests != [] {
      assert s.requests[0] in s.requests;
      TailAscending(s.requests);
    }
  }

  lemma SubmitOrdered(s: State, f: Id, hasAsync: bool, allocOk: bool)
    requires Inv(s) && Ordered(s)
    ensures Ordered(Submit(s, f, hasAsync, allocOk))
  {
    if HasManager(s, f) {
      assert FileOk(s, f);
      SnocAscending(s.requests, |s.irps|);
      SnocAscending(s.files[f].queue, |s.irps|);
    }
  }

  lemma CancelAsyncOrdered(s: State, f: Id, a: Id, allocOk: bool)
    requires Inv(s) && Ordered(s)
    ensures Ordered(CancelAsync(s, f, a, allocOk))
  {
    if f < |s.files| && a < |s.asyncs| {
      var m := s.(asyncs := s.asyncs[a := s.asyncs[a].(canceled := true)]);
      var i := FirstWith(s.irps, s.files[f].queue, a);
      if i.Some? && i.value < |s.irps| { CancelOrdered(m, i.value, allocOk); }
    }
  }

  lemma NoteOrdered(s: State)
    requires Inv(s) && Ordered(s)
    ensures Ordered(QueueNote(s, FreeCall))
  {
    SnocAscending(s.requests, |s.irps|);
  }

  lemma GetNextOrdered(s: State, r: Report)
    requires Inv(s) && Ordered(s)
    ensures Ordered(Dispatch(Finish(s, r), r))
  {
    if s.current.Some? { ReportKeepsInv(s, r); }
    FinishOrdered(s, r);
    DispatchOrdered(Finish(s, r), r);
  }

  lemma ApplyOrdered(s: State, op: Op)
    requires Inv(s) && Ordered(s)
    ensures Ordered(Apply(s, op))
  {
    match op
    case NewCall(f, hasAsync, allocOk) => SubmitOrdered(s, f, hasAsync, allocOk);
    case CancelOf(f, a, allocOk) => CancelAsyncOrdered(s, f, a, allocOk);
    case FreeNote => NoteOrdered(s);
    case GetNext(r) => GetNextOrdered(s, r);
    case ResultByHandle(i) => if i < |s.irps| { SetResultOrdered(s, i); }
    case Unplug(d) => DeleteFilesOrdered(s, d, 0);
    case _ =>
  }

  lemma {:induction false} RunOrdered(ops: seq<Op>)
    ensures Ordered(Run(ops))
  {
    if ops != [] {
      var before := ops[..|ops| - 1];
      RunKeepsInv(before);
      RunOrdered(before);
      ApplyOrdered(Run(before), ops[|ops| - 1]);
    }
  }

  /** Over every run: the queue is in order of creation, what was dispatched is older than all
      that waits, and a CANCEL or FREE request was dispatched or waits. */
  lemma EveryRunInOrder(ops: seq<Op>, i: Id, j: Id)
    requires i < |Run(ops).irps| && j < |Run(ops).irps|
    ensures var s := Run(ops);
            && Ascending(s.requests)
            && (s.irps[i].dispatched && j in s.requests ==> i < j)
            && (!s.irps[i].kind.Call? ==> s.irps[i].dispatched || i in s.requests)
  {
    RunOrdered(ops);
  }

  // ---------------------------------------------------------------- what each step does

  /** The driver can take the IRP: its data fits, and a handle and the parameters can be had. */
  predicate Takes(irp: Irp, r: Report) {
    (irp.async.Some? ==> r.fits) && (irp.file.Some? ==> r.handleOk && r.paramsOk)
  }

  ghost predicate Oldest(q: seq<Id>, i: Id) {
    i in q && forall j | j in q :: i <= j
  }

  lemma HeadIsOldest(q: seq<Id>)
    requires Ascending(q) && q != []
    ensures Oldest(q, q[0]) && forall j | Oldest(q, j) :: j == q[0]
    ensures forall j :: j in q[1..] <==> j in q && j != q[0]
  {
    TailAscending(q);
  }

  /** From m to t, as far as IRP i goes: the oldest IRP of the queue becomes the current call and
      leaves the queue, if the driver can take it; otherwise there is no current call. */
  ghost predicate Served(m: State, t: State, r: Report, i: Id) {
    && (t.current == Some(i) <==> i < |m.irps| && Oldest(m.requests, i) && Takes(m.irps[i], r))
    && (i in t.requests <==> i in m.requests && t.current != Some(i))
  }

  ghost predicate ServesOldest(m: State, t: State, r: Report) {
    && (forall i: Id {:trigger Served(m, t, r, i)} :: Served(m, t, r, i))
    && (t.current.None? ==> t == m)
  }

  /** Of the queue that the report leaves, the oldest IRP is the one that is served. */
  lemma GetNextExact(s: State, r: Report, i: Id)
    requires Inv(s) && Ordered(s)
    ensures Served(Finish(s, r), Dispatch(Finish(s, r), r), r, i)
    ensures Dispatch(Finish(s, r), r).current.None? ==> Dispatch(Finish(s, r), r) == Finish(s, r)
  {
    var m := Finish(s, r);
    FinishOrdered(s, r);
    if s.current.Some? { ReportKeepsInv(s, r); }
    if m.requests != [] {
      HeadIsOldest(m.requests);
      assert m.requests[0] in m.requests;
    }
  }

  lemma EachServed(s: State, r: Report)
    requires Inv(s) && Ordered(s)
    ensures ServesOldest(Finish(s, r), Dispatch(Finish(s, r), r), r)
  {
    var m, t := Finish(s, r), Dispatch(Finish(s, r), r);
    forall i: Id ensures Served(m, t, r, i) { GetNextExact(s, r, i); }
    GetNextExact(s, r, 0);
  }

  /** The step hands this IRP, which exists already, to the driver. */
  ghost predicate HandsOut(s: State, op: Op, i: Id)
    requires i < |s.irps|
  {
    op.GetNext? && Oldest(s.requests, i) && Takes(s.irps[i], op.r)
  }

  predicate Reports(s: State, op: Op, i: Id) {
    op.GetNext? && s.current == Some(i)
  }

  predicate Cancels(s: State, op: Op, i: Id)
    requires i < |s.irps|
  {
    op.CancelOf? && IsFor(s, op.f, op.a, i)
  }

  /** The driver gives one of its handles back. */
  predicate GivesHandleBack(s: State, op: Op, i: Id)
    requires i < |s.irps|
  {
    s.irps[i].handles > 0 && (op == ResultByHandle(i) || (Reports(s, op, i) && op.r.prev))
  }

  /** Everything that a step may change about an IRP that was there before. */
  ghost predicate Changed(s: State, op: Op, i: Id, b: Irp)
    requires i < |s.irps|
  {
    var a := s.irps[i];
    && b.kind == a.kind && b.origin == a.origin
    && b.file == (if GivesResult(s, op, i) then None else a.file)
    && b.canceled == (a.canceled || Cancels(s, op, i))
    && b.userPtr == (if Reports(s, op, i) then op.r.userPtr else a.userPtr)
    && b.left == (if Reports(s, op, i) then a.async.Some? && !op.r.prev else a.left)
    && b.dispatched == (a.dispatched || HandsOut(s, op, i))
    && b.handles == a.handles - Bit(GivesHandleBack(s, op, i)) + Bit(HandsOut(s, op, i) && a.file.Some?)
  }

  lemma FinishOther(s: State, r: Report, i: Id)
    requires Inv(s) && i < |s.irps| && s.current != Some(i)
    ensures var t := Finish(s, r); i < |t.irps| && (i in t.requests <==> i in s.requests) && t.irps[i] == s.irps[i]
  {
  }

  lemma FinishCurrentIrp(s: State, r: Report, i: Id)
    requires Inv(s) && s.current == Some(i)
    ensures var t := Finish(s, r);
            && i < |t.irps| && (i in t.requests <==> i in s.requests)
            && Changed(s.(requests := []), GetNext(r), i, t.irps[i])
  {
    assert IrpOk(s, i);
  }

  lemma FinishOnIrp(s: State, r: Report, i: Id)
    requires Inv(s) && i < |s.irps|
    ensures var t := Finish(s, r);
            && i < |t.irps| && (i in t.requests <==> i in s.requests)
            && Changed(s.(requests := []), GetNext(r), i, t.irps[i])
            && (s.current != Some(i) ==> t.irps[i] == s.irps[i])
  {
    if s.current == Some(i) { FinishCurrentIrp(s, r, i); } else { FinishOther(s, r, i); }
  }

  lemma OldestAfterReport(s: State, r: Report, i: Id)
    requires Inv(s) && Ordered(s) && i < |s.irps|
    ensures Oldest(Finish(s, r).requests, i) <==> Oldest(s.requests, i)
  {
    var m := Finish(s, r);
    forall j | j in m.requests && j !in s.requests ensures i < j { if j < |s.irps| { FinishOnIrp(s, r, j); } }
    forall j | j in s.requests ensures j in m.requests { FinishOnIrp(s, r, j); }
    FinishOnIrp(s, r, i);
  }

  lemma DispatchOnIrp(m: State, r: Report, i: Id)
    requires Inv(m) && Ordered(m) && m.current.None? && i < |m.irps|
    ensures var t, out := Dispatch(m, r), HandsOut(m, GetNext(r), i);
            && i < |t.irps|
            && t.irps[i] == m.irps[i].(dispatched := m.irps[i].dispatched || out, refs := t.irps[i].refs,
                                       handles := m.irps[i].handles + Bit(out && m.irps[i].file.Some?))
  {
    if m.requests != [] { HeadIsOldest(m.requests); }
  }

  lemma ReportThenDispatch(s: State, r: Report, i: Id, b: Irp, out: bool, c: Irp)
    requires i < |s.irps| && Changed(s.(requests := []), GetNext(r), i, b)
    requires s.current != Some(i) ==> b == s.irps[i]
    requires out == HandsOut(s, GetNext(r), i) && (out ==> s.current != Some(i))
    requires c == b.(dispatched := b.dispatched || out, refs := c.refs, handles := b.handles + Bit(out && b.file.Some?))
    ensures Changed(s, GetNext(r), i, c)
  {
  }

  lemma GetNextOnIrp(s: State, r: Report, i: Id)
    requires Inv(s) && Ordered(s) && i < |s.irps|
    ensures var t := Dispatch(Finish(s, r), r); i < |t.irps| && Changed(s, GetNext(r), i, t.irps[i])
  {
    var m := Finish(s, r);
    FinishOnIrp(s, r, i);
    OldestAfterReport(s, r, i);
    FinishOrdered(s, r);
    if s.current.Some? { ReportKeepsInv(s, r); }
    DispatchOnIrp(m, r, i);
    assert IrpOk(s, i);
    ReportThenDispatch(s, r, i, m.irps[i], HandsOut(m, GetNext(r), i), Dispatch(m, r).irps[i]);
  }

  /** Taking results away changes nothing else about an IRP. */
  predicate OnlyEnded(a: Irp, b: Irp) {
    b == a.(file := b.file, async := b.async, refs := b.refs)
  }

  lemma {:induction false} DropAllOnly(s: State, q: seq<Id>, i: Id)
    requires i < |s.irps|
    ensures OnlyEnded(s.irps[i], DropAll(s, q).irps[i])
    decreases q
  {
    if q != [] { DropAllOnly(if q[0] < |s.irps| then Drop(s, q[0]) else s, q[1..], i); }
  }

  lemma {:induction false} DeleteFilesOnly(s: State, d: Id, f: nat, i: Id)
    requires i < |s.irps|
    ensures OnlyEnded(s.irps[i], DeleteFiles(s, d, f).irps[i])
    decreases |s.files| - f
  {
    if f < |s.files| {
      DropAllOnly(s, s.files[f].queue, i);
      DeleteFilesOnly(if s.files[f].device == d then DropAll(s, s.files[f].queue) else s, d, f + 1, i);
    }
  }

  /** Requests without a file stay where they are. */
  lemma {:induction false} DeleteFilesKeepsNotes(s: State, d: Id, f: nat, i: Id)
    requires Base(s) && i in s.requests && s.irps[i].file.None?
    ensures i in DeleteFiles(s, d, f).requests
    decreases |s.files| - f
  {
    if f < |s.files| {
      var m := s;
      if s.files[f].device == d {
        assert FileOk(s, f);
        DropAllKeepsBase(s, s.files[f].queue);
        m := DropAll(s, s.files[f].queue);
        assert m.irps[i] == s.irps[i];
      }
      DeleteFilesKeepsNotes(m, d, f + 1, i);
    }
  }

  lemma UnplugOnIrp(s: State, d: Id, i: Id)
    requires Inv(s) && i < |s.irps|
    ensures Changed(s, Unplug(d), i, DeleteDevice(s, d).irps[i])
    ensures i in DeleteDevice(s, d).requests <==> i in s.requests && !OfDevice(s, d, i)
  {
    DeleteFilesOnly(s, d, 0, i);
    assert IrpOk(s, i);
    DeleteDeviceKeepsBase(s, d);
    if d < |s.live| && s.live[d] {
      DeleteFilesKeepsBase(s, d, 0);
      if i in s.requests && s.irps[i].file.None? { DeleteFilesKeepsNotes(s, d, 0, i); }
    }
  }

  lemma CancelOnOld(s: State, f: Id, a: Id, allocOk: bool, i: Id)
    requires Inv(s) && i < |s.irps|
    ensures var t := CancelAsync(s, f, a, allocOk);
            && i < |t.irps| && Changed(s, CancelOf(f, a, allocOk), i, t.irps[i])
            && (i in t.requests <==> i in s.requests)
  {
    CancelAsyncCancels(s, f, a, allocOk, i);
  }

  lemma SetResultOn(s: State, j: Id, i: Id)
    requires i < |s.irps| && j < |s.irps|
    ensures var t := SetResult(s, j);
            && |t.irps| == |s.irps| && OnlyEnded(s.irps[i], t.irps[i])
            && t.irps[i].file == if i == j then None else s.irps[i].file
  {
  }

  lemma CloseHandleOn(s: State, j: Id, i: Id)
    requires i < |s.irps| && j < |s.irps|
    ensures var t, n := CloseHandle(s, j), s.irps[i].handles;
            && |t.irps| == |s.irps|
            && t.irps[i] == s.irps[i].(handles := if i == j && n > 0 then n - 1 else n, refs := t.irps[i].refs)
  {
  }

  lemma ResultOnIrp(s: State, j: Id, i: Id)
    requires i < |s.irps|
    ensures var t := Apply(s, ResultByHandle(j)); i < |t.irps| && Changed(s, ResultByHandle(j), i, t.irps[i])
  {
    if j < |s.irps| && s.irps[j].handles > 0 {
      SetResultOn(s, j, i);
      CloseHandleOn(SetResult(s, j), j, i);
    }
  }

  lemma AddedOnIrp(s: State, op: Op, i: Id)
    requires i < |s.irps| && !op.CancelOf? && !op.GetNext? && !op.Unplug? && !op.ResultByHandle?
    ensures var t := Apply(s, op); i < |t.irps| && Changed(s, op, i, t.irps[i])
  {
  }

  /** What any step does to an IRP that was there before. */
  lemma StepOnIrp(s: State, op: Op, i: Id)
    requires Inv(s) && Ordered(s) && i < |s.irps|
    ensures var t := Apply(s, op); i < |t.irps| && Changed(s, op, i, t.irps[i])
  {
    match op
    case ResultByHandle(j) => ResultOnIrp(s, j, i);
    case CancelOf(f, a, allocOk) => CancelOnOld(s, f, a, allocOk, i);
    case GetNext(r) => GetNextOnIrp(s, r, i);
    case Unplug(d) => UnplugOnIrp(s, d, i);
    case _ => AddedOnIrp(s, op, i);
  }

  /** Over every run: what any further step does to any IRP there is. */
  lemma EveryRunStep(ops: seq<Op>, op: Op, i: Id)
    requires i < |Run(ops).irps|
    ensures var s := Run(ops); i < |Apply(s, op).irps| && Changed(s, op, i, Apply(s, op).irps[i])
  {
    RunKeepsInv(ops);
    RunOrdered(ops);
    StepOnIrp(Run(ops), op, i);
  }

  lemma GetNextOnQueue(s: State, r: Report, i: Id)
    requires Inv(s) && Ordered(s) && i < |s.irps|
    ensures i in Dispatch(Finish(s, r), r).requests <==> i in s.requests && !HandsOut(s, GetNext(r), i)
  {
    GetNextExact(s, r, i);
    FinishOnIrp(s, r, i);
    OldestAfterReport(s, r, i);
    assert StageOk(s, i) by { assert IrpOk(s, i); }
  }

  /** An IRP leaves the manager's queue only for the driver, or with its device. */
  lemma StepOnQueue(s: State, op: Op, i: Id)
    requires Inv(s) && Ordered(s) && i < |s.irps|
    ensures i in Apply(s, op).requests
            <==> i in s.requests && !HandsOut(s, op, i) && !(op.Unplug? && OfDevice(s, op.d, i))
  {
    match op
    case CancelOf(f, a, allocOk) => CancelOnOld(s, f, a, allocOk, i);
    case GetNext(r) => GetNextOnQueue(s, r, i);
    case Unplug(d) => UnplugOnIrp(s, d, i);
    case _ =>
  }

  /** A new call: its file, whether it has an async, and nothing else yet. */
  lemma NewCallExact(s: State, f: Id, hasAsync: bool, allocOk: bool)
    requires Inv(s)
    ensures var t, i := Submit(s, f, hasAsync, allocOk), |s.irps|;
            if HasManager(s, f) && allocOk
            then && |t.irps| == i + 1 && t.irps[i].kind.Call? && t.irps[i].file == Some(f) && i in t.requests
                 && t.irps[i].async.Some? == hasAsync && |t.asyncs| == |s.asyncs| + Bit(hasAsync)
                 && !t.irps[i].canceled && t.irps[i].userPtr == 0 && !t.irps[i].dispatched
            else t == s
  {
  }

  /** A FREE request joins the queue. */
  lemma FreeNoteExact(s: State)
    requires Inv(s)
    ensures var t := Apply(s, FreeNote);
            |t.irps| == |s.irps| + 1 && t.irps[|s.irps|].kind == FreeCall && |s.irps| in t.requests
  {
  }

  lemma GetNextNew(s: State, r: Report, i: Id)
    requires Inv(s) && |s.irps| <= i < |Dispatch(Finish(s, r), r).irps|
    ensures i == |s.irps| && Dispatch(Finish(s, r), r).irps[i].kind.CancelCall?
  {
  }

  /** New IRPs appear for a new call, for a FREE request, and as CANCEL requests. */
  lemma NewIrpsOnly(s: State, op: Op, i: Id)
    requires Inv(s) && |s.irps| <= i < |Apply(s, op).irps|
    ensures i == |s.irps|
    ensures match Apply(s, op).irps[i].kind
            case Call => op.NewCall?
            case FreeCall => op.FreeNote?
            case CancelCall(_, _) => op.CancelOf? || op.GetNext?
  {
    if op.GetNext? { GetNextNew(s, op.r, i); }
  }

  // ---------------------------------------------------------------- what each step does to an async

  predicate HasResult(s: State, op: Op, a: Id)
    requires a < |s.asyncs|
  {
    var i := s.asyncs[a].irp;
    i < |s.irps| && s.irps[i].async == Some(a) && GivesResult(s, op, i)
  }

  lemma {:induction false} DropAllOnAsync(s: State, q: seq<Id>, a: Id)
    requires Base(s) && Distinct(q) && a < |s.asyncs|
    requires forall i | i in q :: i < |s.irps| && s.irps[i].file.Some?
    ensures var t := DropAll(s, q);
            && |t.asyncs| == |s.asyncs| && t.asyncs[a].irp == s.asyncs[a].irp
            && t.asyncs[a].canceled == s.asyncs[a].canceled
            && (t.asyncs[a].terminated <==>
                  s.asyncs[a].terminated || exists i :: i in q && s.irps[i].async == Some(a))
    decreases q
  {
    if q != [] {
      assert q[0] in q;
      var m := Drop(s, q[0]);
      assert IrpOk(s, q[0]);
      DropKeepsBase(s, q[0]);
      assert forall i :: i in q <==> i == q[0] || i in q[1..];
      assert forall i | i in q[1..] :: m.irps[i] == s.irps[i];
      DropAllOnAsync(m, q[1..], a);
    }
  }

  /** An IRP of the device's files from number f on. */
  predicate OfFiles(s: State, d: Id, f: nat, i: Id)
    requires i < |s.irps|
  {
    && s.irps[i].file.Some? && f <= s.irps[i].file.value < |s.files| && s.files[s.irps[i].file.value].device == d
  }

  ghost predicate AsyncAfter(a: Async, b: Async, ended: bool, canceled: bool) {
    b.irp == a.irp && (b.terminated <==> a.terminated || ended) && (b.canceled <==> a.canceled || canceled)
  }

  lemma OfFilesNext(s: State, d: Id, f: nat, m: State, i: Id)
    requires Base(s) && f < |s.files| && i < |s.irps| && s.irps[i].async.Some?
    requires m == if s.files[f].device == d then DropAll(s, s.files[f].queue) else s
    requires |m.irps| == |s.irps| && |m.files| == |s.files|
    ensures OfFiles(s, d, f, i) <==> (s.files[f].device == d && i in s.files[f].queue) || OfFiles(m, d, f + 1, i)
    ensures OfFiles(m, d, f + 1, i) ==> m.irps[i].async == s.irps[i].async
  {
    assert IrpOk(s, i) && FileOk(s, f);
    if s.files[f].device == d { DropAllKeepsBase(s, s.files[f].queue); }
  }

  lemma {:induction false} DeleteFilesOnAsync(s: State, d: Id, f: nat, a: Id)
    requires Base(s) && a < |s.asyncs|
    ensures var t := DeleteFiles(s, d, f);
            && |t.asyncs| == |s.asyncs|
            && AsyncAfter(s.asyncs[a], t.asyncs[a],
                          exists i :: 0 <= i < |s.irps| && OfFiles(s, d, f, i) && s.irps[i].async == Some(a), false)
    decreases |s.files| - f
  {
    if f < |s.files| {
      var m, q := s, s.files[f].queue;
      if s.files[f].device == d {
        assert FileOk(s, f);
        m := DropAll(s, q);
        DropAllKeepsBase(s, q);
        DropAllOnAsync(s, q, a);
      }
      DeleteFilesOnAsync(m, d, f + 1, a);
      forall i | 0 <= i < |s.irps| && s.irps[i].async == Some(a)
        ensures OfFiles(s, d, f, i) <==> (s.files[f].device == d && i in q) || OfFiles(m, d, f + 1, i)
        ensures OfFiles(m, d, f + 1, i) ==> m.irps[i].async == Some(a)
      {
        OfFilesNext(s, d, f, m, i);
      }
    }
  }

  lemma UnplugOnAsync(s: State, d: Id, a: Id)
    requires Inv(s) && a < |s.asyncs|
    ensures var t := DeleteDevice(s, d);
            a < |t.asyncs| && AsyncAfter(s.asyncs[a], t.asyncs[a], HasResult(s, Unplug(d), a), false)
  {
    if d < |s.live| && s.live[d] {
      DeleteFilesOnAsync(s, d, 0, a);
      forall i | 0 <= i < |s.irps| && s.irps[i].async == Some(a) ensures s.asyncs[a].irp == i { assert IrpOk(s, i); }
      forall i | 0 <= i < |s.irps| ensures OfFiles(s, d, 0, i) == OfDevice(s, d, i) {}
    }
  }

  lemma DispatchKeepsAsyncs(m: State, r: Report)
    ensures Dispatch(m, r).asyncs == m.asyncs
  {
  }

  lemma FinishOnAsync(s: State, r: Report, a: Id)
    requires Inv(s) && a < |s.asyncs|
    ensures var t := Finish(s, r);
            a < |t.asyncs| && AsyncAfter(s.asyncs[a], t.asyncs[a], HasResult(s, GetNext(r), a), false)
  {
    if s.current.Some? { assert IrpOk(s, s.current.value); }
  }

  lemma GetNextOnAsync(s: State, r: Report, a: Id)
    requires Inv(s) && a < |s.asyncs|
    ensures var t := Dispatch(Finish(s, r), r);
            a < |t.asyncs| && AsyncAfter(s.asyncs[a], t.asyncs[a], HasResult(s, GetNext(r), a), false)
  {
    FinishOnAsync(s, r, a);
    DispatchKeepsAsyncs(Finish(s, r), r);
  }

  /** An async ends in a step exactly if it ends by itself or its IRP gets its result, and is
      marked cancelled exactly if that was asked for and it had not ended. */
  lemma StepOnAsync(s: State, op: Op, a: Id)
    requires Inv(s) && a < |s.asyncs|
    ensures var t := Apply(s, op);
            && a < |t.asyncs|
            && AsyncAfter(s.asyncs[a], t.asyncs[a], op == AsyncEnds(a) || HasResult(s, op, a),
                          op.CancelOf? && op.a == a && op.f < |s.files| && !s.asyncs[a].terminated)
  {
    match op
    case GetNext(r) => GetNextOnAsync(s, r, a);
    case Unplug(d) => UnplugOnAsync(s, d, a);
    case ResultByHandle(i) => if i < |s.irps| { assert IrpOk(s, i); }
    case _ =>
  }

  lemma GetNextOnDevices(s: State, r: Report, f: Id)
    requires f < |s.files|
    ensures var t := Dispatch(Finish(s, r), r);
            t.live == s.live && |t.files| == |s.files| && t.files[f].device == s.files[f].device
  {
  }

  lemma ResultOnDevices(s: State, i: Id, f: Id)
    requires i < |s.irps| && f < |s.files|
    ensures var t := CloseHandle(SetResult(s, i), i);
            t.live == s.live && |t.files| == |s.files| && t.files[f].device == s.files[f].device
  {
  }

  /** Files keep their device, whatever happens. */
  lemma StepOnFile(s: State, op: Op, f: Id)
    requires Inv(s) && f < |s.files|
    ensures f < |Apply(s, op).files| && Apply(s, op).files[f].device == s.files[f].device
  {
    match op
    case GetNext(r) => GetNextOnDevices(s, r, f);
    case ResultByHandle(i) => if i < |s.irps| { ResultOnDevices(s, i, f); }
    case Unplug(d) => if d < |s.live| && s.live[d] { DeleteFilesKeepsBase(s, d, 0); }
    case _ =>
  }

  /** Devices keep their manager until they are unplugged. */
  lemma StepOnDevice(s: State, op: Op, d: Id)
    requires d < |s.live|
    ensures d < |Apply(s, op).live| && Apply(s, op).live[d] == (s.live[d] && op != Unplug(d))
  {
  }

  // ---------------------------------------------------------------- the manager itself

  /** The current call as the driver leaves it pending, still with its reference. */
  function Pending(s: State, i: Id, r: Report): State
    requires i < |s.irps|
  {
    s.(irps := s.irps[i := s.irps[i].(userPtr := r.userPtr, left := true)])
  }

  lemma ReleasedLater(s: State, i: Id, allocOk: bool)
    requires s.current == Some(i) && i < |s.irps|
    ensures ReleaseCurrent(CancelIrp(s, i, allocOk)) == CancelIrp(ReleaseCurrent(s), i, allocOk)
  {
  }

  lemma PendingReported(s: State, i: Id, r: Report)
    requires s.current == Some(i) && i < |s.irps| && s.irps[i].async.Some? && !r.prev
    ensures ReleaseCurrent(Pending(s, i, r)) == Reported(s, i, r)
  {
  }

  /** The reference of the current call may be dropped before or after the cancel. */
  lemma FinishPending(s: State, i: Id, r: Report)
    requires s.current == Some(i) && i < |s.irps| && s.irps[i].async.Some? && !r.prev
    ensures var m := Pending(s, i, r);
            Finish(s, r) == ReleaseCurrent(if s.irps[i].canceled then CancelIrp(m, i, r.allocOk) else m)
  {
    PendingReported(s, i, r);
    ReleasedLater(Pending(s, i, r), i, r.allocOk);
  }

  class DeviceManager {
    var irps: seq<Irp>
    var asyncs: seq<Async>
    var files: seq<File>
    var live: seq<bool>
    var requests: seq<Id>
    var current: Option<Id>

    ghost function View(): State
      reads this
    {
      State(irps, asyncs, files, live, requests, current)
    }

    constructor ()
      ensures View() == Initial
    {
      irps, asyncs, files, live, requests, current := [], [], [], [], [], None;
    }

    method SetIrpResult(i: Id)
      requires i < |irps|
      modifies this
      ensures View() == SetResult(old(View()), i)
    {
      if irps[i].file.None? { return; }  // already finished
      var f := irps[i].file.value;
      if f < |files| { files := files[f := files[f].(queue := Remove(files[f].queue, i))]; }
      irps := irps[i := irps[i].(file := None)];
      if irps[i].async.Some? {
        asyncs := TerminateIn(asyncs, irps[i].async);
        irps := irps[i := irps[i].(async := None)];
      }
      irps := irps[i := irps[i].(refs := irps[i].refs - 1)];  // no longer on the device queue
    }

    method AddToQueue(i: Id)
      requires i < |irps|
      modifies this
      ensures View() == old(View()).(
                irps := old(irps)[i := old(irps)[i].(refs := old(irps)[i].refs + 1)],
                requests := old(requests) + [i],
                files := if old(irps)[i].file.Some? && old(irps)[i].file.value < |old(files)|
                         then var f := old(irps)[i].file.value;
                              old(files)[f := old(files)[f].(queue := old(files)[f].queue + [i])]
                         else old(files))
    {
      irps := irps[i := irps[i].(refs := irps[i].refs + 1)];
      if irps[i].file.Some? && irps[i].file.value < |files| {
        var f := irps[i].file.value;
        files := files[f := files[f].(queue := files[f].queue + [i])];
      }
      requests := requests + [i];
    }

    method CancelIrpCall(i: Id, allocOk: bool)
      requires i < |irps|
      modifies this
      ensures View() == CancelIrp(old(View()), i, allocOk)
    {
      irps := irps[i := irps[i].(canceled := true)];
      if irps[i].userPtr == 0 || irps[i].file.None? { return; }
      var f := irps[i].file.value;
      if f >= |files| || files[f].device >= |live| || !live[files[f].device] { return; }
      if !allocOk {
        irps := irps[i := irps[i].(lost := true)];
        return;
      }
      var k, ptr := |irps|, irps[i].userPtr;
      irps := irps[i := irps[i].(cancelReq := Some(k))];
      irps := irps + [Irp(CancelCall(ptr, i), None, None, false, 0, 1, 0, false, false, None, false, None)];
      AddToQueue(k);
      irps := irps[k := irps[k].(refs := irps[k].refs - 1)];
      assert irps == CancelIrp(old(View()), i, allocOk).irps;
    }

    method QueueIrp(f: Id, hasAsync: bool, allocOk: bool)
      modifies this
      ensures View() == Submit(old(View()), f, hasAsync, allocOk)
    {
      if f >= |files| || files[f].device >= |live| || !live[files[f].device] || !allocOk { return; }
      var i := |irps|;
      irps := irps + [Irp(Call, Some(f), None, false, 0, 1, 0, false, false, None, false, None)];
      if hasAsync {
        irps := irps[i := irps[i].(async := Some(|asyncs|), origin := Some(|asyncs|))];
        asyncs := asyncs + [Async(i, false, false, 0)];
      }
      AddToQueue(i);
      irps := irps[i := irps[i].(refs := irps[i].refs - 1)];
      assert irps == Submit(old(View()), f, hasAsync, allocOk).irps;
    }

    method FileCancelAsync(f: Id, a: Id, allocOk: bool)
      modifies this
      ensures View() == CancelAsync(old(View()), f, a, allocOk)
    {
      if f >= |files| || a >= |asyncs| || asyncs[a].terminated || asyncs[a].canceled { return; }
      asyncs := asyncs[a := asyncs[a].(canceled := true)];
      var q, k := files[f].queue, 0;
      while k < |q|
        invariant 0 <= k <= |q|
        invariant View() == old(View()).(asyncs := old(asyncs)[a := old(asyncs)[a].(canceled := true)])
        invariant FirstWith(irps, q, a) == FirstWith(irps, q[k..], a)
      {
        if q[k] < |irps| && irps[q[k]].async == Some(a) {
          CancelIrpCall(q[k], allocOk);
          return;
        }
        assert q[k..][1..] == q[k + 1..];
        k := k + 1;
      }
    }

    /** The driver left the current call pending. */
    method LeavePending(r: Report)
      requires current.Some? && current.value < |irps| && irps[current.value].async.Some? && !r.prev
      modifies this
      ensures View() == Finish(old(View()), r)
    {
      var i := current.value;
      FinishPending(View(), i, r);
      irps := irps[i := irps[i].(userPtr := r.userPtr, left := true)];
      if irps[i].canceled {
        // it was cancelled before or during dispatch, when there was no pointer to send
        CancelIrpCall(i, r.allocOk);
      }
      irps := irps[i := irps[i].(refs := irps[i].refs - 1)];
      current := None;
    }

    method CloseIrpHandle(i: Id)
      requires i < |irps|
      modifies this`irps
      ensures View() == CloseHandle(old(View()), i)
    {
      if irps[i].handles > 0 {
        irps := irps[i := irps[i].(handles := irps[i].handles - 1, refs := irps[i].refs - 1)];
      }
    }

    /** The current call has its result. */
    method FinishCurrent(r: Report)
      requires current.Some? && current.value < |irps| && (irps[current.value].async.None? || r.prev)
      modifies this
      ensures View() == Finish(old(View()), r)
    {
      var i := current.value;
      irps := irps[i := irps[i].(userPtr := r.userPtr, left := false, refs := irps[i].refs - 1)];
      current := None;
      SetIrpResult(i);
      if r.prev { CloseIrpHandle(i); }
    }

    method DispatchNext(r: Report)
      modifies this
      ensures View() == Dispatch(old(View()), r)
    {
      if requests == [] || requests[0] >= |irps| { return; }
      var i := requests[0];
      if (irps[i].async.Some? && !r.fits) || (irps[i].file.Some? && !r.handleOk) { return; }
      if irps[i].file.Some? {  // the handle given to the driver
        irps := irps[i := irps[i].(handles := irps[i].handles + 1, refs := irps[i].refs + 1)];
        if !r.paramsOk {
          irps := irps[i := irps[i].(handles := irps[i].handles - 1, refs := irps[i].refs - 1)];
          assert irps == old(irps);
          return;
        }
      }
      requests := requests[1..];
      // the queue's own reference moves along when the IRP was only on the manager queue
      irps := irps[i := irps[i].(dispatched := true, refs := irps[i].refs + Bit(irps[i].file.Some?))];
      current := Some(i);
      assert irps == Dispatch(old(View()), r).irps;
    }

    method GetNextDeviceRequest(r: Report)
      requires Inv(View())
      modifies this
      ensures View() == Dispatch(Finish(old(View()), r), r) && Inv(View())
      ensures old(Ordered(View())) ==> ServesOldest(Finish(old(View()), r), View(), r)
    {
      ApplyKeepsInv(View(), GetNext(r));
      if Ordered(View()) { EachServed(View(), r); }
      if current.Some? {
        if irps[current.value].async.Some? && !r.prev { LeavePending(r); } else { FinishCurrent(r); }
      }
      DispatchNext(r);
    }

    method DeleteFile(f: Id)
      requires f < |files|
      modifies this
      ensures View() == DropAll(old(View()), old(files)[f].queue)
    {
      var q, k := files[f].queue, 0;
      while k < |q|
        invariant 0 <= k <= |q|
        invariant DropAll(View(), q[k..]) == DropAll(old(View()), q)
      {
        assert q[k..][1..] == q[k + 1..];
        if q[k] < |irps| {
          requests := Remove(requests, q[k]);
          SetIrpResult(q[k]);
        }
        k := k + 1;
      }
    }

    method DeleteOneDevice(d: Id)
      modifies this
      ensures View() == DeleteDevice(old(View()), d)
    {
      if d >= |live| || !live[d] { return; }  // already deleted
      var f := 0;
      while f < |files|
        invariant 0 <= f <= |files| && live == old(live)
        invariant DeleteFiles(View(), d, f) == DeleteFiles(old(View()), d, 0)
        decreases |old(files)| - f
      {
        if files[f].device == d { DeleteFile(f); }
        f := f + 1;
      }
      live := live[d := false];
    }

    /** The last loop of the destructor.  Its assertion is proved, not assumed. */
    method FreeQueued(ghost before: State)
      requires Inv(before) && View() == DeleteDevices(ReleaseCurrent(before), 0)
      modifies this
      ensures View() == FreeRequests(old(View()))
    {
      while requests != []
        invariant FreeRequests(View()) == FreeRequests(old(View()))
        invariant forall j | j in requests :: j in old(requests)
        invariant |irps| == |old(irps)|
        invariant forall j | 0 <= j < |irps| :: irps[j].file == old(irps)[j].file && irps[j].async == old(irps)[j].async
        decreases |requests|
      {
        var i := requests[0];
        assert i in requests;
        ShutdownAssertion(before, i);
        requests := requests[1..];
        assert irps[i].file.None? && irps[i].async.None?;
        irps := irps[i := irps[i].(refs := irps[i].refs - 1)];
      }
    }

    method Destroy()
      requires Inv(View())
      modifies this
      ensures View() == Shutdown(old(View()))
    {
      if current.Some? {
        var i := current.value;
        irps := irps[i := irps[i].(refs := irps[i].refs - 1)];
        current := None;
      }
      var d := 0;
      while d < |live|
        invariant 0 <= d <= |live| == |old(live)|
        invariant DeleteDevices(View(), d) == DeleteDevices(ReleaseCurrent(old(View())), 0)
      {
        DeleteOneDevice(d);
        d := d + 1;
      }
      FreeQueued(old(View()));
    }
  }
}
