/** Debug events (server/debugger.c): each debug object keeps a queue of the events of the
    processes it debugs, and a process is busy with at most one event at a time.

    Processes, threads, debug objects and events are numbered in creation order.  The fields
    `linked`, `delayed` and `sent` of an event and the list `log` of deliveries only record
    history: no step reads them.
 */
module DebugEvents {

  import opened Options

  type Id = nat

  datatype EventState = Queued | Sent | Delayed | Continued

  datatype Event = Event(thread: Id, obj: Id, state: EventState, linked: bool, delayed: bool, sent: bool)

  /** debugObj is the object debugging the process, `busy` its process->debug_event. */
  datatype Process = Process(debugObj: Option<Id>, busy: Option<Id>)

  datatype Thread = Thread(proc: Id, suspend: nat)

  datatype State = State(procs: seq<Process>, threads: seq<Thread>,
                         queues: seq<seq<Id>>, events: seq<Event>, log: seq<Id>)

  const Initial := State([], [], [], [], [])

  const MAXIMUM_SUSPEND_COUNT := 0x7f

  // ---------------------------------------------------------------- single events

  function Without(q: seq<Id>, e: Id): (r: seq<Id>)
    ensures forall x :: x in r <==> x in q && x != e
  {
    if q == [] then [] else if q[0] == e then Without(q[1..], e) else [q[0]] + Without(q[1..], e)
  }

  /** The process that sent the event. */
  function ProcOf(s: State, e: Id): Id {
    if e < |s.events| && s.events[e].thread < |s.threads| then s.threads[s.events[e].thread].proc else |s.procs|
  }

  function Busy(s: State, p: Id): Option<Id> {
    if p < |s.procs| then s.procs[p].busy else None
  }

  function Release(procs: seq<Process>, p: Id, e: Id): seq<Process> {
    if p < |procs| && procs[p].busy == Some(e) then procs[p := procs[p].(busy := None)] else procs
  }

  /** link_event with a new event of thread t. */
  function Link(s: State, t: Id): State {
    if t >= |s.threads| || s.threads[t].proc >= |s.procs| || s.procs[s.threads[t].proc].debugObj.None? then s
    else
      var o := s.procs[s.threads[t].proc].debugObj.value;
      if o >= |s.queues| then s
      else s.(events := s.events + [Event(t, o, Queued, true, false, false)],
              queues := s.queues[o := s.queues[o] + [|s.events|]])
  }

  /** unlink_event, for an event that was continued or one that is just dropped. */
  function Unlink(s: State, e: Id, done: bool): State {
    if e >= |s.events| then s
    else
      var ev := s.events[e];
      s.(events := s.events[e := ev.(linked := false, state := if done then Continued else ev.state)],
         procs := Release(s.procs, ProcOf(s, e), e),
         queues := if ev.obj < |s.queues| then s.queues[ev.obj := Without(s.queues[ev.obj], e)] else s.queues)
  }

  /** delay_event */
  function Delay(s: State, e: Id): State {
    if e >= |s.events| then s
    else s.(events := s.events[e := s.events[e].(state := Delayed, delayed := true)],
            procs := Release(s.procs, ProcOf(s, e), e))
  }

  /** resume_event, after the process has stopped being busy with it. */
  function Requeue(s: State, e: Id): State {
    if e >= |s.events| then s
    else s.(events := s.events[e := s.events[e].(state := Queued)], procs := Release(s.procs, ProcOf(s, e), e))
  }

  function Send(s: State, e: Id): State {
    if e >= |s.events| || ProcOf(s, e) >= |s.procs| then s
    else s.(events := s.events[e := s.events[e].(state := Sent, sent := true)],
            procs := s.procs[ProcOf(s, e) := s.procs[ProcOf(s, e)].(busy := Some(e))],
            log := s.log + [e])
  }

  // ---------------------------------------------------------------- requests

  predicate CanSend(s: State, e: Id) {
    e < |s.events| && s.events[e].state != Sent && s.events[e].state != Delayed && Busy(s, ProcOf(s, e)).None?
  }

  /** find_event_to_send */
  function FindToSend(s: State, q: seq<Id>): (r: Option<Id>)
    ensures r.Some? ==> r.value in q && CanSend(s, r.value)
  {
    if q == [] then None else if CanSend(s, q[0]) then Some(q[0]) else FindToSend(s, q[1..])
  }

  /** wait_debug_event */
  function Wait(s: State, o: Id): State {
    if o >= |s.queues| then s
    else
      match FindToSend(s, s.queues[o])
      case Some(e) => Send(s, e)
      case None => s
  }

  function DelayEach(s: State, q: seq<Id>, t: Id): State
    decreases |q|
  {
    if q == [] then s
    else DelayEach(if q[0] < |s.events| && s.events[q[0]].thread == t then Delay(s, q[0]) else s, q[1..], t)
  }

  /** The first event of thread t that is with the debugger. */
  function FindSent(s: State, q: seq<Id>, t: Id): (r: Option<Id>)
    ensures r.Some? ==>
              r.value in q && r.value < |s.events| && s.events[r.value].state == Sent && s.events[r.value].thread == t
  {
    if q == [] then None
    else if q[0] < |s.events| && s.events[q[0]].state == Sent && s.events[q[0]].thread == t then Some(q[0])
    else FindSent(s, q[1..], t)
  }

  /** continue_debug_event */
  function Continue(s: State, o: Id, p: Id, t: Id, later: bool): State {
    if o >= |s.queues| || p >= |s.procs| || t >= |s.threads| ||
       s.procs[p].debugObj != Some(o) || s.threads[t].proc != p then s
    else if later && s.threads[t].suspend > 0 then DelayEach(s, s.queues[o], t)
    else
      match FindSent(s, s.queues[o], t)
      case None => s
      case Some(e) => if later then Requeue(s, e) else Unlink(s, e, true)
  }

  function ResumeEach(s: State, q: seq<Id>, t: Id): State
    decreases |q|
  {
    if q == [] then s
    else ResumeEach(if q[0] < |s.events| && s.events[q[0]].thread == t && s.events[q[0]].state == Delayed
                    then Requeue(s, q[0]) else s,
                    q[1..], t)
  }

  function Suspend(s: State, t: Id): State {
    if t >= |s.threads| || s.threads[t].suspend >= MAXIMUM_SUSPEND_COUNT then s
    else s.(threads := s.threads[t := s.threads[t].(suspend := s.threads[t].suspend + 1)])
  }

  /** resume_thread, with resume_delayed_debug_events when it starts running again. */
  function Resume(s: State, t: Id): State {
    if t >= |s.threads| || s.threads[t].suspend == 0 then s
    else
      var r := s.(threads := s.threads[t := s.threads[t].(suspend := s.threads[t].suspend - 1)]);
      var p := s.threads[t].proc;
      if s.threads[t].suspend > 1 || p >= |s.procs| ||
         s.procs[p].debugObj.None? || s.procs[p].debugObj.value >= |s.queues| then r
      else ResumeEach(r, s.queues[s.procs[p].debugObj.value], t)
  }

  function Attach(s: State, p: Id, o: Id): State {
    if p >= |s.procs| || o >= |s.queues| || s.procs[p].debugObj.Some? then s
    else s.(procs := s.procs[p := s.procs[p].(debugObj := Some(o))])
  }

  function UnlinkEach(s: State, q: seq<Id>, p: Option<Id>, done: bool): State
    decreases |q|
  {
    if q == [] then s
    else UnlinkEach(if p == None || p == Some(ProcOf(s, q[0])) then Unlink(s, q[0], done) else s, q[1..], p, done)
  }

  function Forget(procs: seq<Process>, o: Id): seq<Process> {
    seq(|procs|, p requires 0 <= p < |procs| =>
      if procs[p].debugObj == Some(o) then procs[p].(debugObj := None) else procs[p])
  }

  /** debugger_detach */
  function Detach(s: State, p: Id, o: Id): State {
    if p >= |s.procs| || o >= |s.queues| || s.procs[p].debugObj != Some(o) then s
    else
      var r := UnlinkEach(s, s.queues[o], Some(p), true);
      if p < |r.procs| then r.(procs := r.procs[p := r.procs[p].(debugObj := None)]) else r
  }

  /** debug_obj_destroy: its processes are detached or, with DEBUG_KILL_ON_CLOSE, killed. */
  function Destroy(s: State, o: Id, kill: bool): State {
    if o >= |s.queues| then s
    else
      var r := UnlinkEach(s, s.queues[o], None, !kill);
      r.(procs := Forget(r.procs, o))
  }

  datatype Op =
    | NewProcess(debugObj: Option<Id>)
    | NewThread(proc: Id)
    | NewDebugObj
    | DoLink(thread: Id)
    | DoWait(obj: Id)
    | DoContinue(obj: Id, proc: Id, thread: Id, later: bool)
    | DoSuspend(thread: Id)
    | DoResume(thread: Id)
    | DoAttach(proc: Id, obj: Id)
    | DoDetach(proc: Id, obj: Id)
    | DoDestroy(obj: Id, kill: bool)

  function Apply(s: State, op: Op): State {
    match op
    case NewProcess(o) => if o.Some? && o.value >= |s.queues| then s else s.(procs := s.procs + [Process(o, None)])
    case NewThread(p) => if p >= |s.procs| then s else s.(threads := s.threads + [Thread(p, 0)])
    case NewDebugObj => s.(queues := s.queues + [[]])
    case DoLink(t) => Link(s, t)
    case DoWait(o) => Wait(s, o)
    case DoContinue(o, p, t, later) => Continue(s, o, p, t, later)
    case DoSuspend(t) => Suspend(s, t)
    case DoResume(t) => Resume(s, t)
    case DoAttach(p, o) => Attach(s, p, o)
    case DoDetach(p, o) => Detach(s, p, o)
    case DoDestroy(o, kill) => Destroy(s, o, kill)
  }

  function Run(s: State, ops: seq<Op>): State
    decreases |ops|
  {
    if ops == [] then s else Run(Apply(s, ops[0]), ops[1..])
  }

  // ---------------------------------------------------------------- the invariant

  ghost predicate Ascending(q: seq<Id>) {
    q == [] || (Ascending(q[1..]) && forall x | x in q[1..] :: q[0] < x)
  }

  predicate On(s: State, o: Id, e: Id) {
    e < |s.events| && s.events[e].linked && s.events[e].obj == o
  }

  /** A queue holds the linked events of its object in the order they were linked. */
  ghost predicate QueueOk(s: State, o: Id)
    requires o < |s.queues|
  {
    Ascending(s.queues[o]) &&
    forall e {:trigger On(s, o, e)} {:trigger e in s.queues[o]} :: e in s.queues[o] <==> On(s, o, e)
  }

  predicate EventOk(s: State, e: Id)
    requires e < |s.events|
  {
    var ev := s.events[e];
    && ev.thread < |s.threads| && ProcOf(s, e) < |s.procs|
    && (ev.linked ==>
          && ev.state != Continued
          && s.procs[ProcOf(s, e)].debugObj == Some(ev.obj)
          && (ev.state == Sent <==> Busy(s, ProcOf(s, e)) == Some(e))
          && (ev.state == Delayed ==> ev.delayed))
    && (!ev.linked ==> Busy(s, ProcOf(s, e)) != Some(e))
  }

  predicate ProcOk(s: State, p: Id)
    requires p < |s.procs|
  {
    s.procs[p].busy.Some? ==> var e := s.procs[p].busy.value; e < |s.events| && ProcOf(s, e) == p
  }

  /** Once an event was delivered, older ones of its process are gone or were delayed. */
  predicate OrderOk(s: State, a: Id, b: Id) {
    a < b < |s.events| && ProcOf(s, a) == ProcOf(s, b) && s.events[b].sent && !s.events[a].delayed ==>
      !s.events[a].linked
  }

  /** An event that was never delayed is not delivered after a newer one of its process. */
  predicate LogOk(s: State, m: nat, n: nat) {
    m < n < |s.log| && s.log[n] < |s.events| && ProcOf(s, s.log[m]) == ProcOf(s, s.log[n]) &&
    !s.events[s.log[n]].delayed ==>
      s.log[m] <= s.log[n]
  }

  ghost predicate LogsOk(s: State) {
    && (forall n | 0 <= n < |s.log| :: s.log[n] < |s.events| && s.events[s.log[n]].sent)
    && (forall m, n {:trigger LogOk(s, m, n)} :: LogOk(s, m, n))
  }

  ghost predicate Inv(s: State) {
    && LogsOk(s)
    && (forall o {:trigger QueueOk(s, o)} | 0 <= o < |s.queues| :: QueueOk(s, o))
    && (forall e {:trigger EventOk(s, e)} | 0 <= e < |s.events| :: EventOk(s, e))
    && (forall p {:trigger ProcOk(s, p)} | 0 <= p < |s.procs| :: ProcOk(s, p))
    && (forall a, b {:trigger OrderOk(s, a, b)} :: OrderOk(s, a, b))
    && (forall o: Id, e {:trigger On(s, o, e)} :: On(s, o, e) ==> o < |s.queues|)
  }

  // ---------------------------------------------------------------- each step keeps it

  lemma Tail(q: seq<Id>)
    requires q != []
    ensures forall x :: x in q <==> x == q[0] || x in q[1..]
  {
    assert q == [q[0]] + q[1..];
  }

  lemma {:induction false} AscendingWithout(q: seq<Id>, e: Id)
    requires Ascending(q)
    ensures Ascending(Without(q, e))
  {
    if q != [] {
      AscendingWithout(q[1..], e);
      if q[0] != e { assert Without(q, e)[1..] == Without(q[1..], e); }
    }
  }

  lemma {:induction false} AscendingAppend(q: seq<Id>, e: Id)
    requires Ascending(q) && forall x | x in q :: x < e
    ensures Ascending(q + [e])
  {
    if q == [] {
      assert q + [e] == [e] && [e][1..] == [];
    } else {
      Tail(q);
      assert q[0] in q;
      AscendingAppend(q[1..], e);
      assert (q + [e])[1..] == q[1..] + [e];
    }
  }

  lemma {:induction false} FindFirst(s: State, q: seq<Id>, a: Id)
    requires Ascending(q) && FindToSend(s, q).Some? && a in q && a < FindToSend(s, q).value
    ensures !CanSend(s, a)
  {
    Tail(q);
    if !CanSend(s, q[0]) && a != q[0] { FindFirst(s, q[1..], a); }
  }

  /** Events and processes are the same, up to what the step says about event e. */
  predicate Only(s: State, t: State, e: Id) {
    && |t.events| == |s.events| && |t.procs| == |s.procs| && t.threads == s.threads && |t.queues| == |s.queues|
    && (forall x | 0 <= x < |s.events| && x != e :: t.events[x] == s.events[x])
    && e < |s.events| && t.events[e].thread == s.events[e].thread && t.events[e].obj == s.events[e].obj
  }

  lemma OnlySameProcs(s: State, t: State, e: Id, x: Id)
    requires Only(s, t, e)
    ensures ProcOf(t, x) == ProcOf(s, x)
  {
  }

  /** Deliveries, and the order of them, when nothing new is delivered. */
  lemma OldLog(s: State, t: State, e: Id)
    requires LogsOk(s) && Only(s, t, e) && t.log == s.log
    requires (s.events[e].sent ==> t.events[e].sent) && (s.events[e].delayed ==> t.events[e].delayed)
    ensures LogsOk(t)
  {
    forall m: nat, n: nat ensures LogOk(t, m, n) {
      assert LogOk(s, m, n);
      if m < n < |s.log| {
        OnlySameProcs(s, t, e, s.log[m]);
        OnlySameProcs(s, t, e, s.log[n]);
      }
    }
  }

  lemma OldOrder(s: State, t: State, e: Id, a: Id, b: Id)
    requires Only(s, t, e) && OrderOk(s, a, b) && t.events[e].sent == s.events[e].sent
    requires (s.events[e].delayed ==> t.events[e].delayed) && (t.events[e].linked ==> s.events[e].linked)
    ensures OrderOk(t, a, b)
  {
    OnlySameProcs(s, t, e, a);
    OnlySameProcs(s, t, e, b);
  }

  lemma UnlinkKeepsInv(s: State, e: Id, done: bool)
    requires Inv(s) && e < |s.events|
    ensures Inv(Unlink(s, e, done))
  {
    var t := Unlink(s, e, done);
    assert EventOk(s, e);
    OldLog(s, t, e);
    forall x | 0 <= x < |t.events| ensures EventOk(t, x) {
      assert EventOk(s, x);
      OnlySameProcs(s, t, e, x);
    }
    forall p | 0 <= p < |t.procs| ensures ProcOk(t, p) {
      assert ProcOk(s, p);
      if t.procs[p].busy.Some? { OnlySameProcs(s, t, e, t.procs[p].busy.value); }
    }
    forall o | 0 <= o < |t.queues| ensures QueueOk(t, o) {
      assert QueueOk(s, o);
      AscendingWithout(s.queues[o], e);
      forall x: Id ensures x in t.queues[o] <==> On(t, o, x) { assert x in s.queues[o] <==> On(s, o, x); }
    }
    forall a: Id, b: Id ensures OrderOk(t, a, b) {
      assert OrderOk(s, a, b);
      OldOrder(s, t, e, a, b);
    }
    forall o: Id, x: Id | On(t, o, x) ensures o < |t.queues| { assert On(s, o, x); }
  }

  /** An event that stays linked changes its state to delayed or queued. */
  lemma ShelveKeepsInv(s: State, t: State, e: Id)
    requires Inv(s) && e < |s.events| && s.events[e].linked && (t == Delay(s, e) || t == Requeue(s, e))
    ensures Inv(t)
  {
    assert EventOk(s, e);
    OldLog(s, t, e);
    forall x | 0 <= x < |t.events| ensures EventOk(t, x) {
      assert EventOk(s, x);
      OnlySameProcs(s, t, e, x);
    }
    forall p | 0 <= p < |t.procs| ensures ProcOk(t, p) {
      assert ProcOk(s, p);
      if t.procs[p].busy.Some? { OnlySameProcs(s, t, e, t.procs[p].busy.value); }
    }
    forall o | 0 <= o < |t.queues| ensures QueueOk(t, o) {
      assert QueueOk(s, o);
      forall x: Id ensures x in t.queues[o] <==> On(t, o, x) { assert x in s.queues[o] <==> On(s, o, x); }
    }
    forall a: Id, b: Id ensures OrderOk(t, a, b) {
      assert OrderOk(s, a, b);
      OldOrder(s, t, e, a, b);
    }
    forall o: Id, x: Id | On(t, o, x) ensures o < |t.queues| { assert On(s, o, x); }
  }

  /** Older events of the process, unless they were delayed, are no longer linked when one is
      chosen for delivery. */
  lemma OlderAreGone(s: State, o: Id, e: Id, a: Id)
    requires Inv(s) && o < |s.queues| && FindToSend(s, s.queues[o]) == Some(e)
    requires a < e && ProcOf(s, a) == ProcOf(s, e) && !s.events[a].delayed
    ensures !s.events[a].linked
  {
    assert QueueOk(s, o) && On(s, o, e) && EventOk(s, a) && EventOk(s, e);
    if s.events[a].linked {
      assert On(s, o, a);
      FindFirst(s, s.queues[o], a);
    }
  }

  lemma SendKeepsLog(s: State, o: Id, e: Id)
    requires Inv(s) && o < |s.queues| && FindToSend(s, s.queues[o]) == Some(e)
    ensures LogsOk(Send(s, e))
  {
    var t := Send(s, e);
    assert QueueOk(s, o) && On(s, o, e) && EventOk(s, e);
    forall m: nat, n: nat ensures LogOk(t, m, n) {
      assert LogOk(s, m, n);
      if m < n < |t.log| {
        OnlySameProcs(s, t, e, t.log[m]);
        OnlySameProcs(s, t, e, t.log[n]);
        if n == |s.log| { assert OrderOk(s, e, s.log[m]); }
      }
    }
  }

  lemma SendKeepsInv(s: State, o: Id, e: Id)
    requires Inv(s) && o < |s.queues| && FindToSend(s, s.queues[o]) == Some(e)
    ensures Inv(Send(s, e))
  {
    var t := Send(s, e);
    assert QueueOk(s, o) && On(s, o, e) && EventOk(s, e);
    SendKeepsLog(s, o, e);
    forall x | 0 <= x < |t.events| ensures EventOk(t, x) {
      assert EventOk(s, x);
      OnlySameProcs(s, t, e, x);
    }
    forall p | 0 <= p < |t.procs| ensures ProcOk(t, p) {
      assert ProcOk(s, p);
      if t.procs[p].busy.Some? { OnlySameProcs(s, t, e, t.procs[p].busy.value); }
    }
    forall k | 0 <= k < |t.queues| ensures QueueOk(t, k) {
      assert QueueOk(s, k);
      forall x: Id ensures x in t.queues[k] <==> On(t, k, x) { assert x in s.queues[k] <==> On(s, k, x); }
    }
    forall a: Id, b: Id ensures OrderOk(t, a, b) {
      assert OrderOk(s, a, b);
      OnlySameProcs(s, t, e, a);
      OnlySameProcs(s, t, e, b);
      if b == e && a < b && ProcOf(s, a) == ProcOf(s, e) && !s.events[a].delayed { OlderAreGone(s, o, e, a); }
    }
    forall k: Id, x: Id | On(t, k, x) ensures k < |t.queues| { assert On(s, k, x); }
  }

  lemma WaitKeepsInv(s: State, o: Id)
    requires Inv(s)
    ensures Inv(Wait(s, o))
  {
    if o < |s.queues| {
      var r := FindToSend(s, s.queues[o]);
      if r.Some? { SendKeepsInv(s, o, r.value); }
    }
  }

  ghost predicate AllLinked(s: State, q: seq<Id>) {
    forall e | e in q :: e < |s.events| && s.events[e].linked
  }

  lemma {:induction false} DelayEachKeepsInv(s: State, q: seq<Id>, t: Id)
    requires Inv(s) && AllLinked(s, q)
    ensures Inv(DelayEach(s, q, t))
    decreases |q|
  {
    if q != [] {
      Tail(q);
      assert q[0] in q;
      var r := if s.events[q[0]].thread == t then Delay(s, q[0]) else s;
      if s.events[q[0]].thread == t { ShelveKeepsInv(s, r, q[0]); }
      DelayEachKeepsInv(r, q[1..], t);
    }
  }

  lemma {:induction false} ResumeEachKeepsInv(s: State, q: seq<Id>, t: Id)
    requires Inv(s) && AllLinked(s, q)
    ensures Inv(ResumeEach(s, q, t))
    decreases |q|
  {
    if q != [] {
      Tail(q);
      assert q[0] in q;
      var hit := s.events[q[0]].thread == t && s.events[q[0]].state == Delayed;
      var r := if hit then Requeue(s, q[0]) else s;
      if hit { ShelveKeepsInv(s, r, q[0]); }
      ResumeEachKeepsInv(r, q[1..], t);
    }
  }

  lemma QueueLinked(s: State, o: Id)
    requires Inv(s) && o < |s.queues|
    ensures AllLinked(s, s.queues[o])
  {
    assert QueueOk(s, o);
    forall e | e in s.queues[o] ensures e < |s.events| && s.events[e].linked { assert On(s, o, e); }
  }

  lemma ContinueKeepsInv(s: State, o: Id, p: Id, t: Id, later: bool)
    requires Inv(s)
    ensures Inv(Continue(s, o, p, t, later))
  {
    if o < |s.queues| {
      QueueLinked(s, o);
      if t < |s.threads| && later && s.threads[t].suspend > 0 {
        DelayEachKeepsInv(s, s.queues[o], t);
      } else {
        var r := FindSent(s, s.queues[o], t);
        if r.Some? {
          if later { ShelveKeepsInv(s, Requeue(s, r.value), r.value); } else { UnlinkKeepsInv(s, r.value, true); }
        }
      }
    }
  }

  /** The assertion in continue_debug_event: an event with the debugger is the one its process
      is busy with. */
  lemma SentIsBusy(s: State, o: Id, t: Id)
    requires Inv(s) && o < |s.queues| && FindSent(s, s.queues[o], t).Some?
    ensures var e := FindSent(s, s.queues[o], t).value; Busy(s, ProcOf(s, e)) == Some(e)
  {
    QueueLinked(s, o);
    assert EventOk(s, FindSent(s, s.queues[o], t).value);
  }

  lemma LinkKeepsInv(s: State, th: Id)
    requires Inv(s)
    ensures Inv(Link(s, th))
  {
    var t, n := Link(s, th), |s.events|;
    if t != s {
      var o := t.events[n].obj;
      forall x | 0 <= x < |t.events| ensures EventOk(t, x) {
        if x < n { assert EventOk(s, x); } else { assert ProcOk(s, s.threads[th].proc); }
      }
      forall p | 0 <= p < |t.procs| ensures ProcOk(t, p) { assert ProcOk(s, p); }
      forall k | 0 <= k < |t.queues| ensures QueueOk(t, k) {
        assert QueueOk(s, k);
        if k == o { AscendingAppend(s.queues[o], n); }
        forall x: Id ensures x in t.queues[k] <==> On(t, k, x) { assert x in s.queues[k] <==> On(s, k, x); }
      }
      forall a: Id, b: Id ensures OrderOk(t, a, b) { assert OrderOk(s, a, b); }
      forall m: nat, k: nat ensures LogOk(t, m, k) { assert LogOk(s, m, k); }
      forall k: Id, x: Id | On(t, k, x) ensures k < |t.queues| { if x < n { assert On(s, k, x); } }
    }
  }

  // ---------------------------------------------------------------- detaching

  /** Events are only unlinked, and nobody is attached or detached. */
  ghost predicate Shrunk(s: State, t: State) {
    && |t.events| == |s.events| && t.threads == s.threads && |t.procs| == |s.procs| && |t.queues| == |s.queues|
    && (forall x | 0 <= x < |s.events| ::
          && t.events[x].thread == s.events[x].thread && t.events[x].obj == s.events[x].obj
          && (t.events[x].linked ==> s.events[x].linked)
          && (t.events[x].state == s.events[x].state || t.events[x].state == Continued))
    && (forall p | 0 <= p < |s.procs| :: t.procs[p].debugObj == s.procs[p].debugObj)
  }

  lemma {:induction false} UnlinkEachKeepsInv(s: State, q: seq<Id>, p: Option<Id>, done: bool)
    requires Inv(s) && forall e | e in q :: e < |s.events|
    ensures Inv(UnlinkEach(s, q, p, done)) && Shrunk(s, UnlinkEach(s, q, p, done))
    decreases |q|
  {
    if q != [] {
      Tail(q);
      assert q[0] in q;
      if p == None || p == Some(ProcOf(s, q[0])) {
        UnlinkKeepsInv(s, q[0], done);
        UnlinkEachKeepsInv(Unlink(s, q[0], done), q[1..], p, done);
      } else {
        UnlinkEachKeepsInv(s, q[1..], p, done);
      }
    }
  }

  lemma {:induction false} UnlinkEachGone(s: State, q: seq<Id>, p: Option<Id>, done: bool, x: Id)
    requires Inv(s) && x in q && (p == None || p == Some(ProcOf(s, x))) && forall e | e in q :: e < |s.events|
    ensures var t := UnlinkEach(s, q, p, done);
            x < |t.events| && !t.events[x].linked && (done ==> t.events[x].state == Continued)
    decreases |q|
  {
    Tail(q);
    assert q[0] in q;
    var r := if p == None || p == Some(ProcOf(s, q[0])) then Unlink(s, q[0], done) else s;
    if r != s { UnlinkKeepsInv(s, q[0], done); }
    if x in q[1..] {
      UnlinkEachGone(r, q[1..], p, done, x);
    } else {
      UnlinkKeepsInv(s, q[0], done);
      UnlinkEachKeepsInv(r, q[1..], p, done);
    }
  }

  lemma {:induction false} UnlinkEachOthers(s: State, q: seq<Id>, p: Id, done: bool, x: Id)
    requires x < |s.events| && (x !in q || ProcOf(s, x) != p)
    ensures var t := UnlinkEach(s, q, Some(p), done); x < |t.events| && t.events[x] == s.events[x]
    decreases |q|
  {
    if q != [] {
      var r := if p == ProcOf(s, q[0]) then Unlink(s, q[0], done) else s;
      assert r.threads == s.threads && r.events[x] == s.events[x] && (|r.procs| == |s.procs|);
      UnlinkEachOthers(r, q[1..], p, done, x);
    }
  }

  /** Processes without linked events may be detached. */
  lemma ForgetKeepsInv(s: State, procs: seq<Process>)
    requires Inv(s) && |procs| == |s.procs| && forall p | 0 <= p < |procs| :: procs[p].busy == s.procs[p].busy
    requires forall e | 0 <= e < |s.events| && s.events[e].linked && ProcOf(s, e) < |procs| ::
               procs[ProcOf(s, e)].debugObj == s.procs[ProcOf(s, e)].debugObj
    ensures Inv(s.(procs := procs))
  {
    var t := s.(procs := procs);
    forall x | 0 <= x < |t.events| ensures EventOk(t, x) { assert EventOk(s, x); }
    forall p | 0 <= p < |t.procs| ensures ProcOk(t, p) { assert ProcOk(s, p); }
    forall o | 0 <= o < |t.queues| ensures QueueOk(t, o) {
      assert QueueOk(s, o);
      forall x: Id ensures x in t.queues[o] <==> On(t, o, x) { assert x in s.queues[o] <==> On(s, o, x); }
    }
    forall a: Id, b: Id ensures OrderOk(t, a, b) { assert OrderOk(s, a, b); }
    forall m: nat, n: nat ensures LogOk(t, m, n) { assert LogOk(s, m, n); }
    forall o: Id, x: Id | On(t, o, x) ensures o < |t.queues| { assert On(s, o, x); }
  }

  /** After the queue was gone through, what is left linked is of other processes. */
  lemma DetachLeaves(s: State, p: Option<Id>, o: Id, done: bool, e: Id)
    requires Inv(s) && o < |s.queues| && e < |s.events|
    requires forall x | x in s.queues[o] :: x < |s.events|
    requires var t := UnlinkEach(s, s.queues[o], p, done);
             |t.events| == |s.events| && t.events[e].linked && Shrunk(s, t)
    ensures s.events[e].linked && (s.events[e].obj != o || (p.Some? && p.value != ProcOf(s, e)))
  {
    assert QueueOk(s, o);
    if s.events[e].obj == o && (p == None || p == Some(ProcOf(s, e))) {
      assert On(s, o, e);
      UnlinkEachGone(s, s.queues[o], p, done, e);
    }
  }

  lemma DetachInv(s: State, p: Id, o: Id)
    requires Inv(s)
    ensures Inv(Detach(s, p, o))
  {
    if p < |s.procs| && o < |s.queues| && s.procs[p].debugObj == Some(o) {
      QueueLinked(s, o);
      var t := UnlinkEach(s, s.queues[o], Some(p), true);
      UnlinkEachKeepsInv(s, s.queues[o], Some(p), true);
      var procs := t.procs[p := t.procs[p].(debugObj := None)];
      forall e | 0 <= e < |t.events| && t.events[e].linked ensures ProcOf(t, e) != p {
        DetachLeaves(s, Some(p), o, true, e);
        assert EventOk(s, e);
      }
      ForgetKeepsInv(t, procs);
    }
  }

  /** Detaching continues every event of the process, and leaves the others alone. */
  lemma DetachKeepsInv(s: State, p: Id, o: Id, e: Id)
    requires Inv(s)
    ensures Inv(Detach(s, p, o))
    ensures e < |s.events| ==>
              var t := Detach(s, p, o);
              var hit := p < |s.procs| && o < |s.queues| && s.procs[p].debugObj == Some(o) &&
                         s.events[e].linked && ProcOf(s, e) == p;
              e < |t.events| &&
              if hit then !t.events[e].linked && t.events[e].state == Continued else t.events[e] == s.events[e]
  {
    DetachInv(s, p, o);
    if e < |s.events| && p < |s.procs| && o < |s.queues| && s.procs[p].debugObj == Some(o) {
      assert EventOk(s, e) && QueueOk(s, o);
      assert e in s.queues[o] <==> On(s, o, e);
      if e in s.queues[o] && ProcOf(s, e) == p {
        QueueLinked(s, o);
        UnlinkEachGone(s, s.queues[o], Some(p), true, e);
      } else {
        UnlinkEachOthers(s, s.queues[o], p, true, e);
      }
    }
  }

  lemma DestroyInv(s: State, o: Id, kill: bool)
    requires Inv(s)
    ensures Inv(Destroy(s, o, kill))
  {
    if o < |s.queues| {
      QueueLinked(s, o);
      var t := UnlinkEach(s, s.queues[o], None, !kill);
      UnlinkEachKeepsInv(s, s.queues[o], None, !kill);
      forall e | 0 <= e < |t.events| && t.events[e].linked && ProcOf(t, e) < |t.procs|
        ensures Forget(t.procs, o)[ProcOf(t, e)].debugObj == t.procs[ProcOf(t, e)].debugObj
      {
        DetachLeaves(s, None, o, !kill, e);
        assert EventOk(t, e);
      }
      ForgetKeepsInv(t, Forget(t.procs, o));
    }
  }

  lemma {:induction false} UnlinkEachAway(s: State, q: seq<Id>, p: Option<Id>, done: bool, x: Id)
    requires x < |s.events| && x !in q
    ensures var t := UnlinkEach(s, q, p, done); x < |t.events| && t.events[x] == s.events[x]
    decreases |q|
  {
    if q != [] {
      UnlinkEachAway(if p == None || p == Some(ProcOf(s, q[0])) then Unlink(s, q[0], done) else s, q[1..], p, done, x);
    }
  }

  lemma {:induction false} UnlinkEachStays(s: State, q: seq<Id>, p: Option<Id>, x: Id)
    requires x < |s.events|
    ensures var t := UnlinkEach(s, q, p, false); x < |t.events| && t.events[x].state == s.events[x].state
    decreases |q|
  {
    if q != [] {
      UnlinkEachStays(if p == None || p == Some(ProcOf(s, q[0])) then Unlink(s, q[0], false) else s, q[1..], p, x);
    }
  }

  /** Destroying a debug object unlinks its events, continued unless their processes are killed,
      leaves all other events alone, and leaves no process attached to it. */
  lemma DestroyKeepsInv(s: State, o: Id, kill: bool, e: Id)
    requires Inv(s)
    ensures Inv(Destroy(s, o, kill))
    ensures o < |s.queues| ==>
              forall p | 0 <= p < |Destroy(s, o, kill).procs| :: Destroy(s, o, kill).procs[p].debugObj != Some(o)
    ensures e < |s.events| ==>
              var t := Destroy(s, o, kill);
              && e < |t.events|
              && if On(s, o, e) && o < |s.queues|
                 then !t.events[e].linked && t.events[e].state == (if kill then s.events[e].state else Continued)
                 else t.events[e] == s.events[e]
  {
    DestroyInv(s, o, kill);
    if o < |s.queues| && e < |s.events| {
      QueueLinked(s, o);
      UnlinkEachKeepsInv(s, s.queues[o], None, !kill);
      assert QueueOk(s, o);
      assert e in s.queues[o] <==> On(s, o, e);
      if e in s.queues[o] {
        UnlinkEachGone(s, s.queues[o], None, !kill, e);
        if kill { UnlinkEachStays(s, s.queues[o], None, e); }
      } else {
        UnlinkEachAway(s, s.queues[o], None, !kill, e);
      }
    }
  }

  lemma AttachKeepsInv(s: State, p: Id, o: Id)
    requires Inv(s)
    ensures Inv(Attach(s, p, o))
  {
    if Attach(s, p, o) != s {
      forall e | 0 <= e < |s.events| && s.events[e].linked ensures ProcOf(s, e) != p { assert EventOk(s, e); }
      ForgetKeepsInv(s, Attach(s, p, o).procs);
    }
  }

  // ---------------------------------------------------------------- runs

  /** New processes, threads and debug objects, and suspend counts, do not touch events. */
  lemma GrowKeepsInv(s: State, t: State)
    requires Inv(s) && t.events == s.events && t.log == s.log
    requires |s.procs| <= |t.procs| && t.procs[..|s.procs|] == s.procs &&
             forall p | |s.procs| <= p < |t.procs| :: t.procs[p].busy == None
    requires |s.threads| <= |t.threads| && forall k | 0 <= k < |s.threads| :: t.threads[k].proc == s.threads[k].proc
    requires |s.queues| <= |t.queues| && t.queues[..|s.queues|] == s.queues &&
             forall o | |s.queues| <= o < |t.queues| :: t.queues[o] == []
    ensures Inv(t)
  {
    forall x | 0 <= x < |s.events| ensures ProcOf(t, x) == ProcOf(s, x) && EventOk(t, x) {
      assert EventOk(s, x);
      assert t.procs[ProcOf(s, x)] == t.procs[..|s.procs|][ProcOf(s, x)];
    }
    forall p | 0 <= p < |t.procs| ensures ProcOk(t, p) {
      if p < |s.procs| { assert ProcOk(s, p) && t.procs[p] == t.procs[..|s.procs|][p]; }
    }
    forall o | 0 <= o < |t.queues| ensures QueueOk(t, o) {
      if o < |s.queues| { assert QueueOk(s, o) && t.queues[o] == t.queues[..|s.queues|][o]; }
      forall x: Id ensures x in t.queues[o] <==> On(t, o, x) { assert On(t, o, x) == On(s, o, x); }
    }
    forall a: Id, b: Id ensures OrderOk(t, a, b) { assert OrderOk(s, a, b); }
    forall m: nat, n: nat ensures LogOk(t, m, n) { assert LogOk(s, m, n); }
    forall o: Id, x: Id | On(t, o, x) ensures o < |t.queues| { assert On(s, o, x); }
  }

  lemma ResumeInv(s: State, t: Id)
    requires Inv(s)
    ensures Inv(Resume(s, t))
  {
    if t < |s.threads| && s.threads[t].suspend > 0 {
      var r := s.(threads := s.threads[t := s.threads[t].(suspend := s.threads[t].suspend - 1)]);
      GrowKeepsInv(s, r);
      var p := s.threads[t].proc;
      if p < |s.procs| && s.procs[p].debugObj.Some? && s.procs[p].debugObj.value < |s.queues| {
        QueueLinked(r, s.procs[p].debugObj.value);
        ResumeEachKeepsInv(r, s.queues[s.procs[p].debugObj.value], t);
      }
    }
  }

  lemma {:induction false} ResumeEachAt(s: State, q: seq<Id>, t: Id, x: Id)
    requires x < |s.events|
    ensures var r := ResumeEach(s, q, t);
            && x < |r.events|
            && r.events[x] == if x in q && s.events[x].thread == t && s.events[x].state == Delayed
                              then s.events[x].(state := Queued) else s.events[x]
    decreases |q|
  {
    if q != [] {
      var hit := q[0] < |s.events| && s.events[q[0]].thread == t && s.events[q[0]].state == Delayed;
      ResumeEachAt(if hit then Requeue(s, q[0]) else s, q[1..], t, x);
      assert x in q <==> x == q[0] || x in q[1..];
    }
  }

  /** A thread that starts running again has its delayed events back in the queue; no other
      event changes. */
  lemma ResumeKeepsInv(s: State, t: Id, e: Id)
    requires Inv(s)
    ensures Inv(Resume(s, t))
    ensures e < |s.events| ==>
              var r := Resume(s, t);
              && e < |r.events|
              && var hit := t < |s.threads| && s.threads[t].suspend == 1 && s.events[e].linked &&
                            s.events[e].thread == t && s.events[e].state == Delayed;
                 r.events[e] == if hit then s.events[e].(state := Queued) else s.events[e]
  {
    ResumeInv(s, t);
    if e < |s.events| && t < |s.threads| && s.threads[t].suspend == 1 {
      assert EventOk(s, e);
      if s.events[e].linked { assert On(s, s.events[e].obj, e); }
      var p := s.threads[t].proc;
      if p < |s.procs| && s.procs[p].debugObj.Some? && s.procs[p].debugObj.value < |s.queues| {
        var o := s.procs[p].debugObj.value;
        assert QueueOk(s, o) && (e in s.queues[o] <==> On(s, o, e));
        ResumeEachAt(s.(threads := s.threads[t := s.threads[t].(suspend := 0)]), s.queues[o], t, e);
      }
    }
  }

  lemma ApplyKeepsInv(s: State, op: Op)
    requires Inv(s)
    ensures Inv(Apply(s, op))
  {
    match op
    case NewProcess(_) => GrowKeepsInv(s, Apply(s, op));
    case NewThread(_) => GrowKeepsInv(s, Apply(s, op));
    case NewDebugObj => GrowKeepsInv(s, Apply(s, op));
    case DoLink(t) => LinkKeepsInv(s, t);
    case DoWait(o) => WaitKeepsInv(s, o);
    case DoContinue(o, p, t, later) => ContinueKeepsInv(s, o, p, t, later);
    case DoSuspend(_) => GrowKeepsInv(s, Apply(s, op));
    case DoResume(t) => ResumeKeepsInv(s, t, 0);
    case DoAttach(p, o) => AttachKeepsInv(s, p, o);
    case DoDetach(p, o) => DetachKeepsInv(s, p, o, 0);
    case DoDestroy(o, kill) => DestroyKeepsInv(s, o, kill, 0);
  }

  lemma {:induction false} RunKeepsInv(s: State, ops: seq<Op>)
    requires Inv(s)
    ensures Inv(Run(s, ops))
    decreases |ops|
  {
    if ops != [] {
      ApplyKeepsInv(s, ops[0]);
      RunKeepsInv(Apply(s, ops[0]), ops[1..]);
    }
  }

  /** Over every run: an event in a queue is never continued, and it is with the debugger
      exactly when its process is busy with it, so that a process has at most one such event. */
  lemma EveryRunBusy(ops: seq<Op>, e: Id, f: Id)
    requires var s := Run(Initial, ops); e < |s.events| && f < |s.events| && s.events[e].linked && s.events[f].linked
    ensures var s := Run(Initial, ops);
            && ProcOf(s, e) < |s.procs| && s.events[e].obj < |s.queues|
            && e in s.queues[s.events[e].obj] && s.events[e].state != Continued
            && (s.events[e].state == Sent <==> s.procs[ProcOf(s, e)].busy == Some(e))
            && (ProcOf(s, e) == ProcOf(s, f) && s.events[e].state == Sent && s.events[f].state == Sent ==> e == f)
  {
    var s := Run(Initial, ops);
    RunKeepsInv(Initial, ops);
    assert EventOk(s, e) && EventOk(s, f) && On(s, s.events[e].obj, e) && QueueOk(s, s.events[e].obj);
  }

  /** Over every run: what a process is busy with is a linked event that was sent. */
  lemma EveryRunCurrent(ops: seq<Op>, p: Id)
    requires var s := Run(Initial, ops); p < |s.procs| && s.procs[p].busy.Some?
    ensures var s := Run(Initial, ops);
            var e := s.procs[p].busy.value;
            e < |s.events| && ProcOf(s, e) == p && s.events[e].linked && s.events[e].state == Sent
  {
    var s := Run(Initial, ops);
    RunKeepsInv(Initial, ops);
    assert ProcOk(s, p) && EventOk(s, s.procs[p].busy.value);
  }

  /** Over every run: an event that was never delayed is delivered after every older delivery
      of its process, in the order the events were linked. */
  lemma EveryRunInOrder(ops: seq<Op>, m: nat, n: nat)
    requires var s := Run(Initial, ops); m < n < |s.log|
    ensures var s := Run(Initial, ops);
            && s.log[m] < |s.events| && s.log[n] < |s.events|
            && (ProcOf(s, s.log[m]) == ProcOf(s, s.log[n]) && !s.events[s.log[n]].delayed ==> s.log[m] <= s.log[n])
  {
    RunKeepsInv(Initial, ops);
    assert LogOk(Run(Initial, ops), m, n);
  }

  // ---------------------------------------------------------------- what each request does

  /** The object debugs the process, and the thread is of it. */
  predicate MayReply(s: State, o: Id, p: Id, t: Id) {
    o < |s.queues| && p < |s.procs| && t < |s.threads| && s.procs[p].debugObj == Some(o) && s.threads[t].proc == p
  }

  /** Event x after a reply.  A plain reply continues the thread's event that is with the
      debugger and takes it off the queue.  A later reply puts it back for replay if the thread
      runs, and delays all linked events of the thread if it is suspended. */
  function Replied(s: State, o: Id, p: Id, t: Id, later: bool, x: Id): Event
    requires x < |s.events|
  {
    var ev := s.events[x];
    if !MayReply(s, o, p, t) || !ev.linked || ev.thread != t then ev
    else if later && s.threads[t].suspend > 0 then ev.(state := Delayed, delayed := true)
    else if ev.state != Sent then ev
    else if later then ev.(state := Queued)
    else ev.(state := Continued, linked := false)
  }

  lemma {:induction false} DelayEachAt(s: State, q: seq<Id>, t: Id, x: Id)
    requires x < |s.events|
    ensures var r := DelayEach(s, q, t);
            && x < |r.events|
            && r.events[x] == if x in q && s.events[x].thread == t
                              then s.events[x].(state := Delayed, delayed := true) else s.events[x]
    decreases |q|
  {
    if q != [] {
      DelayEachAt(if q[0] < |s.events| && s.events[q[0]].thread == t then Delay(s, q[0]) else s, q[1..], t, x);
      assert x in q <==> x == q[0] || x in q[1..];
    }
  }

  /** The events of a thread of the debugged process are on the queue of its object. */
  lemma OnItsQueue(s: State, o: Id, p: Id, t: Id, x: Id)
    requires Inv(s) && MayReply(s, o, p, t) && x < |s.events| && s.events[x].thread == t
    ensures x in s.queues[o] <==> s.events[x].linked
  {
    assert EventOk(s, x) && QueueOk(s, o);
    assert x in s.queues[o] <==> On(s, o, x);
  }

  /** A process, and so a thread, has at most one event with the debugger. */
  lemma OneSent(s: State, x: Id, y: Id)
    requires Inv(s) && x < |s.events| && y < |s.events| && s.events[x].thread == s.events[y].thread
    requires s.events[x].linked && s.events[y].linked && s.events[x].state == Sent && s.events[y].state == Sent
    ensures x == y
  {
    assert EventOk(s, x) && EventOk(s, y);
  }

  lemma {:induction false} SentFound(s: State, q: seq<Id>, t: Id, x: Id)
    requires x in q && x < |s.events| && s.events[x].state == Sent && s.events[x].thread == t
    ensures FindSent(s, q, t).Some?
  {
    Tail(q);
    if x != q[0] { SentFound(s, q[1..], t, x); }
  }

  lemma FoundSent(s: State, o: Id, p: Id, t: Id, x: Id)
    requires Inv(s) && MayReply(s, o, p, t) && x < |s.events|
    ensures FindSent(s, s.queues[o], t) == Some(x)
            <==> s.events[x].linked && s.events[x].thread == t && s.events[x].state == Sent
  {
    var r := FindSent(s, s.queues[o], t);
    QueueLinked(s, o);
    if s.events[x].thread == t { OnItsQueue(s, o, p, t, x); }
    if s.events[x].linked && s.events[x].thread == t && s.events[x].state == Sent {
      SentFound(s, s.queues[o], t, x);
      OneSent(s, r.value, x);
    }
  }

  lemma {:induction false} DelayEachSize(s: State, q: seq<Id>, t: Id)
    ensures |DelayEach(s, q, t).events| == |s.events|
    decreases |q|
  {
    if q != [] {
      DelayEachSize(if q[0] < |s.events| && s.events[q[0]].thread == t then Delay(s, q[0]) else s, q[1..], t);
    }
  }

  /** What a reply does to every event there is. */
  lemma ContinueExact(s: State, o: Id, p: Id, t: Id, later: bool, x: Id)
    requires Inv(s) && x < |s.events|
    ensures var r := Continue(s, o, p, t, later);
            |r.events| == |s.events| && r.events[x] == Replied(s, o, p, t, later, x)
  {
    if MayReply(s, o, p, t) {
      if s.events[x].thread == t { OnItsQueue(s, o, p, t, x); }
      if later && s.threads[t].suspend > 0 {
        DelayEachAt(s, s.queues[o], t, x);
        DelayEachSize(s, s.queues[o], t);
      } else {
        FoundSent(s, o, p, t, x);
      }
    }
  }

  /** The same for all events at once. */
  lemma ContinueEach(s: State, o: Id, p: Id, t: Id, later: bool)
    requires Inv(s)
    ensures var r := Continue(s, o, p, t, later);
            |r.events| == |s.events| && forall x | 0 <= x < |s.events| :: r.events[x] == Replied(s, o, p, t, later, x)
  {
    var r := Continue(s, o, p, t, later);
    if MayReply(s, o, p, t) { DelayEachSize(s, s.queues[o], t); }
    forall x | 0 <= x < |s.events| ensures |r.events| == |s.events| && r.events[x] == Replied(s, o, p, t, later, x) {
      ContinueExact(s, o, p, t, later, x);
    }
  }

  lemma NotBusyWith(s: State, r: State, e: Id, b: Id)
    requires Inv(s) && Inv(r) && e < |s.events| && e < |r.events| && b < |s.events| && b < |r.events|
    requires s.events[e].linked && s.events[e].state == Sent && !(r.events[e].linked && r.events[e].state == Sent)
    requires ProcOf(s, b) == ProcOf(s, e) && ProcOf(r, b) == ProcOf(s, b)
    requires b != e ==> r.events[b] == s.events[b] || r.events[b].state != Sent
    ensures Busy(r, ProcOf(r, b)) != Some(b)
  {
    assert EventOk(s, e) && EventOk(s, b) && EventOk(r, b);
  }

  lemma {:induction false} DelayEachKeepsOthers(s: State, q: seq<Id>, t: Id)
    ensures var r := DelayEach(s, q, t); r.threads == s.threads && |r.procs| == |s.procs| && r.log == s.log
    ensures forall k | 0 <= k < |s.procs| :: DelayEach(s, q, t).procs[k].debugObj == s.procs[k].debugObj
    decreases |q|
  {
    if q != [] {
      DelayEachKeepsOthers(if q[0] < |s.events| && s.events[q[0]].thread == t then Delay(s, q[0]) else s, q[1..], t);
    }
  }

  lemma ContinueKeepsOthers(s: State, o: Id, p: Id, t: Id, later: bool)
    ensures var r := Continue(s, o, p, t, later);
            && r.threads == s.threads && |r.procs| == |s.procs| && r.log == s.log
            && forall k | 0 <= k < |s.procs| :: r.procs[k].debugObj == s.procs[k].debugObj
  {
    if o < |s.queues| { DelayEachKeepsOthers(s, s.queues[o], t); }
  }

  /** The debugger no longer has an event of the process once it has replied to it. */
  lemma ContinueFrees(s: State, o: Id, p: Id, t: Id, later: bool)
    requires Inv(s) && MayReply(s, o, p, t)
    requires exists e :: 0 <= e < |s.events|
                         && s.events[e].linked && s.events[e].thread == t && s.events[e].state == Sent
    ensures var r := Continue(s, o, p, t, later); p < |r.procs| && r.procs[p].busy.None?
  {
    var r := Continue(s, o, p, t, later);
    var e :| 0 <= e < |s.events| && s.events[e].linked && s.events[e].thread == t && s.events[e].state == Sent;
    ContinueKeepsInv(s, o, p, t, later);
    ContinueExact(s, o, p, t, later, e);
    ContinueKeepsOthers(s, o, p, t, later);
    assert EventOk(s, e) && ProcOk(r, p);
    if r.procs[p].busy.Some? {
      var b := r.procs[p].busy.value;
      ContinueExact(s, o, p, t, later, b);
      NotBusyWith(s, r, e, b);
    }
  }

  /** An event that can go to the debugger: linked, not with it already, not delayed, and its
      process not busy with another. */
  predicate Sendable(s: State, o: Id, e: Id) {
    On(s, o, e) && s.events[e].state == Queued && Busy(s, ProcOf(s, e)).None?
  }

  ghost predicate FirstSendable(s: State, o: Id, e: Id) {
    Sendable(s, o, e) && forall x: Id | x < e :: !Sendable(s, o, x)
  }

  lemma {:induction false} SendsOldest(s: State, q: seq<Id>, x: Id)
    requires Ascending(q) && x in q && CanSend(s, x)
    ensures var r := FindToSend(s, q); r.Some? && r.value <= x
  {
    Tail(q);
    if !CanSend(s, q[0]) { SendsOldest(s, q[1..], x); }
  }

  lemma ChosenFirst(s: State, o: Id, e: Id)
    requires Inv(s) && o < |s.queues|
    ensures FindToSend(s, s.queues[o]) == Some(e) <==> FirstSendable(s, o, e)
  {
    var q := s.queues[o];
    assert QueueOk(s, o);
    forall x: Id ensures Sendable(s, o, x) <==> x in q && CanSend(s, x) {
      assert x in q <==> On(s, o, x);
      if x < |s.events| { assert EventOk(s, x); }
    }
    forall x: Id | Sendable(s, o, x) ensures var r := FindToSend(s, q); r.Some? && r.value <= x {
      SendsOldest(s, q, x);
    }
  }

  /** A wait delivers the oldest event of the object that can be sent, if there is one, and
      changes no other event. */
  lemma WaitExact(s: State, o: Id, x: Id)
    requires Inv(s) && o < |s.queues| && x < |s.events|
    ensures var r := Wait(s, o);
            && |r.events| == |s.events|
            && r.events[x] ==
               (if FirstSendable(s, o, x) then s.events[x].(state := Sent, sent := true) else s.events[x])
            && (FirstSendable(s, o, x) ==> r.log == s.log + [x] && Busy(r, ProcOf(s, x)) == Some(x))
            && ((forall e: Id :: !FirstSendable(s, o, e)) ==> r == s)
  {
    var e := FindToSend(s, s.queues[o]);
    ChosenFirst(s, o, x);
    if e.Some? {
      ChosenFirst(s, o, e.value);
      QueueLinked(s, o);
      assert EventOk(s, e.value);
    }
  }

  /** A thread of a debugged process queues one event at its object; other threads none. */
  lemma LinkExact(s: State, t: Id)
    requires Inv(s)
    ensures var r, n := Link(s, t), |s.events|;
            if t < |s.threads| && s.threads[t].proc < |s.procs| && s.procs[s.threads[t].proc].debugObj.Some?
               && s.procs[s.threads[t].proc].debugObj.value < |s.queues|
            then && |r.events| == n + 1 && r.events[..n] == s.events && r.procs == s.procs && r.log == s.log
                 && r.events[n].thread == t && r.events[n].linked && r.events[n].state == Queued
                 && !r.events[n].delayed && !r.events[n].sent
                 && Some(r.events[n].obj) == s.procs[s.threads[t].proc].debugObj
            else r == s
  {
  }

  lemma {:induction false} UnlinkEachKeepsRest(s: State, q: seq<Id>, p: Option<Id>, done: bool)
    ensures var t := UnlinkEach(s, q, p, done);
            && t.threads == s.threads && t.log == s.log && |t.procs| == |s.procs|
            && forall k | 0 <= k < |s.procs| :: t.procs[k].debugObj == s.procs[k].debugObj
    decreases |q|
  {
    if q != [] {
      var m := if p == None || p == Some(ProcOf(s, q[0])) then Unlink(s, q[0], done) else s;
      UnlinkEachKeepsRest(m, q[1..], p, done);
    }
  }

  lemma {:induction false} ResumeEachKeepsRest(s: State, q: seq<Id>, t: Id)
    ensures var r := ResumeEach(s, q, t);
            && r.threads == s.threads && r.log == s.log && |r.procs| == |s.procs|
            && forall k | 0 <= k < |s.procs| :: r.procs[k].debugObj == s.procs[k].debugObj
    decreases |q|
  {
    if q != [] {
      var hit := q[0] < |s.events| && s.events[q[0]].thread == t && s.events[q[0]].state == Delayed;
      ResumeEachKeepsRest(if hit then Requeue(s, q[0]) else s, q[1..], t);
    }
  }

  /** Which object debugs process p after a step. */
  function DebugObjAfter(s: State, op: Op, p: Id): Option<Id>
    requires p < |s.procs|
  {
    var o := s.procs[p].debugObj;
    match op
    case DoAttach(q, n) => if q == p && o.None? && n < |s.queues| then Some(n) else o
    case DoDetach(q, n) => if q == p && o == Some(n) && n < |s.queues| then None else o
    case DoDestroy(n, _) => if o == Some(n) && n < |s.queues| then None else o
    case _ => o
  }

  lemma ResumeKeepsRest(s: State, t: Id)
    ensures var r := Resume(s, t);
            && r.log == s.log && |r.procs| == |s.procs|
            && (forall k | 0 <= k < |s.procs| :: r.procs[k].debugObj == s.procs[k].debugObj)
            && |r.threads| == |s.threads|
            && forall k | 0 <= k < |s.threads| ::
                 r.threads[k] == if k == t && s.threads[k].suspend > 0
                                 then s.threads[k].(suspend := s.threads[k].suspend - 1) else s.threads[k]
  {
    if t < |s.threads| && s.threads[t].suspend > 0 {
      var m := s.(threads := s.threads[t := s.threads[t].(suspend := s.threads[t].suspend - 1)]);
      var p := s.threads[t].proc;
      if p < |s.procs| && s.procs[p].debugObj.Some? && s.procs[p].debugObj.value < |s.queues| {
        ResumeEachKeepsRest(m, s.queues[s.procs[p].debugObj.value], t);
      }
    }
  }

  /** Processes are attached and detached by just the requests for that. */
  lemma StepOnProcess(s: State, op: Op, p: Id)
    requires p < |s.procs|
    ensures var r := Apply(s, op); p < |r.procs| && r.procs[p].debugObj == DebugObjAfter(s, op, p)
  {
    match op
    case DoContinue(o, q, t, later) => ContinueKeepsOthers(s, o, q, t, later);
    case DoResume(t) => ResumeKeepsRest(s, t);
    case DoDetach(q, o) => if o < |s.queues| { UnlinkEachKeepsRest(s, s.queues[o], Some(q), true); }
    case DoDestroy(o, kill) => if o < |s.queues| { UnlinkEachKeepsRest(s, s.queues[o], None, !kill); }
    case _ =>
  }

  /** Suspend counts go up and down by one, between 0 and their maximum. */
  lemma StepOnThread(s: State, op: Op, t: Id)
    requires t < |s.threads|
    ensures var r, n := Apply(s, op), s.threads[t].suspend;
            && t < |r.threads| && r.threads[t].proc == s.threads[t].proc
            && r.threads[t].suspend == if op == DoSuspend(t) && n < MAXIMUM_SUSPEND_COUNT then n + 1
                                       else if op == DoResume(t) && n > 0 then n - 1 else n
  {
    match op
    case DoContinue(o, q, u, later) => ContinueKeepsOthers(s, o, q, u, later);
    case DoResume(u) => ResumeKeepsRest(s, u);
    case DoDetach(q, o) => if o < |s.queues| { UnlinkEachKeepsRest(s, s.queues[o], Some(q), true); }
    case DoDestroy(o, kill) => if o < |s.queues| { UnlinkEachKeepsRest(s, s.queues[o], None, !kill); }
    case _ =>
  }

  /** Only a wait delivers, and one event at most. */
  lemma StepOnLog(s: State, op: Op)
    requires Inv(s)
    ensures Apply(s, op).log == s.log || (op.DoWait? && exists e :: Apply(s, op).log == s.log + [e])
  {
    match op
    case DoContinue(o, q, t, later) => ContinueKeepsOthers(s, o, q, t, later);
    case DoResume(t) => ResumeKeepsRest(s, t);
    case DoDetach(q, o) => if o < |s.queues| { UnlinkEachKeepsRest(s, s.queues[o], Some(q), true); }
    case DoDestroy(o, kill) => if o < |s.queues| { UnlinkEachKeepsRest(s, s.queues[o], None, !kill); }
    case _ =>
  }

  /** New processes, threads and objects, suspending and attaching leave every event alone. */
  lemma StepAsideKeepsEvents(s: State, op: Op)
    requires op.NewProcess? || op.NewThread? || op.NewDebugObj? || op.DoSuspend? || op.DoAttach?
    ensures Apply(s, op).events == s.events
  {
  }

  // ---------------------------------------------------------------- the code

  class Debugger {
    var procs: seq<Process>
    var threads: seq<Thread>
    var queues: seq<seq<Id>>
    var events: seq<Event>
    var log: seq<Id>

    function View(): State
      reads this
    {
      State(procs, threads, queues, events, log)
    }

    /** find_event_to_send */
    method FindEventToSend(o: Id) returns (r: Option<Id>)
      requires o < |queues|
      ensures r == FindToSend(View(), queues[o])
    {
      var q, k := queues[o], 0;
      while k < |q|
        invariant 0 <= k <= |q| && FindToSend(View(), q[k..]) == FindToSend(View(), q)
      {
        if CanSend(View(), q[k]) { return Some(q[k]); }
        assert q[k..][1..] == q[k + 1..];
        k := k + 1;
      }
      r := None;
    }

    /** wait_debug_event */
    method WaitDebugEvent(o: Id) returns (r: Option<Id>)
      requires o < |queues| && Inv(View())
      modifies this
      ensures View() == Wait(old(View()), o)
      ensures r == FindToSend(old(View()), old(queues[o]))
      ensures r.Some? ==> Busy(View(), ProcOf(View(), r.value)) == r
    {
      r := FindEventToSend(o);
      if r.Some? {
        var e := r.value;
        QueueLinked(View(), o);
        assert EventOk(View(), e);
        var p := ProcOf(View(), e);
        events := events[e := events[e].(state := Sent, sent := true)];
        procs := procs[p := procs[p].(busy := Some(e))];
        log := log + [e];
      }
    }

    method UnlinkEvent(e: Id, done: bool)
      requires e < |events|
      modifies this`procs, this`queues, this`events
      ensures View() == Unlink(old(View()), e, done)
    {
      var p, o := ProcOf(View(), e), events[e].obj;
      if done { events := events[e := events[e].(state := Continued)]; }
      if o < |queues| { queues := queues[o := Without(queues[o], e)]; }
      if p < |procs| && procs[p].busy == Some(e) { procs := procs[p := procs[p].(busy := None)]; }
      events := events[e := events[e].(linked := false)];
    }

    method DelayEvent(e: Id)
      requires e < |events|
      modifies this`procs, this`events
      ensures View() == Delay(old(View()), e)
    {
      var p := ProcOf(View(), e);
      events := events[e := events[e].(state := Delayed, delayed := true)];
      if p < |procs| && procs[p].busy == Some(e) { procs := procs[p := procs[p].(busy := None)]; }
    }

    /** Delay all events of a thread in the queue. */
    method DelayThread(q: seq<Id>, t: Id)
      modifies this`procs, this`events
      ensures View() == DelayEach(old(View()), q, t)
    {
      var k := 0;
      while k < |q|
        invariant 0 <= k <= |q| && DelayEach(View(), q[k..], t) == DelayEach(old(View()), q, t)
      {
        assert q[k..][1..] == q[k + 1..];
        if q[k] < |events| && events[q[k]].thread == t { DelayEvent(q[k]); }
        k := k + 1;
      }
    }

    method FindSentEvent(q: seq<Id>, t: Id) returns (r: Option<Id>)
      ensures r == FindSent(View(), q, t)
    {
      var k := 0;
      while k < |q|
        invariant 0 <= k <= |q| && FindSent(View(), q[k..], t) == FindSent(View(), q, t)
      {
        if q[k] < |events| && events[q[k]].state == Sent && events[q[k]].thread == t { return Some(q[k]); }
        assert q[k..][1..] == q[k + 1..];
        k := k + 1;
      }
      r := None;
    }

    /** continue_debug_event; `later` stands for DBG_REPLY_LATER. */
    method ContinueDebugEvent(o: Id, p: Id, t: Id, later: bool) returns (ok: bool)
      requires o < |queues| && p < |procs| && t < |threads| && Inv(View())
      modifies this
      ensures View() == Continue(old(View()), o, p, t, later)
      ensures ok <==> old(MayReply(View(), o, p, t)) && (later || old(FindSent(View(), queues[o], t)).Some?)
      ensures !ok ==> View() == old(View())
      ensures |events| == |old(events)|
      ensures forall x | 0 <= x < |events| :: events[x] == Replied(old(View()), o, p, t, later, x)
    {
      ContinueEach(View(), o, p, t, later);
      if procs[p].debugObj != Some(o) || threads[t].proc != p { return false; }
      var q := queues[o];
      if later && threads[t].suspend > 0 {
        DelayThread(q, t);
        return true;
      }
      var r := FindSentEvent(q, t);
      if r.None? { return later; }
      SentIsBusy(View(), o, t);
      assert procs[ProcOf(View(), r.value)].busy == r;
      if later {
        procs := procs[ProcOf(View(), r.value) := procs[ProcOf(View(), r.value)].(busy := None)];
        events := events[r.value := events[r.value].(state := Queued)];
      } else {
        UnlinkEvent(r.value, true);
      }
      return true;
    }

    /** debugger_detach */
    method DebuggerDetach(p: Id, o: Id)
      requires o < |queues| && p < |procs| && procs[p].debugObj == Some(o) && Inv(View())
      modifies this
      ensures View() == Detach(old(View()), p, o)
    {
      var q, k := queues[o], 0;
      QueueLinked(View(), o);
      UnlinkEachKeepsInv(View(), q, Some(p), true);
      while k < |q|
        invariant 0 <= k <= |q| && |events| == |old(events)| && |procs| == |old(procs)|
        invariant UnlinkEach(View(), q[k..], Some(p), true) == UnlinkEach(old(View()), q, Some(p), true)
      {
        assert q[k..][1..] == q[k + 1..] && q[k] in q;
        if ProcOf(View(), q[k]) == p { UnlinkEvent(q[k], true); }
        k := k + 1;
      }
      procs := procs[p := procs[p].(debugObj := None)];
    }
  }
}
