/** The requests of a console server during one connection (server/console.c): a queue of
    ioctls, a second queue for blocking reads, and the flag for the ioctl being served.

    Ioctls are numbered in the order they are queued.  The counters `handed` and `finished`
    only record history: no step reads them.
 */
module ConsoleQueue {

  type Id = nat

  datatype Code = ReadInput | ReadConsole | ReadConsoleControl | ReadFile | OtherCode(code: nat)

  datatype Ioctl = Ioctl(code: Code, handed: nat, finished: nat)

  datatype State = State(ioctls: seq<Ioctl>, queue: seq<Id>, readQueue: seq<Id>, busy: bool)

  const Initial := State([], [], [], false)

  predicate IsBlockingRead(code: Code) {
    !code.OtherCode?
  }

  predicate Blocking(ioctls: seq<Ioctl>, i: Id) {
    i < |ioctls| && IsBlockingRead(ioctls[i].code)
  }

  // ---------------------------------------------------------------- the operations

  function Finish(ioctls: seq<Ioctl>, i: Id): seq<Ioctl> {
    if i < |ioctls| then ioctls[i := ioctls[i].(finished := ioctls[i].finished + 1)] else ioctls
  }

  function Hand(ioctls: seq<Ioctl>, i: Id): seq<Ioctl> {
    if i < |ioctls| then ioctls[i := ioctls[i].(handed := ioctls[i].handed + 1)] else ioctls
  }

  /** The blocking reads of a queue, or the rest of it. */
  function Select(ioctls: seq<Ioctl>, q: seq<Id>, blocking: bool): (r: seq<Id>)
    ensures forall i :: i in r <==> i in q && Blocking(ioctls, i) == blocking
  {
    if q == [] then []
    else if Blocking(ioctls, q[0]) == blocking then [q[0]] + Select(ioctls, q[1..], blocking)
    else Select(ioctls, q[1..], blocking)
  }

  /** queue_host_ioctl */
  function Submit(s: State, code: Code, allocOk: bool): State {
    if !allocOk then s
    else s.(ioctls := s.ioctls + [Ioctl(code, 0, 0)], queue := s.queue + [|s.ioctls|])
  }

  /** The server reports that the outstanding read is done. */
  function EndRead(s: State): State {
    if s.readQueue == [] then s
    else s.(ioctls := Finish(s.ioctls, s.readQueue[0]), queue := s.queue + s.readQueue[1..], readQueue := [])
  }

  /** The server reports on the ioctl it was given before, if any. */
  function EndBusy(s: State): State {
    if !s.busy || s.queue == [] then s
    else s.(ioctls := Finish(s.ioctls, s.queue[0]), queue := s.queue[1..], busy := false)
  }

  /** Blocking reads make way while another read is still waiting. */
  function Sort(s: State): State {
    if s.queue == [] || s.readQueue == [] || !Blocking(s.ioctls, s.queue[0]) then s
    else s.(queue := Select(s.ioctls, s.queue, false), readQueue := s.readQueue + Select(s.ioctls, s.queue, true))
  }

  /** Hand out the queue head if its data fits the reply. */
  function HandOut(s: State, fits: bool): State {
    if s.queue == [] || !fits then s
    else
      var t := s.(ioctls := Hand(s.ioctls, s.queue[0]));
      if Blocking(s.ioctls, s.queue[0]) then t.(queue := s.queue[1..], readQueue := s.readQueue + [s.queue[0]])
      else t.(busy := true)
  }

  /** get_next_console_request */
  function NextRequest(s: State, read: bool, fits: bool): State {
    if read then EndRead(s) else HandOut(Sort(EndBusy(s)), fits)
  }

  function FinishAll(ioctls: seq<Ioctl>, q: seq<Id>): seq<Ioctl>
    decreases |q|
  {
    if q == [] then ioctls else FinishAll(Finish(ioctls, q[0]), q[1..])
  }

  /** disconnect_console_server, after which the connection has no more requests. */
  function Disconnect(s: State): State {
    s.(ioctls := FinishAll(FinishAll(s.ioctls, s.queue), s.readQueue), queue := [], readQueue := [])
  }

  // ---------------------------------------------------------------- the invariant

  ghost function Places(s: State, i: Id): nat {
    multiset(s.queue)[i] + multiset(s.readQueue)[i]
  }

  predicate Unfinished(s: State, i: Id) {
    i < |s.ioctls| && s.ioctls[i].finished == 0
  }

  /** Handed out and not yet reported on. */
  predicate Outstanding(s: State, i: Id) {
    (s.busy && s.queue != [] && s.queue[0] == i) || (s.readQueue != [] && s.readQueue[0] == i)
  }

  ghost predicate IoctlOk(s: State, i: Id) {
    && Places(s, i) == (if Unfinished(s, i) then 1 else 0)
    && (i < |s.ioctls| ==>
          var c := s.ioctls[i];
          c.handed <= 1 && c.finished <= c.handed && (c.handed == 1 && c.finished == 0 <==> Outstanding(s, i)))
  }

  /** The ioctls of a queue that are not blocking reads are in the order they were made. */
  ghost predicate InOrder(ioctls: seq<Ioctl>, q: seq<Id>) {
    q == [] ||
    (InOrder(ioctls, q[1..])
     && (!Blocking(ioctls, q[0]) ==> forall j | j in q[1..] && !Blocking(ioctls, j) :: q[0] < j))
  }

  ghost predicate Shape(s: State) {
    && (s.busy ==> s.queue != [] && !Blocking(s.ioctls, s.queue[0]))
    && (forall i | i in s.readQueue :: Blocking(s.ioctls, i))
    && (forall i | i in s.queue :: i < |s.ioctls|)
    && InOrder(s.ioctls, s.queue)
  }

  predicate HandedAfter(ioctls: seq<Ioctl>, i: Id, j: Id) {
    i < j < |ioctls| && !Blocking(ioctls, i) && !Blocking(ioctls, j) && ioctls[j].handed > 0 ==> ioctls[i].handed > 0
  }

  /** No ioctl other than a blocking read was handed out before an earlier one. */
  ghost predicate Fifo(ioctls: seq<Ioctl>) {
    forall i, j {:trigger HandedAfter(ioctls, i, j)} :: HandedAfter(ioctls, i, j)
  }

  ghost predicate Inv(s: State) {
    Shape(s) && Fifo(s.ioctls) && forall i {:trigger IoctlOk(s, i)} :: IoctlOk(s, i)
  }

  // ---------------------------------------------------------------- each step keeps it

  predicate SameCodes(a: seq<Ioctl>, b: seq<Ioctl>) {
    |a| <= |b| && forall i | 0 <= i < |a| :: a[i].code == b[i].code
  }

  lemma Tail(q: seq<Id>)
    requires q != []
    ensures forall i :: i in q <==> i == q[0] || i in q[1..]
  {
    assert q == [q[0]] + q[1..];
  }

  lemma {:induction false} InOrderSameCodes(a: seq<Ioctl>, b: seq<Ioctl>, q: seq<Id>)
    requires InOrder(a, q) && SameCodes(a, b) && forall i | i in q :: i < |a|
    ensures InOrder(b, q)
  {
    if q != [] {
      Tail(q);
      InOrderSameCodes(a, b, q[1..]);
    }
  }

  /** Appending blocking reads, or anything newer than all before it. */
  lemma {:induction false} InOrderAppend(ioctls: seq<Ioctl>, q: seq<Id>, more: seq<Id>)
    requires InOrder(ioctls, q) && InOrder(ioctls, more)
    requires forall i, j | i in q && j in more && !Blocking(ioctls, j) :: i < j
    ensures InOrder(ioctls, q + more)
  {
    if q == [] {
      assert q + more == more;
    } else {
      Tail(q);
      InOrderAppend(ioctls, q[1..], more);
      assert (q + more)[1..] == q[1..] + more;
    }
  }

  lemma {:induction false} InOrderReads(ioctls: seq<Ioctl>, q: seq<Id>)
    requires forall i | i in q :: Blocking(ioctls, i)
    ensures InOrder(ioctls, q)
  {
    if q != [] {
      Tail(q);
      InOrderReads(ioctls, q[1..]);
    }
  }

  lemma {:induction false} InOrderSelect(ioctls: seq<Ioctl>, q: seq<Id>, blocking: bool)
    requires InOrder(ioctls, q)
    ensures InOrder(ioctls, Select(ioctls, q, blocking))
  {
    if q != [] {
      InOrderSelect(ioctls, q[1..], blocking);
      var r := Select(ioctls, q, blocking);
      assert Blocking(ioctls, q[0]) == blocking ==> r[1..] == Select(ioctls, q[1..], blocking);
    }
  }

  lemma {:induction false} SelectSplits(ioctls: seq<Ioctl>, q: seq<Id>, i: Id)
    ensures multiset(Select(ioctls, q, true))[i] + multiset(Select(ioctls, q, false))[i] == multiset(q)[i]
  {
    if q != [] {
      SelectSplits(ioctls, q[1..], i);
      assert q == [q[0]] + q[1..];
    }
  }

  lemma HeadCount(q: seq<Id>, i: Id)
    requires q != []
    ensures multiset(q)[i] == multiset(q[1..])[i] + (if i == q[0] then 1 else 0)
  {
    assert q == [q[0]] + q[1..];
  }

  lemma SubmitKeepsInv(s: State, code: Code)
    requires Inv(s)
    ensures Inv(Submit(s, code, true))
  {
    var t, n := Submit(s, code, true), |s.ioctls|;
    InOrderSameCodes(s.ioctls, t.ioctls, s.queue);
    assert s.queue != [] ==> s.queue[0] in s.queue;
    assert [n][1..] == [];
    InOrderAppend(t.ioctls, s.queue, [n]);
    forall i ensures IoctlOk(t, i) {
      assert IoctlOk(s, i);
      assert s.queue != [] ==> t.queue[0] == s.queue[0];
    }
    forall i, j ensures HandedAfter(t.ioctls, i, j) { assert HandedAfter(s.ioctls, i, j); }
  }

  lemma EndReadIoctl(s: State, i: Id)
    requires s.readQueue != [] && IoctlOk(s, i) && IoctlOk(s, s.readQueue[0])
    requires s.busy ==> s.queue != []
    ensures IoctlOk(EndRead(s), i)
  {
    HeadCount(s.readQueue, i);
    HeadCount(s.readQueue, s.readQueue[0]);
  }

  lemma EndReadKeepsInv(s: State)
    requires Inv(s) && s.readQueue != []
    ensures Inv(EndRead(s))
  {
    var t, r := EndRead(s), s.readQueue[0];
    assert IoctlOk(s, r);
    Tail(s.readQueue);
    InOrderSameCodes(s.ioctls, t.ioctls, s.queue);
    InOrderReads(t.ioctls, s.readQueue[1..]);
    InOrderAppend(t.ioctls, s.queue, s.readQueue[1..]);
    forall i ensures IoctlOk(t, i) { EndReadIoctl(s, i); }
    forall i, j ensures HandedAfter(t.ioctls, i, j) { assert HandedAfter(s.ioctls, i, j); }
  }

  lemma EndBusyKeepsInv(s: State)
    requires Inv(s)
    ensures Inv(EndBusy(s)) && !EndBusy(s).busy
  {
    if s.busy {
      var t, r := EndBusy(s), s.queue[0];
      assert IoctlOk(s, r);
      Tail(s.queue);
      InOrderSameCodes(s.ioctls, t.ioctls, t.queue);
      forall i ensures IoctlOk(t, i) {
        assert IoctlOk(s, i);
        HeadCount(s.queue, i);
      }
      forall i, j ensures HandedAfter(t.ioctls, i, j) { assert HandedAfter(s.ioctls, i, j); }
    }
  }

  /** Also the assertion in get_next_console_request: a blocking read at the head of the queue
      finds the read queue empty. */
  lemma SortKeepsInv(s: State)
    requires Inv(s) && !s.busy
    ensures Inv(Sort(s)) && !Sort(s).busy
    ensures var t := Sort(s); t.queue != [] && Blocking(t.ioctls, t.queue[0]) ==> t.readQueue == []
  {
    var t := Sort(s);
    if t != s {
      InOrderSelect(s.ioctls, s.queue, false);
      forall i ensures IoctlOk(t, i) {
        assert IoctlOk(s, i);
        SelectSplits(s.ioctls, s.queue, i);
      }
      assert t.queue != [] ==> t.queue[0] in t.queue;
    }
  }

  /** An ioctl older than the head of the queue has been handed out, blocking reads aside. */
  lemma EarlierWasHanded(s: State, i: Id)
    requires Inv(s) && s.queue != [] && i < s.queue[0]
    requires !Blocking(s.ioctls, s.queue[0]) && !Blocking(s.ioctls, i)
    ensures i < |s.ioctls| && s.ioctls[i].handed > 0
  {
    assert IoctlOk(s, i);
    HeadCount(s.queue, i);
    Tail(s.queue);
    assert s.queue[0] in s.queue && i !in s.readQueue;
  }

  lemma HandOutKeepsInv(s: State, fits: bool)
    requires Inv(s) && !s.busy
    requires s.queue != [] && Blocking(s.ioctls, s.queue[0]) ==> s.readQueue == []
    ensures Inv(HandOut(s, fits))
  {
    if s.queue != [] && fits {
      var t, r := HandOut(s, fits), s.queue[0];
      assert IoctlOk(s, r);
      HeadCount(s.queue, r);
      Tail(s.queue);
      InOrderSameCodes(s.ioctls, t.ioctls, t.queue);
      forall i ensures IoctlOk(t, i) {
        assert IoctlOk(s, i);
        HeadCount(s.queue, i);
      }
      forall i, j ensures HandedAfter(t.ioctls, i, j) {
        assert HandedAfter(s.ioctls, i, j);
        if j == r && i < j && !Blocking(s.ioctls, i) && !Blocking(s.ioctls, j) { EarlierWasHanded(s, i); }
      }
    }
  }

  lemma NextRequestKeepsInv(s: State, read: bool, fits: bool)
    requires Inv(s)
    ensures Inv(NextRequest(s, read, fits))
  {
    if read {
      if s.readQueue != [] { EndReadKeepsInv(s); }
    } else {
      EndBusyKeepsInv(s);
      SortKeepsInv(EndBusy(s));
      HandOutKeepsInv(Sort(EndBusy(s)), fits);
    }
  }

  // ---------------------------------------------------------------- runs

  datatype Op = DoSubmit(code: Code, allocOk: bool) | DoNext(read: bool, fits: bool)

  function Apply(s: State, op: Op): State {
    match op
    case DoSubmit(code, allocOk) => Submit(s, code, allocOk)
    case DoNext(read, fits) => NextRequest(s, read, fits)
  }

  function Run(s: State, ops: seq<Op>): State
    decreases |ops|
  {
    if ops == [] then s else Run(Apply(s, ops[0]), ops[1..])
  }

  lemma {:induction false} RunKeepsInv(s: State, ops: seq<Op>)
    requires Inv(s)
    ensures Inv(Run(s, ops))
    decreases |ops|
  {
    if ops != [] {
      match ops[0] {
        case DoSubmit(code, allocOk) => if allocOk { SubmitKeepsInv(s, code); }
        case DoNext(read, fits) => NextRequestKeepsInv(s, read, fits);
      }
      RunKeepsInv(Apply(s, ops[0]), ops[1..]);
    }
  }

  lemma ReachableInv(ops: seq<Op>)
    ensures Inv(Run(Initial, ops))
  {
    forall i ensures IoctlOk(Initial, i) { }
    RunKeepsInv(Initial, ops);
  }

  /** Over every run of a connection, about ioctl i: it is in one place until it is finished,
      which happens once and only after it was handed out once; the one ioctl being served is
      the head of its queue; others are handed out in the order they were made. */
  lemma EveryRun(ops: seq<Op>, i: Id)
    requires i < |Run(Initial, ops).ioctls|
    ensures var s := Run(Initial, ops);
            var c := s.ioctls[i];
            && c.finished <= c.handed <= 1
            && Places(s, i) == 1 - c.finished
            && (c.handed == 1 && c.finished == 0 <==>
                  if Blocking(s.ioctls, i) then s.readQueue != [] && i == s.readQueue[0]
                  else s.busy && s.queue != [] && i == s.queue[0])
            && (!Blocking(s.ioctls, i) && c.handed == 1 ==>
                  forall j | 0 <= j < i && !Blocking(s.ioctls, j) :: s.ioctls[j].handed == 1)
    ensures var s := Run(Initial, ops);
            && (s.busy ==> s.queue != [] && !Blocking(s.ioctls, s.queue[0]))
            && (s.readQueue != [] ==> Blocking(s.ioctls, s.readQueue[0]))
  {
    var s := Run(Initial, ops);
    ReachableInv(ops);
    assert IoctlOk(s, i);
    assert s.readQueue != [] ==> s.readQueue[0] in s.readQueue;
    forall j | 0 <= j < i && !Blocking(s.ioctls, i) && s.ioctls[i].handed == 1 && !Blocking(s.ioctls, j)
      ensures s.ioctls[j].handed == 1
    {
      assert HandedAfter(s.ioctls, j, i) && IoctlOk(s, j);
    }
  }

  /** The assertion before a blocking read is handed out never fails. */
  lemma ReadQueueIsEmpty(ops: seq<Op>)
    ensures var t := Sort(EndBusy(Run(Initial, ops)));
            t.queue != [] && Blocking(t.ioctls, t.queue[0]) ==> t.readQueue == []
  {
    var s := Run(Initial, ops);
    ReachableInv(ops);
    EndBusyKeepsInv(s);
    SortKeepsInv(EndBusy(s));
  }

  lemma {:induction false} FinishAllCounts(ioctls: seq<Ioctl>, q: seq<Id>, i: Id)
    requires i < |ioctls|
    ensures |FinishAll(ioctls, q)| == |ioctls|
    ensures FinishAll(ioctls, q)[i].finished == ioctls[i].finished + multiset(q)[i]
    decreases |q|
  {
    if q != [] {
      HeadCount(q, i);
      FinishAllCounts(Finish(ioctls, q[0]), q[1..], i);
    }
  }

  /** Whatever happened before, once the server is gone every ioctl was finished exactly once. */
  lemma DisconnectFinishesAll(ops: seq<Op>, i: Id)
    requires i < |Run(Initial, ops).ioctls|
    ensures var t := Disconnect(Run(Initial, ops));
            && |t.ioctls| == |Run(Initial, ops).ioctls| && t.queue == [] && t.readQueue == []
            && t.ioctls[i].finished == 1
  {
    var s := Run(Initial, ops);
    ReachableInv(ops);
    assert IoctlOk(s, i);
    FinishAllCounts(s.ioctls, s.queue, i);
    FinishAllCounts(FinishAll(s.ioctls, s.queue), s.readQueue, i);
  }

  lemma RunStep(s: State, op: Op, ops: seq<Op>)
    ensures Run(s, [op] + ops) == Run(Apply(s, op), ops)
  {
    assert ([op] + ops)[1..] == ops;
  }

  // ---------------------------------------------------------------- blocking reads

  /** The blocking reads that have not been handed out, in the order they would be. */
  function Waiting(s: State): seq<Id> {
    (if s.readQueue == [] then [] else s.readQueue[1..]) + Select(s.ioctls, s.queue, true)
  }

  ghost predicate Ascending(q: seq<Id>) {
    q == [] || (Ascending(q[1..]) && forall x | x in q[1..] :: q[0] < x)
  }

  predicate ReadAfter(ioctls: seq<Ioctl>, i: Id, j: Id) {
    i < j < |ioctls| && Blocking(ioctls, i) && Blocking(ioctls, j) && ioctls[j].handed > 0 ==> ioctls[i].handed > 0
  }

  /** No blocking read was handed out before an earlier one. */
  ghost predicate ReadFifo(ioctls: seq<Ioctl>) {
    forall i, j {:trigger ReadAfter(ioctls, i, j)} :: ReadAfter(ioctls, i, j)
  }

  ghost predicate ReadsInOrder(s: State) {
    Ascending(Waiting(s)) && ReadFifo(s.ioctls)
  }

  lemma {:induction false} SelectSameCodes(a: seq<Ioctl>, b: seq<Ioctl>, q: seq<Id>, blocking: bool)
    requires SameCodes(a, b) && forall i | i in q :: i < |a|
    ensures Select(b, q, blocking) == Select(a, q, blocking)
  {
    if q != [] {
      Tail(q);
      assert q[0] in q;
      SelectSameCodes(a, b, q[1..], blocking);
    }
  }

  lemma {:induction false} SelectAppend(ioctls: seq<Ioctl>, q: seq<Id>, more: seq<Id>, blocking: bool)
    ensures Select(ioctls, q + more, blocking) == Select(ioctls, q, blocking) + Select(ioctls, more, blocking)
  {
    if q == [] {
      assert q + more == more;
    } else {
      assert (q + more)[1..] == q[1..] + more;
      SelectAppend(ioctls, q[1..], more, blocking);
    }
  }

  lemma {:induction false} SelectAll(ioctls: seq<Ioctl>, q: seq<Id>, blocking: bool)
    requires forall i | i in q :: Blocking(ioctls, i) == blocking
    ensures Select(ioctls, q, blocking) == q
  {
    if q != [] {
      Tail(q);
      assert q[0] in q;
      SelectAll(ioctls, q[1..], blocking);
    }
  }

  lemma {:induction false} SelectNone(ioctls: seq<Ioctl>, q: seq<Id>, blocking: bool)
    requires forall i | i in q :: Blocking(ioctls, i) != blocking
    ensures Select(ioctls, q, blocking) == []
  {
    if q != [] {
      Tail(q);
      assert q[0] in q;
      SelectNone(ioctls, q[1..], blocking);
    }
  }

  lemma {:induction false} AscendingSnoc(q: seq<Id>, n: Id)
    requires Ascending(q) && forall x | x in q :: x < n
    ensures Ascending(q + [n])
  {
    if q == [] {
      assert q + [n] == [n] && [n][1..] == [];
    } else {
      Tail(q);
      assert q[0] in q;
      AscendingSnoc(q[1..], n);
      assert (q + [n])[1..] == q[1..] + [n];
    }
  }

  lemma {:induction false} AscendingPair(a: seq<Id>, b: seq<Id>)
    requires Ascending(a + b) && a != [] && b != []
    ensures a[0] < b[0]
  {
    assert (a + b)[1..] == a[1..] + b;
    assert b[0] in (a + b)[1..] by { assert (a + b)[1..][|a| - 1] == b[0]; }
  }

  lemma WaitingBelow(s: State, x: Id)
    requires Inv(s) && x in Waiting(s)
    ensures x < |s.ioctls|
  {
    if s.readQueue != [] { Tail(s.readQueue); }
  }

  lemma SubmitWaits(s: State, code: Code)
    requires Inv(s)
    ensures var t, n := Submit(s, code, true), |s.ioctls|;
            Waiting(t) == if Blocking(t.ioctls, n) then Waiting(s) + [n] else Waiting(s)
  {
    var t, n := Submit(s, code, true), |s.ioctls|;
    var front, sel := if s.readQueue == [] then [] else s.readQueue[1..], Select(s.ioctls, s.queue, true);
    var more := if Blocking(t.ioctls, n) then [n] else [];
    SelectSameCodes(s.ioctls, t.ioctls, s.queue, true);
    SelectAppend(t.ioctls, s.queue, [n], true);
    assert [n][1..] == [] && Select(t.ioctls, [n], true) == more;
    assert Select(t.ioctls, t.queue, true) == sel + more;
    assert front + (sel + more) == front + sel + more;
  }

  lemma SubmitReadFifo(s: State, code: Code)
    requires ReadFifo(s.ioctls)
    ensures ReadFifo(Submit(s, code, true).ioctls)
  {
    var t := Submit(s, code, true);
    forall i, j ensures ReadAfter(t.ioctls, i, j) { assert ReadAfter(s.ioctls, i, j); }
  }

  lemma SubmitKeepsReads(s: State, code: Code)
    requires Inv(s) && ReadsInOrder(s)
    ensures ReadsInOrder(Submit(s, code, true))
  {
    var t, n := Submit(s, code, true), |s.ioctls|;
    SubmitWaits(s, code);
    forall x | x in Waiting(s) ensures x < n { WaitingBelow(s, x); }
    AscendingSnoc(Waiting(s), n);
    SubmitReadFifo(s, code);
  }

  lemma EndBusyKeepsReads(s: State)
    requires Inv(s) && ReadsInOrder(s)
    ensures ReadsInOrder(EndBusy(s)) && Waiting(EndBusy(s)) == Waiting(s)
  {
    if s.busy {
      var t := EndBusy(s);
      Tail(s.queue);
      SelectSameCodes(s.ioctls, t.ioctls, t.queue, true);
      forall i, j ensures ReadAfter(t.ioctls, i, j) { assert ReadAfter(s.ioctls, i, j); }
    }
  }

  lemma SortKeepsReads(s: State)
    requires ReadsInOrder(s)
    ensures ReadsInOrder(Sort(s)) && Waiting(Sort(s)) == Waiting(s)
  {
    var t := Sort(s);
    if t != s {
      SelectNone(s.ioctls, t.queue, true);
      assert Waiting(t) == s.readQueue[1..] + Select(s.ioctls, s.queue, true);
    }
  }

  /** A read that waits has not been handed out. */
  lemma WaitingUnhanded(s: State, i: Id)
    requires Inv(s) && Blocking(s.ioctls, i)
    ensures i in Waiting(s) <==> s.ioctls[i].handed == 0
  {
    assert IoctlOk(s, i);
    if s.readQueue != [] {
      Tail(s.readQueue);
      HeadCount(s.readQueue, i);
    }
    if s.queue != [] { HeadCount(s.queue, i); }
  }

  lemma HandOutWaits(s: State)
    requires Inv(s) && s.queue != [] && !s.busy
    requires Blocking(s.ioctls, s.queue[0]) ==> s.readQueue == []
    ensures var t, r := HandOut(s, true), s.queue[0];
            Waiting(s) == if Blocking(s.ioctls, r) then [r] + Waiting(t) else Waiting(t)
  {
    var t := HandOut(s, true);
    assert s.queue[0] in s.queue;
    Tail(s.queue);
    SelectSameCodes(s.ioctls, t.ioctls, t.queue, true);
  }

  lemma HandOutAfter(s: State, i: Id, j: Id)
    requires Inv(s) && ReadsInOrder(s) && s.queue != [] && !s.busy
    requires Blocking(s.ioctls, s.queue[0]) ==> s.readQueue == []
    ensures ReadAfter(HandOut(s, true).ioctls, i, j)
  {
    assert s.queue[0] in s.queue;
    assert ReadAfter(s.ioctls, i, j);
    if j == s.queue[0] && i < j && Blocking(s.ioctls, i) && Blocking(s.ioctls, j) {
      HandOutWaits(s);
      assert Waiting(s)[1..] == Waiting(HandOut(s, true));
      WaitingUnhanded(s, i);
    }
  }

  lemma HandOutKeepsReads(s: State, fits: bool)
    requires Inv(s) && ReadsInOrder(s) && !s.busy
    requires s.queue != [] && Blocking(s.ioctls, s.queue[0]) ==> s.readQueue == []
    ensures ReadsInOrder(HandOut(s, fits))
  {
    if s.queue != [] && fits {
      var t, r := HandOut(s, fits), s.queue[0];
      HandOutWaits(s);
      if Blocking(s.ioctls, r) { assert Waiting(s)[1..] == Waiting(t); }
      forall i, j ensures ReadAfter(t.ioctls, i, j) { HandOutAfter(s, i, j); }
    }
  }

  /** When a read is finished, either nothing waits behind it or nothing was queued meanwhile. */
  predicate Orderly(s: State) {
    s.readQueue == [] || |s.readQueue| == 1 || Select(s.ioctls, s.queue, true) == []
  }

  lemma WaitingAfterRead(s: State)
    requires Inv(s) && s.readQueue != []
    ensures Waiting(EndRead(s)) == Select(s.ioctls, s.queue, true) + s.readQueue[1..]
  {
    var t, rest := EndRead(s), s.readQueue[1..];
    Tail(s.readQueue);
    assert t.readQueue == [] && t.queue == s.queue + rest;
    SelectAppend(t.ioctls, s.queue, rest, true);
    SelectSameCodes(s.ioctls, t.ioctls, s.queue, true);
    SelectAll(t.ioctls, rest, true);
  }

  /** Finishing a read keeps the waiting reads in order if and only if the state is orderly. */
  lemma EndReadIff(s: State)
    requires Inv(s) && ReadsInOrder(s) && s.readQueue != []
    ensures Orderly(s) <==> Ascending(Waiting(EndRead(s)))
    ensures Orderly(s) ==> ReadsInOrder(EndRead(s))
  {
    var t, rest, sel := EndRead(s), s.readQueue[1..], Select(s.ioctls, s.queue, true);
    WaitingAfterRead(s);
    forall i, j ensures ReadAfter(t.ioctls, i, j) { assert ReadAfter(s.ioctls, i, j); }
    if rest == [] || sel == [] {
      assert sel + rest == rest + sel;
    } else {
      AscendingPair(rest, sel);
      if Ascending(sel + rest) { AscendingPair(sel, rest); }
    }
  }

  /** In every step of the run that finishes a read, the state is orderly. */
  ghost predicate OrderlyRun(s: State, ops: seq<Op>)
    decreases |ops|
  {
    ops == [] || ((ops[0].DoNext? && ops[0].read ==> Orderly(s)) && OrderlyRun(Apply(s, ops[0]), ops[1..]))
  }

  lemma {:induction false} RunKeepsReads(s: State, ops: seq<Op>)
    requires Inv(s) && ReadsInOrder(s) && OrderlyRun(s, ops)
    ensures ReadsInOrder(Run(s, ops))
    decreases |ops|
  {
    if ops != [] {
      match ops[0] {
        case DoSubmit(code, allocOk) =>
          if allocOk {
            SubmitKeepsReads(s, code);
            SubmitKeepsInv(s, code);
          }
        case DoNext(read, fits) =>
          NextRequestKeepsInv(s, read, fits);
          if read {
            if s.readQueue != [] { EndReadIff(s); }
          } else {
            EndBusyKeepsInv(s);
            EndBusyKeepsReads(s);
            SortKeepsInv(EndBusy(s));
            SortKeepsReads(EndBusy(s));
            HandOutKeepsReads(Sort(EndBusy(s)), fits);
          }
      }
      RunKeepsReads(Apply(s, ops[0]), ops[1..]);
    }
  }

  /** Over every run in which each read is finished in an orderly state, blocking reads are
      handed out in the order they were queued. */
  lemma ReadsKeepOrder(ops: seq<Op>, i: Id, j: Id)
    requires OrderlyRun(Initial, ops)
    requires var s := Run(Initial, ops); i < j < |s.ioctls| && Blocking(s.ioctls, i) && Blocking(s.ioctls, j)
    ensures var s := Run(Initial, ops); s.ioctls[j].handed > 0 ==> s.ioctls[i].handed > 0
  {
    ReachableInv([]);
    RunKeepsReads(Initial, ops);
    assert ReadAfter(Run(Initial, ops).ioctls, i, j);
  }

  const NEXT := DoNext(false, true)

  function Nexts(n: nat): seq<Op> {
    if n == 0 then [] else [NEXT] + Nexts(n - 1)
  }

  lemma FirstOfSelect(ioctls: seq<Ioctl>, q: seq<Id>)
    requires q != []
    ensures Select(ioctls, q, true) ==
            if Blocking(ioctls, q[0]) then [q[0]] + Select(ioctls, q[1..], true) else Select(ioctls, q[1..], true)
  {
  }

  lemma ServedHead(s: State)
    requires Inv(s) && s.readQueue == []
    ensures var e := EndBusy(s); NextRequest(s, false, true) == HandOut(e, true) && SameCodes(s.ioctls, e.ioctls)
    ensures var e := EndBusy(s); Select(e.ioctls, e.queue, true) == Select(s.ioctls, s.queue, true)
  {
    var e := EndBusy(s);
    if s.busy {
      FirstOfSelect(s.ioctls, s.queue);
      Tail(s.queue);
      SelectSameCodes(s.ioctls, e.ioctls, e.queue, true);
    }
  }

  /** Either the first waiting read was handed out, or an ioctl before it is now being served. */
  lemma AskedOnce(s: State, w: Id, i: Id)
    requires Inv(s) && s.readQueue == [] && i < w && Blocking(s.ioctls, i)
    requires var sel := Select(s.ioctls, s.queue, true); sel != [] && sel[0] == w && i in sel
    ensures var t := NextRequest(s, false, true);
            && Blocking(t.ioctls, i)
            && (t.readQueue != [] ==> !ReadAfter(t.ioctls, i, w))
            && (t.readQueue == [] ==>
                  && Select(t.ioctls, t.queue, true) == Select(s.ioctls, s.queue, true)
                  && t.busy && |t.queue| == |s.queue| - if s.busy then 1 else 0)
  {
    var e := EndBusy(s);
    EndBusyKeepsInv(s);
    ServedHead(s);
    FirstOfSelect(e.ioctls, e.queue);
    assert e.queue[0] in e.queue;
    if Blocking(e.ioctls, e.queue[0]) {
      WaitingUnhanded(e, i);
    } else {
      SelectSameCodes(e.ioctls, HandOut(e, true).ioctls, e.queue, true);
    }
  }

  lemma RunNext(s: State, n: nat)
    ensures Run(s, Nexts(n + 1)) == Run(NextRequest(s, false, true), Nexts(n))
  {
    RunStep(s, NEXT, Nexts(n));
  }

  /** The server goes on asking: the first waiting read is handed out before an older one. */
  lemma {:induction false} ServesFirst(s: State, w: Id, i: Id) returns (n: nat)
    requires Inv(s) && s.readQueue == [] && i < w && Blocking(s.ioctls, i)
    requires var sel := Select(s.ioctls, s.queue, true); sel != [] && sel[0] == w && i in sel
    ensures !ReadFifo(Run(s, Nexts(n)).ioctls)
    decreases |s.queue|, if s.busy then 0 else 1
  {
    var t := NextRequest(s, false, true);
    NextRequestKeepsInv(s, false, true);
    AskedOnce(s, w, i);
    RunNext(s, 0);
    if t.readQueue != [] {
      n := 1;
      assert !ReadAfter(t.ioctls, i, w);
    } else {
      n := ServesFirst(t, w, i);
      RunNext(s, n);
      n := n + 1;
    }
  }

  /** The condition is exact: a read finished in a state that is not orderly lets a later read
      be handed out before an older one, if the server goes on. */
  lemma Overtakes(s: State) returns (n: nat)
    requires Inv(s) && ReadsInOrder(s) && !Orderly(s)
    ensures !ReadFifo(Run(EndRead(s), Nexts(n)).ioctls)
  {
    var rest, sel, t := s.readQueue[1..], Select(s.ioctls, s.queue, true), EndRead(s);
    AscendingPair(rest, sel);
    EndReadKeepsInv(s);
    WaitingAfterRead(s);
    assert Select(t.ioctls, t.queue, true) == Waiting(t) == sel + rest;
    assert (sel + rest)[|sel|] == rest[0];
    Tail(s.readQueue);
    n := ServesFirst(t, sel[0], rest[0]);
  }

  const ASK := DoSubmit(ReadConsole, true)
  const DONE := DoNext(true, true)

  /** Read 1 is left waiting behind read 0. */
  lemma TwoReads()
    ensures var s := Run(Initial, [ASK, ASK, NEXT, NEXT]);
            && s.queue == [] && s.readQueue == [0, 1] && !s.busy
            && |s.ioctls| == 2 && Blocking(s.ioctls, 0) && Blocking(s.ioctls, 1) && s.ioctls[1].handed == 0
  {
    assert [ASK, ASK, NEXT, NEXT] == [ASK] + ([ASK] + ([NEXT] + ([NEXT] + [])));
    var s2 := Apply(Apply(Initial, ASK), ASK);
    assert s2.queue == [0, 1];
    var s3 := Apply(s2, NEXT);
    assert s3.queue == [1] && s3.readQueue == [0];
    assert [1][1..] == [];
    RunStep(Initial, ASK, [ASK] + ([NEXT] + ([NEXT] + [])));
    RunStep(Apply(Initial, ASK), ASK, [NEXT] + ([NEXT] + []));
    RunStep(s2, NEXT, [NEXT] + []);
    RunStep(s3, NEXT, []);
  }

  /** Blocking reads can overtake each other: a waiting read is put back behind one that was
      queued meanwhile, and that one is handed out first. */
  lemma ReadsOvertake()
    ensures var s := Run(Run(Initial, [ASK, ASK, NEXT, NEXT]), [ASK, DONE, NEXT]);
            |s.ioctls| == 3 && s.ioctls[1].handed == 0 && s.ioctls[2].handed == 1
  {
    TwoReads();
    var s4 := Run(Initial, [ASK, ASK, NEXT, NEXT]);
    assert [ASK, DONE, NEXT] == [ASK] + ([DONE] + ([NEXT] + []));
    var s5 := Apply(s4, ASK);
    assert s5.queue == [2];
    var s6 := Apply(s5, DONE);
    assert [0, 1][1..] == [1];
    assert s6.queue == [2, 1] && s6.readQueue == [];
    RunStep(s4, ASK, [DONE] + ([NEXT] + []));
    RunStep(s5, DONE, [NEXT] + []);
    RunStep(s6, NEXT, []);
  }

  // ---------------------------------------------------------------- what a request does

  /** The queue behind the ioctl that is being served. */
  function Rest(s: State): seq<Id> {
    if s.busy && s.queue != [] then s.queue[1..] else s.queue
  }

  /** Ioctl number k of the rest can be handed out: no blocking read while another one waits. */
  predicate Ready(s: State, k: nat)
    requires k < |Rest(s)|
  {
    !Blocking(s.ioctls, Rest(s)[k]) || s.readQueue == []
  }

  /** The first ioctl of the rest that is ready is i. */
  predicate NextUp(s: State, i: Id) {
    exists k :: 0 <= k < |Rest(s)| && Rest(s)[k] == i && Ready(s, k) && forall j | 0 <= j < k :: !Ready(s, j)
  }

  predicate HandedBy(s: State, op: Op, i: Id) {
    op.DoNext? && !op.read && op.fits && NextUp(s, i)
  }

  /** A report is on the outstanding ioctl of its kind. */
  predicate FinishedBy(s: State, op: Op, i: Id) {
    op.DoNext? && Outstanding(s, i) && Blocking(s.ioctls, i) == op.read
  }

  function Ones(b: bool): nat {
    if b then 1 else 0
  }

  lemma {:induction false} FirstOther(ioctls: seq<Ioctl>, q: seq<Id>) returns (k: nat)
    requires Select(ioctls, q, false) != []
    ensures k < |q| && q[k] == Select(ioctls, q, false)[0] && !Blocking(ioctls, q[k])
    ensures forall j | 0 <= j < k :: Blocking(ioctls, q[j])
  {
    if Blocking(ioctls, q[0]) {
      var l := FirstOther(ioctls, q[1..]);
      k := l + 1;
      assert forall j | 0 < j < k :: q[j] == q[1..][j - 1];
    } else {
      k := 0;
    }
  }

  lemma EndBusyExact(s: State)
    requires Inv(s)
    ensures var e := EndBusy(s);
            && e.queue == Rest(s) && e.readQueue == s.readQueue && SameCodes(s.ioctls, e.ioctls)
            && |e.ioctls| == |s.ioctls|
  {
  }

  /** What is left in front is the first ioctl that is ready. */
  lemma SortedHead(s: State, i: Id)
    requires !s.busy && forall j | j in s.queue :: j < |s.ioctls|
    ensures NextUp(s, i) <==> Sort(s).queue != [] && Sort(s).queue[0] == i
  {
    var t := Sort(s);
    if t == s {
      if s.queue != [] { assert Ready(s, 0); }
    } else if t.queue != [] {
      var k := FirstOther(s.ioctls, s.queue);
      assert Ready(s, k) && forall j | 0 <= j < k :: !Ready(s, j);
    } else {
      forall k | 0 <= k < |s.queue| ensures !Ready(s, k) { assert s.queue[k] in s.queue; }
    }
  }

  lemma NextUpAfter(s: State, i: Id)
    requires Inv(s)
    ensures NextUp(EndBusy(s), i) <==> NextUp(s, i)
  {
    var e := EndBusy(s);
    EndBusyExact(s);
    EndBusyKeepsInv(s);
    assert Rest(e) == Rest(s);
    forall k | 0 <= k < |Rest(s)| ensures Ready(e, k) == Ready(s, k) {
      assert Rest(s)[k] in e.queue;
    }
  }

  lemma BusyIsOutstanding(s: State, i: Id)
    requires Inv(s)
    ensures s.busy && s.queue[0] == i <==> Outstanding(s, i) && !Blocking(s.ioctls, i)
    ensures s.readQueue != [] && s.readQueue[0] == i <==> Outstanding(s, i) && Blocking(s.ioctls, i)
  {
    assert s.readQueue != [] ==> s.readQueue[0] in s.readQueue;
  }

  lemma ReportOnIoctl(s: State, i: Id)
    requires Inv(s) && i < |s.ioctls|
    ensures var e, done := EndBusy(s), FinishedBy(s, DoNext(false, true), i);
            |e.ioctls| == |s.ioctls| && e.ioctls[i] == s.ioctls[i].(finished := s.ioctls[i].finished + Ones(done))
  {
    BusyIsOutstanding(s, i);
  }

  lemma ServeOnIoctl(s: State, fits: bool, i: Id)
    requires Inv(s) && !s.busy && i < |s.ioctls|
    ensures var t := HandOut(Sort(s), fits);
            && |t.ioctls| == |s.ioctls|
            && t.ioctls[i] == s.ioctls[i].(handed := s.ioctls[i].handed + Ones(fits && NextUp(s, i)))
  {
    SortedHead(s, i);
    assert Sort(s).ioctls == s.ioctls;
  }

  /** What a step does to every ioctl there is.  A report finishes the outstanding ioctl of its
      kind, and the request hands out the first that is ready; nothing else happens to any. */
  lemma StepOnIoctl(s: State, op: Op, i: Id)
    requires Inv(s) && i < |s.ioctls|
    ensures var t, c := Apply(s, op), s.ioctls[i];
            && |t.ioctls| == |s.ioctls| + Ones(op.DoSubmit? && op.allocOk)
            && t.ioctls[i] ==
               Ioctl(c.code, c.handed + Ones(HandedBy(s, op, i)), c.finished + Ones(FinishedBy(s, op, i)))
  {
    if op.DoNext? {
      if op.read {
        BusyIsOutstanding(s, i);
      } else {
        EndBusyKeepsInv(s);
        ReportOnIoctl(s, i);
        ServeOnIoctl(EndBusy(s), op.fits, i);
        NextUpAfter(s, i);
      }
    }
  }

  /** A new ioctl is the last of the queue, as it was asked for. */
  lemma SubmitExact(s: State, code: Code)
    requires Inv(s)
    ensures var t, n := Submit(s, code, true), |s.ioctls|;
            t.ioctls[n] == Ioctl(code, 0, 0) && t.queue == s.queue + [n] && t.readQueue == s.readQueue
            && n !in s.queue && n !in s.readQueue
  {
    assert IoctlOk(s, |s.ioctls|);
    assert multiset(s.queue)[|s.ioctls|] == 0 && multiset(s.readQueue)[|s.ioctls|] == 0;
  }

  lemma {:induction false} FirstReady(s: State, k: nat) returns (j: nat)
    requires k < |Rest(s)| && Ready(s, k)
    ensures j <= k && Ready(s, j) && forall l | 0 <= l < j :: !Ready(s, l)
    decreases k
  {
    if l :| 0 <= l < k && Ready(s, l) { j := FirstReady(s, l); } else { j := k; }
  }

  lemma HandedIsOutstanding(s: State, i: Id)
    requires Inv(s) && NextUp(s, i)
    ensures Outstanding(NextRequest(s, false, true), i)
  {
    EndBusyKeepsInv(s);
    NextUpAfter(s, i);
    SortedHead(EndBusy(s), i);
    SortKeepsInv(EndBusy(s));
  }

  /** An ioctl is never stuck: from every reachable state the server's next request that fits
      hands one out, unless all that wait are blocking reads behind an outstanding one. */
  lemma SomethingIsHandedOut(ops: seq<Op>, k: nat) returns (i: Id)
    requires var s := Run(Initial, ops); k < |Rest(s)| && (!Blocking(s.ioctls, Rest(s)[k]) || s.readQueue == [])
    ensures var s := Run(Initial, ops);
            var t := NextRequest(s, false, true);
            && i < |s.ioctls| && |t.ioctls| == |s.ioctls|
            && t.ioctls[i].handed == s.ioctls[i].handed + 1 && Outstanding(t, i)
  {
    var s := Run(Initial, ops);
    var t := NextRequest(s, false, true);
    ReachableInv(ops);
    assert Ready(s, k);
    var j := FirstReady(s, k);
    i := Rest(s)[j];
    assert NextUp(s, i) && HandedBy(s, DoNext(false, true), i);
    assert i in s.queue;
    StepOnIoctl(s, DoNext(false, true), i);
    HandedIsOutstanding(s, i);
  }

  // ---------------------------------------------------------------- the code

  lemma {:induction false} SelectSnoc(ioctls: seq<Ioctl>, q: seq<Id>, i: Id, blocking: bool)
    ensures Select(ioctls, q + [i], blocking)
            == Select(ioctls, q, blocking) + (if Blocking(ioctls, i) == blocking then [i] else [])
  {
    if q == [] {
      assert q + [i] == [i] && [i][1..] == [];
    } else {
      assert (q + [i])[1..] == q[1..] + [i];
      SelectSnoc(ioctls, q[1..], i, blocking);
    }
  }

  lemma NothingLeft(s: State)
    requires Inv(s)
    ensures Sort(EndBusy(s)).queue == [] ==> !exists j :: NextUp(s, j)
  {
    EndBusyKeepsInv(s);
    if j :| NextUp(s, j) {
      NextUpAfter(s, j);
      SortedHead(EndBusy(s), j);
    }
  }

  class ConsoleServer {
    var ioctls: seq<Ioctl>
    var queue: seq<Id>
    var readQueue: seq<Id>
    var busy: bool

    ghost function View(): State
      reads this
    {
      State(ioctls, queue, readQueue, busy)
    }

    constructor ()
      ensures View() == Initial
    {
      ioctls, queue, readQueue, busy := [], [], [], false;
    }

    method QueueHostIoctl(code: Code, allocOk: bool) returns (ok: bool)
      modifies this
      ensures ok == allocOk && View() == Submit(old(View()), code, allocOk)
    {
      if !allocOk { return false; }
      queue := queue + [|ioctls|];
      ioctls := ioctls + [Ioctl(code, 0, 0)];
      return true;
    }

    method FinishOne(i: Id)
      modifies this`ioctls
      ensures ioctls == Finish(old(ioctls), i)
    {
      if i < |ioctls| { ioctls := ioctls[i := ioctls[i].(finished := ioctls[i].finished + 1)]; }
    }

    /** Move every blocking read of the queue to the read queue. */
    method MoveReads()
      modifies this`queue, this`readQueue
      ensures queue == Select(ioctls, old(queue), false)
      ensures readQueue == old(readQueue) + Select(ioctls, old(queue), true)
    {
      var todo, kept, moved, k := queue, [], [], 0;
      while k < |todo|
        invariant 0 <= k <= |todo| && readQueue == old(readQueue)
        invariant kept == Select(ioctls, todo[..k], false) && moved == Select(ioctls, todo[..k], true)
      {
        SelectSnoc(ioctls, todo[..k], todo[k], false);
        SelectSnoc(ioctls, todo[..k], todo[k], true);
        assert todo[..k + 1] == todo[..k] + [todo[k]];
        if Blocking(ioctls, todo[k]) { moved := moved + [todo[k]]; } else { kept := kept + [todo[k]]; }
        k := k + 1;
      }
      assert todo[..k] == todo;
      queue, readQueue := kept, readQueue + moved;
    }

    method HandOutHead(fits: bool) returns (found: bool, i: Id)
      requires queue != [] && Blocking(ioctls, queue[0]) ==> readQueue == []
      modifies this
      ensures View() == HandOut(old(View()), fits)
      ensures found <==> old(queue) != [] && fits
      ensures found ==> i == old(queue)[0] && Outstanding(View(), i)
    {
      if queue == [] || !fits { return false, 0; }
      found, i := true, queue[0];
      if Blocking(ioctls, i) {
        queue, readQueue := queue[1..], readQueue + [i];
      } else {
        busy := true;
      }
      if i < |ioctls| { ioctls := ioctls[i := ioctls[i].(handed := ioctls[i].handed + 1)]; }
    }

    /** get_next_console_request; the ioctl handed out, if there is one. */
    method GetNextConsoleRequest(read: bool, fits: bool) returns (found: bool, i: Id)
      requires Inv(View())
      modifies this
      ensures View() == NextRequest(old(View()), read, fits)
      ensures found <==> !read && fits && old(exists j :: NextUp(View(), j))
      ensures found ==> old(NextUp(View(), i)) && Outstanding(View(), i)
    {
      ghost var s := View();
      if read {
        if readQueue != [] {
          FinishOne(readQueue[0]);
          queue, readQueue := queue + readQueue[1..], [];
        }
        return false, 0;
      }
      EndBusyKeepsInv(View());
      if busy {
        FinishOne(queue[0]);
        queue, busy := queue[1..], false;
      }
      assert View() == EndBusy(old(View()));
      SortKeepsInv(View());
      if queue != [] && readQueue != [] && Blocking(ioctls, queue[0]) { MoveReads(); }
      if queue != [] {
        NextUpAfter(s, queue[0]);
        SortedHead(EndBusy(s), queue[0]);
      }
      NothingLeft(s);
      found, i := HandOutHead(fits);
    }

    method DisconnectConsoleServer()
      modifies this
      ensures View() == Disconnect(old(View()))
    {
      while queue != []
        invariant readQueue == old(readQueue) && busy == old(busy)
        invariant FinishAll(ioctls, queue) == FinishAll(old(ioctls), old(queue))
        decreases |queue|
      {
        FinishOne(queue[0]);
        queue := queue[1..];
      }
      while readQueue != []
        invariant queue == [] && busy == old(busy)
        invariant FinishAll(ioctls, readQueue) == FinishAll(FinishAll(old(ioctls), old(queue)), old(readQueue))
        decreases |readQueue|
      {
        FinishOne(readQueue[0]);
        readQueue := readQueue[1..];
      }
    }
  }
}
