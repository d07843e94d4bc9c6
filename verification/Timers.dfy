/** The server's timers (server/fd.c): two lists in order of their deadlines, one for absolute
    system times and one for the monotonic clock, and the pass that calls what has expired and
    says how long to wait for the next one.

    Timers are numbered as they are added.  The lists `called` and `removed` only record what
    happened to them.
 */
module Timers {

  type Id = nat

  /** A positive `when` is a system time; otherwise its opposite is a monotonic time. */
  datatype Timer = Timer(id: Id, when: int)

  datatype Clock = Clock(current: nat, monotonic: nat)

  datatype State = State(abs: seq<Timer>, rel: seq<Timer>, next: Id, called: seq<Id>, removed: seq<Id>)

  const Initial := State([], [], 0, [], [])

  const TICKS_PER_MS := 10000
  const SHARED_DATA_TIMEOUT := 16 * 10000
  const INT_MAX := 0x7fff_ffff

  function Deadline(t: Timer): int {
    if t.when > 0 then t.when else -t.when
  }

  function Now(c: Clock, t: Timer): nat {
    if t.when > 0 then c.current else c.monotonic
  }

  predicate Expired(c: Clock, t: Timer) {
    Deadline(t) <= Now(c, t)
  }

  /** timeout_to_abstime */
  function ToAbsTime(timeout: int, c: Clock): int {
    if timeout > 0 then timeout else timeout - c.monotonic
  }

  // ---------------------------------------------------------------- the lists

  function Insert(q: seq<Timer>, t: Timer): seq<Timer> {
    if q == [] || Deadline(q[0]) >= Deadline(t) then [t] + q else [q[0]] + Insert(q[1..], t)
  }

  /** add_timeout_user */
  function Add(s: State, timeout: int, c: Clock): State {
    var t := Timer(s.next, ToAbsTime(timeout, c));
    if t.when > 0 then s.(abs := Insert(s.abs, t), next := s.next + 1)
    else s.(rel := Insert(s.rel, t), next := s.next + 1)
  }

  function Remove(q: seq<Timer>, id: Id): (r: seq<Timer>)
    ensures |r| <= |q|
  {
    if q == [] then [] else if q[0].id == id then q[1..] else [q[0]] + Remove(q[1..], id)
  }

  function Count(q: seq<Timer>, id: Id): nat {
    if q == [] then 0 else Count(q[1..], id) + if q[0].id == id then 1 else 0
  }

  /** remove_timeout_user, on a timer in one of the lists or among those about to be called. */
  function Cancel(s: State, queue: seq<Timer>, id: Id): (r: (State, seq<Timer>))
    ensures |r.1| <= |queue|
  {
    if Count(s.abs, id) > 0 then (s.(abs := Remove(s.abs, id), removed := s.removed + [id]), queue)
    else if Count(s.rel, id) > 0 then (s.(rel := Remove(s.rel, id), removed := s.removed + [id]), queue)
    else if Count(queue, id) > 0 then (s.(removed := s.removed + [id]), Remove(queue, id))
    else (s, queue)
  }

  // ---------------------------------------------------------------- one pass

  /** What a callback does to the timers. */
  datatype Effect = Starts(timeout: int) | Cancels(id: Id)

  function Effects(s: State, queue: seq<Timer>, es: seq<Effect>, c: Clock): (r: (State, seq<Timer>))
    ensures |r.1| <= |queue|
    decreases |es|
  {
    if es == [] then (s, queue)
    else
      match es[0]
      case Starts(timeout) => Effects(Add(s, timeout, c), queue, es[1..], c)
      case Cancels(id) => var r := Cancel(s, queue, id); Effects(r.0, r.1, es[1..], c)
  }

  /** Call the removed timers one by one; `cb` says what each callback does. */
  function Fire(s: State, queue: seq<Timer>, cb: Id -> seq<Effect>, c: Clock): State
    decreases |queue|
  {
    if queue == [] then s
    else
      var r := Effects(s.(called := s.called + [queue[0].id]), queue[1..], cb(queue[0].id), c);
      Fire(r.0, r.1, cb, c)
  }

  /** How many timers at the head of a list have expired. */
  function Due(q: seq<Timer>, c: Clock): (n: nat)
    ensures n <= |q|
  {
    if q == [] || !Expired(c, q[0]) then 0 else Due(q[1..], c) + 1
  }

  function Taken(s: State, c: Clock): seq<Timer> {
    s.abs[..Due(s.abs, c)] + s.rel[..Due(s.rel, c)]
  }

  function Left(s: State, c: Clock): State {
    s.(abs := s.abs[Due(s.abs, c)..], rel := s.rel[Due(s.rel, c)..])
  }

  function Pass(s: State, cb: Id -> seq<Effect>, c: Clock): State {
    Fire(Left(s, c), Taken(s, c), cb, c)
  }

  /** Time until the first timer of a list, where none of it is negative. */
  function HeadWait(q: seq<Timer>, c: Clock, wait: int): int {
    if q == [] then wait
    else
      var diff := Deadline(q[0]) - Now(c, q[0]);
      var togo := if diff < 0 then 0 else diff;
      if wait == -1 || togo < wait then togo else wait
  }

  function Wait(s: State, c: Clock, shared: bool): int {
    HeadWait(s.rel, c, HeadWait(s.abs, c, if shared then SHARED_DATA_TIMEOUT else -1))
  }

  function Millis(wait: int): int {
    if wait < 0 then -1
    else
      var ms := (wait + (TICKS_PER_MS - 1)) / TICKS_PER_MS;
      if ms > INT_MAX then INT_MAX else ms
  }

  // ---------------------------------------------------------------- the invariant

  ghost predicate Sorted(q: seq<Timer>) {
    q == [] || (Sorted(q[1..]) && forall t | t in q[1..] :: Deadline(q[0]) <= Deadline(t))
  }

  ghost predicate ListsOk(s: State) {
    && Sorted(s.abs) && Sorted(s.rel)
    && (forall t | t in s.abs :: t.when > 0) && (forall t | t in s.rel :: t.when <= 0)
  }

  /** Where timer i is: waiting, about to be called, called, or removed. */
  ghost function Places(s: State, queue: seq<Timer>, i: Id): nat {
    Count(s.abs, i) + Count(s.rel, i) + Count(queue, i) + multiset(s.called)[i] + multiset(s.removed)[i]
  }

  ghost predicate PlaceOk(s: State, queue: seq<Timer>, i: Id) {
    Places(s, queue, i) == if i < s.next then 1 else 0
  }

  ghost predicate Inv(s: State, queue: seq<Timer>) {
    ListsOk(s) && forall i {:trigger PlaceOk(s, queue, i)} :: PlaceOk(s, queue, i)
  }

  lemma Tail(q: seq<Timer>)
    requires q != []
    ensures forall t :: t in q <==> t == q[0] || t in q[1..]
  {
    assert q == [q[0]] + q[1..];
  }

  lemma {:induction false} InsertOk(q: seq<Timer>, t: Timer)
    requires Sorted(q)
    ensures Sorted(Insert(q, t)) && (forall x :: x in Insert(q, t) <==> x in q || x == t)
  {
    var r := Insert(q, t);
    if q == [] || Deadline(q[0]) >= Deadline(t) {
      assert r[1..] == q;
      if q != [] { Tail(q); }
    } else {
      InsertOk(q[1..], t);
      Tail(q);
      assert r[1..] == Insert(q[1..], t);
      Tail(r);
    }
  }

  lemma {:induction false} InsertCount(q: seq<Timer>, t: Timer, i: Id)
    ensures Count(Insert(q, t), i) == Count(q, i) + if t.id == i then 1 else 0
  {
    var r := Insert(q, t);
    if q == [] || Deadline(q[0]) >= Deadline(t) {
      assert r[1..] == q;
    } else {
      assert r[1..] == Insert(q[1..], t);
      InsertCount(q[1..], t, i);
    }
  }

  lemma {:induction false} RemoveOk(q: seq<Timer>, id: Id)
    requires Sorted(q)
    ensures Sorted(Remove(q, id)) && forall x | x in Remove(q, id) :: x in q
  {
    if q != [] {
      Tail(q);
      if q[0].id != id {
        RemoveOk(q[1..], id);
        assert Remove(q, id)[1..] == Remove(q[1..], id);
        Tail(Remove(q, id));
      }
    }
  }

  lemma {:induction false} RemoveCount(q: seq<Timer>, id: Id, i: Id)
    ensures Count(Remove(q, id), i) == if i == id && Count(q, i) > 0 then Count(q, i) - 1 else Count(q, i)
  {
    if q != [] && q[0].id != id {
      RemoveCount(q[1..], id, i);
      assert Remove(q, id)[1..] == Remove(q[1..], id);
    }
  }

  lemma AddKeepsInv(s: State, queue: seq<Timer>, timeout: int, c: Clock)
    requires Inv(s, queue)
    ensures Inv(Add(s, timeout, c), queue)
  {
    var t := Timer(s.next, ToAbsTime(timeout, c));
    InsertOk(s.abs, t);
    InsertOk(s.rel, t);
    forall i ensures PlaceOk(Add(s, timeout, c), queue, i) {
      assert PlaceOk(s, queue, i);
      InsertCount(s.abs, t, i);
      InsertCount(s.rel, t, i);
    }
  }

  lemma CancelPlaces(s: State, queue: seq<Timer>, id: Id, i: Id)
    ensures var r := Cancel(s, queue, id); Places(r.0, r.1, i) == Places(s, queue, i) && r.0.next == s.next
  {
    RemoveCount(s.abs, id, i);
    RemoveCount(s.rel, id, i);
    RemoveCount(queue, id, i);
  }

  lemma CancelKeepsInv(s: State, queue: seq<Timer>, id: Id)
    requires Inv(s, queue)
    ensures Inv(Cancel(s, queue, id).0, Cancel(s, queue, id).1)
  {
    RemoveOk(s.abs, id);
    RemoveOk(s.rel, id);
    forall i ensures PlaceOk(Cancel(s, queue, id).0, Cancel(s, queue, id).1, i) {
      assert PlaceOk(s, queue, i);
      CancelPlaces(s, queue, id, i);
    }
  }

  lemma {:induction false} EffectsKeepInv(s: State, queue: seq<Timer>, es: seq<Effect>, c: Clock)
    requires Inv(s, queue)
    ensures Inv(Effects(s, queue, es, c).0, Effects(s, queue, es, c).1)
    decreases |es|
  {
    if es != [] {
      match es[0] {
        case Starts(timeout) =>
          AddKeepsInv(s, queue, timeout, c);
          EffectsKeepInv(Add(s, timeout, c), queue, es[1..], c);
        case Cancels(id) =>
          var r := Cancel(s, queue, id);
          CancelKeepsInv(s, queue, id);
          EffectsKeepInv(r.0, r.1, es[1..], c);
      }
    }
  }

  lemma {:induction false} FireKeepsInv(s: State, queue: seq<Timer>, cb: Id -> seq<Effect>, c: Clock)
    requires Inv(s, queue)
    ensures Inv(Fire(s, queue, cb, c), [])
    decreases |queue|
  {
    if queue != [] {
      var t := s.(called := s.called + [queue[0].id]);
      forall i ensures PlaceOk(t, queue[1..], i) { assert PlaceOk(s, queue, i); }
      EffectsKeepInv(t, queue[1..], cb(queue[0].id), c);
      var r := Effects(t, queue[1..], cb(queue[0].id), c);
      FireKeepsInv(r.0, r.1, cb, c);
    }
  }

  lemma {:induction false} SplitCount(q: seq<Timer>, n: nat, i: Id)
    requires n <= |q|
    ensures Count(q[..n], i) + Count(q[n..], i) == Count(q, i)
  {
    if n > 0 {
      assert q[..n][1..] == q[1..][..n - 1] && q[n..] == q[1..][n - 1..];
      SplitCount(q[1..], n - 1, i);
    }
  }

  lemma {:induction false} AppendCount(a: seq<Timer>, b: seq<Timer>, i: Id)
    ensures Count(a + b, i) == Count(a, i) + Count(b, i)
  {
    if a == [] {
      assert a + b == b;
    } else {
      assert (a + b)[1..] == a[1..] + b;
      AppendCount(a[1..], b, i);
    }
  }

  lemma {:induction false} SortedTail(q: seq<Timer>, n: nat)
    requires Sorted(q) && n <= |q|
    ensures Sorted(q[n..]) && forall t | t in q[n..] :: t in q
  {
    if n > 0 {
      Tail(q);
      SortedTail(q[1..], n - 1);
      assert q[n..] == q[1..][n - 1..];
    }
  }

  lemma PassKeepsInv(s: State, cb: Id -> seq<Effect>, c: Clock)
    requires Inv(s, [])
    ensures Inv(Left(s, c), Taken(s, c)) && Inv(Pass(s, cb, c), [])
  {
    var a, r := Due(s.abs, c), Due(s.rel, c);
    SortedTail(s.abs, a);
    SortedTail(s.rel, r);
    forall i ensures PlaceOk(Left(s, c), Taken(s, c), i) {
      assert PlaceOk(s, [], i);
      SplitCount(s.abs, a, i);
      SplitCount(s.rel, r, i);
      AppendCount(s.abs[..a], s.rel[..r], i);
    }
    FireKeepsInv(Left(s, c), Taken(s, c), cb, c);
  }

  // ---------------------------------------------------------------- what a pass calls

  lemma {:induction false} DueExact(q: seq<Timer>, c: Clock, t: Timer)
    requires Sorted(q) && forall x | x in q :: Now(c, x) == Now(c, t)
    ensures t in q[..Due(q, c)] <==> t in q && Expired(c, t)
  {
    if q != [] {
      Tail(q);
      assert q[0] in q;
      if Expired(c, q[0]) {
        DueExact(q[1..], c, t);
        var n := Due(q[1..], c);
        assert q[..n + 1] == [q[0]] + q[1..][..n];
      }
    }
  }

  /** The timers a pass takes are exactly those that have expired. */
  lemma TakenExact(s: State, c: Clock, t: Timer)
    requires ListsOk(s)
    ensures t in Taken(s, c) <==> (t in s.abs || t in s.rel) && Expired(c, t)
  {
    if t.when > 0 { DueExact(s.abs, c, t); } else { DueExact(s.rel, c, t); }
    assert t in s.abs[..Due(s.abs, c)] ==> t in s.abs;
    assert t in s.rel[..Due(s.rel, c)] ==> t in s.rel;
  }

  function Ids(q: seq<Timer>): seq<Id> {
    seq(|q|, k requires 0 <= k < |q| => q[k].id)
  }

  predicate CancelsNone(es: seq<Effect>) {
    forall k | 0 <= k < |es| :: es[k].Starts?
  }

  lemma {:induction false} EffectsCallNone(s: State, queue: seq<Timer>, es: seq<Effect>, c: Clock)
    ensures Effects(s, queue, es, c).0.called == s.called
    ensures CancelsNone(es) ==> Effects(s, queue, es, c).1 == queue
    decreases |es|
  {
    if es != [] {
      match es[0] {
        case Starts(timeout) => EffectsCallNone(Add(s, timeout, c), queue, es[1..], c);
        case Cancels(id) =>
          var r := Cancel(s, queue, id);
          EffectsCallNone(r.0, r.1, es[1..], c);
      }
    }
  }

  /** Callbacks that remove no timer: the taken timers are called, each once and in order. */
  lemma {:induction false} FireCalls(s: State, queue: seq<Timer>, cb: Id -> seq<Effect>, c: Clock)
    requires forall t | t in queue :: CancelsNone(cb(t.id))
    ensures Fire(s, queue, cb, c).called == s.called + Ids(queue)
    decreases |queue|
  {
    if queue == [] {
      assert s.called + Ids(queue) == s.called;
    } else {
      Tail(queue);
      var t := s.(called := s.called + [queue[0].id]);
      EffectsCallNone(t, queue[1..], cb(queue[0].id), c);
      FireCalls(Effects(t, queue[1..], cb(queue[0].id), c).0, queue[1..], cb, c);
      assert s.called + Ids(queue) == t.called + Ids(queue[1..]);
    }
  }

  lemma {:induction false} EffectsQueue(s: State, queue: seq<Timer>, es: seq<Effect>, c: Clock, i: Id)
    ensures Count(Effects(s, queue, es, c).1, i) <= Count(queue, i)
    decreases |es|
  {
    if es != [] {
      match es[0] {
        case Starts(timeout) => EffectsQueue(Add(s, timeout, c), queue, es[1..], c, i);
        case Cancels(id) =>
          var r := Cancel(s, queue, id);
          RemoveCount(queue, id, i);
          EffectsQueue(r.0, r.1, es[1..], c, i);
      }
    }
  }

  /** Whatever the callbacks do, nothing else is called. */
  lemma {:induction false} FireCallsOnly(s: State, queue: seq<Timer>, cb: Id -> seq<Effect>, c: Clock, i: Id)
    ensures multiset(Fire(s, queue, cb, c).called)[i] <= multiset(s.called)[i] + Count(queue, i)
    decreases |queue|
  {
    if queue != [] {
      var t := s.(called := s.called + [queue[0].id]);
      EffectsCallNone(t, queue[1..], cb(queue[0].id), c);
      EffectsQueue(t, queue[1..], cb(queue[0].id), c, i);
      var r := Effects(t, queue[1..], cb(queue[0].id), c);
      FireCallsOnly(r.0, r.1, cb, c, i);
    }
  }

  // ---------------------------------------------------------------- how long to wait

  function ToGo(c: Clock, t: Timer): nat {
    if Expired(c, t) then 0 else Deadline(t) - Now(c, t)
  }

  lemma HeadWaitExact(q: seq<Timer>, c: Clock, wait: int)
    requires wait >= -1 && Sorted(q) && forall x, y | x in q && y in q :: Now(c, x) == Now(c, y)
    ensures var w := HeadWait(q, c, wait);
            && (w == -1 <==> wait == -1 && q == []) && w >= -1
            && (forall t | t in q :: w <= ToGo(c, t)) && (wait != -1 ==> w <= wait)
            && (w == wait || exists t :: t in q && w == ToGo(c, t))
  {
    if q != [] {
      Tail(q);
      assert q[0] in q;
      var w := HeadWait(q, c, wait);
      assert w == wait || w == ToGo(c, q[0]);
      forall t | t in q ensures w <= ToGo(c, t) { assert Deadline(q[0]) <= Deadline(t); }
    }
  }

  /** The time to the earliest deadline, or the shared-data period if that is sooner; -1
      exactly when there is nothing to wait for. */
  ghost predicate IsWait(s: State, c: Clock, shared: bool, w: int) {
    && w >= -1 && (w == -1 <==> !shared && s.abs == [] && s.rel == [])
    && (shared ==> w <= SHARED_DATA_TIMEOUT)
    && (forall t | t in s.abs || t in s.rel :: w <= ToGo(c, t))
    && (w == -1 || (shared && w == SHARED_DATA_TIMEOUT) || exists t :: (t in s.abs || t in s.rel) && w == ToGo(c, t))
  }

  /** A wait in milliseconds, rounded up and capped. */
  predicate IsMillis(wait: int, ms: int) {
    && (ms == -1 <==> wait == -1) && ms <= INT_MAX
    && (wait >= 0 ==> (ms - 1) * TICKS_PER_MS < wait)
    && (wait >= 0 && ms < INT_MAX ==> wait <= ms * TICKS_PER_MS)
  }

  lemma WaitExact(s: State, c: Clock, shared: bool)
    requires ListsOk(s)
    ensures IsWait(s, c, shared, Wait(s, c, shared))
  {
    var w0 := if shared then SHARED_DATA_TIMEOUT else -1;
    var w1 := HeadWait(s.abs, c, w0);
    var w := HeadWait(s.rel, c, w1);
    HeadWaitExact(s.abs, c, w0);
    HeadWaitExact(s.rel, c, w1);
    if w != w1 {
      var t :| t in s.rel && w == ToGo(c, t);
    } else if w1 != w0 {
      var t :| t in s.abs && w1 == ToGo(c, t);
    }
  }

  lemma MillisExact(wait: int)
    requires wait >= -1
    ensures IsMillis(wait, Millis(wait))
  {
  }

  // ---------------------------------------------------------------- runs

  datatype Op =
    | DoAdd(timeout: int, clock: Clock)
    | DoCancel(id: Id)
    | DoPass(cb: Id -> seq<Effect>, clock: Clock)

  function Apply(s: State, op: Op): State {
    match op
    case DoAdd(timeout, c) => Add(s, timeout, c)
    case DoCancel(id) => Cancel(s, [], id).0
    case DoPass(cb, c) => Pass(s, cb, c)
  }

  function Run(s: State, ops: seq<Op>): State
    decreases |ops|
  {
    if ops == [] then s else Run(Apply(s, ops[0]), ops[1..])
  }

  lemma {:induction false} RunKeepsInv(s: State, ops: seq<Op>)
    requires Inv(s, [])
    ensures Inv(Run(s, ops), [])
    decreases |ops|
  {
    if ops != [] {
      match ops[0] {
        case DoAdd(timeout, c) => AddKeepsInv(s, [], timeout, c);
        case DoCancel(id) => CancelKeepsInv(s, [], id);
        case DoPass(cb, c) => PassKeepsInv(s, cb, c);
      }
      RunKeepsInv(Apply(s, ops[0]), ops[1..]);
    }
  }

  lemma ReachableInv(ops: seq<Op>)
    ensures Inv(Run(Initial, ops), [])
  {
    forall i ensures PlaceOk(Initial, [], i) { }
    RunKeepsInv(Initial, ops);
  }

  /** Over every run, both lists are sorted and timer i is in exactly one place: waiting,
      called once, or removed. */
  lemma EveryRun(ops: seq<Op>, i: Id)
    ensures var s := Run(Initial, ops);
            && Sorted(s.abs) && Sorted(s.rel)
            && Count(s.abs, i) + Count(s.rel, i) + multiset(s.called)[i] + multiset(s.removed)[i] ==
               if i < s.next then 1 else 0
  {
    ReachableInv(ops);
    assert PlaceOk(Run(Initial, ops), [], i);
  }

  /** A pass after any run calls the timers that had expired when it began, in order and no
      others; callbacks that remove timers can only shorten that; and what it returns is the
      wait for the timers that are left, in milliseconds rounded up. */
  lemma EveryPass(ops: seq<Op>, cb: Id -> seq<Effect>, c: Clock, shared: bool, t: Timer, i: Id)
    ensures var s := Run(Initial, ops);
            var u := Pass(s, cb, c);
            && (t in Taken(s, c) <==> (t in s.abs || t in s.rel) && Expired(c, t))
            && ((forall x | x in Taken(s, c) :: CancelsNone(cb(x.id))) ==> u.called == s.called + Ids(Taken(s, c)))
            && multiset(u.called)[i] <= multiset(s.called)[i] + Count(Taken(s, c), i)
            && multiset(u.called)[i] <= 1
            && IsWait(u, c, shared, Wait(u, c, shared)) && IsMillis(Wait(u, c, shared), Millis(Wait(u, c, shared)))
  {
    var s := Run(Initial, ops);
    ReachableInv(ops);
    TakenExact(s, c, t);
    PassKeepsInv(s, cb, c);
    var u := Pass(s, cb, c);
    if forall x | x in Taken(s, c) :: CancelsNone(cb(x.id)) { FireCalls(Left(s, c), Taken(s, c), cb, c); }
    FireCallsOnly(Left(s, c), Taken(s, c), cb, c, i);
    assert PlaceOk(u, [], i);
    WaitExact(u, c, shared);
    MillisExact(Wait(u, c, shared));
  }

  // ---------------------------------------------------------------- what each step does

  /** A positive timeout waits for that system time, any other for that long from now on the
      monotonic clock; no other timer changes. */
  lemma AddExact(s: State, timeout: int, c: Clock, x: Timer) returns (t: Timer)
    requires Inv(s, [])
    ensures t.id == s.next
    ensures if timeout > 0 then t.when > 0 && Deadline(t) == timeout
            else t.when <= 0 && Deadline(t) == c.monotonic - timeout
    ensures var r := Add(s, timeout, c);
            && r.next == s.next + 1 && r.called == s.called && r.removed == s.removed
            && (x in r.abs <==> x in s.abs || (x == t && timeout > 0))
            && (x in r.rel <==> x in s.rel || (x == t && timeout <= 0))
  {
    t := Timer(s.next, ToAbsTime(timeout, c));
    InsertOk(s.abs, t);
    InsertOk(s.rel, t);
  }

  lemma {:induction false} CountIn(q: seq<Timer>, i: Id)
    ensures Count(q, i) > 0 <==> exists t :: t in q && t.id == i
  {
    if q != [] {
      Tail(q);
      CountIn(q[1..], i);
      if q[0].id == i { assert q[0] in q; }
    }
  }

  lemma {:induction false} RemoveExact(q: seq<Timer>, id: Id, x: Timer)
    requires Count(q, id) <= 1
    ensures x in Remove(q, id) <==> x in q && x.id != id
  {
    if q != [] {
      Tail(q);
      if q[0].id == id {
        CountIn(q[1..], id);
      } else {
        RemoveExact(q[1..], id, x);
      }
    }
  }

  /** Cancelling takes just that timer from where it waits. */
  lemma CancelExact(s: State, queue: seq<Timer>, id: Id, x: Timer)
    requires Inv(s, queue)
    ensures var r := Cancel(s, queue, id);
            && (x in r.0.abs <==> x in s.abs && x.id != id)
            && (x in r.0.rel <==> x in s.rel && x.id != id)
            && (x in r.1 <==> x in queue && x.id != id)
            && r.0.called == s.called && r.0.next == s.next
            && r.0.removed ==
               s.removed + if exists t :: (t in s.abs || t in s.rel || t in queue) && t.id == id then [id] else []
  {
    assert PlaceOk(s, queue, id);
    CountIn(s.abs, id);
    CountIn(s.rel, id);
    CountIn(queue, id);
    RemoveExact(s.abs, id, x);
    RemoveExact(s.rel, id, x);
    RemoveExact(queue, id, x);
  }

  predicate AsksFor(es: seq<Effect>, i: Id) {
    Cancels(i) in es
  }

  /** A callback removes a timer only if it asks for that, and adds none that was there. */
  lemma {:induction false} EffectsTouch(s: State, queue: seq<Timer>, es: seq<Effect>, c: Clock, i: Id)
    requires i < s.next && Count(s.abs, i) == 0 && Count(s.rel, i) == 0
    ensures var r := Effects(s, queue, es, c);
            && i < r.0.next && Count(r.0.abs, i) == 0 && Count(r.0.rel, i) == 0
            && (!AsksFor(es, i) ==> multiset(r.0.removed)[i] == multiset(s.removed)[i])
            && (Count(queue, i) > 0 && Count(r.1, i) == 0 ==> AsksFor(es, i))
    decreases |es|
  {
    if es != [] {
      match es[0] {
        case Starts(timeout) =>
          var t := Timer(s.next, ToAbsTime(timeout, c));
          InsertCount(s.abs, t, i);
          InsertCount(s.rel, t, i);
          EffectsTouch(Add(s, timeout, c), queue, es[1..], c, i);
        case Cancels(id) =>
          var r := Cancel(s, queue, id);
          RemoveCount(s.abs, id, i);
          RemoveCount(s.rel, id, i);
          RemoveCount(queue, id, i);
          EffectsTouch(r.0, r.1, es[1..], c, i);
      }
    }
  }

  lemma {:induction false} CalledStays(s: State, queue: seq<Timer>, cb: Id -> seq<Effect>, c: Clock, j: Id)
    requires j in s.called
    ensures j in Fire(s, queue, cb, c).called
    decreases |queue|
  {
    if queue != [] {
      var t := s.(called := s.called + [queue[0].id]);
      EffectsCallNone(t, queue[1..], cb(queue[0].id), c);
      var r := Effects(t, queue[1..], cb(queue[0].id), c);
      CalledStays(r.0, r.1, cb, c, j);
    }
  }

  lemma {:induction false} FireSettles(s: State, queue: seq<Timer>, cb: Id -> seq<Effect>, c: Clock, i: Id)
    requires i < s.next && Count(s.abs, i) == 0 && Count(s.rel, i) == 0
    ensures var u := Fire(s, queue, cb, c);
            && Count(u.abs, i) == 0 && Count(u.rel, i) == 0
            && (multiset(u.removed)[i] > multiset(s.removed)[i] ==> exists j: Id :: AsksFor(cb(j), i) && j in u.called)
    decreases |queue|
  {
    if queue != [] {
      var j := queue[0].id;
      var t := s.(called := s.called + [j]);
      EffectsTouch(t, queue[1..], cb(j), c, i);
      EffectsCallNone(t, queue[1..], cb(j), c);
      var r := Effects(t, queue[1..], cb(j), c);
      FireSettles(r.0, r.1, cb, c, i);
      CalledStays(r.0, r.1, cb, c, j);
    }
  }

  lemma {:induction false} IdStays(s: State, queue: seq<Timer>, cb: Id -> seq<Effect>, c: Clock, i: Id)
    requires i < s.next && Count(s.abs, i) == 0 && Count(s.rel, i) == 0
    ensures i < Fire(s, queue, cb, c).next
    decreases |queue|
  {
    if queue != [] {
      var t := s.(called := s.called + [queue[0].id]);
      EffectsTouch(t, queue[1..], cb(queue[0].id), c, i);
      var r := Effects(t, queue[1..], cb(queue[0].id), c);
      IdStays(r.0, r.1, cb, c, i);
    }
  }

  lemma {:induction false} IdBelow(s: State, queue: seq<Timer>, t: Timer)
    requires Inv(s, queue) && t in queue
    ensures t.id < s.next && Count(s.abs, t.id) == 0 && Count(s.rel, t.id) == 0
    ensures multiset(s.called)[t.id] == 0 && multiset(s.removed)[t.id] == 0
  {
    assert PlaceOk(s, queue, t.id);
    CountIn(queue, t.id);
  }

  lemma InTail(q: seq<Timer>, n: nat, t: Timer)
    requires n <= |q| && t in q && t !in q[..n]
    ensures t in q[n..]
  {
    assert q == q[..n] + q[n..];
  }

  /** A timer that has not expired stays where it waits, and is not among those called. */
  lemma LeftKeeps(s: State, c: Clock, t: Timer)
    requires Inv(s, []) && (t in s.abs || t in s.rel) && !Expired(c, t)
    ensures Count(Taken(s, c), t.id) == 0 && multiset(s.called)[t.id] == 0
  {
    var m, q := Left(s, c), Taken(s, c);
    PassKeepsInv(s, _ => [], c);
    assert PlaceOk(m, q, t.id) && PlaceOk(s, [], t.id);
    TakenExact(s, c, t);
    CountIn(s.abs, t.id);
    CountIn(s.rel, t.id);
    SplitCount(s.abs, Due(s.abs, c), t.id);
    SplitCount(s.rel, Due(s.rel, c), t.id);
    if t in s.abs { InTail(s.abs, Due(s.abs, c), t); } else { InTail(s.rel, Due(s.rel, c), t); }
    CountIn(m.abs, t.id);
    CountIn(m.rel, t.id);
  }

  lemma ExpiredSettles(s: State, cb: Id -> seq<Effect>, c: Clock, t: Timer)
    requires Inv(s, []) && t in Taken(s, c)
    ensures var u := Pass(s, cb, c);
            && Count(u.abs, t.id) == 0 && Count(u.rel, t.id) == 0
            && (t.id in u.called || (t.id in u.removed && exists j: Id :: AsksFor(cb(j), t.id) && j in u.called))
  {
    var u, m, q, i := Pass(s, cb, c), Left(s, c), Taken(s, c), t.id;
    PassKeepsInv(s, cb, c);
    IdBelow(m, q, t);
    FireSettles(m, q, cb, c, i);
    assert PlaceOk(u, [], i) && i < u.next by { IdStays(m, q, cb, c, i); }
    assert multiset(u.called)[i] > 0 || multiset(u.removed)[i] > 0;
    assert i in u.called <==> i in multiset(u.called);
    assert i in u.removed <==> i in multiset(u.removed);
  }

  /** After any run, every timer that had expired when the pass began is settled by the pass: it
      was called, or a callback of the pass removed it before its turn.  No other timer is
      called, so none is ever called early. */
  lemma PassSettles(ops: seq<Op>, cb: Id -> seq<Effect>, c: Clock, t: Timer)
    requires var s := Run(Initial, ops); t in s.abs || t in s.rel
    ensures var s := Run(Initial, ops);
            var u := Pass(s, cb, c);
            if Expired(c, t) then
              && Count(u.abs, t.id) == 0 && Count(u.rel, t.id) == 0
              && (t.id in u.called || (t.id in u.removed && exists j: Id :: AsksFor(cb(j), t.id) && j in u.called))
            else t.id !in u.called
  {
    var s := Run(Initial, ops);
    ReachableInv(ops);
    TakenExact(s, c, t);
    if Expired(c, t) {
      ExpiredSettles(s, cb, c, t);
    } else {
      LeftKeeps(s, c, t);
      FireCallsOnly(Left(s, c), Taken(s, c), cb, c, t.id);
      assert t.id !in multiset(Pass(s, cb, c).called);
    }
  }

  // ---------------------------------------------------------------- the code

  lemma {:induction false} InsertAt(q: seq<Timer>, t: Timer, k: nat)
    requires k <= |q| && (forall j | 0 <= j < k :: Deadline(q[j]) < Deadline(t)) &&
             (k < |q| ==> Deadline(q[k]) >= Deadline(t))
    ensures Insert(q, t) == q[..k] + [t] + q[k..]
  {
    if k > 0 {
      InsertAt(q[1..], t, k - 1);
      assert q[..k] == [q[0]] + q[1..][..k - 1] && q[k..] == q[1..][k - 1..];
    }
  }

  /** The place in a list for a timer with this deadline. */
  method FindPlace(q: seq<Timer>, t: Timer) returns (k: nat)
    ensures k <= |q| && Insert(q, t) == q[..k] + [t] + q[k..]
  {
    k := 0;
    while k < |q|
      invariant 0 <= k <= |q| && forall j | 0 <= j < k :: Deadline(q[j]) < Deadline(t)
    {
      if Deadline(q[k]) >= Deadline(t) { break; }
      k := k + 1;
    }
    InsertAt(q, t, k);
  }

  class TimerLists {
    var abs: seq<Timer>
    var rel: seq<Timer>
    var next: Id
    var called: seq<Id>
    var removed: seq<Id>

    ghost function View(): State
      reads this
    {
      State(abs, rel, next, called, removed)
    }

    method AddTimeoutUser(timeout: int, c: Clock) returns (id: Id)
      modifies this
      ensures View() == Add(old(View()), timeout, c) && id == old(next)
    {
      id := next;
      var t := Timer(next, ToAbsTime(timeout, c));
      if t.when > 0 {
        var k := FindPlace(abs, t);
        abs := abs[..k] + [t] + abs[k..];
      } else {
        var k := FindPlace(rel, t);
        rel := rel[..k] + [t] + rel[k..];
      }
      next := next + 1;
    }

    /** A callback starts and cancels timers. */
    method RunCallback(es: seq<Effect>, queue: seq<Timer>, c: Clock) returns (rest: seq<Timer>)
      modifies this
      ensures (View(), rest) == Effects(old(View()), queue, es, c)
    {
      rest := queue;
      var k := 0;
      while k < |es|
        invariant 0 <= k <= |es|
        invariant Effects(View(), rest, es[k..], c) == Effects(old(View()), queue, es, c)
      {
        assert es[k..][1..] == es[k + 1..];
        match es[k] {
          case Starts(timeout) =>
            var _ := AddTimeoutUser(timeout, c);
          case Cancels(id) =>
            if Count(abs, id) > 0 {
              abs, removed := Remove(abs, id), removed + [id];
            } else if Count(rel, id) > 0 {
              rel, removed := Remove(rel, id), removed + [id];
            } else if Count(rest, id) > 0 {
              rest, removed := Remove(rest, id), removed + [id];
            }
        }
        k := k + 1;
      }
    }

    /** Move the expired timers from the head of a list to the ones to be called. */
    method TakeExpired(q: seq<Timer>, c: Clock) returns (n: nat)
      ensures n == Due(q, c)
    {
      n := 0;
      while n < |q|
        invariant 0 <= n <= |q| && Due(q, c) == n + Due(q[n..], c)
      {
        if !Expired(c, q[n]) { break; }
        assert q[n..][1..] == q[n + 1..];
        n := n + 1;
      }
    }

    /** The second half of get_next_timeout. */
    method ComputeWait(c: Clock, shared: bool) returns (ms: int)
      ensures ms == Millis(Wait(View(), c, shared))
    {
      var wait := if shared then SHARED_DATA_TIMEOUT else -1;
      if abs != [] {
        var diff := Deadline(abs[0]) - Now(c, abs[0]);
        if diff < 0 { diff := 0; }
        if wait == -1 || diff < wait { wait := diff; }
      }
      if rel != [] {
        var diff := Deadline(rel[0]) - Now(c, rel[0]);
        if diff < 0 { diff := 0; }
        if wait == -1 || diff < wait { wait := diff; }
      }
      if wait == -1 { return -1; }
      ms := (wait + (TICKS_PER_MS - 1)) / TICKS_PER_MS;
      if ms > INT_MAX { ms := INT_MAX; }
    }

    /** get_next_timeout */
    method GetNextTimeout(cb: Id -> seq<Effect>, c: Clock, shared: bool) returns (ms: int)
      modifies this
      ensures View() == Pass(old(View()), cb, c)
      ensures ms == Millis(Wait(View(), c, shared))
    {
      var a := TakeExpired(abs, c);
      var r := TakeExpired(rel, c);
      var queue := abs[..a] + rel[..r];
      abs, rel := abs[a..], rel[r..];
      while queue != []
        invariant Fire(View(), queue, cb, c) == Pass(old(View()), cb, c)
        decreases |queue|
      {
        var id := queue[0].id;
        called := called + [id];
        queue := RunCallback(cb(id), queue[1..], c);
      }
      ms := ComputeWait(c, shared);
    }
  }
}
