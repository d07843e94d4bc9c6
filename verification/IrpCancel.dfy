/** The IRP cancellation template: queueing, dequeueing and cancelling threads race over
    one lock and one atomically exchanged cancel-routine pointer.

    Every lock-protected list edit, every read of the Cancel flag and every exchange is one
    atomic step.  Any number of IRPs, cancellers and dequeuers take part, in any order.
 */
module IrpCancel {

  type Id = nat

  /** What the IRP's list entry looks like.  `Dangling` is an entry that was unlinked and
      whose own pointers still name its old neighbours: unlinking it again would corrupt
      the queue.  `SelfLinked` may be unlinked any number of times. */
  datatype Link = Fresh | Queued | SelfLinked | Dangling

  datatype Completion = Success | Cancelled

  /** Where the thread that queues the IRP stands. */
  datatype QueuePc =
    | QStart
    | QLocked
    | QContextSet
    | QRoutineSet
    | QCancelSeen
    | QOwnCancel
    | QOwnCancelUnlocked
    | QNotCancelled
    | QPending
    | QInserted
    | QReturnedFalse
    | QReturnedTrue

  datatype Irp = Irp(cancel: bool, routine: bool, context: bool, link: Link,
                     pc: QueuePc, completions: seq<Completion>)

  /** The kernel's canceller: set the flag, take the routine, and if there was one, run it. */
  datatype CancelPc = CStart | CFlagSet | CTaken | CLocked | CRemoved | CUnlocked | CDone

  datatype Canceller = Canceller(irp: Id, pc: CancelPc)

  datatype DequeuePc =
    | DStart
    | DLocked
    | DTaken(irp: Id)
    | DLost(irp: Id)
    | DSelfLinked(irp: Id)
    | DWon(irp: Id)
    | DUnlocked(irp: Id)
    | DDone

  datatype Owner = Nobody | ByQueue(i: Id) | ByCancel(c: Id) | ByDequeue(d: Id)

  datatype State = State(irps: map<Id, Irp>, cancellers: map<Id, Canceller>,
                         dequeuers: map<Id, DequeuePc>, lock: Owner, queue: seq<Id>)

  datatype Action =
    | NewIrp(i: Id)
    | NewCanceller(c: Id, target: Id)
    | NewDequeuer(d: Id)
    | QueueStep(i: Id)
    | CancelStep(c: Id)
    | DequeueStep(d: Id)

  const Initial := State(map[], map[], map[], Nobody, [])

  // ---------------------------------------------------------------- the steps

  /** A step waits while it needs the lock and somebody holds it.  Taking the head waits for
      a non-empty queue: the template calls RemoveHeadList without a test of its own. */
  predicate Enabled(s: State, a: Action) {
    match a
    case NewIrp(i) => i !in s.irps
    case NewCanceller(c, i) => c !in s.cancellers && i in s.irps
    case NewDequeuer(d) => d !in s.dequeuers
    case QueueStep(i) =>
      && i in s.irps
      && !s.irps[i].pc.QReturnedFalse? && !s.irps[i].pc.QReturnedTrue?
      && (s.irps[i].pc.QStart? ==> s.lock.Nobody?)
    case CancelStep(c) =>
      && c in s.cancellers && s.cancellers[c].irp in s.irps
      && !s.cancellers[c].pc.CDone?
      && (s.cancellers[c].pc.CTaken? ==> s.lock.Nobody?)
    case DequeueStep(d) =>
      && d in s.dequeuers
      && !s.dequeuers[d].DDone?
      && (s.dequeuers[d].DStart? ==> s.lock.Nobody?)
      && (s.dequeuers[d].DLocked? ==> s.queue != [] && s.queue[0] in s.irps)
      && (s.dequeuers[d].DTaken? || s.dequeuers[d].DLost? || s.dequeuers[d].DUnlocked? ==>
            s.dequeuers[d].irp in s.irps)
  }

  function Without(q: seq<Id>, i: Id): seq<Id> {
    if q == [] then [] else if q[0] == i then Without(q[1..], i) else [q[0]] + Without(q[1..], i)
  }

  function Complete(irp: Irp, how: Completion): Irp {
    irp.(completions := irp.completions + [how])
  }

  /** What one step of the queueing thread does to its IRP. */
  function Queueing(irp: Irp): Irp {
    match irp.pc
    case QStart => irp.(pc := QLocked)
    case QLocked => irp.(context := true, pc := QContextSet)
    case QContextSet => irp.(routine := true, pc := QRoutineSet)
    case QRoutineSet => irp.(pc := if irp.cancel then QCancelSeen else QNotCancelled)
    case QCancelSeen => irp.(routine := false, pc := if irp.routine then QOwnCancel else QNotCancelled)
    case QOwnCancel => irp.(pc := QOwnCancelUnlocked)
    case QOwnCancelUnlocked => Complete(irp, Cancelled).(pc := QReturnedFalse)
    case QNotCancelled => irp.(pc := QPending)
    case QPending => irp.(link := Queued, pc := QInserted)
    case QInserted => irp.(pc := QReturnedTrue)
    case _ => irp
  }

  function ApplyQueue(s: State, i: Id): State
    requires Enabled(s, QueueStep(i))
  {
    var t := s.(irps := s.irps[i := Queueing(s.irps[i])]);
    match s.irps[i].pc
    case QStart => t.(lock := ByQueue(i))
    case QOwnCancel => t.(lock := Nobody)
    case QPending => t.(queue := s.queue + [i])
    case QInserted => t.(lock := Nobody)
    case _ => t
  }

  /** RemoveEntryList: a queued entry leaves the queue and is left dangling; a self-linked
      one is rewritten to point at itself again. */
  function Unlink(s: State, i: Id): State
    requires i in s.irps
  {
    if s.irps[i].link.Queued?
    then s.(queue := Without(s.queue, i), irps := s.irps[i := s.irps[i].(link := Dangling)])
    else s
  }

  function ApplyCancel(s: State, c: Id): State
    requires Enabled(s, CancelStep(c))
  {
    var me := s.cancellers[c];
    var irp := s.irps[me.irp];
    var moved := (pc: CancelPc) => s.cancellers[c := me.(pc := pc)];
    match me.pc
    case CStart => s.(irps := s.irps[me.irp := irp.(cancel := true)], cancellers := moved(CFlagSet))
    case CFlagSet =>
      s.(irps := s.irps[me.irp := irp.(routine := false)], cancellers := moved(if irp.routine then CTaken else CDone))
    case CTaken => s.(lock := ByCancel(c), cancellers := moved(CLocked))
    case CLocked => Unlink(s, me.irp).(cancellers := moved(CRemoved))
    case CRemoved => s.(lock := Nobody, cancellers := moved(CUnlocked))
    case CUnlocked => s.(irps := s.irps[me.irp := Complete(irp, Cancelled)], cancellers := moved(CDone))
    case CDone => s
  }

  function ApplyDequeue(s: State, d: Id): State
    requires Enabled(s, DequeueStep(d))
  {
    match s.dequeuers[d]
    case DStart => s.(lock := ByDequeue(d), dequeuers := s.dequeuers[d := DLocked])
    case DLocked =>
      var i := s.queue[0];
      s.(queue := s.queue[1..], irps := s.irps[i := s.irps[i].(link := Dangling)],
         dequeuers := s.dequeuers[d := DTaken(i)])
    case DTaken(i) =>
      s.(irps := s.irps[i := s.irps[i].(routine := false)],
         dequeuers := s.dequeuers[d := if s.irps[i].routine then DWon(i) else DLost(i)])
    case DLost(i) =>
      s.(irps := s.irps[i := s.irps[i].(link := SelfLinked)], dequeuers := s.dequeuers[d := DSelfLinked(i)])
    case DSelfLinked(i) => s.(lock := Nobody, dequeuers := s.dequeuers[d := DDone])
    case DWon(i) => s.(lock := Nobody, dequeuers := s.dequeuers[d := DUnlocked(i)])
    case DUnlocked(i) =>
      s.(irps := s.irps[i := Complete(s.irps[i], Success)], dequeuers := s.dequeuers[d := DDone])
    case DDone => s
  }

  function Apply(s: State, a: Action): State
    requires Enabled(s, a)
  {
    match a
    case NewIrp(i) => s.(irps := s.irps[i := Irp(false, false, false, Fresh, QStart, [])])
    case NewCanceller(c, i) => s.(cancellers := s.cancellers[c := Canceller(i, CStart)])
    case NewDequeuer(d) => s.(dequeuers := s.dequeuers[d := DStart])
    case QueueStep(i) => ApplyQueue(s, i)
    case CancelStep(c) => ApplyCancel(s, c)
    case DequeueStep(d) => ApplyDequeue(s, d)
  }

  /** A run is any interleaving of enabled steps from the empty system. */
  ghost predicate Reaches(actions: seq<Action>, s: State) {
    if actions == [] then s == Initial
    else
      var before := actions[..|actions| - 1];
      exists m :: Reaches(before, m) && Enabled(m, actions[|before|]) && Apply(m, actions[|before|]) == s
  }

  // ---------------------------------------------------------------- what every reachable state satisfies

  predicate QueueHoldsLock(pc: QueuePc) {
    !pc.QStart? && !pc.QOwnCancelUnlocked? && !pc.QReturnedFalse? && !pc.QReturnedTrue?
  }

  predicate CancelHoldsLock(pc: CancelPc) { pc.CLocked? || pc.CRemoved? }

  predicate DequeueHoldsLock(pc: DequeuePc) {
    pc.DLocked? || pc.DTaken? || pc.DLost? || pc.DSelfLinked? || pc.DWon?
  }

  predicate HasIrp(pc: DequeuePc) { !pc.DStart? && !pc.DLocked? && !pc.DDone? }

  /** The three threads of one IRP have all returned, and nobody else still works on it. */
  ghost predicate Quiet(s: State, i: Id)
    requires i in s.irps
  {
    && (s.irps[i].pc.QReturnedFalse? || s.irps[i].pc.QReturnedTrue?)
    && (forall c | c in s.cancellers && s.cancellers[c].irp == i :: s.cancellers[c].pc.CDone?)
    && (forall d | d in s.dequeuers && HasIrp(s.dequeuers[d]) :: s.dequeuers[d].irp != i)
  }

  /** An IRP is completed at most once, never while it sits in the queue, and with
      Cancelled only if somebody asked for that.  Once its threads have returned it is either
      queued with its cancel routine armed, or it was completed exactly once. */
  ghost predicate IrpSafe(s: State, i: Id)
    requires i in s.irps
  {
    var irp := s.irps[i];
    && |irp.completions| <= 1
    && (i in s.queue ==> irp.completions == [])
    && (Cancelled in irp.completions ==> irp.cancel)
    && (irp.pc.QReturnedFalse? ==> irp.completions == [Cancelled])
    && (Quiet(s, i) ==> if i in s.queue then irp.routine else |irp.completions| == 1)
  }

  /** What the cancel routine is about to unlink is in the queue or points at itself, and the
      lock it took was named by the queueing thread. */
  predicate UnlinkSafe(s: State, i: Id) {
    && i in s.irps && s.irps[i].context
    && (if i in s.queue then s.irps[i].link.Queued? else s.irps[i].link.SelfLinked?)
  }

  ghost predicate Safe(s: State) {
    && (forall i | i in s.irps :: IrpSafe(s, i))
    && (forall c | c in s.cancellers && s.cancellers[c].pc.CLocked? :: UnlinkSafe(s, s.cancellers[c].irp))
  }

  // ---------------------------------------------------------------- the inductive invariant

  /** Who holds the one right to complete an IRP. */
  datatype Holder = InQueueThread | InSlot | InCanceller(c: Id) | InDequeuer(d: Id) | Spent

  type Holders = map<Id, Holder>

  predicate BeforeRoutine(pc: QueuePc) { pc.QStart? || pc.QLocked? || pc.QContextSet? }

  predicate OwnCancel(pc: QueuePc) { pc.QOwnCancel? || pc.QOwnCancelUnlocked? }

  predicate NotYetInserted(pc: QueuePc) {
    BeforeRoutine(pc) || OwnCancel(pc) || pc.QRoutineSet? || pc.QCancelSeen? || pc.QNotCancelled? || pc.QPending?
  }

  predicate CancelOwns(pc: CancelPc) { pc.CTaken? || pc.CLocked? || pc.CRemoved? || pc.CUnlocked? }

  /** The dequeuer that holds the lock has this IRP in hand, between the unlink and the
      point where the entry is safe again. */
  predicate InHand(s: State, i: Id) {
    && s.lock.ByDequeue? && s.lock.d in s.dequeuers
    && (s.dequeuers[s.lock.d] == DTaken(i) || s.dequeuers[s.lock.d] == DLost(i))
  }

  predicate HolderOk(s: State, i: Id, h: Holder)
    requires i in s.irps
  {
    var irp := s.irps[i];
    match h
    case InQueueThread => (BeforeRoutine(irp.pc) || OwnCancel(irp.pc)) && !irp.routine && irp.completions == []
    case InSlot =>
      && irp.routine && irp.completions == [] && !BeforeRoutine(irp.pc) && !OwnCancel(irp.pc) && !irp.pc.QReturnedFalse?
      && (NotYetInserted(irp.pc) || irp.link.Queued? ||
          (InHand(s, i) && s.dequeuers[s.lock.d].DTaken?))
    case InCanceller(c) =>
      && !irp.routine && irp.completions == [] && !BeforeRoutine(irp.pc) && !OwnCancel(irp.pc)
      && !irp.pc.QReturnedFalse?
      && c in s.cancellers && s.cancellers[c].irp == i && CancelOwns(s.cancellers[c].pc)
      && (s.cancellers[c].pc.CTaken? || s.cancellers[c].pc.CLocked? ==>
            NotYetInserted(irp.pc) || irp.link.Queued? || irp.link.SelfLinked? || InHand(s, i))
      && (s.cancellers[c].pc.CRemoved? || s.cancellers[c].pc.CUnlocked? ==>
            irp.pc.QReturnedTrue? && !irp.link.Queued?)
    case InDequeuer(d) =>
      && !irp.routine && irp.completions == [] && irp.pc.QReturnedTrue? && irp.link.Dangling?
      && d in s.dequeuers && (s.dequeuers[d] == DWon(i) || s.dequeuers[d] == DUnlocked(i))
    case Spent =>
      && !irp.routine && |irp.completions| == 1 && !irp.link.Queued?
      && (irp.pc.QReturnedTrue? || (irp.pc.QReturnedFalse? && irp.completions == [Cancelled]))
  }

  /** What the place of the queueing thread says about the IRP. */
  predicate PlaceOk(irp: Irp) {
    && (NotYetInserted(irp.pc) || irp.pc.QReturnedFalse? ==> irp.link.Fresh?)
    && (irp.pc.QInserted? ==> irp.link.Queued?)
    && (irp.pc.QCancelSeen? || OwnCancel(irp.pc) || irp.pc.QReturnedFalse? ==> irp.cancel)
    && (!irp.pc.QStart? && !irp.pc.QLocked? ==> irp.context)
    && (Cancelled in irp.completions ==> irp.cancel)
  }

  predicate IrpOk(s: State, i: Id, h: Holder)
    requires i in s.irps
  {
    && HolderOk(s, i, h) && PlaceOk(s.irps[i])
    && (QueueHoldsLock(s.irps[i].pc) <==> s.lock == ByQueue(i))
  }

  predicate CancellerOk(s: State, c: Id, hs: Holders)
    requires c in s.cancellers
  {
    var me := s.cancellers[c];
    && me.irp in s.irps && me.irp in hs
    && (CancelOwns(me.pc) ==> hs[me.irp] == InCanceller(c))
    && (!me.pc.CStart? ==> s.irps[me.irp].cancel)
    && (CancelHoldsLock(me.pc) <==> s.lock == ByCancel(c))
  }

  /** A canceller that owns an IRP in a dequeuer's hand has not got the lock yet. */
  predicate StillWaiting(s: State, h: Holder) {
    h.InCanceller? ==> h.c in s.cancellers && s.cancellers[h.c].pc.CTaken?
  }

  predicate DequeuerOk(s: State, d: Id, hs: Holders)
    requires d in s.dequeuers
  {
    var pc := s.dequeuers[d];
    && (DequeueHoldsLock(pc) <==> s.lock == ByDequeue(d))
    && (HasIrp(pc) ==> pc.irp in s.irps && pc.irp in hs && s.irps[pc.irp].pc.QReturnedTrue?)
    && (pc.DTaken? ==> s.irps[pc.irp].link.Dangling? && (hs[pc.irp].InSlot? || hs[pc.irp].InCanceller?))
    && (pc.DLost? ==> s.irps[pc.irp].link.Dangling? && hs[pc.irp].InCanceller?)
    && (pc.DTaken? || pc.DLost? ==> StillWaiting(s, hs[pc.irp]))
    && (pc.DWon? || pc.DUnlocked? ==> hs[pc.irp] == InDequeuer(d))
  }

  ghost predicate QueueOk(queue: seq<Id>, irps: map<Id, Irp>) {
    && (forall i {:trigger i in queue} :: i in queue <==> i in irps && irps[i].link.Queued?)
    && (forall j, k | 0 <= j < k < |queue| :: queue[j] != queue[k])
  }

  predicate LockOk(s: State) {
    match s.lock
    case Nobody => true
    case ByQueue(i) => i in s.irps
    case ByCancel(c) => c in s.cancellers
    case ByDequeue(d) => d in s.dequeuers
  }

  ghost predicate SharedOk(s: State, hs: Holders) {
    hs.Keys == s.irps.Keys && LockOk(s) && QueueOk(s.queue, s.irps)
  }

  ghost predicate Inv(s: State, hs: Holders) {
    && SharedOk(s, hs)
    && (forall i {:trigger IrpOk(s, i, hs[i])} | i in s.irps :: IrpOk(s, i, hs[i]))
    && (forall c {:trigger CancellerOk(s, c, hs)} | c in s.cancellers :: CancellerOk(s, c, hs))
    && (forall d {:trigger DequeuerOk(s, d, hs)} | d in s.dequeuers :: DequeuerOk(s, d, hs))
  }

  /** Where the right to complete goes in a step. */
  function NextHolders(s: State, hs: Holders, a: Action): Holders
    requires Enabled(s, a) && hs.Keys == s.irps.Keys
  {
    match a
    case NewIrp(i) => hs[i := InQueueThread]
    case QueueStep(i) =>
      if s.irps[i].pc.QContextSet? then hs[i := InSlot]
      else if s.irps[i].pc.QCancelSeen? && s.irps[i].routine then hs[i := InQueueThread]
      else if s.irps[i].pc.QOwnCancelUnlocked? then hs[i := Spent]
      else hs
    case CancelStep(c) =>
      var i := s.cancellers[c].irp;
      if s.cancellers[c].pc.CFlagSet? && s.irps[i].routine then hs[i := InCanceller(c)]
      else if s.cancellers[c].pc.CUnlocked? then hs[i := Spent]
      else hs
    case DequeueStep(d) =>
      if s.dequeuers[d].DTaken? && s.irps[s.dequeuers[d].irp].routine then hs[s.dequeuers[d].irp := InDequeuer(d)]
      else if s.dequeuers[d].DUnlocked? then hs[s.dequeuers[d].irp := Spent]
      else hs
    case _ => hs
  }

  lemma WithoutKeepsDistinct(q: seq<Id>, i: Id)
    requires forall j, k | 0 <= j < k < |q| :: q[j] != q[k]
    ensures forall x :: x in Without(q, i) <==> x in q && x != i
    ensures forall j, k | 0 <= j < k < |Without(q, i)| :: Without(q, i)[j] != Without(q, i)[k]
  {
    if q != [] {
      WithoutKeepsDistinct(q[1..], i);
      assert q[0] !in q[1..];
      assert forall x :: x in q <==> x == q[0] || x in q[1..];
    }
  }

  lemma SameLinkKeepsQueueOk(queue: seq<Id>, irps: map<Id, Irp>, i: Id, irp: Irp)
    requires QueueOk(queue, irps) && i in irps && irp.link == irps[i].link
    ensures QueueOk(queue, irps[i := irp])
  {
  }

  lemma AppendKeepsQueueOk(queue: seq<Id>, irps: map<Id, Irp>, i: Id, irp: Irp)
    requires QueueOk(queue, irps) && i in irps && !irps[i].link.Queued? && irp.link.Queued?
    ensures QueueOk(queue + [i], irps[i := irp])
  {
    assert i !in queue;
  }

  /** A step that leaves an IRP, its holder and who has it in hand alone. */
  lemma Untouched(s: State, t: State, i: Id, h: Holder)
    requires i in s.irps && i in t.irps && t.irps[i] == s.irps[i] && IrpOk(s, i, h)
    requires s.lock == ByQueue(i) <==> t.lock == ByQueue(i)
    requires InHand(s, i) ==>
               t.lock == s.lock && t.lock.d in t.dequeuers && t.dequeuers[t.lock.d] == s.dequeuers[s.lock.d]
    requires h.InCanceller? ==> h.c in t.cancellers && t.cancellers[h.c] == s.cancellers[h.c]
    requires h.InDequeuer? ==> h.d in t.dequeuers && t.dequeuers[h.d] == s.dequeuers[h.d]
    ensures IrpOk(t, i, h)
  {
  }

  lemma QueueStepHolder(s: State, hs: Holders, i: Id)
    requires Enabled(s, QueueStep(i)) && hs.Keys == s.irps.Keys && IrpOk(s, i, hs[i])
    ensures HolderOk(ApplyQueue(s, i), i, NextHolders(s, hs, QueueStep(i))[i])
  {
  }

  lemma QueueStepPlace(irp: Irp)
    requires PlaceOk(irp)
    ensures PlaceOk(Queueing(irp))
  {
  }

  lemma QueueStepOnIrp(s: State, hs: Holders, i: Id)
    requires Enabled(s, QueueStep(i)) && hs.Keys == s.irps.Keys && IrpOk(s, i, hs[i])
    ensures IrpOk(ApplyQueue(s, i), i, NextHolders(s, hs, QueueStep(i))[i])
  {
    QueueStepHolder(s, hs, i);
    QueueStepPlace(s.irps[i]);
  }

  lemma QueueStepOnOtherIrp(s: State, hs: Holders, i: Id, j: Id)
    requires Enabled(s, QueueStep(i)) && hs.Keys == s.irps.Keys && j in s.irps && j != i
    requires IrpOk(s, j, hs[j]) && (QueueHoldsLock(s.irps[i].pc) <==> s.lock == ByQueue(i))
    ensures IrpOk(ApplyQueue(s, i), j, NextHolders(s, hs, QueueStep(i))[j])
  {
    Untouched(s, ApplyQueue(s, i), j, hs[j]);
  }

  lemma QueueStepOnEach(s: State, hs: Holders, i: Id, j: Id)
    requires Inv(s, hs) && Enabled(s, QueueStep(i)) && j in s.irps
    ensures IrpOk(ApplyQueue(s, i), j, NextHolders(s, hs, QueueStep(i))[j])
  {
    assert IrpOk(s, i, hs[i]) && IrpOk(s, j, hs[j]);
    if j == i { QueueStepOnIrp(s, hs, i); } else { QueueStepOnOtherIrp(s, hs, i, j); }
  }

  lemma QueueStepOnQueue(s: State, i: Id)
    requires QueueOk(s.queue, s.irps) && Enabled(s, QueueStep(i))
    requires NotYetInserted(s.irps[i].pc) ==> s.irps[i].link.Fresh?
    ensures QueueOk(ApplyQueue(s, i).queue, ApplyQueue(s, i).irps)
  {
    var irp' := Queueing(s.irps[i]);
    if s.irps[i].pc.QPending? {
      AppendKeepsQueueOk(s.queue, s.irps, i, irp');
    } else {
      SameLinkKeepsQueueOk(s.queue, s.irps, i, irp');
    }
  }

  lemma QueueStepOnShared(s: State, hs: Holders, i: Id)
    requires SharedOk(s, hs) && Enabled(s, QueueStep(i))
    requires NotYetInserted(s.irps[i].pc) ==> s.irps[i].link.Fresh?
    ensures SharedOk(ApplyQueue(s, i), NextHolders(s, hs, QueueStep(i)))
  {
    QueueStepOnQueue(s, i);
    assert ApplyQueue(s, i).irps.Keys == s.irps.Keys;
  }

  lemma QueueStepOnCanceller(s: State, hs: Holders, i: Id, c: Id)
    requires Inv(s, hs) && Enabled(s, QueueStep(i)) && c in s.cancellers
    ensures CancellerOk(ApplyQueue(s, i), c, NextHolders(s, hs, QueueStep(i)))
  {
    assert IrpOk(s, i, hs[i]) && CancellerOk(s, c, hs);
  }

  lemma QueueStepOnDequeuer(s: State, hs: Holders, i: Id, d: Id)
    requires Inv(s, hs) && Enabled(s, QueueStep(i)) && d in s.dequeuers
    ensures DequeuerOk(ApplyQueue(s, i), d, NextHolders(s, hs, QueueStep(i)))
  {
    assert IrpOk(s, i, hs[i]) && DequeuerOk(s, d, hs);
  }

  lemma QueueStepOnOthers(s: State, hs: Holders, i: Id)
    requires Inv(s, hs) && Enabled(s, QueueStep(i))
    ensures forall c | c in s.cancellers :: CancellerOk(ApplyQueue(s, i), c, NextHolders(s, hs, QueueStep(i)))
    ensures forall d | d in s.dequeuers :: DequeuerOk(ApplyQueue(s, i), d, NextHolders(s, hs, QueueStep(i)))
  {
    forall c | c in s.cancellers
      ensures CancellerOk(ApplyQueue(s, i), c, NextHolders(s, hs, QueueStep(i)))
    {
      QueueStepOnCanceller(s, hs, i, c);
    }
    forall d | d in s.dequeuers
      ensures DequeuerOk(ApplyQueue(s, i), d, NextHolders(s, hs, QueueStep(i)))
    {
      QueueStepOnDequeuer(s, hs, i, d);
    }
  }

  lemma QueueStepKeepsInv(s: State, hs: Holders, i: Id)
    requires Inv(s, hs) && Enabled(s, QueueStep(i))
    ensures Inv(ApplyQueue(s, i), NextHolders(s, hs, QueueStep(i)))
  {
    forall j | j in s.irps
      ensures IrpOk(ApplyQueue(s, i), j, NextHolders(s, hs, QueueStep(i))[j])
    {
      QueueStepOnEach(s, hs, i, j);
    }
    assert IrpOk(s, i, hs[i]);
    QueueStepOnOthers(s, hs, i);
    QueueStepOnShared(s, hs, i);
  }

  lemma CancelStepOnIrp(s: State, hs: Holders, c: Id)
    requires Inv(s, hs) && Enabled(s, CancelStep(c))
    ensures IrpOk(ApplyCancel(s, c), s.cancellers[c].irp, NextHolders(s, hs, CancelStep(c))[s.cancellers[c].irp])
  {
    assert CancellerOk(s, c, hs);
    assert IrpOk(s, s.cancellers[c].irp, hs[s.cancellers[c].irp]);
  }

  lemma CancelStepOnOtherIrp(s: State, hs: Holders, c: Id, j: Id)
    requires Enabled(s, CancelStep(c)) && hs.Keys == s.irps.Keys && j in s.irps && j != s.cancellers[c].irp
    requires IrpOk(s, j, hs[j]) && (CancelHoldsLock(s.cancellers[c].pc) <==> s.lock == ByCancel(c))
    ensures IrpOk(ApplyCancel(s, c), j, NextHolders(s, hs, CancelStep(c))[j])
  {
    Untouched(s, ApplyCancel(s, c), j, hs[j]);
  }

  lemma UnlinkKeepsQueueOk(s: State, i: Id)
    requires QueueOk(s.queue, s.irps) && i in s.irps
    ensures QueueOk(Unlink(s, i).queue, Unlink(s, i).irps)
  {
    WithoutKeepsDistinct(s.queue, i);
  }

  lemma CancelStepOnShared(s: State, hs: Holders, c: Id)
    requires Inv(s, hs) && Enabled(s, CancelStep(c))
    ensures SharedOk(ApplyCancel(s, c), NextHolders(s, hs, CancelStep(c)))
  {
    var i, t := s.cancellers[c].irp, ApplyCancel(s, c);
    if s.cancellers[c].pc.CLocked? {
      UnlinkKeepsQueueOk(s, i);
    } else {
      SameLinkKeepsQueueOk(s.queue, s.irps, i, t.irps[i]);
      assert t.irps == s.irps[i := t.irps[i]];
    }
    assert t.irps.Keys == s.irps.Keys;
  }

  lemma CancelStepOnCanceller(s: State, hs: Holders, c: Id, e: Id)
    requires Inv(s, hs) && Enabled(s, CancelStep(c)) && e in s.cancellers
    ensures CancellerOk(ApplyCancel(s, c), e, NextHolders(s, hs, CancelStep(c)))
  {
    assert CancellerOk(s, c, hs) && CancellerOk(s, e, hs);
    assert IrpOk(s, s.cancellers[c].irp, hs[s.cancellers[c].irp]);
  }

  lemma CancelStepOnDequeuer(s: State, hs: Holders, c: Id, d: Id)
    requires Inv(s, hs) && Enabled(s, CancelStep(c)) && d in s.dequeuers
    ensures DequeuerOk(ApplyCancel(s, c), d, NextHolders(s, hs, CancelStep(c)))
  {
    assert CancellerOk(s, c, hs) && DequeuerOk(s, d, hs);
    assert IrpOk(s, s.cancellers[c].irp, hs[s.cancellers[c].irp]);
  }

  lemma CancelStepOnOthers(s: State, hs: Holders, c: Id)
    requires Inv(s, hs) && Enabled(s, CancelStep(c))
    ensures forall e | e in s.cancellers :: CancellerOk(ApplyCancel(s, c), e, NextHolders(s, hs, CancelStep(c)))
    ensures forall d | d in s.dequeuers :: DequeuerOk(ApplyCancel(s, c), d, NextHolders(s, hs, CancelStep(c)))
  {
    forall e | e in s.cancellers
      ensures CancellerOk(ApplyCancel(s, c), e, NextHolders(s, hs, CancelStep(c)))
    {
      CancelStepOnCanceller(s, hs, c, e);
    }
    forall d | d in s.dequeuers
      ensures DequeuerOk(ApplyCancel(s, c), d, NextHolders(s, hs, CancelStep(c)))
    {
      CancelStepOnDequeuer(s, hs, c, d);
    }
  }

  lemma CancelStepKeepsInv(s: State, hs: Holders, c: Id)
    requires Inv(s, hs) && Enabled(s, CancelStep(c))
    ensures Inv(ApplyCancel(s, c), NextHolders(s, hs, CancelStep(c)))
  {
    assert CancellerOk(s, c, hs);
    forall j | j in s.irps
      ensures IrpOk(ApplyCancel(s, c), j, NextHolders(s, hs, CancelStep(c))[j])
    {
      assert IrpOk(s, j, hs[j]);
      if j == s.cancellers[c].irp { CancelStepOnIrp(s, hs, c); } else { CancelStepOnOtherIrp(s, hs, c, j); }
    }
    CancelStepOnOthers(s, hs, c);
    CancelStepOnShared(s, hs, c);
  }

  /** What the dequeuer has in hand, or takes, is held by nobody who could unlink it now. */
  lemma DequeuedIrp(s: State, hs: Holders, d: Id, i: Id)
    requires Inv(s, hs) && Enabled(s, DequeueStep(d))
    requires if s.dequeuers[d].DLocked? then i == s.queue[0] else HasIrp(s.dequeuers[d]) && i == s.dequeuers[d].irp
    ensures i in s.irps && IrpOk(s, i, hs[i])
    ensures s.dequeuers[d].DLocked? ==> i in s.queue && s.irps[i].link.Queued? && s.irps[i].pc.QReturnedTrue?
    ensures s.dequeuers[d].DLocked? ==> StillWaiting(s, hs[i]) && (hs[i].InSlot? || hs[i].InCanceller?)
  {
    assert DequeuerOk(s, d, hs);
    if s.dequeuers[d].DLocked? {
      assert i in s.queue;
      assert IrpOk(s, i, hs[i]);
      if hs[i].InCanceller? { assert CancellerOk(s, hs[i].c, hs); }
    }
  }

  lemma DequeueStepOnHand(s: State, hs: Holders, d: Id, i: Id)
    requires Inv(s, hs) && Enabled(s, DequeueStep(d))
    requires if s.dequeuers[d].DLocked? then i == s.queue[0] else HasIrp(s.dequeuers[d]) && i == s.dequeuers[d].irp
    ensures i in s.irps && IrpOk(ApplyDequeue(s, d), i, NextHolders(s, hs, DequeueStep(d))[i])
  {
    assert DequeuerOk(s, d, hs);
    DequeuedIrp(s, hs, d, i);
  }

  lemma DequeueStepOnIrp(s: State, hs: Holders, d: Id, j: Id)
    requires Inv(s, hs) && Enabled(s, DequeueStep(d)) && j in s.irps
    ensures IrpOk(ApplyDequeue(s, d), j, NextHolders(s, hs, DequeueStep(d))[j])
  {
    assert DequeuerOk(s, d, hs) && IrpOk(s, j, hs[j]);
    if s.dequeuers[d].DLocked? && j == s.queue[0] {
      DequeueStepOnHand(s, hs, d, j);
    } else if HasIrp(s.dequeuers[d]) && j == s.dequeuers[d].irp {
      DequeueStepOnHand(s, hs, d, j);
    } else {
      Untouched(s, ApplyDequeue(s, d), j, hs[j]);
    }
  }

  lemma DequeueStepOnShared(s: State, hs: Holders, d: Id)
    requires Inv(s, hs) && Enabled(s, DequeueStep(d))
    ensures SharedOk(ApplyDequeue(s, d), NextHolders(s, hs, DequeueStep(d)))
  {
    assert s.dequeuers[d].DLocked? ==> forall i :: i in s.queue <==> i == s.queue[0] || i in s.queue[1..];
    if HasIrp(s.dequeuers[d]) { assert DequeuerOk(s, d, hs); }
  }

  lemma DequeueStepOnCanceller(s: State, hs: Holders, d: Id, c: Id)
    requires Inv(s, hs) && Enabled(s, DequeueStep(d)) && c in s.cancellers
    ensures CancellerOk(ApplyDequeue(s, d), c, NextHolders(s, hs, DequeueStep(d)))
  {
    assert DequeuerOk(s, d, hs) && CancellerOk(s, c, hs);
    if HasIrp(s.dequeuers[d]) { DequeuedIrp(s, hs, d, s.dequeuers[d].irp); }
  }

  lemma DequeueStepOnDequeuer(s: State, hs: Holders, d: Id, e: Id)
    requires Inv(s, hs) && Enabled(s, DequeueStep(d)) && e in s.dequeuers
    ensures DequeuerOk(ApplyDequeue(s, d), e, NextHolders(s, hs, DequeueStep(d)))
  {
    assert DequeuerOk(s, d, hs) && DequeuerOk(s, e, hs);
    if s.dequeuers[d].DLocked? { DequeuedIrp(s, hs, d, s.queue[0]); }
    if HasIrp(s.dequeuers[d]) { DequeuedIrp(s, hs, d, s.dequeuers[d].irp); }
  }

  lemma DequeueStepOnOthers(s: State, hs: Holders, d: Id)
    requires Inv(s, hs) && Enabled(s, DequeueStep(d))
    ensures forall c | c in s.cancellers :: CancellerOk(ApplyDequeue(s, d), c, NextHolders(s, hs, DequeueStep(d)))
    ensures forall e | e in s.dequeuers :: DequeuerOk(ApplyDequeue(s, d), e, NextHolders(s, hs, DequeueStep(d)))
  {
    forall c | c in s.cancellers
      ensures CancellerOk(ApplyDequeue(s, d), c, NextHolders(s, hs, DequeueStep(d)))
    {
      DequeueStepOnCanceller(s, hs, d, c);
    }
    forall e | e in s.dequeuers
      ensures DequeuerOk(ApplyDequeue(s, d), e, NextHolders(s, hs, DequeueStep(d)))
    {
      DequeueStepOnDequeuer(s, hs, d, e);
    }
  }

  lemma DequeueStepKeepsInv(s: State, hs: Holders, d: Id)
    requires Inv(s, hs) && Enabled(s, DequeueStep(d))
    ensures Inv(ApplyDequeue(s, d), NextHolders(s, hs, DequeueStep(d)))
  {
    forall j | j in s.irps
      ensures IrpOk(ApplyDequeue(s, d), j, NextHolders(s, hs, DequeueStep(d))[j])
    {
      DequeueStepOnIrp(s, hs, d, j);
    }
    DequeueStepOnOthers(s, hs, d);
    DequeueStepOnShared(s, hs, d);
  }

  lemma NewThreadOnOthers(s: State, hs: Holders, a: Action)
    requires Inv(s, hs) && Enabled(s, a) && (a.NewIrp? || a.NewCanceller? || a.NewDequeuer?)
    ensures forall c | c in Apply(s, a).cancellers :: CancellerOk(Apply(s, a), c, NextHolders(s, hs, a))
    ensures forall d | d in Apply(s, a).dequeuers :: DequeuerOk(Apply(s, a), d, NextHolders(s, hs, a))
  {
    var s', hs' := Apply(s, a), NextHolders(s, hs, a);
    forall c | c in s'.cancellers ensures CancellerOk(s', c, hs') {
      if c in s.cancellers { assert CancellerOk(s, c, hs); }
    }
    forall d | d in s'.dequeuers ensures DequeuerOk(s', d, hs') {
      if d in s.dequeuers { assert DequeuerOk(s, d, hs); }
    }
  }

  lemma NewThreadKeepsInv(s: State, hs: Holders, a: Action)
    requires Inv(s, hs) && Enabled(s, a) && (a.NewIrp? || a.NewCanceller? || a.NewDequeuer?)
    ensures Inv(Apply(s, a), NextHolders(s, hs, a))
  {
    var s', hs' := Apply(s, a), NextHolders(s, hs, a);
    forall j | j in s'.irps ensures IrpOk(s', j, hs'[j]) {
      if j in s.irps {
        assert IrpOk(s, j, hs[j]);
        Untouched(s, s', j, hs[j]);
      }
    }
    NewThreadOnOthers(s, hs, a);
  }

  lemma InvMeansIrpSafe(s: State, hs: Holders, i: Id)
    requires Inv(s, hs) && i in s.irps
    ensures IrpSafe(s, i)
  {
    assert IrpOk(s, i, hs[i]);
    assert i in s.queue <==> s.irps[i].link.Queued?;
    if Quiet(s, i) && hs[i].InSlot? && InHand(s, i) { assert HasIrp(s.dequeuers[s.lock.d]); }
  }

  lemma InvMeansUnlinkSafe(s: State, hs: Holders, c: Id)
    requires Inv(s, hs) && c in s.cancellers && s.cancellers[c].pc.CLocked?
    ensures UnlinkSafe(s, s.cancellers[c].irp)
  {
    assert CancellerOk(s, c, hs);
    var i := s.cancellers[c].irp;
    assert IrpOk(s, i, hs[i]);
    assert i in s.queue <==> s.irps[i].link.Queued?;
  }

  lemma InvMeansSafe(s: State, hs: Holders)
    requires Inv(s, hs)
    ensures Safe(s)
  {
    forall i | i in s.irps ensures IrpSafe(s, i) { InvMeansIrpSafe(s, hs, i); }
    forall c | c in s.cancellers && s.cancellers[c].pc.CLocked? ensures UnlinkSafe(s, s.cancellers[c].irp) {
      InvMeansUnlinkSafe(s, hs, c);
    }
  }

  lemma StepKeepsInv(s: State, hs: Holders, a: Action)
    requires Inv(s, hs) && Enabled(s, a)
    ensures Inv(Apply(s, a), NextHolders(s, hs, a))
  {
    match a
    case QueueStep(i) => QueueStepKeepsInv(s, hs, i);
    case CancelStep(c) => CancelStepKeepsInv(s, hs, c);
    case DequeueStep(d) => DequeueStepKeepsInv(s, hs, d);
    case _ => NewThreadKeepsInv(s, hs, a);
  }

  lemma {:induction false} ReachableInv(actions: seq<Action>, s: State) returns (hs: Holders)
    requires Reaches(actions, s)
    ensures Inv(s, hs)
  {
    if actions == [] {
      hs := map[];
    } else {
      var before := actions[..|actions| - 1];
      var a := actions[|before|];
      var m :| Reaches(before, m) && Enabled(m, a) && Apply(m, a) == s;
      var hm := ReachableInv(before, m);
      hs := NextHolders(m, hm, a);
      StepKeepsInv(m, hm, a);
    }
  }

  /** Under every interleaving the template keeps its promise. */
  lemma EveryRunIsSafe(actions: seq<Action>, s: State)
    requires Reaches(actions, s)
    ensures Safe(s)
  {
    var hs := ReachableInv(actions, s);
    InvMeansSafe(s, hs);
  }

  // ---------------------------------------------------------------- nothing is used once completed

  /** The kernel's own part of cancelling, before it calls the cancel routine. */
  predicate Kernel(s: State, a: Action) {
    a.CancelStep? && a.c in s.cancellers && (s.cancellers[a.c].pc.CStart? || s.cancellers[a.c].pc.CFlagSet?)
  }

  /** A list edit goes through the entries next to the one that is linked or unlinked. */
  predicate EditsQueue(s: State, a: Action)
    requires Enabled(s, a)
  {
    match a
    case QueueStep(i) => s.irps[i].pc.QPending?
    case CancelStep(c) => s.cancellers[c].pc.CLocked? && s.irps[s.cancellers[c].irp].link.Queued?
    case DequeueStep(d) => s.dequeuers[d].DLocked?
    case _ => false
  }

  /** The template's next step reads or writes the IRP: all but those that only take or release
      the lock.  The cancel routine finds its lock in the IRP, so taking it counts. */
  predicate Uses(s: State, a: Action, i: Id)
    requires Enabled(s, a)
  {
    || (EditsQueue(s, a) && i in s.queue)
    || match a
       case QueueStep(j) => i == j && !s.irps[j].pc.QStart? && !s.irps[j].pc.QOwnCancel? && !s.irps[j].pc.QInserted?
       case CancelStep(c) => i == s.cancellers[c].irp && !Kernel(s, a) && !s.cancellers[c].pc.CRemoved?
       case DequeueStep(d) =>
         var pc := s.dequeuers[d];
         (pc.DTaken? || pc.DLost? || pc.DUnlocked?) && i == pc.irp
       case _ => false
  }

  ghost predicate SameIrp(s: State, t: State, i: Id)
    requires i in s.irps
  {
    i in t.irps && t.irps[i].(pc := s.irps[i].pc) == s.irps[i]
  }

  lemma QueueChanges(s: State, j: Id, i: Id)
    requires Enabled(s, QueueStep(j)) && i in s.irps
    ensures SameIrp(s, ApplyQueue(s, j), i) || Uses(s, QueueStep(j), i)
  {
  }

  lemma CancelChanges(s: State, c: Id, i: Id)
    requires Enabled(s, CancelStep(c)) && i in s.irps && !Kernel(s, CancelStep(c))
    ensures SameIrp(s, ApplyCancel(s, c), i) || Uses(s, CancelStep(c), i)
  {
  }

  lemma DequeueChanges(s: State, d: Id, i: Id)
    requires Enabled(s, DequeueStep(d)) && i in s.irps
    ensures SameIrp(s, ApplyDequeue(s, d), i) || Uses(s, DequeueStep(d), i)
  {
  }

  /** No step of the template changes an IRP without being counted as using it. */
  lemma ChangesAreUses(s: State, a: Action, i: Id)
    requires Enabled(s, a) && i in s.irps && !Kernel(s, a)
    ensures SameIrp(s, Apply(s, a), i) || Uses(s, a, i)
  {
    match a
    case QueueStep(j) => QueueChanges(s, j, i);
    case CancelStep(c) => CancelChanges(s, c, i);
    case DequeueStep(d) => DequeueChanges(s, d, i);
    case _ =>
  }

  /** Under every interleaving, no IRP that was completed is read or written by the queueing
      routine, the dequeueing routine or the cancel routine. */
  lemma NoUseOnceCompleted(actions: seq<Action>, s: State, a: Action, i: Id)
    requires Reaches(actions, s) && Enabled(s, a) && Uses(s, a, i)
    ensures i in s.irps && s.irps[i].completions == []
  {
    var hs := ReachableInv(actions, s);
    if i in s.queue {
      InvMeansIrpSafe(s, hs, i);
    } else {
      match a
      case QueueStep(j) => assert IrpOk(s, i, hs[i]);
      case CancelStep(c) =>
        assert CancellerOk(s, c, hs);
        assert IrpOk(s, i, hs[i]);
      case DequeueStep(d) =>
        assert DequeuerOk(s, d, hs);
        assert IrpOk(s, i, hs[i]);
    }
  }

  /** So what was completed stays as it is, but for the kernel's flag, whatever happens next. */
  lemma CompletedStays(actions: seq<Action>, s: State, a: Action, i: Id)
    requires Reaches(actions, s) && Enabled(s, a) && i in s.irps && s.irps[i].completions != []
    ensures i in Apply(s, a).irps
    ensures Apply(s, a).irps[i] ==
            s.irps[i].(cancel := Apply(s, a).irps[i].cancel, pc := Apply(s, a).irps[i].pc)
    ensures !Kernel(s, a) ==> Apply(s, a).irps[i].cancel == s.irps[i].cancel
  {
    var hs := ReachableInv(actions, s);
    assert IrpOk(s, i, hs[i]);
    if !Kernel(s, a) {
      ChangesAreUses(s, a, i);
      if Uses(s, a, i) { NoUseOnceCompleted(actions, s, a, i); }
    }
  }

  // ---------------------------------------------------------------- the exchange decides

  /** Any interleaving of enabled steps from s on. */
  ghost predicate Continues(s: State, actions: seq<Action>, t: State) {
    if actions == [] then t == s
    else
      var before := actions[..|actions| - 1];
      exists m :: Continues(s, before, m) && Enabled(m, actions[|before|]) && Apply(m, actions[|before|]) == t
  }

  /** Somebody who completes the IRP in this way has the right to, or has used it. */
  predicate Destined(s: State, hs: Holders, i: Id, how: Completion) {
    && i in s.irps && i in hs
    && match hs[i]
       case InQueueThread => OwnCancel(s.irps[i].pc) && how.Cancelled?
       case InSlot => false
       case InCanceller(_) => how.Cancelled?
       case InDequeuer(_) => how.Success?
       case Spent => s.irps[i].completions == [how]
  }

  lemma QueueKeepsDestiny(s: State, hs: Holders, j: Id, i: Id, how: Completion)
    requires Inv(s, hs) && Enabled(s, QueueStep(j)) && Destined(s, hs, i, how)
    ensures Destined(ApplyQueue(s, j), NextHolders(s, hs, QueueStep(j)), i, how)
  {
    assert IrpOk(s, i, hs[i]);
  }

  lemma CancelKeepsDestiny(s: State, hs: Holders, c: Id, i: Id, how: Completion)
    requires Inv(s, hs) && Enabled(s, CancelStep(c)) && Destined(s, hs, i, how)
    ensures Destined(ApplyCancel(s, c), NextHolders(s, hs, CancelStep(c)), i, how)
  {
    assert IrpOk(s, i, hs[i]);
    assert CancellerOk(s, c, hs);
  }

  lemma DequeueKeepsDestiny(s: State, hs: Holders, d: Id, i: Id, how: Completion)
    requires Inv(s, hs) && Enabled(s, DequeueStep(d)) && Destined(s, hs, i, how)
    ensures Destined(ApplyDequeue(s, d), NextHolders(s, hs, DequeueStep(d)), i, how)
  {
    assert IrpOk(s, i, hs[i]);
    assert DequeuerOk(s, d, hs);
  }

  lemma DestinyStays(s: State, hs: Holders, a: Action, i: Id, how: Completion)
    requires Inv(s, hs) && Enabled(s, a) && Destined(s, hs, i, how)
    ensures Destined(Apply(s, a), NextHolders(s, hs, a), i, how)
  {
    match a
    case QueueStep(j) => QueueKeepsDestiny(s, hs, j, i, how);
    case CancelStep(c) => CancelKeepsDestiny(s, hs, c, i, how);
    case DequeueStep(d) => DequeueKeepsDestiny(s, hs, d, i, how);
    case _ =>
  }

  /** The step takes the cancel routine out of the IRP. */
  predicate TakesRoutine(s: State, a: Action, i: Id)
    requires Enabled(s, a)
  {
    var t := Apply(s, a);
    i in s.irps && s.irps[i].routine && i in t.irps && !t.irps[i].routine
  }

  function Outcome(a: Action): Completion {
    if a.DequeueStep? then Success else Cancelled
  }

  lemma ExchangeDecides(s: State, hs: Holders, a: Action, i: Id)
    requires Inv(s, hs) && Enabled(s, a) && TakesRoutine(s, a, i)
    ensures Destined(Apply(s, a), NextHolders(s, hs, a), i, Outcome(a))
  {
    assert IrpOk(s, i, hs[i]);
    match a
    case QueueStep(j) => assert j == i && s.irps[i].pc.QCancelSeen?;
    case CancelStep(c) => assert s.cancellers[c] == Canceller(i, CFlagSet);
    case DequeueStep(d) => assert s.dequeuers[d] == DTaken(i);
    case _ =>
  }

  lemma {:induction false} DestinyHolds(s: State, hs: Holders, rest: seq<Action>, t: State, i: Id, how: Completion)
    returns (ht: Holders)
    requires Inv(s, hs) && Destined(s, hs, i, how) && Continues(s, rest, t)
    ensures Inv(t, ht) && Destined(t, ht, i, how)
    decreases |rest|
  {
    ht := hs;
    if rest != [] {
      var before := rest[..|rest| - 1];
      var a := rest[|before|];
      var m :| Continues(s, before, m) && Enabled(m, a) && Apply(m, a) == t;
      var hm := DestinyHolds(s, hs, before, m, i, how);
      StepKeepsInv(m, hm, a);
      DestinyStays(m, hm, a, i, how);
      ht := NextHolders(m, hm, a);
    }
  }

  /** Under every interleaving, whoever takes the cancel routine out of an IRP settles how it is
      completed: with Success if that was a dequeuing thread, with Cancelled if it was the queueing
      thread or a canceller.  It is never completed otherwise, and is once its threads are done. */
  lemma ExchangeSettles(actions: seq<Action>, s: State, a: Action, i: Id, rest: seq<Action>, t: State)
    requires Reaches(actions, s) && Enabled(s, a) && Continues(Apply(s, a), rest, t)
    requires TakesRoutine(s, a, i)
    ensures i in t.irps && !t.irps[i].routine
    ensures var how := Outcome(a);
            && (t.irps[i].completions == [] || t.irps[i].completions == [how])
            && (Quiet(t, i) ==> t.irps[i].completions == [how])
  {
    var hs := ReachableInv(actions, s);
    StepKeepsInv(s, hs, a);
    ExchangeDecides(s, hs, a, i);
    var ht := DestinyHolds(Apply(s, a), NextHolders(s, hs, a), rest, t, i, Outcome(a));
    assert IrpOk(t, i, ht[i]);
    InvMeansIrpSafe(t, ht, i);
  }

  // ---------------------------------------------------------------- first in, first out

  predicate Precedes(q: seq<Id>, i: Id, j: Id) {
    exists a, b :: 0 <= a < b < |q| && q[a] == i && q[b] == j
  }

  /** What a step does to the queue: one IRP goes to its end, the first one is taken, or the one
      that is cancelled leaves; nothing else. */
  ghost predicate QueueMoves(s: State, a: Action, q: seq<Id>)
    requires Enabled(s, a)
  {
    if !EditsQueue(s, a) then q == s.queue
    else
      match a
      case QueueStep(i) => |q| == |s.queue| + 1 && q[..|s.queue|] == s.queue && q[|s.queue|] == i
      case CancelStep(c) =>
        exists k :: 0 <= k < |s.queue| && s.queue[k] == s.cancellers[c].irp && q == s.queue[..k] + s.queue[k + 1..]
      case DequeueStep(d) =>
        s.queue != [] && s.queue == [s.queue[0]] + q && Apply(s, a).dequeuers[d] == DTaken(s.queue[0])
      case _ => false
  }

  lemma {:induction false} WithoutNone(q: seq<Id>, i: Id)
    requires i !in q
    ensures Without(q, i) == q
  {
    if q != [] { WithoutNone(q[1..], i); }
  }

  lemma {:induction false} WithoutCuts(q: seq<Id>, k: nat)
    requires k < |q| && forall j, l | 0 <= j < l < |q| :: q[j] != q[l]
    ensures Without(q, q[k]) == q[..k] + q[k + 1..]
    decreases |q|
  {
    if k == 0 {
      WithoutNone(q[1..], q[0]);
    } else {
      WithoutCuts(q[1..], k - 1);
      assert [q[0]] + (q[1..][..k - 1] + q[1..][k..]) == q[..k] + q[k + 1..];
    }
  }

  lemma StepOnQueue(s: State, hs: Holders, a: Action)
    requires Inv(s, hs) && Enabled(s, a)
    ensures QueueMoves(s, a, Apply(s, a).queue)
  {
    if a.CancelStep? && EditsQueue(s, a) {
      var i := s.cancellers[a.c].irp;
      assert i in s.queue;
      var k :| 0 <= k < |s.queue| && s.queue[k] == i;
      WithoutCuts(s.queue, k);
    }
  }

  /** Both IRPs were inserted at some time, and while both are queued i is in front of j. */
  predicate InOrder(s: State, i: Id, j: Id) {
    && i in s.irps && j in s.irps && !NotYetInserted(s.irps[i].pc) && !NotYetInserted(s.irps[j].pc)
    && (i in s.queue && j in s.queue ==> Precedes(s.queue, i, j))
  }

  lemma CutKeepsOrder(q: seq<Id>, k: nat, i: Id, j: Id)
    requires k < |q| && (i in q && j in q ==> Precedes(q, i, j))
    requires forall l, m | 0 <= l < m < |q| :: q[l] != q[m]
    ensures var r := q[..k] + q[k + 1..]; i in r && j in r ==> Precedes(r, i, j)
  {
    var r := q[..k] + q[k + 1..];
    if i in r && j in r {
      var a, b :| 0 <= a < b < |q| && q[a] == i && q[b] == j;
      assert a != k && b != k;
      assert r[if a < k then a else a - 1] == i && r[if b < k then b else b - 1] == j;
    }
  }

  lemma AppendKeepsOrder(q: seq<Id>, x: Id, i: Id, j: Id)
    requires x != i && x != j && (i in q && j in q ==> Precedes(q, i, j))
    ensures var r := q + [x]; i in r && j in r ==> Precedes(r, i, j)
  {
    var r := q + [x];
    if i in r && j in r {
      var k, l :| 0 <= k < l < |q| && q[k] == i && q[l] == j;
      assert r[k] == i && r[l] == j;
    }
  }

  lemma AddedKeepsOrder(s: State, x: Id, r: seq<Id>, i: Id, j: Id)
    requires Enabled(s, QueueStep(x)) && InOrder(s, i, j) && QueueMoves(s, QueueStep(x), r)
    ensures i in r && j in r ==> Precedes(r, i, j)
  {
    if EditsQueue(s, QueueStep(x)) {
      assert r == s.queue + [x];
      AppendKeepsOrder(s.queue, x, i, j);
    }
  }

  lemma CancelKeepsOrder(s: State, c: Id, r: seq<Id>, i: Id, j: Id)
    requires QueueOk(s.queue, s.irps) && Enabled(s, CancelStep(c))
    requires InOrder(s, i, j) && QueueMoves(s, CancelStep(c), r)
    ensures i in r && j in r ==> Precedes(r, i, j)
  {
    var q := s.queue;
    if EditsQueue(s, CancelStep(c)) {
      var k :| 0 <= k < |q| && q[k] == s.cancellers[c].irp && r == q[..k] + q[k + 1..];
      CutKeepsOrder(q, k, i, j);
    }
  }

  lemma TakenKeepsOrder(s: State, d: Id, r: seq<Id>, i: Id, j: Id)
    requires QueueOk(s.queue, s.irps) && Enabled(s, DequeueStep(d))
    requires InOrder(s, i, j) && QueueMoves(s, DequeueStep(d), r)
    ensures i in r && j in r ==> Precedes(r, i, j)
  {
    var q := s.queue;
    if EditsQueue(s, DequeueStep(d)) {
      assert q[..0] + q[0 + 1..] == r;
      CutKeepsOrder(q, 0, i, j);
    }
  }

  lemma MoveKeepsOrder(s: State, a: Action, r: seq<Id>, i: Id, j: Id)
    requires QueueOk(s.queue, s.irps) && Enabled(s, a) && InOrder(s, i, j) && QueueMoves(s, a, r)
    ensures i in r && j in r ==> Precedes(r, i, j)
  {
    match a
    case QueueStep(x) => AddedKeepsOrder(s, x, r, i, j);
    case CancelStep(c) => CancelKeepsOrder(s, c, r, i, j);
    case DequeueStep(d) => TakenKeepsOrder(s, d, r, i, j);
    case _ =>
  }

  lemma InsertedStays(s: State, a: Action, i: Id)
    requires Enabled(s, a) && i in s.irps && !NotYetInserted(s.irps[i].pc)
    ensures i in Apply(s, a).irps && !NotYetInserted(Apply(s, a).irps[i].pc)
  {
  }

  lemma StepKeepsOrder(s: State, hs: Holders, a: Action, i: Id, j: Id)
    requires Inv(s, hs) && Enabled(s, a) && InOrder(s, i, j)
    ensures InOrder(Apply(s, a), i, j)
  {
    StepOnQueue(s, hs, a);
    MoveKeepsOrder(s, a, Apply(s, a).queue, i, j);
    InsertedStays(s, a, i);
    InsertedStays(s, a, j);
  }

  lemma {:induction false} OrderHolds(s: State, hs: Holders, rest: seq<Action>, t: State, i: Id, j: Id)
    returns (ht: Holders)
    requires Inv(s, hs) && InOrder(s, i, j) && Continues(s, rest, t)
    ensures Inv(t, ht) && InOrder(t, i, j)
    decreases |rest|
  {
    ht := hs;
    if rest != [] {
      var before := rest[..|rest| - 1];
      var a := rest[|before|];
      var m :| Continues(s, before, m) && Enabled(m, a) && Apply(m, a) == t;
      var hm := OrderHolds(s, hs, before, m, i, j);
      StepKeepsInv(m, hm, a);
      StepKeepsOrder(m, hm, a, i, j);
      ht := NextHolders(m, hm, a);
    }
  }

  lemma QueuedWasInserted(s: State, hs: Holders, i: Id)
    requires Inv(s, hs) && i in s.queue
    ensures i in s.irps && !NotYetInserted(s.irps[i].pc)
  {
    assert i in s.irps;
    assert IrpOk(s, i, hs[i]);
  }

  lemma AddedBehind(s: State, hs: Holders, i: Id, j: Id)
    requires Inv(s, hs) && i in s.queue && Enabled(s, QueueStep(j)) && s.irps[j].pc.QPending?
    ensures InOrder(Apply(s, QueueStep(j)), i, j)
  {
    var m := Apply(s, QueueStep(j));
    QueuedWasInserted(s, hs, i);
    StepOnQueue(s, hs, QueueStep(j));
    var k :| 0 <= k < |s.queue| && s.queue[k] == i;
    assert m.queue[k] == i && m.queue[|s.queue|] == j;
  }

  lemma NotFirst(q: seq<Id>, i: Id, j: Id)
    requires Precedes(q, i, j) && forall a, b | 0 <= a < b < |q| :: q[a] != q[b]
    ensures q[0] != j
  {
    var a, b :| 0 <= a < b < |q| && q[a] == i && q[b] == j;
    assert q[0] != q[b];
  }

  /** Under every interleaving, an IRP that was queued when another one is added is in front of
      it ever after: no dequeuing thread takes the later one while the earlier one is queued. */
  lemma FirstInFirstOut(actions: seq<Action>, s: State, i: Id, j: Id, rest: seq<Action>, t: State, d: Id)
    requires Reaches(actions, s) && i in s.queue
    requires Enabled(s, QueueStep(j)) && s.irps[j].pc.QPending? && Continues(Apply(s, QueueStep(j)), rest, t)
    requires i in t.queue && Enabled(t, DequeueStep(d)) && t.dequeuers[d].DLocked?
    ensures ApplyDequeue(t, d).dequeuers[d] != DTaken(j)
  {
    var hs := ReachableInv(actions, s);
    StepKeepsInv(s, hs, QueueStep(j));
    AddedBehind(s, hs, i, j);
    var ht := OrderHolds(Apply(s, QueueStep(j)), NextHolders(s, hs, QueueStep(j)), rest, t, i, j);
    StepOnQueue(t, ht, DequeueStep(d));
    if j in t.queue { NotFirst(t.queue, i, j); }
  }

  // ---------------------------------------------------------------- nobody waits for ever

  predicate Unfinished(s: State, a: Action) {
    match a
    case QueueStep(i) => i in s.irps && !s.irps[i].pc.QReturnedFalse? && !s.irps[i].pc.QReturnedTrue?
    case CancelStep(c) => c in s.cancellers && !s.cancellers[c].pc.CDone?
    case DequeueStep(d) => d in s.dequeuers && !s.dequeuers[d].DDone?
    case _ => false
  }

  /** The next step of the thread that holds the lock. */
  function LockStep(lock: Owner): Action
    requires !lock.Nobody?
  {
    match lock
    case ByQueue(i) => QueueStep(i)
    case ByCancel(c) => CancelStep(c)
    case ByDequeue(d) => DequeueStep(d)
  }

  /** Under every interleaving, a thread that has not finished can go on, or the one with the
      lock can, unless that is a dequeuing thread in front of an empty queue. */
  lemma NoDeadlock(actions: seq<Action>, s: State, a: Action)
    requires Reaches(actions, s) && Unfinished(s, a)
    requires s.lock.ByDequeue? && s.lock.d in s.dequeuers && s.dequeuers[s.lock.d].DLocked? ==> s.queue != []
    ensures if s.lock.Nobody? then Enabled(s, a) else Unfinished(s, LockStep(s.lock)) && Enabled(s, LockStep(s.lock))
  {
    var hs := ReachableInv(actions, s);
    var b := if s.lock.Nobody? then a else LockStep(s.lock);
    match b
    case QueueStep(i) => assert IrpOk(s, i, hs[i]);
    case CancelStep(c) => assert CancellerOk(s, c, hs);
    case DequeueStep(d) =>
      assert DequeuerOk(s, d, hs);
      if s.queue != [] { assert s.queue[0] in s.queue; }
  }
}
