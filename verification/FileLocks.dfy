/** Byte-range locks and the postponed closing of Unix descriptors (server/fd.c).

    Descriptors of regular files, inodes and locks are numbered in creation order; a lock
    that was removed is no longer `live`, an inode that was destroyed is `gone`.  The fields
    `closes`, `closedLocked`, `earlyUnlink` and `unlinked` only record what close() and unlink()
    were called for: no step reads them.
 */
module FileLocks {

  import opened Options
  import UH = UnlockHoles

  type Id = nat

  const TWO_64 := 0x1_0000_0000_0000_0000

  // ---------------------------------------------------------------- locked areas

  /** A lock on [start, end) of a file, where end 0 stands for infinity. */
  datatype Lock = Lock(fd: Id, inode: Id, proc: Id, shared: bool, start: nat, end: nat, live: bool)

  predicate Overlaps(l: Lock, start: nat, end: nat) {
    !(l.end != 0 && start >= l.end) && !(end != 0 && l.start >= end)
  }

  predicate Covers(start: nat, end: nat, x: nat) {
    start <= x && (end == 0 || x < end)
  }

  /** For areas that are not empty, overlapping means having a byte in common. */
  lemma OverlapsMeaning(l: Lock, start: nat, end: nat)
    requires (l.end == 0 || l.start < l.end) && (end == 0 || start < end)
    ensures Overlaps(l, start, end) <==> exists x :: Covers(l.start, l.end, x) && Covers(start, end, x)
  {
    if Overlaps(l, start, end) {
      var x := if l.start < start then start else l.start;
      assert Covers(l.start, l.end, x) && Covers(start, end, x);
    }
  }

  /** Bounds of 64 bits that do not wrap. */
  predicate Proper(l: Lock) {
    l.start < TWO_64 && l.end < TWO_64 && (l.end == 0 || l.start <= l.end)
  }

  /** Two locks on one inode may be held together. */
  predicate Compatible(a: Lock, b: Lock) {
    Overlaps(a, b.start, b.end) ==> (a.shared && b.shared) || (a.fd == b.fd && (a.shared || b.shared))
  }

  // ---------------------------------------------------------------- the state

  datatype Fd = Fd(inode: Id, open: bool, delete: bool, posix: bool, name: string, closes: nat, closedLocked: bool)

  /** struct closed_fd; `pending` says that its Unix descriptor is still open. */
  datatype Closed = Closed(fd: Id, pending: bool, delete: bool, posix: bool, name: string)

  datatype Inode = Inode(open: seq<Id>, closed: seq<Closed>, refs: nat, gone: bool, earlyUnlink: bool,
                         unlinked: seq<string>)

  datatype State = State(fds: seq<Fd>, inodes: seq<Inode>, locks: seq<Lock>,
                         fdLocks: seq<seq<Id>>, inodeLocks: seq<seq<Id>>, procLocks: seq<seq<Id>>)

  const Initial := State([], [], [], [], [], [])

  function FdOf(l: Lock): Id { l.fd }
  function InodeOf(l: Lock): Id { l.inode }
  function ProcOf(l: Lock): Id { l.proc }

  // ---------------------------------------------------------------- closing descriptors

  /** close() on one descriptor. */
  function CloseUnix(fds: seq<Fd>, f: Id, locked: bool): seq<Fd> {
    if f >= |fds| then fds
    else fds[f := fds[f].(closes := fds[f].closes + 1, closedLocked := fds[f].closedLocked || locked)]
  }

  function CloseEach(fds: seq<Fd>, closed: seq<Closed>, locked: bool): seq<Fd>
    decreases |closed|
  {
    if closed == [] then fds
    else CloseEach(if closed[0].pending then CloseUnix(fds, closed[0].fd, locked) else fds, closed[1..], locked)
  }

  function Deletions(closed: seq<Closed>): seq<Closed> {
    if closed == [] then []
    else if closed[0].delete then [closed[0].(pending := false)] + Deletions(closed[1..])
    else Deletions(closed[1..])
  }

  predicate Locked(s: State, i: Id) {
    i < |s.inodeLocks| && s.inodeLocks[i] != []
  }

  /** inode_close_pending, keeping the entries that are still to be unlinked. */
  function ClosePending(s: State, i: Id): State {
    if i >= |s.inodes| then s
    else s.(fds := CloseEach(s.fds, s.inodes[i].closed, Locked(s, i)),
            inodes := s.inodes[i := s.inodes[i].(closed := Deletions(s.inodes[i].closed))])
  }

  predicate HasName(closed: seq<Closed>, name: string) {
    exists k :: 0 <= k < |closed| && closed[k].name == name
  }

  /** unlink() of a file, noting a delete without POSIX semantics while the file is open. */
  function Unlink(n: Inode, name: string, posix: bool): Inode {
    n.(earlyUnlink := n.earlyUnlink || (!posix && n.open != []), unlinked := n.unlinked + [name])
  }

  /** inode_add_closed_fd */
  function AddClosed(s: State, i: Id, c: Closed): State {
    if i >= |s.inodes| then s
    else if Locked(s, i) then s.(inodes := s.inodes[i := s.inodes[i].(closed := [c] + s.inodes[i].closed)])
    else
      var n := s.inodes[i];
      var t := s.(fds := if c.pending then CloseUnix(s.fds, c.fd, false) else s.fds);
      if c.delete && c.posix then t.(inodes := s.inodes[i := Unlink(n, c.name, true)])
      else if c.delete && !HasName(n.closed, c.name)
      then t.(inodes := s.inodes[i := n.(closed := [c.(pending := false)] + n.closed)])
      else t
  }

  function UnlinkEach(n: Inode, closed: seq<Closed>): Inode
    decreases |closed|
  {
    if closed == [] then n
    else UnlinkEach(if closed[0].delete then Unlink(n, closed[0].name, closed[0].posix) else n, closed[1..])
  }

  /** release_object on the inode, with inode_destroy when that was the last descriptor. */
  function ReleaseInode(s: State, i: Id): State {
    if i >= |s.inodes| then s
    else
      var n := s.inodes[i];
      if n.refs > 1 then s.(inodes := s.inodes[i := n.(refs := n.refs - 1)])
      else s.(fds := CloseEach(s.fds, n.closed, Locked(s, i)),
              inodes := s.inodes[i := UnlinkEach(n, n.closed).(refs := 0, gone := true, closed := [])])
  }

  // ---------------------------------------------------------------- locking

  function Without(q: seq<Id>, l: Id): (r: seq<Id>)
    ensures forall x :: x in r <==> x in q && x != l
  {
    if q == [] then [] else if q[0] == l then Without(q[1..], l) else [q[0]] + Without(q[1..], l)
  }

  function Drop(lists: seq<seq<Id>>, k: Id, l: Id): seq<seq<Id>> {
    if k < |lists| then lists[k := Without(lists[k], l)] else lists
  }

  function Append(lists: seq<seq<Id>>, k: Id, l: Id): seq<seq<Id>> {
    if k < |lists| then lists[k := lists[k] + [l]] else lists
  }

  /** The lock leaves its three lists. */
  function Untie(s: State, l: Id): State
    requires l < |s.locks|
  {
    var lk := s.locks[l];
    s.(locks := s.locks[l := lk.(live := false)], fdLocks := Drop(s.fdLocks, lk.fd, l),
       inodeLocks := Drop(s.inodeLocks, lk.inode, l), procLocks := Drop(s.procLocks, lk.proc, l))
  }

  /** remove_lock; the last lock of an inode lets its descriptors be closed. */
  function RemoveLock(s: State, l: Id): State {
    if l >= |s.locks| then s
    else
      var t := Untie(s, l);
      if Locked(t, s.locks[l].inode) then t else ClosePending(t, s.locks[l].inode)
  }

  function RemoveEach(s: State, q: seq<Id>): State
    decreases |q|
  {
    if q == [] then s else RemoveEach(RemoveLock(s, q[0]), q[1..])
  }

  /** What lock_fd checks against every lock of the inode. */
  predicate Blocks(l: Lock, f: Id, start: nat, end: nat, shared: bool) {
    Overlaps(l, start, end) && !(shared && (l.shared || l.fd == f))
  }

  function FindConflict(locks: seq<Lock>, q: seq<Id>, f: Id, start: nat, end: nat, shared: bool): (r: Option<Id>)
    ensures r.None? ==> forall l | l in q && l < |locks| :: !Blocks(locks[l], f, start, end, shared)
    ensures r.Some? ==> r.value in q && r.value < |locks| && Blocks(locks[r.value], f, start, end, shared)
  {
    if q == [] then None
    else if q[0] < |locks| && Blocks(locks[q[0]], f, start, end, shared) then Some(q[0])
    else FindConflict(locks, q[1..], f, start, end, shared)
  }

  datatype LockResult = Granted | Conflict(lock: Id) | BadParameter | Refused

  /** add_lock: at the tail of the three lists. */
  function Tie(s: State, lk: Lock): State {
    var l := |s.locks|;
    s.(locks := s.locks + [lk], fdLocks := Append(s.fdLocks, lk.fd, l),
       inodeLocks := Append(s.inodeLocks, lk.inode, l), procLocks := Append(s.procLocks, lk.proc, l))
  }

  /** lock_fd; `unixOk` is false when an allocation or the Unix lock fails. */
  function LockFd(s: State, f: Id, proc: Id, start: nat, count: nat, shared: bool, unixOk: bool): (State, LockResult) {
    var end := (start + count) % TWO_64;
    if f >= |s.fds| || !s.fds[f].open || s.fds[f].inode >= |s.inodeLocks| || proc >= |s.procLocks| || start >= TWO_64
    then (s, BadParameter)
    else if end != 0 && end < start then (s, BadParameter)
    else
      var i := s.fds[f].inode;
      match FindConflict(s.locks, s.inodeLocks[i], f, start, end, shared)
      case Some(l) => (s, Conflict(l))
      case None =>
        if !unixOk then (s, Refused)
        else (Tie(s, Lock(f, i, proc, shared, start, end, true)), Granted)
  }

  function FindExact(locks: seq<Lock>, q: seq<Id>, start: nat, end: nat): (r: Option<Id>)
    ensures r.None? ==> forall l | l in q && l < |locks| :: locks[l].start != start || locks[l].end != end
    ensures r.Some? ==> r.value in q && r.value < |locks| && locks[r.value].start == start && locks[r.value].end == end
  {
    if q == [] then None
    else if q[0] < |locks| && locks[q[0]].start == start && locks[q[0]].end == end then Some(q[0])
    else FindExact(locks, q[1..], start, end)
  }

  /** unlock_fd */
  function UnlockFd(s: State, f: Id, start: nat, count: nat): State {
    if f >= |s.fdLocks| then s
    else
      match FindExact(s.locks, s.fdLocks[f], start, (start + count) % TWO_64)
      case Some(l) => RemoveLock(s, l)
      case None => s
  }

  // ---------------------------------------------------------------- opening and closing

  /** A new descriptor on an inode that is in use, or on a new one. */
  function OpenFd(s: State, ino: Option<Id>, delete: bool, name: string): State {
    var f := |s.fds|;
    if ino.None? then
      s.(fds := s.fds + [Fd(|s.inodes|, true, delete, false, name, 0, false)], fdLocks := s.fdLocks + [[]],
         inodes := s.inodes + [Inode([f], [], 1, false, false, [])], inodeLocks := s.inodeLocks + [[]])
    else if ino.value >= |s.inodes| || s.inodes[ino.value].gone then s
    else
      var n := s.inodes[ino.value];
      s.(fds := s.fds + [Fd(ino.value, true, delete, false, name, 0, false)], fdLocks := s.fdLocks + [[]],
         inodes := s.inodes[ino.value := n.(open := [f] + n.open, refs := n.refs + 1)])
  }

  /** The disposition a later close of the descriptor will have. */
  function SetDisposition(s: State, f: Id, delete: bool, posix: bool): State {
    if f >= |s.fds| || !s.fds[f].open then s
    else s.(fds := s.fds[f := s.fds[f].(delete := delete, posix := posix)])
  }

  /** The descriptor leaves its inode's list and its Unix descriptor is closed or kept. */
  function Shut(s: State, f: Id): State
    requires f < |s.fds| && s.fds[f].inode < |s.inodes|
  {
    var d, i := s.fds[f], s.fds[f].inode;
    var t := s.(fds := s.fds[f := d.(open := false)],
                inodes := s.inodes[i := s.inodes[i].(open := Without(s.inodes[i].open, f))]);
    AddClosed(t, i, Closed(f, true, d.delete, d.posix, d.name))
  }

  /** fd_destroy */
  function CloseFd(s: State, f: Id): State {
    if f >= |s.fds| || !s.fds[f].open || f >= |s.fdLocks| then s
    else
      var t := RemoveEach(s, s.fdLocks[f]);
      if f >= |t.fds| || t.fds[f].inode >= |t.inodes| then t
      else ReleaseInode(Shut(t, f), t.fds[f].inode)
  }

  datatype Op =
    | NewProcess
    | DoOpen(inode: Option<Id>, delete: bool, name: string)
    | DoSet(fd: Id, delete: bool, posix: bool)
    | DoLock(fd: Id, proc: Id, start: nat, count: nat, shared: bool, unixOk: bool)
    | DoUnlock(fd: Id, start: nat, count: nat)
    | DoExit(proc: Id)
    | DoClose(fd: Id)

  function Apply(s: State, op: Op): State {
    match op
    case NewProcess => s.(procLocks := s.procLocks + [[]])
    case DoOpen(ino, delete, name) => OpenFd(s, ino, delete, name)
    case DoSet(f, delete, posix) => SetDisposition(s, f, delete, posix)
    case DoLock(f, proc, start, count, shared, unixOk) => LockFd(s, f, proc, start, count, shared, unixOk).0
    case DoUnlock(f, start, count) => UnlockFd(s, f, start, count)
    case DoExit(p) => if p < |s.procLocks| then RemoveEach(s, s.procLocks[p]) else s
    case DoClose(f) => CloseFd(s, f)
  }

  function Run(s: State, ops: seq<Op>): State
    decreases |ops|
  {
    if ops == [] then s else Run(Apply(s, ops[0]), ops[1..])
  }

  // ---------------------------------------------------------------- the three lists agree

  ghost predicate Ascending(q: seq<Id>) {
    q == [] || (Ascending(q[1..]) && forall x | x in q[1..] :: q[0] < x)
  }

  predicate Owned(locks: seq<Lock>, key: Lock -> Id, k: Id, l: Id) {
    l < |locks| && locks[l].live && key(locks[l]) == k
  }

  /** A list holds exactly the live locks of its owner, oldest first. */
  ghost predicate ListOk(q: seq<Id>, locks: seq<Lock>, key: Lock -> Id, k: Id) {
    Ascending(q) && forall l {:trigger l in q} {:trigger Owned(locks, key, k, l)} :: l in q <==> Owned(locks, key, k, l)
  }

  ghost predicate Agrees(lists: seq<seq<Id>>, locks: seq<Lock>, key: Lock -> Id) {
    forall k {:trigger lists[k]} | 0 <= k < |lists| :: ListOk(lists[k], locks, key, k)
  }

  lemma Tail(q: seq<Id>)
    requires q != []
    ensures forall x :: x in q <==> x == q[0] || x in q[1..]
  {
    assert q == [q[0]] + q[1..];
  }

  lemma {:induction false} WithoutAbsent(q: seq<Id>, l: Id)
    requires l !in q
    ensures Without(q, l) == q
  {
    if q != [] { WithoutAbsent(q[1..], l); }
  }

  lemma {:induction false} AscendingWithout(q: seq<Id>, l: Id)
    requires Ascending(q)
    ensures Ascending(Without(q, l))
    ensures q != [] && q[0] == l ==> Without(q, l) == q[1..]
  {
    if q != [] {
      AscendingWithout(q[1..], l);
      if q[0] == l { WithoutAbsent(q[1..], l); } else { assert Without(q, l)[1..] == Without(q[1..], l); }
    }
  }

  lemma {:induction false} AscendingAppend(q: seq<Id>, l: Id)
    requires Ascending(q) && forall x | x in q :: x < l
    ensures Ascending(q + [l])
  {
    if q == [] {
      assert q + [l] == [l] && [l][1..] == [];
    } else {
      Tail(q);
      assert q[0] in q;
      AscendingAppend(q[1..], l);
      assert (q + [l])[1..] == q[1..] + [l];
    }
  }

  lemma TieAgrees(lists: seq<seq<Id>>, locks: seq<Lock>, key: Lock -> Id, lk: Lock)
    requires Agrees(lists, locks, key) && lk.live && key(lk) < |lists|
    ensures Agrees(Append(lists, key(lk), |locks|), locks + [lk], key)
  {
    var t := Append(lists, key(lk), |locks|);
    forall k | 0 <= k < |t| ensures ListOk(t[k], locks + [lk], key, k) {
      assert ListOk(lists[k], locks, key, k);
      if k == key(lk) { AscendingAppend(lists[k], |locks|); }
      forall l ensures l in t[k] <==> Owned(locks + [lk], key, k, l) {
        assert l in lists[k] <==> Owned(locks, key, k, l);
      }
    }
  }

  lemma UntieAgrees(lists: seq<seq<Id>>, locks: seq<Lock>, key: Lock -> Id, l: Id)
    requires Agrees(lists, locks, key) && l < |locks| && key(locks[l]) < |lists|
    requires key(locks[l].(live := false)) == key(locks[l])
    ensures Agrees(Drop(lists, key(locks[l]), l), locks[l := locks[l].(live := false)], key)
  {
    var t, after := Drop(lists, key(locks[l]), l), locks[l := locks[l].(live := false)];
    forall k | 0 <= k < |t| ensures ListOk(t[k], after, key, k) {
      assert ListOk(lists[k], locks, key, k);
      AscendingWithout(lists[k], l);
      forall x ensures x in t[k] <==> Owned(after, key, k, x) {
        assert x in lists[k] <==> Owned(locks, key, k, x);
      }
    }
  }

  ghost predicate ListsOk(s: State) {
    Agrees(s.fdLocks, s.locks, FdOf) && Agrees(s.inodeLocks, s.locks, InodeOf) && Agrees(s.procLocks, s.locks, ProcOf)
  }

  // ---------------------------------------------------------------- the invariant

  ghost predicate LockOk(s: State, l: Id)
    requires l < |s.locks|
  {
    var lk := s.locks[l];
    && lk.fd < |s.fdLocks| && lk.inode < |s.inodeLocks| && lk.proc < |s.procLocks| && Proper(lk)
    && (lk.live ==> lk.fd < |s.fds| && s.fds[lk.fd].open && s.fds[lk.fd].inode == lk.inode)
  }

  predicate PairOk(locks: seq<Lock>, a: Id, b: Id) {
    a < b < |locks| && locks[a].live && locks[b].live && locks[a].inode == locks[b].inode ==>
      Compatible(locks[a], locks[b])
  }

  /** How often the inode's closed list holds the descriptor with its Unix descriptor open. */
  ghost function Waiting(closed: seq<Closed>, f: Id): nat {
    if closed == [] then 0
    else Waiting(closed[1..], f) + if closed[0].pending && closed[0].fd == f then 1 else 0
  }

  /** Closed once, or waiting to be, when it is no longer in use; never closed under a lock. */
  ghost predicate FdOk(s: State, f: Id)
    requires f < |s.fds|
  {
    var d := s.fds[f];
    && d.inode < |s.inodes| && !d.closedLocked
    && d.closes + Waiting(s.inodes[d.inode].closed, f) == if d.open then 0 else 1
  }

  predicate EntryOk(fds: seq<Fd>, i: Id, c: Closed) {
    c.fd < |fds| && !fds[c.fd].open && fds[c.fd].inode == i
  }

  predicate Opened(fds: seq<Fd>, i: Id, f: Id) {
    f < |fds| && fds[f].open && fds[f].inode == i
  }

  ghost predicate OpenListOk(open: seq<Id>, fds: seq<Fd>, i: Id) {
    forall f {:trigger Opened(fds, i, f)} :: multiset(open)[f] == if Opened(fds, i, f) then 1 else 0
  }

  /** `due` is the inode, if any, whose reference is about to be released. */
  ghost predicate InodeOk(s: State, i: Id, due: Option<Id>)
    requires i < |s.inodes|
  {
    var n := s.inodes[i];
    && OpenListOk(n.open, s.fds, i)
    && n.refs == |n.open| + (if due == Some(i) then 1 else 0)
    && (n.gone <==> n.refs == 0) && (n.gone ==> n.closed == []) && !n.earlyUnlink
    && (forall k {:trigger n.closed[k]} | 0 <= k < |n.closed| :: EntryOk(s.fds, i, n.closed[k]))
  }

  /** Nothing waits to be closed on an inode without locks. */
  ghost predicate Settled(s: State, i: Id)
    requires i < |s.inodes|
  {
    !Locked(s, i) ==> forall f :: Waiting(s.inodes[i].closed, f) == 0
  }

  ghost predicate LocksOk(s: State) {
    && ListsOk(s)
    && |s.fdLocks| == |s.fds| && |s.inodeLocks| == |s.inodes|
    && (forall l {:trigger LockOk(s, l)} | 0 <= l < |s.locks| :: LockOk(s, l))
    && (forall a, b {:trigger PairOk(s.locks, a, b)} :: PairOk(s.locks, a, b))
  }

  ghost predicate FilesOk(s: State, due: Option<Id>) {
    && (forall f {:trigger FdOk(s, f)} | 0 <= f < |s.fds| :: FdOk(s, f))
    && (forall i {:trigger InodeOk(s, i, due)} | 0 <= i < |s.inodes| :: InodeOk(s, i, due))
  }

  ghost predicate Inv(s: State) {
    LocksOk(s) && FilesOk(s, None) && forall i {:trigger Settled(s, i)} | 0 <= i < |s.inodes| :: Settled(s, i)
  }

  // ---------------------------------------------------------------- closing keeps it

  lemma {:induction false} WaitingZero(closed: seq<Closed>, f: Id)
    requires forall k | 0 <= k < |closed| :: !(closed[k].pending && closed[k].fd == f)
    ensures Waiting(closed, f) == 0
  {
    if closed != [] { WaitingZero(closed[1..], f); }
  }

  lemma {:induction false} DeletionsWaiting(closed: seq<Closed>, f: Id)
    ensures Waiting(Deletions(closed), f) == 0
  {
    if closed != [] {
      DeletionsWaiting(closed[1..], f);
      var d := Deletions(closed);
      assert closed[0].delete ==> d[1..] == Deletions(closed[1..]);
    }
  }

  lemma {:induction false} DeletionsFrom(closed: seq<Closed>, k: nat)
    requires k < |Deletions(closed)|
    ensures exists j :: 0 <= j < |closed| && closed[j].fd == Deletions(closed)[k].fd
  {
    var rest := Deletions(closed[1..]);
    if closed[0].delete && k == 0 {
      assert closed[0].fd == Deletions(closed)[k].fd;
    } else {
      var m := if closed[0].delete then k - 1 else k;
      assert Deletions(closed)[k] == rest[m];
      DeletionsFrom(closed[1..], m);
      var j :| 0 <= j < |closed[1..]| && closed[1..][j].fd == rest[m].fd;
      assert closed[j + 1].fd == rest[m].fd;
    }
  }

  lemma {:induction false} CloseEachAt(fds: seq<Fd>, closed: seq<Closed>, locked: bool, f: Id)
    requires f < |fds|
    ensures |CloseEach(fds, closed, locked)| == |fds|
    ensures var n := Waiting(closed, f);
            CloseEach(fds, closed, locked)[f]
            == fds[f].(closes := fds[f].closes + n, closedLocked := fds[f].closedLocked || (locked && n > 0))
    decreases |closed|
  {
    if closed != [] {
      CloseEachAt(if closed[0].pending then CloseUnix(fds, closed[0].fd, locked) else fds, closed[1..], locked, f);
    }
  }

  lemma {:induction false} CloseEachSize(fds: seq<Fd>, closed: seq<Closed>, locked: bool)
    ensures |CloseEach(fds, closed, locked)| == |fds|
    decreases |closed|
  {
    if closed != [] {
      CloseEachSize(if closed[0].pending then CloseUnix(fds, closed[0].fd, locked) else fds, closed[1..], locked);
    }
  }

  /** Descriptors differ only in what was recorded about close(). */
  ghost predicate SameFds(a: seq<Fd>, b: seq<Fd>) {
    |a| == |b| && forall f {:trigger b[f]} | 0 <= f < |a| :: a[f].inode == b[f].inode && a[f].open == b[f].open
  }

  lemma CloseEachSame(fds: seq<Fd>, closed: seq<Closed>, locked: bool)
    ensures SameFds(fds, CloseEach(fds, closed, locked))
  {
    CloseEachSize(fds, closed, locked);
    forall f | 0 <= f < |fds|
      ensures var d := CloseEach(fds, closed, locked)[f]; fds[f].inode == d.inode && fds[f].open == d.open
    {
      CloseEachAt(fds, closed, locked, f);
    }
  }

  /** Entries of one inode's list do not concern descriptors of another. */
  lemma NotWaiting(s: State, i: Id, f: Id, due: Option<Id>)
    requires i < |s.inodes| && InodeOk(s, i, due) && f < |s.fds| && (s.fds[f].inode != i || s.fds[f].open)
    ensures Waiting(s.inodes[i].closed, f) == 0
  {
    WaitingZero(s.inodes[i].closed, f);
  }

  lemma SameFdsInode(s: State, t: State, i: Id, due: Option<Id>)
    requires i < |s.inodes| && i < |t.inodes| && InodeOk(s, i, due) &&
             SameFds(s.fds, t.fds) && t.inodes[i] == s.inodes[i]
    ensures InodeOk(t, i, due)
  {
    assert forall f :: Opened(s.fds, i, f) == Opened(t.fds, i, f);
  }

  lemma ClosePendingFd(s: State, i: Id, f: Id, due: Option<Id>)
    requires FilesOk(s, due) && i < |s.inodes| && !Locked(s, i) && f < |s.fds| && f < |ClosePending(s, i).fds|
    ensures FdOk(ClosePending(s, i), f)
  {
    assert FdOk(s, f) && InodeOk(s, i, due);
    CloseEachAt(s.fds, s.inodes[i].closed, false, f);
    if s.fds[f].inode == i { DeletionsWaiting(s.inodes[i].closed, f); } else { NotWaiting(s, i, f, due); }
  }

  lemma ClosePendingInode(s: State, i: Id, due: Option<Id>)
    requires i < |s.inodes| && InodeOk(s, i, due) && SameFds(s.fds, ClosePending(s, i).fds)
    ensures InodeOk(ClosePending(s, i), i, due)
  {
    var t, n := ClosePending(s, i), s.inodes[i];
    assert forall f :: Opened(s.fds, i, f) == Opened(t.fds, i, f);
    forall k | 0 <= k < |Deletions(n.closed)| ensures EntryOk(t.fds, i, Deletions(n.closed)[k]) {
      DeletionsFrom(n.closed, k);
      var j :| 0 <= j < |n.closed| && n.closed[j].fd == Deletions(n.closed)[k].fd;
      assert EntryOk(s.fds, i, n.closed[j]);
    }
  }

  lemma ClosePendingKeepsFiles(s: State, i: Id, due: Option<Id>)
    requires FilesOk(s, due) && i < |s.inodes| && !Locked(s, i)
    ensures FilesOk(ClosePending(s, i), due) && Settled(ClosePending(s, i), i)
    ensures SameFds(s.fds, ClosePending(s, i).fds)
  {
    var t := ClosePending(s, i);
    CloseEachSame(s.fds, s.inodes[i].closed, false);
    forall f | 0 <= f < |t.fds| ensures FdOk(t, f) { ClosePendingFd(s, i, f, due); }
    forall j | 0 <= j < |t.inodes| ensures InodeOk(t, j, due) {
      assert InodeOk(s, j, due);
      if j != i { SameFdsInode(s, t, j, due); } else { ClosePendingInode(s, i, due); }
    }
    forall f ensures Waiting(t.inodes[i].closed, f) == 0 { DeletionsWaiting(s.inodes[i].closed, f); }
  }

  lemma SameFiles(s: State, t: State, due: Option<Id>)
    requires FilesOk(s, due) && t.fds == s.fds && t.inodes == s.inodes
    ensures FilesOk(t, due)
  {
    forall f | 0 <= f < |t.fds| ensures FdOk(t, f) { assert FdOk(s, f); }
    forall i | 0 <= i < |t.inodes| ensures InodeOk(t, i, due) { assert InodeOk(s, i, due); }
  }

  lemma SameLocks(s: State, t: State)
    requires LocksOk(s) && SameFds(s.fds, t.fds) && |t.inodes| == |s.inodes| && t.locks == s.locks
    requires t.fdLocks == s.fdLocks && t.inodeLocks == s.inodeLocks && t.procLocks == s.procLocks
    ensures LocksOk(t)
  {
    forall l | 0 <= l < |t.locks| ensures LockOk(t, l) { assert LockOk(s, l); }
  }

  // ---------------------------------------------------------------- removing locks keeps it

  lemma UntieKeepsLocks(s: State, l: Id)
    requires LocksOk(s) && l < |s.locks|
    ensures LocksOk(Untie(s, l))
  {
    var t := Untie(s, l);
    assert LockOk(s, l);
    UntieAgrees(s.fdLocks, s.locks, FdOf, l);
    UntieAgrees(s.inodeLocks, s.locks, InodeOf, l);
    UntieAgrees(s.procLocks, s.locks, ProcOf, l);
    forall x | 0 <= x < |t.locks| ensures LockOk(t, x) { assert LockOk(s, x); }
    forall a, b ensures PairOk(t.locks, a, b) { assert PairOk(s.locks, a, b); }
  }

  lemma RemoveLockKeepsInv(s: State, l: Id)
    requires Inv(s) && l < |s.locks|
    ensures Inv(RemoveLock(s, l)) && SameFds(s.fds, RemoveLock(s, l).fds)
    ensures RemoveLock(s, l).locks == s.locks[l := s.locks[l].(live := false)]
  {
    var m, i := Untie(s, l), s.locks[l].inode;
    assert LockOk(s, l);
    UntieKeepsLocks(s, l);
    SameFiles(s, m, None);
    forall j | 0 <= j < |m.inodes| && j != i ensures Settled(m, j) { assert Settled(s, j); }
    if !Locked(m, i) {
      var t := RemoveLock(s, l);
      ClosePendingKeepsFiles(m, i, None);
      SameLocks(m, t);
      forall j | 0 <= j < |t.inodes| ensures Settled(t, j) {
        if j != i { assert Settled(m, j); }
      }
    }
  }

  lemma {:induction false} RemoveEachKeepsInv(s: State, q: seq<Id>)
    requires Inv(s) && forall l | l in q :: l < |s.locks|
    ensures var t := RemoveEach(s, q); Inv(t) && SameFds(s.fds, t.fds) && |t.locks| == |s.locks|
    decreases |q|
  {
    if q != [] {
      Tail(q);
      assert q[0] in q;
      RemoveLockKeepsInv(s, q[0]);
      RemoveEachKeepsInv(RemoveLock(s, q[0]), q[1..]);
    }
  }

  lemma {:induction false} RemoveEachLive(s: State, q: seq<Id>, l: Id)
    requires Inv(s) && l < |s.locks| && forall x | x in q :: x < |s.locks|
    ensures var t := RemoveEach(s, q);
            |t.locks| == |s.locks| && t.locks[l] == s.locks[l].(live := s.locks[l].live && l !in q)
    decreases |q|
  {
    if q != [] {
      Tail(q);
      assert q[0] in q;
      RemoveLockKeepsInv(s, q[0]);
      RemoveEachLive(RemoveLock(s, q[0]), q[1..], l);
    }
  }

  /** After the locks of a descriptor are gone its list is empty. */
  lemma FdLocksGone(s: State, f: Id)
    requires Inv(s) && f < |s.fds|
    ensures var t := RemoveEach(s, s.fdLocks[f]);
            Inv(t) && SameFds(s.fds, t.fds) && f < |t.fdLocks| && t.fdLocks[f] == []
  {
    var q := s.fdLocks[f];
    var t := RemoveEach(s, q);
    assert ListOk(q, s.locks, FdOf, f);
    RemoveEachKeepsInv(s, q);
    assert ListOk(t.fdLocks[f], t.locks, FdOf, f);
    if t.fdLocks[f] != [] {
      var l := t.fdLocks[f][0];
      assert l in t.fdLocks[f];
      RemoveEachLive(s, q, l);
      assert Owned(s.locks, FdOf, f, l);
    }
  }

  // ---------------------------------------------------------------- adding a lock keeps it

  lemma NoConflict(s: State, f: Id, lk: Lock, a: Id)
    requires LocksOk(s) && lk.fd == f && lk.inode < |s.inodeLocks| && Owned(s.locks, InodeOf, lk.inode, a)
    requires FindConflict(s.locks, s.inodeLocks[lk.inode], f, lk.start, lk.end, lk.shared).None?
    ensures Compatible(s.locks[a], lk)
  {
    assert ListOk(s.inodeLocks[lk.inode], s.locks, InodeOf, lk.inode);
    assert a in s.inodeLocks[lk.inode];
  }

  lemma LockFdKeepsInv(s: State, f: Id, proc: Id, start: nat, count: nat, shared: bool, unixOk: bool)
    requires Inv(s)
    ensures Inv(LockFd(s, f, proc, start, count, shared, unixOk).0)
  {
    var r := LockFd(s, f, proc, start, count, shared, unixOk);
    if r.1.Granted? {
      var i, t := s.fds[f].inode, r.0;
      var lk := t.locks[|s.locks|];
      TieAgrees(s.fdLocks, s.locks, FdOf, lk);
      TieAgrees(s.inodeLocks, s.locks, InodeOf, lk);
      TieAgrees(s.procLocks, s.locks, ProcOf, lk);
      SameFiles(s, t, None);
      forall l | 0 <= l < |t.locks| ensures LockOk(t, l) {
        if l < |s.locks| { assert LockOk(s, l); }
      }
      forall a: Id, b: Id ensures PairOk(t.locks, a, b) {
        assert PairOk(s.locks, a, b);
        if b == |s.locks| && a < b && t.locks[a].live && t.locks[a].inode == i { NoConflict(s, f, lk, a); }
      }
      forall j | 0 <= j < |t.inodes| ensures Settled(t, j) { assert Settled(s, j); }
    }
  }

  // ---------------------------------------------------------------- opening keeps it

  lemma OpenKeepsLocks(s: State, t: State, ino: Option<Id>, delete: bool, name: string)
    requires LocksOk(s) && t == OpenFd(s, ino, delete, name) && t != s
    ensures LocksOk(t)
  {
    forall k | 0 <= k < |t.fdLocks| ensures ListOk(t.fdLocks[k], t.locks, FdOf, k) {
      if k < |s.fdLocks| { assert ListOk(s.fdLocks[k], s.locks, FdOf, k); } else {
        forall l: Id ensures !Owned(s.locks, FdOf, k, l) { if l < |s.locks| { assert LockOk(s, l); } }
      }
    }
    forall k | 0 <= k < |t.inodeLocks| ensures ListOk(t.inodeLocks[k], t.locks, InodeOf, k) {
      if k < |s.inodeLocks| { assert ListOk(s.inodeLocks[k], s.locks, InodeOf, k); } else {
        forall l: Id ensures !Owned(s.locks, InodeOf, k, l) { if l < |s.locks| { assert LockOk(s, l); } }
      }
    }
    forall l | 0 <= l < |t.locks| ensures LockOk(t, l) { assert LockOk(s, l); }
  }

  lemma OpenKeepsInode(s: State, ino: Option<Id>, delete: bool, name: string, i: Id)
    requires FilesOk(s, None) && OpenFd(s, ino, delete, name) != s && i < |OpenFd(s, ino, delete, name).inodes|
    ensures InodeOk(OpenFd(s, ino, delete, name), i, None)
  {
    var t := OpenFd(s, ino, delete, name);
    if i < |s.inodes| {
      assert InodeOk(s, i, None);
      forall f ensures multiset(t.inodes[i].open)[f] == if Opened(t.fds, i, f) then 1 else 0 {
        assert multiset(s.inodes[i].open)[f] == if Opened(s.fds, i, f) then 1 else 0;
      }
    } else {
      forall f: Id ensures multiset(t.inodes[i].open)[f] == if Opened(t.fds, i, f) then 1 else 0 {
        if f < |s.fds| { assert FdOk(s, f); }
      }
    }
  }

  lemma OpenKeepsFiles(s: State, ino: Option<Id>, delete: bool, name: string)
    requires FilesOk(s, None) && |s.inodeLocks| == |s.inodes| && OpenFd(s, ino, delete, name) != s
    ensures FilesOk(OpenFd(s, ino, delete, name), None)
  {
    var t, n := OpenFd(s, ino, delete, name), |s.fds|;
    forall f | 0 <= f < |t.fds| ensures FdOk(t, f) {
      if f < n {
        assert FdOk(s, f);
      } else if ino.Some? {
        assert InodeOk(s, ino.value, None);
        WaitingZero(s.inodes[ino.value].closed, f);
      }
    }
    forall i | 0 <= i < |t.inodes| ensures InodeOk(t, i, None) { OpenKeepsInode(s, ino, delete, name, i); }
  }

  lemma OpenKeepsInv(s: State, ino: Option<Id>, delete: bool, name: string)
    requires Inv(s)
    ensures Inv(OpenFd(s, ino, delete, name))
  {
    var t := OpenFd(s, ino, delete, name);
    if t != s {
      OpenKeepsLocks(s, t, ino, delete, name);
      OpenKeepsFiles(s, ino, delete, name);
      forall i | 0 <= i < |t.inodes| ensures Settled(t, i) {
        if i < |s.inodes| { assert Settled(s, i); }
      }
    }
  }

  lemma SetKeepsInv(s: State, f: Id, delete: bool, posix: bool)
    requires Inv(s)
    ensures Inv(SetDisposition(s, f, delete, posix))
  {
    var t := SetDisposition(s, f, delete, posix);
    SameLocks(s, t);
    forall g | 0 <= g < |t.fds| ensures FdOk(t, g) { assert FdOk(s, g); }
    forall i | 0 <= i < |t.inodes| ensures InodeOk(t, i, None) {
      assert InodeOk(s, i, None);
      SameFdsInode(s, t, i, None);
    }
    forall i | 0 <= i < |t.inodes| ensures Settled(t, i) { assert Settled(s, i); }
  }

  lemma NewProcessKeepsInv(s: State)
    requires Inv(s)
    ensures Inv(Apply(s, NewProcess))
  {
    var t := Apply(s, NewProcess);
    SameFiles(s, t, None);
    forall l | 0 <= l < |t.locks| ensures LockOk(t, l) { assert LockOk(s, l); }
    forall k | 0 <= k < |t.procLocks| ensures ListOk(t.procLocks[k], t.locks, ProcOf, k) {
      if k < |s.procLocks| { assert ListOk(s.procLocks[k], s.locks, ProcOf, k); } else {
        forall l: Id ensures !Owned(s.locks, ProcOf, k, l) { if l < |s.locks| { assert LockOk(s, l); } }
      }
    }
    forall i | 0 <= i < |t.inodes| ensures Settled(t, i) { assert Settled(s, i); }
  }

  // ---------------------------------------------------------------- closing a descriptor keeps it

  lemma {:induction false} WithoutCounts(q: seq<Id>, f: Id, x: Id)
    ensures multiset(Without(q, f))[x] == if x == f then 0 else multiset(q)[x]
    ensures |Without(q, f)| == |q| - multiset(q)[f]
  {
    if q != [] {
      assert q == [q[0]] + q[1..];
      WithoutCounts(q[1..], f, x);
    }
  }

  lemma WaitingFirst(c: Closed, closed: seq<Closed>, f: Id)
    ensures Waiting([c] + closed, f) == Waiting(closed, f) + if c.pending && c.fd == f then 1 else 0
  {
    assert ([c] + closed)[1..] == closed;
  }

  /** What fd_destroy asks of a descriptor by the time it leaves its inode. */
  ghost predicate CanShut(s: State, f: Id) {
    Inv(s) && f < |s.fds| && s.fds[f].open && s.fdLocks[f] == [] && s.fds[f].inode < |s.inodes|
  }

  lemma ShutSame(s: State, f: Id, g: Id)
    requires CanShut(s, f) && g < |s.fds|
    ensures |Shut(s, f).fds| == |s.fds| && |Shut(s, f).inodes| == |s.inodes|
    ensures Shut(s, f).fds[g].inode == s.fds[g].inode && Shut(s, f).fds[g].open == (s.fds[g].open && g != f)
  {
  }

  lemma ShutOther(s: State, f: Id, g: Id)
    requires CanShut(s, f) && g < |s.fds| && g < |Shut(s, f).fds| && s.fds[g].inode != s.fds[f].inode
    ensures FdOk(Shut(s, f), g)
  {
    assert FdOk(s, g);
  }

  lemma ShutOwn(s: State, f: Id, g: Id)
    requires CanShut(s, f) && g < |s.fds| && g < |Shut(s, f).fds| && s.fds[g].inode == s.fds[f].inode
    ensures FdOk(Shut(s, f), g)
  {
    var d, closed := s.fds[f], s.inodes[s.fds[f].inode].closed;
    assert FdOk(s, g) && FdOk(s, f);
    WaitingFirst(Closed(f, Locked(s, d.inode), d.delete, d.posix, d.name), closed, g);
  }

  lemma ShutFd(s: State, f: Id, g: Id)
    requires CanShut(s, f) && g < |s.fds| && g < |Shut(s, f).fds|
    ensures FdOk(Shut(s, f), g)
  {
    if s.fds[g].inode == s.fds[f].inode { ShutOwn(s, f, g); } else { ShutOther(s, f, g); }
  }

  lemma ShutOpenList(s: State, f: Id, j: Id)
    requires CanShut(s, f) && j < |s.inodes| && j < |Shut(s, f).inodes|
    ensures var t := Shut(s, f); OpenListOk(t.inodes[j].open, t.fds, j)
    ensures |Shut(s, f).inodes[j].open| == |s.inodes[j].open| - (if j == s.fds[f].inode then 1 else 0)
  {
    var t, i := Shut(s, f), s.fds[f].inode;
    ShutSame(s, f, f);
    assert InodeOk(s, j, None) && Opened(s.fds, i, f);
    WithoutCounts(s.inodes[j].open, f, f);
    forall g: Id ensures multiset(t.inodes[j].open)[g] == if Opened(t.fds, j, g) then 1 else 0 {
      assert multiset(s.inodes[j].open)[g] == if Opened(s.fds, j, g) then 1 else 0;
      WithoutCounts(s.inodes[j].open, f, g);
      if g < |s.fds| { ShutSame(s, f, g); }
    }
  }

  lemma ShutEntries(s: State, f: Id, j: Id)
    requires CanShut(s, f) && j < |s.inodes| && j < |Shut(s, f).inodes|
    ensures var t := Shut(s, f); forall k | 0 <= k < |t.inodes[j].closed| :: EntryOk(t.fds, j, t.inodes[j].closed[k])
  {
    var t, before := Shut(s, f), s.inodes[j].closed;
    var after := t.inodes[j].closed;
    assert InodeOk(s, j, None);
    forall k | 0 <= k < |after| ensures EntryOk(t.fds, j, after[k]) {
      if |after| > |before| && k == 0 {
        ShutSame(s, f, f);
      } else {
        var m := if |after| > |before| then k - 1 else k;
        assert after[k] == before[m] && EntryOk(s.fds, j, before[m]);
        ShutSame(s, f, before[m].fd);
      }
    }
  }

  lemma ShutInode(s: State, f: Id, j: Id)
    requires CanShut(s, f) && j < |s.inodes| && j < |Shut(s, f).inodes|
    ensures InodeOk(Shut(s, f), j, Some(s.fds[f].inode))
  {
    assert InodeOk(s, j, None);
    ShutOpenList(s, f, j);
    ShutEntries(s, f, j);
  }

  lemma ShutKeepsLocks(s: State, f: Id)
    requires CanShut(s, f)
    ensures LocksOk(Shut(s, f))
  {
    var t := Shut(s, f);
    ShutSame(s, f, f);
    assert ListOk(s.fdLocks[f], s.locks, FdOf, f);
    forall l | 0 <= l < |t.locks| ensures LockOk(t, l) {
      assert LockOk(s, l);
      if s.locks[l].live {
        assert !Owned(s.locks, FdOf, f, l);
        ShutSame(s, f, s.locks[l].fd);
      }
    }
  }

  lemma ShutSettled(s: State, f: Id, j: Id)
    requires CanShut(s, f) && j < |s.inodes| && j < |Shut(s, f).inodes|
    ensures Settled(Shut(s, f), j)
  {
    var t, d, i := Shut(s, f), s.fds[f], s.fds[f].inode;
    var c := Closed(f, false, d.delete, d.posix, d.name);
    assert Settled(s, j);
    if !Locked(s, j) {
      forall g ensures Waiting(t.inodes[j].closed, g) == 0 { WaitingFirst(c, s.inodes[i].closed, g); }
    }
  }

  /** The assertions of inode_destroy: when the last reference goes, no descriptor is open on
      the inode and no lock is left on it. */
  lemma DestroyAssertions(s: State, i: Id)
    requires LocksOk(s) && FilesOk(s, Some(i)) && i < |s.inodes| && s.inodes[i].refs == 1
    ensures s.inodes[i].open == [] && s.inodeLocks[i] == []
  {
    assert InodeOk(s, i, Some(i));
    if s.inodeLocks[i] != [] {
      var l := s.inodeLocks[i][0];
      assert ListOk(s.inodeLocks[i], s.locks, InodeOf, i) && l in s.inodeLocks[i];
      assert Owned(s.locks, InodeOf, i, l) && LockOk(s, l);
      assert Opened(s.fds, i, s.locks[l].fd);
    }
  }

  lemma {:induction false} UnlinkEachLate(n: Inode, closed: seq<Closed>)
    requires n.open == []
    ensures UnlinkEach(n, closed) == n.(unlinked := UnlinkEach(n, closed).unlinked)
    decreases |closed|
  {
    if closed != [] {
      UnlinkEachLate(if closed[0].delete then Unlink(n, closed[0].name, closed[0].posix) else n, closed[1..]);
    }
  }

  lemma ReleaseFd(s: State, i: Id, f: Id)
    requires LocksOk(s) && FilesOk(s, Some(i)) && i < |s.inodes| && f < |s.fds| && f < |ReleaseInode(s, i).fds|
    ensures FdOk(ReleaseInode(s, i), f)
  {
    assert FdOk(s, f) && InodeOk(s, i, Some(i));
    if s.inodes[i].refs <= 1 {
      DestroyAssertions(s, i);
      CloseEachAt(s.fds, s.inodes[i].closed, false, f);
      if s.fds[f].inode != i { NotWaiting(s, i, f, Some(i)); }
    }
  }

  lemma ReleaseKeepsInv(s: State, i: Id)
    requires LocksOk(s) && FilesOk(s, Some(i)) && i < |s.inodes|
    requires forall j {:trigger Settled(s, j)} | 0 <= j < |s.inodes| :: Settled(s, j)
    ensures Inv(ReleaseInode(s, i))
  {
    var t := ReleaseInode(s, i);
    assert InodeOk(s, i, Some(i));
    if s.inodes[i].refs <= 1 {
      DestroyAssertions(s, i);
      UnlinkEachLate(s.inodes[i], s.inodes[i].closed);
    }
    CloseEachSame(s.fds, s.inodes[i].closed, Locked(s, i));
    SameLocks(s, t);
    forall f | 0 <= f < |t.fds| ensures FdOk(t, f) { ReleaseFd(s, i, f); }
    forall j | 0 <= j < |t.inodes| ensures InodeOk(t, j, None) {
      assert InodeOk(s, j, Some(i));
      assert forall f :: Opened(s.fds, j, f) == Opened(t.fds, j, f);
    }
    forall j | 0 <= j < |t.inodes| ensures Settled(t, j) { assert Settled(s, j); }
  }

  lemma CloseFdKeepsInv(s: State, f: Id)
    requires Inv(s)
    ensures Inv(CloseFd(s, f))
  {
    if f < |s.fds| && s.fds[f].open {
      FdLocksGone(s, f);
      var t := RemoveEach(s, s.fdLocks[f]);
      var i := t.fds[f].inode;
      assert FdOk(t, f);
      var u := Shut(t, f);
      ShutSame(t, f, f);
      ShutKeepsLocks(t, f);
      forall g | 0 <= g < |u.fds| ensures FdOk(u, g) { ShutFd(t, f, g); }
      forall j | 0 <= j < |u.inodes| ensures InodeOk(u, j, Some(i)) && Settled(u, j) {
        ShutInode(t, f, j);
        ShutSettled(t, f, j);
      }
      ReleaseKeepsInv(u, i);
    }
  }

  // ---------------------------------------------------------------- what each request answers and does

  /** The request is one that lock_fd looks at: a descriptor in use, and no wrapping. */
  predicate LockAsked(s: State, f: Id, proc: Id, start: nat, count: nat) {
    && f < |s.fds| && s.fds[f].open && proc < |s.procLocks| && start < TWO_64
    && ((start + count) % TWO_64 == 0 || start <= (start + count) % TWO_64)
  }

  /** Lock l, as it stands, rules the requested one out: both are on one inode and overlap, and
      not both are shared, nor is the new one shared and of the same descriptor. */
  predicate Forbids(s: State, l: Id, f: Id, start: nat, end: nat, shared: bool) {
    && l < |s.locks| && f < |s.fds| && s.locks[l].live && s.locks[l].inode == s.fds[f].inode
    && Overlaps(s.locks[l], start, end)
    && (!shared || (!s.locks[l].shared && s.locks[l].fd != f))
  }

  lemma {:induction false} ConflictOldest(locks: seq<Lock>, q: seq<Id>, f: Id,
                                          start: nat, end: nat, shared: bool, k: Id)
    requires Ascending(q) && k in q && k < |locks| && Blocks(locks[k], f, start, end, shared)
    ensures var r := FindConflict(locks, q, f, start, end, shared); r.Some? && r.value <= k
  {
    Tail(q);
    if !(q[0] < |locks| && Blocks(locks[q[0]], f, start, end, shared)) {
      ConflictOldest(locks, q[1..], f, start, end, shared, k);
    }
  }

  lemma ForbidsBlocks(s: State, l: Id, f: Id, start: nat, end: nat, shared: bool)
    requires Inv(s) && f < |s.fds| && s.fds[f].open
    ensures var i := s.fds[f].inode;
            && i < |s.inodeLocks|
            && (Forbids(s, l, f, start, end, shared)
                <==> l in s.inodeLocks[i] && l < |s.locks| && Blocks(s.locks[l], f, start, end, shared))
  {
    assert FdOk(s, f);
    assert ListOk(s.inodeLocks[s.fds[f].inode], s.locks, InodeOf, s.fds[f].inode);
    assert l in s.inodeLocks[s.fds[f].inode] <==> Owned(s.locks, InodeOf, s.fds[f].inode, l);
  }

  /** What lock_fd answers: a conflict with the oldest lock that forbids the new one, if any
      does; else it is granted, unless the Unix lock cannot be had. */
  lemma LockAnswer(s: State, f: Id, proc: Id, start: nat, count: nat, shared: bool, unixOk: bool, l: Id)
    requires Inv(s)
    ensures var r, end := LockFd(s, f, proc, start, count, shared, unixOk).1, (start + count) % TWO_64;
            && (r == BadParameter <==> !LockAsked(s, f, proc, start, count))
            && (r == Conflict(l) <==>
                  && LockAsked(s, f, proc, start, count) && Forbids(s, l, f, start, end, shared)
                  && forall k: Id | k < l :: !Forbids(s, k, f, start, end, shared))
            && (r == Granted || r == Refused <==>
                  LockAsked(s, f, proc, start, count) && forall k: Id :: !Forbids(s, k, f, start, end, shared))
            && (r == Granted ==> unixOk) && (r == Refused ==> !unixOk)
  {
    if f < |s.fds| && s.fds[f].open {
      var i, end := s.fds[f].inode, (start + count) % TWO_64;
      assert FdOk(s, f);
      assert ListOk(s.inodeLocks[i], s.locks, InodeOf, i);
      forall k: Id
        ensures Forbids(s, k, f, start, end, shared)
                <==> k in s.inodeLocks[i] && k < |s.locks| && Blocks(s.locks[k], f, start, end, shared)
      {
        ForbidsBlocks(s, k, f, start, end, shared);
      }
      forall k: Id | Forbids(s, k, f, start, end, shared)
        ensures var r := FindConflict(s.locks, s.inodeLocks[i], f, start, end, shared); r.Some? && r.value <= k
      {
        ConflictOldest(s.locks, s.inodeLocks[i], f, start, end, shared, k);
      }
    }
  }

  /** A lock is granted exactly if it may be asked for, nothing forbids it and the system agrees.
      It is then there as asked, the only change to the locks; any other answer changes nothing. */
  ghost predicate LockOutcome(s: State, t: State, r: LockResult, f: Id, proc: Id,
                              start: nat, count: nat, shared: bool, unixOk: bool) {
    var end, n := (start + count) % TWO_64, |s.locks|;
    && (r == Granted <==> LockAsked(s, f, proc, start, count) && unixOk
                          && forall k: Id :: !Forbids(s, k, f, start, end, shared))
    && (r != Granted ==> t == s)
    && (r == Granted ==>
          && |t.locks| == n + 1 && t.locks[..n] == s.locks && t.fds == s.fds && t.inodes == s.inodes
          && f < |s.fds| && t.locks[n] == Lock(f, s.fds[f].inode, proc, shared, start, end, true))
  }

  lemma LockRecords(s: State, f: Id, proc: Id, start: nat, count: nat, shared: bool, unixOk: bool)
    requires Inv(s)
    ensures var (t, r) := LockFd(s, f, proc, start, count, shared, unixOk);
            LockOutcome(s, t, r, f, proc, start, count, shared, unixOk)
  {
    LockAnswer(s, f, proc, start, count, shared, unixOk, 0);
  }

  /** A live lock of the descriptor with just these bounds. */
  predicate Matches(s: State, l: Id, f: Id, start: nat, end: nat) {
    l < |s.locks| && s.locks[l].live && s.locks[l].fd == f && s.locks[l].start == start && s.locks[l].end == end
  }

  /** The oldest lock that unlock_fd is asked to remove. */
  ghost predicate Unlocked(s: State, l: Id, f: Id, start: nat, end: nat) {
    Matches(s, l, f, start, end) && forall k: Id | k < l :: !Matches(s, k, f, start, end)
  }

  lemma {:induction false} ExactOldest(locks: seq<Lock>, q: seq<Id>, start: nat, end: nat, k: Id)
    requires Ascending(q) && k in q && k < |locks| && locks[k].start == start && locks[k].end == end
    ensures var r := FindExact(locks, q, start, end); r.Some? && r.value <= k
  {
    Tail(q);
    if !(q[0] < |locks| && locks[q[0]].start == start && locks[q[0]].end == end) {
      ExactOldest(locks, q[1..], start, end, k);
    }
  }

  lemma FindsUnlocked(s: State, f: Id, start: nat, end: nat, l: Id)
    requires Inv(s) && f < |s.fdLocks|
    ensures FindExact(s.locks, s.fdLocks[f], start, end) == Some(l) <==> Unlocked(s, l, f, start, end)
  {
    var q := s.fdLocks[f];
    assert ListOk(q, s.locks, FdOf, f);
    forall k: Id ensures Matches(s, k, f, start, end)
                         <==> k in q && k < |s.locks| && s.locks[k].start == start && s.locks[k].end == end
    {
      assert k in q <==> Owned(s.locks, FdOf, f, k);
    }
    forall k: Id | Matches(s, k, f, start, end)
      ensures var r := FindExact(s.locks, q, start, end); r.Some? && r.value <= k
    {
      ExactOldest(s.locks, q, start, end, k);
    }
  }

  /** The request takes lock l away: unlock_fd with its bounds, the end of its process, or its
      descriptor being closed. */
  ghost predicate TakesAway(s: State, op: Op, l: Id)
    requires l < |s.locks|
  {
    match op
    case DoUnlock(f, start, count) => Unlocked(s, l, f, start, (start + count) % TWO_64)
    case DoExit(p) => s.locks[l].live && s.locks[l].proc == p
    case DoClose(f) => s.locks[l].live && s.locks[l].fd == f
    case _ => false
  }

  lemma UnlockOnLock(s: State, f: Id, start: nat, count: nat, l: Id)
    requires Inv(s) && l < |s.locks|
    ensures var t, end := UnlockFd(s, f, start, count), (start + count) % TWO_64;
            && |t.locks| == |s.locks|
            && t.locks[l] == s.locks[l].(live := s.locks[l].live && !Unlocked(s, l, f, start, end))
  {
    if f < |s.fdLocks| {
      var r := FindExact(s.locks, s.fdLocks[f], start, (start + count) % TWO_64);
      FindsUnlocked(s, f, start, (start + count) % TWO_64, l);
      if r.Some? { RemoveLockKeepsInv(s, r.value); }
    } else {
      assert LockOk(s, l);
    }
  }

  lemma ExitOnLock(s: State, p: Id, l: Id)
    requires Inv(s) && l < |s.locks| && p < |s.procLocks|
    ensures var t := RemoveEach(s, s.procLocks[p]);
            |t.locks| == |s.locks| && t.locks[l] == s.locks[l].(live := s.locks[l].live && s.locks[l].proc != p)
  {
    assert ListOk(s.procLocks[p], s.locks, ProcOf, p);
    assert l in s.procLocks[p] <==> Owned(s.locks, ProcOf, p, l);
    RemoveEachLive(s, s.procLocks[p], l);
  }

  lemma ShutKeepsLockSeq(s: State, f: Id)
    requires f < |s.fds| && s.fds[f].inode < |s.inodes|
    ensures Shut(s, f).locks == s.locks && ReleaseInode(Shut(s, f), s.fds[f].inode).locks == s.locks
  {
  }

  lemma CloseOnLock(s: State, f: Id, l: Id)
    requires Inv(s) && l < |s.locks|
    ensures var t := CloseFd(s, f);
            |t.locks| == |s.locks| && t.locks[l] == s.locks[l].(live := s.locks[l].live && s.locks[l].fd != f)
  {
    assert LockOk(s, l);
    if f < |s.fds| && s.fds[f].open {
      assert ListOk(s.fdLocks[f], s.locks, FdOf, f);
      assert l in s.fdLocks[f] <==> Owned(s.locks, FdOf, f, l);
      RemoveEachLive(s, s.fdLocks[f], l);
      var t := RemoveEach(s, s.fdLocks[f]);
      if f < |t.fds| && t.fds[f].inode < |t.inodes| { ShutKeepsLockSeq(t, f); }
    }
  }

  lemma LockOnLock(s: State, f: Id, proc: Id, start: nat, count: nat, shared: bool, unixOk: bool, l: Id)
    requires Inv(s) && l < |s.locks|
    ensures var t := LockFd(s, f, proc, start, count, shared, unixOk).0;
            l < |t.locks| && t.locks[l] == s.locks[l]
  {
    LockRecords(s, f, proc, start, count, shared, unixOk);
  }

  lemma AsideKeepsLocks(s: State, op: Op)
    requires op.NewProcess? || op.DoOpen? || op.DoSet?
    ensures Apply(s, op).locks == s.locks
  {
  }

  /** A lock stays as it was granted, and live until something takes it away. */
  lemma StepOnLock(s: State, op: Op, l: Id)
    requires Inv(s) && l < |s.locks|
    ensures var t := Apply(s, op);
            l < |t.locks| && t.locks[l] == s.locks[l].(live := s.locks[l].live && !TakesAway(s, op, l))
  {
    match op
    case DoLock(f, proc, start, count, shared, unixOk) => LockOnLock(s, f, proc, start, count, shared, unixOk, l);
    case DoUnlock(f, start, count) => UnlockOnLock(s, f, start, count, l);
    case DoExit(p) => if p < |s.procLocks| { ExitOnLock(s, p, l); } else { assert LockOk(s, l); }
    case DoClose(f) => CloseOnLock(s, f, l);
    case _ => AsideKeepsLocks(s, op);
  }

  lemma NewLocksOnly(s: State, op: Op)
    requires Inv(s)
    ensures |Apply(s, op).locks| == |s.locks| +
            if op.DoLock? && LockFd(s, op.fd, op.proc, op.start, op.count, op.shared, op.unixOk).1 == Granted
            then 1 else 0
  {
    match op
    case DoExit(p) =>
      if p < |s.procLocks| {
        assert ListOk(s.procLocks[p], s.locks, ProcOf, p);
        RemoveEachKeepsInv(s, s.procLocks[p]);
      }
    case DoUnlock(f, start, count) => if |s.locks| > 0 { UnlockOnLock(s, f, start, count, 0); }
    case DoClose(f) =>
      if f < |s.fds| && s.fds[f].open {
        assert ListOk(s.fdLocks[f], s.locks, FdOf, f);
        RemoveEachKeepsInv(s, s.fdLocks[f]);
        var t := RemoveEach(s, s.fdLocks[f]);
        if f < |t.fds| && t.fds[f].inode < |t.inodes| { ShutKeepsLockSeq(t, f); }
      }
    case _ =>
  }

  lemma UnlockKeepsInv(s: State, f: Id, start: nat, count: nat)
    requires Inv(s)
    ensures Inv(UnlockFd(s, f, start, count))
  {
    if f < |s.fdLocks| {
      var r := FindExact(s.locks, s.fdLocks[f], start, (start + count) % TWO_64);
      if r.Some? { RemoveLockKeepsInv(s, r.value); }
    }
  }

  lemma ExitKeepsInv(s: State, p: Id)
    requires Inv(s) && p < |s.procLocks|
    ensures Inv(RemoveEach(s, s.procLocks[p]))
  {
    assert ListOk(s.procLocks[p], s.locks, ProcOf, p);
    RemoveEachKeepsInv(s, s.procLocks[p]);
  }

  lemma ApplyKeepsInv(s: State, op: Op)
    requires Inv(s)
    ensures Inv(Apply(s, op))
  {
    match op
    case NewProcess => NewProcessKeepsInv(s);
    case DoOpen(ino, delete, name) => OpenKeepsInv(s, ino, delete, name);
    case DoSet(f, delete, posix) => SetKeepsInv(s, f, delete, posix);
    case DoLock(f, proc, start, count, shared, unixOk) => LockFdKeepsInv(s, f, proc, start, count, shared, unixOk);
    case DoUnlock(f, start, count) => UnlockKeepsInv(s, f, start, count);
    case DoExit(p) => if p < |s.procLocks| { ExitKeepsInv(s, p); }
    case DoClose(f) => CloseFdKeepsInv(s, f);
  }

  lemma {:induction false} RunKeepsInv(s: State, ops: seq<Op>)
    requires Inv(s)
    ensures Inv(Run(s, ops))
    decreases |ops|
  {
    if ops != [] {
      ApplyKeepsInv(s, ops[0]);
      RunKeepsInv(Apply(s, ops[0]), ops[1..]);
    }
  }

  // ---------------------------------------------------------------- deletions

  predicate DeletedName(fds: seq<Fd>, i: Id, f: Id, name: string) {
    f < |fds| && fds[f].inode == i && !fds[f].open && fds[f].delete && fds[f].name == name
  }

  ghost predicate Wanted(closed: seq<Closed>, name: string) {
    exists k :: 0 <= k < |closed| && closed[k].delete && closed[k].name == name
  }

  /** An entry is what its descriptor was closed with. */
  predicate EntryAgrees(fds: seq<Fd>, i: Id, c: Closed) {
    && c.fd < |fds| && !fds[c.fd].open && fds[c.fd].inode == i
    && c.delete == fds[c.fd].delete && c.posix == fds[c.fd].posix && c.name == fds[c.fd].name
  }

  ghost predicate EntriesAgree(fds: seq<Fd>, i: Id, closed: seq<Closed>) {
    forall k {:trigger closed[k]} | 0 <= k < |closed| :: EntryAgrees(fds, i, closed[k])
  }

  ghost predicate AllDelete(closed: seq<Closed>) {
    forall k {:trigger closed[k]} | 0 <= k < |closed| :: closed[k].delete
  }

  /** What was closed for deletion was unlinked or waits for it, under its name. */
  ghost predicate Remembered(fds: seq<Fd>, i: Id, n: Inode) {
    forall f, name {:trigger DeletedName(fds, i, f, name)} | DeletedName(fds, i, f, name) ::
      name in n.unlinked || Wanted(n.closed, name)
  }

  /** Only such names were unlinked. */
  ghost predicate Justified(fds: seq<Fd>, i: Id, n: Inode) {
    forall name {:trigger name in n.unlinked} | name in n.unlinked :: exists f :: DeletedName(fds, i, f, name)
  }

  ghost predicate NotesOk(fds: seq<Fd>, i: Id, n: Inode) {
    EntriesAgree(fds, i, n.closed) && Remembered(fds, i, n) && Justified(fds, i, n)
  }

  /** Without locks, only deletions wait.  The inode `but` may be about to be tidied up. */
  ghost predicate DeletesOk(s: State, i: Id, but: Option<Id>)
    requires i < |s.inodes|
  {
    NotesOk(s.fds, i, s.inodes[i]) && (but == Some(i) || Locked(s, i) || AllDelete(s.inodes[i].closed))
  }

  ghost predicate Deletes(s: State, but: Option<Id>) {
    forall i {:trigger DeletesOk(s, i, but)} | 0 <= i < |s.inodes| :: DeletesOk(s, i, but)
  }

  /** Descriptors differ only in what was recorded about close(). */
  ghost predicate SameDispositions(a: seq<Fd>, b: seq<Fd>) {
    |a| == |b| && forall f {:trigger b[f]} | 0 <= f < |a| ::
      b[f] == a[f].(closes := b[f].closes, closedLocked := b[f].closedLocked)
  }

  lemma CloseEachDispositions(fds: seq<Fd>, closed: seq<Closed>, locked: bool)
    ensures SameDispositions(fds, CloseEach(fds, closed, locked))
  {
    CloseEachSize(fds, closed, locked);
    forall f | 0 <= f < |fds|
      ensures var d := CloseEach(fds, closed, locked)[f];
              d == fds[f].(closes := d.closes, closedLocked := d.closedLocked)
    {
      CloseEachAt(fds, closed, locked, f);
    }
  }

  lemma {:induction false} DeletionsKeep(closed: seq<Closed>, fds: seq<Fd>, i: Id, name: string)
    ensures AllDelete(Deletions(closed)) && (Wanted(closed, name) ==> Wanted(Deletions(closed), name))
    ensures EntriesAgree(fds, i, closed) ==> EntriesAgree(fds, i, Deletions(closed))
  {
    if closed != [] {
      var rest := closed[1..];
      DeletionsKeep(rest, fds, i, name);
      assert forall k | 1 <= k < |closed| :: closed[k] == rest[k - 1];
      var d := Deletions(closed);
      if closed[0].delete && closed[0].name == name { assert d[0].name == name; }
      if Wanted(rest, name) {
        var k :| 0 <= k < |Deletions(rest)| && Deletions(rest)[k].delete && Deletions(rest)[k].name == name;
        if closed[0].delete { assert d[k + 1] == Deletions(rest)[k]; }
      }
      if Wanted(closed, name) && !(closed[0].delete && closed[0].name == name) {
        var k :| 0 <= k < |closed| && closed[k].delete && closed[k].name == name;
        assert rest[k - 1] == closed[k];
      }
    }
  }

  lemma SameNotes(a: seq<Fd>, b: seq<Fd>, i: Id, n: Inode, m: Inode)
    requires NotesOk(a, i, n) && SameDispositions(a, b) && m.closed == n.closed && m.unlinked == n.unlinked
    ensures NotesOk(b, i, m)
  {
    forall f, name ensures DeletedName(b, i, f, name) == DeletedName(a, i, f, name) {}
    forall name | name in m.unlinked ensures exists f :: DeletedName(b, i, f, name) {
      var f :| DeletedName(a, i, f, name);
      assert DeletedName(b, i, f, name);
    }
  }

  lemma PendingNotes(a: seq<Fd>, b: seq<Fd>, i: Id, n: Inode)
    requires NotesOk(a, i, n) && SameDispositions(a, b)
    ensures NotesOk(b, i, n.(closed := Deletions(n.closed)))
  {
    SameNotes(a, b, i, n, n);
    DeletionsKeep(n.closed, b, i, "");
    forall f, name | DeletedName(b, i, f, name) ensures name in n.unlinked || Wanted(Deletions(n.closed), name) {
      DeletionsKeep(n.closed, b, i, name);
    }
  }

  lemma ClosePendingDeletes(s: State, i: Id)
    requires Deletes(s, Some(i)) && !Locked(s, i) && i < |s.inodes|
    ensures Deletes(ClosePending(s, i), None) && SameDispositions(s.fds, ClosePending(s, i).fds)
  {
    var t, closed := ClosePending(s, i), s.inodes[i].closed;
    CloseEachDispositions(s.fds, closed, Locked(s, i));
    forall j | 0 <= j < |t.inodes| ensures DeletesOk(t, j, None) {
      assert DeletesOk(s, j, Some(i));
      if j == i {
        PendingNotes(s.fds, t.fds, i, s.inodes[i]);
        DeletionsKeep(closed, t.fds, i, "");
      } else {
        SameNotes(s.fds, t.fds, j, s.inodes[j], t.inodes[j]);
      }
    }
  }

  lemma RemoveLockDeletes(s: State, l: Id)
    requires Inv(s) && Deletes(s, None) && l < |s.locks|
    ensures Deletes(RemoveLock(s, l), None) && SameDispositions(s.fds, RemoveLock(s, l).fds)
    ensures |RemoveLock(s, l).inodes| == |s.inodes|
  {
    var m, i := Untie(s, l), s.locks[l].inode;
    var but := if Locked(m, i) then None else Some(i);
    assert LockOk(s, l);
    forall j | 0 <= j < |m.inodes| ensures DeletesOk(m, j, but) { assert DeletesOk(s, j, None); }
    if !Locked(m, i) { ClosePendingDeletes(m, i); }
  }

  lemma {:induction false} RemoveEachDeletes(s: State, q: seq<Id>)
    requires Inv(s) && Deletes(s, None) && forall l | l in q :: l < |s.locks|
    ensures Deletes(RemoveEach(s, q), None) && SameDispositions(s.fds, RemoveEach(s, q).fds)
    ensures |RemoveEach(s, q).inodes| == |s.inodes|
    decreases |q|
  {
    if q != [] {
      Tail(q);
      assert q[0] in q;
      RemoveLockKeepsInv(s, q[0]);
      RemoveLockDeletes(s, q[0]);
      RemoveEachDeletes(RemoveLock(s, q[0]), q[1..]);
    }
  }

  /** Descriptor f has been closed, and nothing else about dispositions changed. */
  ghost predicate ClosedOne(a: seq<Fd>, b: seq<Fd>, f: Id) {
    && |a| == |b| && f < |a| && a[f].open && !b[f].open
    && b[f] == a[f].(open := false, closes := b[f].closes, closedLocked := b[f].closedLocked)
    && forall g {:trigger b[g]} | 0 <= g < |a| && g != f :: b[g] == a[g]
  }

  lemma ClosedNames(a: seq<Fd>, b: seq<Fd>, f: Id, i: Id, g: Id, name: string)
    requires ClosedOne(a, b, f)
    ensures DeletedName(b, i, g, name)
            <==> DeletedName(a, i, g, name) || (g == f && a[f].inode == i && a[f].delete && a[f].name == name)
  {
  }

  lemma WantedFirst(c: Closed, closed: seq<Closed>, name: string)
    ensures Wanted([c] + closed, name) <==> (c.delete && c.name == name) || Wanted(closed, name)
  {
    var all := [c] + closed;
    if Wanted(closed, name) {
      var k :| 0 <= k < |closed| && closed[k].delete && closed[k].name == name;
      assert all[k + 1] == closed[k];
    }
    if c.delete && c.name == name { assert all[0] == c; }
    if Wanted(all, name) {
      var k :| 0 <= k < |all| && all[k].delete && all[k].name == name;
      assert k > 0 ==> closed[k - 1] == all[k];
    }
  }

  /** The inode of the closed descriptor, whose deletion is put on the list, or done, or is there. */
  lemma ClosedNotes(a: seq<Fd>, b: seq<Fd>, f: Id, i: Id, n: Inode, m: Inode)
    requires NotesOk(a, i, n) && ClosedOne(a, b, f) && EntriesAgree(b, i, m.closed)
    requires forall name :: Wanted(n.closed, name) ==> Wanted(m.closed, name)
    requires forall name | name in n.unlinked :: name in m.unlinked
    requires forall name | name in m.unlinked ::
               name in n.unlinked || (a[f].inode == i && a[f].delete && a[f].name == name)
    requires a[f].inode == i && a[f].delete ==> a[f].name in m.unlinked || Wanted(m.closed, a[f].name)
    ensures NotesOk(b, i, m)
  {
    forall g: Id, name | DeletedName(b, i, g, name) ensures name in m.unlinked || Wanted(m.closed, name) {
      ClosedNames(a, b, f, i, g, name);
    }
    forall name | name in m.unlinked ensures exists g :: DeletedName(b, i, g, name) {
      if name in n.unlinked {
        var g :| DeletedName(a, i, g, name);
        ClosedNames(a, b, f, i, g, name);
      } else {
        ClosedNames(a, b, f, i, f, name);
      }
    }
  }

  lemma ShutClosesOne(s: State, f: Id)
    requires CanShut(s, f)
    ensures ClosedOne(s.fds, Shut(s, f).fds, f) && |Shut(s, f).inodes| == |s.inodes|
  {
  }

  lemma ShutNotes(s: State, f: Id)
    requires CanShut(s, f) && DeletesOk(s, s.fds[f].inode, None) && |Shut(s, f).inodes| == |s.inodes|
    ensures DeletesOk(Shut(s, f), s.fds[f].inode, None)
  {
    var t, d, i := Shut(s, f), s.fds[f], s.fds[f].inode;
    var n, m := s.inodes[i], t.inodes[i];
    ShutClosesOne(s, f);
    forall name ensures Wanted(m.closed, name) <==>
      Wanted(n.closed, name) || (m.closed != n.closed && d.delete && d.name == name)
    {
      WantedFirst(Closed(f, Locked(s, i), d.delete, d.posix, d.name), n.closed, name);
    }
    if d.delete && m.closed == n.closed && m.unlinked == n.unlinked {
      var k :| 0 <= k < |n.closed| && n.closed[k].name == d.name;
      assert n.closed[k].delete;
      assert Wanted(n.closed, d.name);
    }
    ClosedNotes(s.fds, t.fds, f, i, n, m);
  }

  lemma ShutDeletes(s: State, f: Id)
    requires CanShut(s, f) && Deletes(s, None)
    ensures Deletes(Shut(s, f), None)
  {
    var t, i := Shut(s, f), s.fds[f].inode;
    ShutClosesOne(s, f);
    forall j | 0 <= j < |t.inodes| ensures DeletesOk(t, j, None) {
      assert DeletesOk(s, j, None);
      if j == i { ShutNotes(s, f); } else { ClosedNotes(s.fds, t.fds, f, j, s.inodes[j], t.inodes[j]); }
    }
  }

  lemma {:induction false} UnlinkEachNames(n: Inode, closed: seq<Closed>, name: string)
    ensures name in UnlinkEach(n, closed).unlinked <==> name in n.unlinked || Wanted(closed, name)
    decreases |closed|
  {
    if closed != [] {
      UnlinkEachNames(if closed[0].delete then Unlink(n, closed[0].name, closed[0].posix) else n, closed[1..], name);
      WantedFirst(closed[0], closed[1..], name);
      assert [closed[0]] + closed[1..] == closed;
    }
  }

  /** When the inode goes, every deletion that waited is done. */
  lemma DestroyedNotes(a: seq<Fd>, b: seq<Fd>, i: Id, n: Inode)
    requires NotesOk(a, i, n) && SameDispositions(a, b)
    ensures NotesOk(b, i, UnlinkEach(n, n.closed).(refs := 0, gone := true, closed := []))
  {
    var m := UnlinkEach(n, n.closed).(refs := 0, gone := true, closed := []);
    SameNotes(a, b, i, n, n);
    forall f, name | DeletedName(b, i, f, name) ensures name in m.unlinked { UnlinkEachNames(n, n.closed, name); }
    forall name | name in m.unlinked ensures exists f :: DeletedName(b, i, f, name) {
      UnlinkEachNames(n, n.closed, name);
      if Wanted(n.closed, name) {
        var k :| 0 <= k < |n.closed| && n.closed[k].delete && n.closed[k].name == name;
        assert EntryAgrees(b, i, n.closed[k]);
        assert DeletedName(b, i, n.closed[k].fd, name);
      }
    }
  }

  lemma ReleaseDeletes(s: State, i: Id)
    requires Deletes(s, None) && i < |s.inodes|
    ensures Deletes(ReleaseInode(s, i), None) && SameDispositions(s.fds, ReleaseInode(s, i).fds)
  {
    var t := ReleaseInode(s, i);
    CloseEachDispositions(s.fds, s.inodes[i].closed, Locked(s, i));
    forall j | 0 <= j < |t.inodes| ensures DeletesOk(t, j, None) {
      assert DeletesOk(s, j, None);
      if j == i && s.inodes[i].refs <= 1 {
        DestroyedNotes(s.fds, t.fds, i, s.inodes[i]);
      } else {
        SameNotes(s.fds, t.fds, j, s.inodes[j], t.inodes[j]);
      }
    }
  }

  lemma CloseFdDeletes(s: State, f: Id)
    requires Inv(s) && Deletes(s, None)
    ensures Deletes(CloseFd(s, f), None)
  {
    if f < |s.fds| && s.fds[f].open {
      FdLocksGone(s, f);
      var t := RemoveEach(s, s.fdLocks[f]);
      assert ListOk(s.fdLocks[f], s.locks, FdOf, f);
      RemoveEachDeletes(s, s.fdLocks[f]);
      assert FdOk(t, f);
      ShutDeletes(t, f);
      ShutClosesOne(t, f);
      ReleaseDeletes(Shut(t, f), t.fds[f].inode);
    }
  }

  /** Descriptors that are in use may change, and new ones appear. */
  lemma OpenNotes(a: seq<Fd>, b: seq<Fd>, i: Id, n: Inode, m: Inode)
    requires NotesOk(a, i, n) && m.closed == n.closed && m.unlinked == n.unlinked && |a| <= |b|
    requires forall f | 0 <= f < |b| :: if f < |a| && !a[f].open then b[f] == a[f] else b[f].open
    ensures NotesOk(b, i, m)
  {
    forall f, name ensures DeletedName(b, i, f, name) == DeletedName(a, i, f, name) {}
    forall name | name in m.unlinked ensures exists f :: DeletedName(b, i, f, name) {
      var f :| DeletedName(a, i, f, name);
      assert DeletedName(b, i, f, name);
    }
  }

  lemma OpenDeletes(s: State, ino: Option<Id>, delete: bool, name: string)
    requires Inv(s) && Deletes(s, None)
    ensures Deletes(OpenFd(s, ino, delete, name), None)
  {
    var t := OpenFd(s, ino, delete, name);
    forall j | 0 <= j < |t.inodes| ensures DeletesOk(t, j, None) {
      if j < |s.inodes| {
        assert DeletesOk(s, j, None);
        OpenNotes(s.fds, t.fds, j, s.inodes[j], t.inodes[j]);
      } else {
        forall f: Id, x ensures !DeletedName(t.fds, j, f, x) { if f < |s.fds| { assert FdOk(s, f); } }
      }
    }
  }

  lemma OtherDeletes(s: State, op: Op)
    requires Inv(s) && Deletes(s, None) && (op.NewProcess? || op.DoSet? || op.DoLock?)
    ensures Deletes(Apply(s, op), None)
  {
    var t := Apply(s, op);
    forall j | 0 <= j < |t.inodes| ensures DeletesOk(t, j, None) {
      assert DeletesOk(s, j, None);
      OpenNotes(s.fds, t.fds, j, s.inodes[j], t.inodes[j]);
    }
  }

  lemma UnlockDeletes(s: State, f: Id, start: nat, count: nat)
    requires Inv(s) && Deletes(s, None)
    ensures var t := UnlockFd(s, f, start, count); Deletes(t, None) && SameDispositions(s.fds, t.fds)
  {
    if f < |s.fdLocks| {
      var r := FindExact(s.locks, s.fdLocks[f], start, (start + count) % TWO_64);
      if r.Some? { RemoveLockDeletes(s, r.value); }
    }
  }

  lemma ExitDeletes(s: State, p: Id)
    requires Inv(s) && Deletes(s, None) && p < |s.procLocks|
    ensures var t := RemoveEach(s, s.procLocks[p]); Deletes(t, None) && SameDispositions(s.fds, t.fds)
  {
    assert ListOk(s.procLocks[p], s.locks, ProcOf, p);
    RemoveEachDeletes(s, s.procLocks[p]);
  }

  lemma ApplyDeletes(s: State, op: Op)
    requires Inv(s) && Deletes(s, None)
    ensures Deletes(Apply(s, op), None)
  {
    match op
    case DoOpen(ino, delete, name) => OpenDeletes(s, ino, delete, name);
    case DoUnlock(f, start, count) => UnlockDeletes(s, f, start, count);
    case DoExit(p) => if p < |s.procLocks| { ExitDeletes(s, p); }
    case DoClose(f) => CloseFdDeletes(s, f);
    case _ => OtherDeletes(s, op);
  }

  lemma {:induction false} RunDeletes(s: State, ops: seq<Op>)
    requires Inv(s) && Deletes(s, None)
    ensures Deletes(Run(s, ops), None)
    decreases |ops|
  {
    if ops != [] {
      ApplyKeepsInv(s, ops[0]);
      ApplyDeletes(s, ops[0]);
      RunDeletes(Apply(s, ops[0]), ops[1..]);
    }
  }

  /** Over every run: the name of a descriptor that was closed for deletion has been unlinked, or
      waits on its inode's list, and is unlinked by the time the inode is gone; and no name is
      unlinked but that of a descriptor of the inode that was closed for deletion. */
  lemma EveryRunDeletes(ops: seq<Op>, i: Id, name: string)
    requires i < |Run(Initial, ops).inodes|
    ensures var s := Run(Initial, ops);
            && ((exists f :: DeletedName(s.fds, i, f, name))
                <==> name in s.inodes[i].unlinked || Wanted(s.inodes[i].closed, name))
            && (s.inodes[i].gone ==> !Wanted(s.inodes[i].closed, name))
  {
    var s := Run(Initial, ops);
    RunKeepsInv(Initial, ops);
    RunDeletes(Initial, ops);
    assert InodeOk(s, i, None) && DeletesOk(s, i, None);
    if Wanted(s.inodes[i].closed, name) {
      var k :| 0 <= k < |s.inodes[i].closed| && s.inodes[i].closed[k].delete && s.inodes[i].closed[k].name == name;
      assert EntryAgrees(s.fds, i, s.inodes[i].closed[k]);
      assert DeletedName(s.fds, i, s.inodes[i].closed[k].fd, name);
    }
  }

  // ---------------------------------------------------------------- what happens to a descriptor

  lemma CloseDispositions(s: State, f: Id, g: Id)
    requires Inv(s) && Deletes(s, None) && g < |s.fds|
    ensures var t := CloseFd(s, f);
            && |t.fds| == |s.fds|
            && t.fds[g] == s.fds[g].(open := s.fds[g].open && g != f,
                                     closes := t.fds[g].closes, closedLocked := t.fds[g].closedLocked)
  {
    if f < |s.fds| && s.fds[f].open {
      FdLocksGone(s, f);
      var t := RemoveEach(s, s.fdLocks[f]);
      assert ListOk(s.fdLocks[f], s.locks, FdOf, f);
      RemoveEachDeletes(s, s.fdLocks[f]);
      assert FdOk(t, f);
      ShutDeletes(t, f);
      ShutClosesOne(t, f);
      ReleaseDeletes(Shut(t, f), t.fds[f].inode);
    }
  }

  /** Descriptor f after a step: in use until it is closed, with its file, its name and, unless
      it is told otherwise while in use, what it is to be closed with. */
  predicate FdAfter(s: State, op: Op, f: Id, d: Fd)
    requires f < |s.fds|
  {
    var told := op.DoSet? && op.fd == f && s.fds[f].open;
    && d.inode == s.fds[f].inode && d.name == s.fds[f].name && d.open == (s.fds[f].open && op != DoClose(f))
    && d.delete == (if told then op.delete else s.fds[f].delete)
    && d.posix == (if told then op.posix else s.fds[f].posix)
  }

  lemma SetOnFd(s: State, op: Op, f: Id)
    requires f < |s.fds| && (op.NewProcess? || op.DoOpen? || op.DoSet? || op.DoLock?)
    ensures f < |Apply(s, op).fds| && FdAfter(s, op, f, Apply(s, op).fds[f])
  {
  }

  lemma StepOnFd(s: State, op: Op, f: Id)
    requires Inv(s) && Deletes(s, None) && f < |s.fds|
    ensures f < |Apply(s, op).fds| && FdAfter(s, op, f, Apply(s, op).fds[f])
  {
    match op
    case DoUnlock(g, start, count) => UnlockDeletes(s, g, start, count);
    case DoExit(p) => if p < |s.procLocks| { ExitDeletes(s, p); }
    case DoClose(g) => CloseDispositions(s, g, f);
    case _ => SetOnFd(s, op, f);
  }

  /** A new descriptor is in use, on the inode asked for or on a new one, unless that inode is
      gone. */
  lemma OpenExact(s: State, ino: Option<Id>, delete: bool, name: string)
    requires Inv(s)
    ensures var t, f := OpenFd(s, ino, delete, name), |s.fds|;
            if ino.Some? && (ino.value >= |s.inodes| || s.inodes[ino.value].gone) then t == s
            else && |t.fds| == f + 1 && t.fds[..f] == s.fds && t.fds[f].open && t.fds[f].delete == delete
                 && t.fds[f].name == name && t.fds[f].inode == (if ino.Some? then ino.value else |s.inodes|)
                 && t.fds[f].inode < |t.inodes| && f in t.inodes[t.fds[f].inode].open && t.locks == s.locks
  {
  }

  /** With POSIX semantics, and no lock left on the file, closing for deletion unlinks at once. */
  lemma PosixAtOnce(s: State, f: Id)
    requires CanShut(s, f) && s.fds[f].delete && s.fds[f].posix && !Locked(s, s.fds[f].inode)
    ensures var t, i := Shut(s, f), s.fds[f].inode; i < |t.inodes| && s.fds[f].name in t.inodes[i].unlinked
  {
  }

  // ---------------------------------------------------------------- runs

  /** Over every run, overlapping locks on one inode are both shared, or of one descriptor and
      not both exclusive; and the lists of the descriptor, the inode and the process of a lock
      hold it exactly while it is live. */
  lemma EveryRunLocks(ops: seq<Op>, a: Id, b: Id)
    requires var s := Run(Initial, ops); a < b < |s.locks| && s.locks[a].live && s.locks[b].live
    requires var s := Run(Initial, ops); s.locks[a].inode == s.locks[b].inode
    ensures var s := Run(Initial, ops);
            && (Overlaps(s.locks[a], s.locks[b].start, s.locks[b].end) ==>
                  (s.locks[a].shared && s.locks[b].shared)
                  || (s.locks[a].fd == s.locks[b].fd && (s.locks[a].shared || s.locks[b].shared)))
            && (Overlaps(s.locks[a], s.locks[b].start, s.locks[b].end)
                <==> Overlaps(s.locks[b], s.locks[a].start, s.locks[a].end))
  {
    RunKeepsInv(Initial, ops);
    assert PairOk(Run(Initial, ops).locks, a, b);
  }

  lemma EveryRunLists(ops: seq<Op>, l: Id)
    requires l < |Run(Initial, ops).locks|
    ensures var s := Run(Initial, ops);
            var lk := s.locks[l];
            && ListsOk(s) && lk.fd < |s.fdLocks| && lk.inode < |s.inodeLocks| && lk.proc < |s.procLocks|
            && (l in s.fdLocks[lk.fd] <==> lk.live) && (l in s.inodeLocks[lk.inode] <==> lk.live)
            && (l in s.procLocks[lk.proc] <==> lk.live)
  {
    var s := Run(Initial, ops);
    RunKeepsInv(Initial, ops);
    assert LockOk(s, l);
    assert ListOk(s.fdLocks[s.locks[l].fd], s.locks, FdOf, s.locks[l].fd) &&
           Owned(s.locks, FdOf, s.locks[l].fd, l) == s.locks[l].live;
    assert ListOk(s.inodeLocks[s.locks[l].inode], s.locks, InodeOf, s.locks[l].inode) &&
           Owned(s.locks, InodeOf, s.locks[l].inode, l) == s.locks[l].live;
    assert ListOk(s.procLocks[s.locks[l].proc], s.locks, ProcOf, s.locks[l].proc) &&
           Owned(s.locks, ProcOf, s.locks[l].proc, l) == s.locks[l].live;
  }

  /** Over every run, a Unix descriptor is never closed while its inode has locks, is closed at
      most once, and has been closed once it is out of use unless its inode still has locks; a
      delete without POSIX semantics never unlinks a file that is open. */
  lemma EveryRunCloses(ops: seq<Op>, f: Id)
    requires f < |Run(Initial, ops).fds|
    ensures var s := Run(Initial, ops);
            var d := s.fds[f];
            && d.inode < |s.inodes| && !d.closedLocked && d.closes <= 1
            && (d.open ==> d.closes == 0)
            && (!d.open && (!Locked(s, d.inode) || s.inodes[d.inode].gone) ==> d.closes == 1)
            && !s.inodes[d.inode].earlyUnlink
            && (s.inodes[d.inode].gone ==> !d.open)
  {
    var s := Run(Initial, ops);
    RunKeepsInv(Initial, ops);
    assert FdOk(s, f);
    assert Settled(s, s.fds[f].inode) && InodeOk(s, s.fds[f].inode, None);
    assert Opened(s.fds, s.fds[f].inode, f) == s.fds[f].open;
  }

  // ---------------------------------------------------------------- the area given back with a descriptor

  /** First and last byte seen so far by remove_fd_locks, in 64-bit arithmetic. */
  datatype Span = Span(start: nat, last: nat)

  const NoSpan := Span(TWO_64 - 1, 0)

  function Widen(sp: Span, l: Lock): Span {
    Span(if l.start < sp.start then l.start else sp.start,
         if l.end == 0 then TWO_64 - 1 else if l.end > sp.last then l.end - 1 else sp.last)
  }

  function SpanOf(locks: seq<Lock>, sp: Span): Span
    decreases |locks|
  {
    if locks == [] then sp else SpanOf(locks[1..], Widen(sp, locks[0]))
  }

  /** One past the last byte of a lock. */
  function EndOf(l: Lock): nat {
    if l.end == 0 then TWO_64 else l.end
  }

  /** The span is the smallest that reaches from every start to every end. */
  lemma {:induction false} SpanExact(locks: seq<Lock>, sp: Span)
    requires sp.last < TWO_64 && forall k | 0 <= k < |locks| :: Proper(locks[k])
    ensures var r := SpanOf(locks, sp);
            && r.start <= sp.start && sp.last <= r.last
            && (forall k | 0 <= k < |locks| :: r.start <= locks[k].start && EndOf(locks[k]) <= r.last + 1)
            && (r.start == sp.start || exists k :: 0 <= k < |locks| && locks[k].start == r.start)
            && (r.last == sp.last || exists k :: 0 <= k < |locks| && EndOf(locks[k]) == r.last + 1)
    decreases |locks|
  {
    if locks != [] {
      var rest, next := locks[1..], Widen(sp, locks[0]);
      SpanExact(rest, next);
      var r := SpanOf(locks, sp);
      assert forall k | 0 < k < |locks| :: locks[k] == rest[k - 1];
      if r.start != sp.start && r.start != locks[0].start {
        var k :| 0 <= k < |rest| && rest[k].start == r.start;
        assert locks[k + 1].start == r.start;
      }
      if r.last != sp.last && EndOf(locks[0]) != r.last + 1 {
        var k :| 0 <= k < |rest| && EndOf(rest[k]) == r.last + 1;
        assert EndOf(locks[k + 1]) == r.last + 1;
      }
    }
  }

  /** The area that remove_unix_locks gets, if it gets one and does not return at once. */
  predicate GivesBack(sp: Span, x: nat) {
    var end := (sp.last + 1) % TWO_64;
    sp.start < sp.last && sp.start != end && Covers(sp.start, end, x)
  }

  /** Some lock, empty ones included, starts below byte x or ends above the byte after it. */
  ghost predicate ReachesPast(locks: seq<Lock>, x: nat) {
    exists k :: 0 <= k < |locks| && (locks[k].start < x || EndOf(locks[k]) > x + 1)
  }

  /** Between them the locks start at byte 0 and have no end. */
  ghost predicate FromZeroToEnd(locks: seq<Lock>) {
    (exists k :: 0 <= k < |locks| && locks[k].start == 0) && exists k :: 0 <= k < |locks| && locks[k].end == 0
  }

  lemma {:induction false} SpanPast(locks: seq<Lock>, k: nat, x: nat)
    requires forall j | 0 <= j < |locks| :: Proper(locks[j])
    requires k < |locks| && Covers(locks[k].start, locks[k].end, x) && x < TWO_64
    ensures var sp := SpanOf(locks, NoSpan); ReachesPast(locks, x) <==> sp.start < sp.last
  {
    var sp := SpanOf(locks, NoSpan);
    SpanExact(locks, NoSpan);
    assert sp.start <= locks[k].start <= x < EndOf(locks[k]) <= sp.last + 1;
    if ReachesPast(locks, x) {
      var j :| 0 <= j < |locks| && (locks[j].start < x || EndOf(locks[j]) > x + 1);
      assert sp.start <= locks[j].start && EndOf(locks[j]) <= sp.last + 1;
    }
    if sp.start < x {
      var j :| 0 <= j < |locks| && locks[j].start == sp.start;
      assert ReachesPast(locks, x);
    } else if x < sp.last {
      var j :| 0 <= j < |locks| && EndOf(locks[j]) == sp.last + 1;
      assert ReachesPast(locks, x);
    }
  }

  lemma {:induction false} SpanWhole(locks: seq<Lock>, k: nat, x: nat)
    requires forall j | 0 <= j < |locks| :: Proper(locks[j])
    requires k < |locks| && Covers(locks[k].start, locks[k].end, x) && x < TWO_64
    ensures var sp := SpanOf(locks, NoSpan);
            FromZeroToEnd(locks) <==> sp.start == 0 && sp.last == TWO_64 - 1
    ensures SpanOf(locks, NoSpan).last < TWO_64
  {
    var sp := SpanOf(locks, NoSpan);
    SpanExact(locks, NoSpan);
    assert sp.start <= locks[k].start && EndOf(locks[k]) <= sp.last + 1;
    if sp.last != NoSpan.last {
      var j :| 0 <= j < |locks| && EndOf(locks[j]) == sp.last + 1;
      assert Proper(locks[j]);
    }
    if sp.start == 0 && sp.last == TWO_64 - 1 {
      var i :| 0 <= i < |locks| && locks[i].start == sp.start;
      var j :| 0 <= j < |locks| && EndOf(locks[j]) == sp.last + 1;
      assert Proper(locks[j]) && locks[j].end == 0;
    }
    if FromZeroToEnd(locks) {
      var i :| 0 <= i < |locks| && locks[i].start == 0;
      var j :| 0 <= j < |locks| && locks[j].end == 0;
      assert sp.start <= locks[i].start && EndOf(locks[j]) <= sp.last + 1;
    }
  }

  /** Which bytes of its locks a closed descriptor gives back, by the locks alone: all of them,
      except that a single byte is skipped, and so is everything if the locks go from byte 0
      to no end. */
  lemma {:induction false} GivesBackIff(locks: seq<Lock>, k: nat, x: nat)
    requires forall j | 0 <= j < |locks| :: Proper(locks[j])
    requires k < |locks| && Covers(locks[k].start, locks[k].end, x) && x < TWO_64
    ensures GivesBack(SpanOf(locks, NoSpan), x) <==> ReachesPast(locks, x) && !FromZeroToEnd(locks)
  {
    var sp := SpanOf(locks, NoSpan);
    SpanExact(locks, NoSpan);
    SpanPast(locks, k, x);
    SpanWhole(locks, k, x);
    assert sp.start <= locks[k].start <= x < EndOf(locks[k]) <= sp.last + 1;
  }

  /** A one-byte lock on its own is not given back. */
  lemma {:induction false} OneByteLock(l: Lock)
    requires l.start + 1 == l.end < TWO_64
    ensures Covers(l.start, l.end, l.start) && !GivesBack(SpanOf([l], NoSpan), l.start)
  {
    assert SpanOf([l], NoSpan) == SpanOf([], Widen(NoSpan, l));
  }

  /** A lock on the first byte and one from byte 5 on: nothing at all is given back. */
  lemma {:induction false} FirstByteAndRest(a: Lock, b: Lock, x: nat)
    requires a.start == 0 && a.end == 1 && b.start == 5 && b.end == 0
    ensures Covers(a.start, a.end, 0) && Covers(b.start, b.end, 5) && !GivesBack(SpanOf([a, b], NoSpan), x)
  {
    assert [a, b][1..] == [b] && [b][1..] == [];
    assert SpanOf([a, b], NoSpan) == SpanOf([b], Widen(NoSpan, a)) == SpanOf([], Widen(Widen(NoSpan, a), b));
  }

  /** One locked byte is given back after all when an empty lock stretches the area. */
  lemma {:induction false} EmptyLockHelps(a: Lock, b: Lock)
    requires a.start == 5 && a.end == 6 && b.start == 9 && b.end == 9
    ensures GivesBack(SpanOf([a, b], NoSpan), 5)
  {
    assert [a, b][1..] == [b] && [b][1..] == [];
    assert SpanOf([a, b], NoSpan) == SpanOf([b], Widen(NoSpan, a)) == SpanOf([], Widen(Widen(NoSpan, a), b));
  }

  // ---------------------------------------------------------------- which bytes end up unlocked

  function LocksAt(locks: seq<Lock>, q: seq<Id>): seq<Lock> {
    if q == [] then []
    else if q[0] < |locks| then [locks[q[0]]] + LocksAt(locks, q[1..])
    else LocksAt(locks, q[1..])
  }

  function Plain(l: Lock): UH.Lock {
    UH.Lock(l.start, l.end)
  }

  /** The locks of a list as remove_unix_locks looks at them. */
  function PlainAt(locks: seq<Lock>, q: seq<Id>): seq<UH.Lock> {
    if q == [] then []
    else if q[0] < |locks| then [Plain(locks[q[0]])] + PlainAt(locks, q[1..])
    else PlainAt(locks, q[1..])
  }

  /** Byte x has a Unix lock for some lock that is still there. */
  ghost predicate StillLocked(s: State, i: Id, x: nat) {
    exists l: Id :: Owned(s.locks, InodeOf, i, l) && UH.Locks(Plain(s.locks[l]), x)
  }

  lemma {:induction false} PlainFrom(locks: seq<Lock>, q: seq<Id>, x: nat)
    requires forall l | l in q :: l < |locks| && Proper(locks[l])
    ensures UH.LockedBy(PlainAt(locks, q), x) <==> exists l :: l in q && UH.Locks(Plain(locks[l]), x)
    ensures UH.AllProper(PlainAt(locks, q))
  {
    if q != [] {
      Tail(q);
      assert q[0] in q;
      PlainFrom(locks, q[1..], x);
      var all := PlainAt(locks, q);
      assert all[0] == Plain(locks[q[0]]) && all[1..] == PlainAt(locks, q[1..]);
      UH.LockedCons(all, x);
    }
  }

  /** The locks remove_unix_locks sees are those still on the inode. */
  lemma {:induction false} PlainLocked(s: State, i: Id, x: nat)
    requires LocksOk(s) && i < |s.inodeLocks|
    ensures UH.LockedBy(PlainAt(s.locks, s.inodeLocks[i]), x) <==> StillLocked(s, i, x)
    ensures UH.AllProper(PlainAt(s.locks, s.inodeLocks[i]))
  {
    var q := s.inodeLocks[i];
    assert ListOk(q, s.locks, InodeOf, i);
    forall l | l in q ensures l < |s.locks| && Proper(s.locks[l]) {
      assert Owned(s.locks, InodeOf, i, l) && LockOk(s, l);
    }
    PlainFrom(s.locks, q, x);
    if StillLocked(s, i, x) {
      var l: Id :| Owned(s.locks, InodeOf, i, l) && UH.Locks(Plain(s.locks[l]), x);
      assert l in q;
    }
    if exists l :: l in q && UH.Locks(Plain(s.locks[l]), x) {
      var l :| l in q && UH.Locks(Plain(s.locks[l]), x);
      assert Owned(s.locks, InodeOf, i, l);
    }
  }

  /** None of the remaining locks but the last one splits a free stretch of the area that has
      another behind it; without this, remove_unix_locks itself is not exact. */
  ghost predicate Tame(locks: seq<UH.Lock>, start: nat, end: nat, maxOffset: nat) {
    locks != [] ==> UH.NoneSplits(UH.Whole(start, UH.Clamp(end, maxOffset)), locks[..|locks| - 1])
  }

  /** What remove_lock passes on to remove_unix_locks, and the calls that come of it. */
  function UnlockCalls(s: State, l: Id, maxOffset: nat, allocOk: bool): seq<UH.Span>
    requires l < |s.locks|
  {
    var t, lk := Untie(s, l), s.locks[l];
    if lk.inode >= |t.inodeLocks| then []
    else UH.UnixUnlocks(PlainAt(t.locks, t.inodeLocks[lk.inode]), lk.start, lk.end, maxOffset, allocOk)
  }

  /** Removing a lock unlocks exactly its own bytes that no other lock still holds, or nothing
      when another lock is in the way and there is no memory for the holes. */
  lemma {:induction false} RemoveLockUnlocks(s: State, l: Id, maxOffset: nat, allocOk: bool, x: nat)
    requires Inv(s) && l < |s.locks| && s.locks[l].live && x <= maxOffset
    requires var t, lk := Untie(s, l), s.locks[l];
             lk.inode < |t.inodeLocks| && Tame(PlainAt(t.locks, t.inodeLocks[lk.inode]), lk.start, lk.end, maxOffset)
    ensures var t, lk := Untie(s, l), s.locks[l];
            var rest := PlainAt(t.locks, t.inodeLocks[lk.inode]);
            UH.Unlocks(UnlockCalls(s, l, maxOffset, allocOk), maxOffset, x)
            <==> && UH.Locks(Plain(lk), x) && !StillLocked(RemoveLock(s, l), lk.inode, x)
                 && UH.HasBuffer(rest, lk.start, lk.end, maxOffset, allocOk)
  {
    var t, lk := Untie(s, l), s.locks[l];
    var rest := PlainAt(t.locks, t.inodeLocks[lk.inode]);
    assert LockOk(s, l);
    UntieKeepsLocks(s, l);
    PlainLocked(t, lk.inode, x);
    RemoveLockKeepsInv(s, l);
    assert forall k :: Owned(t.locks, InodeOf, lk.inode, k) == Owned(RemoveLock(s, l).locks, InodeOf, lk.inode, k);
    assert StillLocked(t, lk.inode, x) == StillLocked(RemoveLock(s, l), lk.inode, x);
    if lk.start != lk.end && lk.start <= maxOffset { UH.ExactUnlocks(rest, lk.start, lk.end, maxOffset, allocOk); }
  }

  /** What remove_fd_locks passes on once the locks of the descriptor are gone. */
  function SpanCalls(sp: Span, rest: seq<UH.Lock>, maxOffset: nat, allocOk: bool): seq<UH.Span> {
    if sp.start >= sp.last then [] else UH.UnixUnlocks(rest, sp.start, (sp.last + 1) % TWO_64, maxOffset, allocOk)
  }

  ghost predicate SpanTame(sp: Span, rest: seq<UH.Lock>, maxOffset: nat) {
    Tame(rest, sp.start, (sp.last + 1) % TWO_64, maxOffset)
  }

  ghost predicate SpanHasBuffer(sp: Span, rest: seq<UH.Lock>, maxOffset: nat, allocOk: bool) {
    UH.HasBuffer(rest, sp.start, (sp.last + 1) % TWO_64, maxOffset, allocOk)
  }

  /** The locks a descriptor has, and those left on its inode without them. */
  function Own(s: State, f: Id): seq<Lock> {
    if f < |s.fdLocks| then LocksAt(s.locks, s.fdLocks[f]) else []
  }

  function Rest(s: State, f: Id): seq<UH.Lock> {
    if f >= |s.fds| || f >= |s.fdLocks| then []
    else
      var t := RemoveEach(s, s.fdLocks[f]);
      if s.fds[f].inode < |t.inodeLocks| then PlainAt(t.locks, t.inodeLocks[s.fds[f].inode]) else []
  }

  lemma {:induction false} ProperAt(locks: seq<Lock>, q: seq<Id>)
    requires forall k | k in q :: k < |locks| && Proper(locks[k])
    ensures forall k | 0 <= k < |LocksAt(locks, q)| :: Proper(LocksAt(locks, q)[k])
  {
    if q != [] {
      Tail(q);
      assert q[0] in q;
      ProperAt(locks, q[1..]);
    }
  }

  lemma {:induction false} LocksFrom(locks: seq<Lock>, q: seq<Id>, l: Id)
    requires l in q && forall k | k in q :: k < |locks| && Proper(locks[k])
    ensures exists k :: 0 <= k < |LocksAt(locks, q)| && LocksAt(locks, q)[k] == locks[l]
    ensures forall k | 0 <= k < |LocksAt(locks, q)| :: Proper(LocksAt(locks, q)[k])
  {
    Tail(q);
    assert q[0] in q;
    var all, rest := LocksAt(locks, q), LocksAt(locks, q[1..]);
    assert all == [locks[q[0]]] + rest;
    ProperAt(locks, q[1..]);
    if l == q[0] {
      assert all[0] == locks[l];
    } else {
      LocksFrom(locks, q[1..], l);
      var k :| 0 <= k < |rest| && rest[k] == locks[l];
      assert all[k + 1] == locks[l];
    }
  }

  lemma {:induction false} FdLocksProper(s: State, f: Id, l: Id)
    requires LocksOk(s) && f < |s.fdLocks| && l in s.fdLocks[f]
    ensures l < |s.locks| && forall k | k in s.fdLocks[f] :: k < |s.locks| && Proper(s.locks[k])
  {
    var q := s.fdLocks[f];
    assert ListOk(q, s.locks, FdOf, f);
    forall k | k in q ensures k < |s.locks| && Proper(s.locks[k]) { assert Owned(s.locks, FdOf, f, k) && LockOk(s, k); }
  }

  lemma {:induction false} AreaExact(sp: Span, rest: seq<UH.Lock>, maxOffset: nat, allocOk: bool, x: nat)
    requires sp.start <= x <= sp.last < TWO_64 && x <= maxOffset < TWO_64 && UH.AllProper(rest)
    requires SpanTame(sp, rest, maxOffset)
    ensures UH.Unlocks(SpanCalls(sp, rest, maxOffset, allocOk), maxOffset, x)
            <==> GivesBack(sp, x) && !UH.LockedBy(rest, x) && SpanHasBuffer(sp, rest, maxOffset, allocOk)
  {
    var end := (sp.last + 1) % TWO_64;
    if sp.start < sp.last && sp.start != end { UH.ExactUnlocks(rest, sp.start, end, maxOffset, allocOk); }
  }

  lemma {:induction false} SpanHolds(own: seq<Lock>, k: nat, x: nat)
    requires forall j | 0 <= j < |own| :: Proper(own[j])
    requires k < |own| && Covers(own[k].start, own[k].end, x) && x < TWO_64
    ensures var sp := SpanOf(own, NoSpan); sp.start <= x <= sp.last < TWO_64
  {
    SpanExact(own, NoSpan);
    SpanWhole(own, k, x);
    assert SpanOf(own, NoSpan).start <= own[k].start && EndOf(own[k]) <= SpanOf(own, NoSpan).last + 1;
  }

  lemma {:induction false} AreaUnlocks(own: seq<Lock>, k: nat, rest: seq<UH.Lock>,
                                       maxOffset: nat, allocOk: bool, x: nat)
    requires forall j | 0 <= j < |own| :: Proper(own[j])
    requires k < |own| && UH.Locks(Plain(own[k]), x) && x <= maxOffset < TWO_64 && UH.AllProper(rest)
    requires SpanTame(SpanOf(own, NoSpan), rest, maxOffset)
    ensures var sp := SpanOf(own, NoSpan);
            UH.Unlocks(SpanCalls(sp, rest, maxOffset, allocOk), maxOffset, x)
            <==> && !UH.LockedBy(rest, x) && ReachesPast(own, x) && !FromZeroToEnd(own)
                 && SpanHasBuffer(sp, rest, maxOffset, allocOk)
  {
    GivesBackIff(own, k, x);
    SpanHolds(own, k, x);
    AreaExact(SpanOf(own, NoSpan), rest, maxOffset, allocOk, x);
  }

  lemma {:induction false} OwnIndex(s: State, f: Id, l: Id) returns (k: nat)
    requires LocksOk(s) && f < |s.fdLocks| && l in s.fdLocks[f]
    ensures l < |s.locks| && k < |Own(s, f)| && Own(s, f)[k] == s.locks[l]
    ensures forall j | 0 <= j < |Own(s, f)| :: Proper(Own(s, f)[j])
  {
    FdLocksProper(s, f, l);
    LocksFrom(s.locks, s.fdLocks[f], l);
    k :| 0 <= k < |Own(s, f)| && Own(s, f)[k] == s.locks[l];
  }

  lemma {:induction false} RestLocked(s: State, f: Id, x: nat)
    requires Inv(s) && f < |s.fds|
    ensures UH.AllProper(Rest(s, f))
    ensures UH.LockedBy(Rest(s, f), x) <==> StillLocked(RemoveEach(s, s.fdLocks[f]), s.fds[f].inode, x)
  {
    FdLocksGone(s, f);
    var t := RemoveEach(s, s.fdLocks[f]);
    assert FdOk(s, f) && FdOk(t, f) && t.fds[f].inode == s.fds[f].inode;
    PlainLocked(t, s.fds[f].inode, x);
  }

  /** The calls that closing the descriptor makes. */
  function CloseCalls(s: State, f: Id, maxOffset: nat, allocOk: bool): seq<UH.Span> {
    SpanCalls(SpanOf(Own(s, f), NoSpan), Rest(s, f), maxOffset, allocOk)
  }

  ghost predicate CloseTame(s: State, f: Id, maxOffset: nat) {
    SpanTame(SpanOf(Own(s, f), NoSpan), Rest(s, f), maxOffset)
  }

  /** Whether closing the descriptor unlocks a byte that one of its locks held: no other lock
      still holds it, some lock of the descriptor reaches past it, its locks do not go from
      byte 0 to no end, and there is memory for the holes if they are needed. */
  ghost predicate Released(s: State, f: Id, maxOffset: nat, allocOk: bool, x: nat)
    requires f < |s.fds| && f < |s.fdLocks|
  {
    && !StillLocked(RemoveEach(s, s.fdLocks[f]), s.fds[f].inode, x)
    && ReachesPast(Own(s, f), x) && !FromZeroToEnd(Own(s, f))
    && SpanHasBuffer(SpanOf(Own(s, f), NoSpan), Rest(s, f), maxOffset, allocOk)
  }

  /** Closing a descriptor unlocks a byte it held if and only if that is so. */
  lemma {:induction false} CloseUnlocks(s: State, f: Id, l: Id, maxOffset: nat, allocOk: bool, x: nat)
    requires Inv(s) && f < |s.fds| && l in s.fdLocks[f] && l < |s.locks| && x <= maxOffset < TWO_64
    requires UH.Locks(Plain(s.locks[l]), x) && CloseTame(s, f, maxOffset)
    ensures UH.Unlocks(CloseCalls(s, f, maxOffset, allocOk), maxOffset, x) <==> Released(s, f, maxOffset, allocOk, x)
  {
    var k := OwnIndex(s, f, l);
    RestLocked(s, f, x);
    AreaUnlocks(Own(s, f), k, Rest(s, f), maxOffset, allocOk, x);
  }

  /** The same over every run. */
  lemma {:induction false} EveryRunUnlocks(ops: seq<Op>, f: Id, l: Id, maxOffset: nat, allocOk: bool, x: nat)
    requires var s := Run(Initial, ops);
             && f < |s.fds| && f < |s.fdLocks| && l in s.fdLocks[f] && l < |s.locks| && x <= maxOffset < TWO_64
             && UH.Locks(Plain(s.locks[l]), x) && CloseTame(s, f, maxOffset)
    ensures var s := Run(Initial, ops);
            UH.Unlocks(CloseCalls(s, f, maxOffset, allocOk), maxOffset, x) <==> Released(s, f, maxOffset, allocOk, x)
  {
    RunKeepsInv(Initial, ops);
    CloseUnlocks(Run(Initial, ops), f, l, maxOffset, allocOk, x);
  }

  lemma {:induction false} SameLocksAt(locks: seq<Lock>, l: Id, q: seq<Id>)
    requires l < |locks| && l !in q
    ensures LocksAt(locks[l := locks[l].(live := false)], q) == LocksAt(locks, q)
  {
    if q != [] {
      Tail(q);
      SameLocksAt(locks, l, q[1..]);
    }
  }

  lemma {:induction false} HeadLock(s: State, f: Id)
    requires Inv(s) && f < |s.fds| && s.fdLocks[f] != []
    ensures var l := s.fdLocks[f][0];
            && l < |s.locks| && s.locks[l].inode < |s.inodes|
            && var t := RemoveLock(s, l);
               f < |t.fdLocks| && t.fdLocks[f] == s.fdLocks[f][1..]
               && LocksAt(t.locks, t.fdLocks[f]) == LocksAt(s.locks, s.fdLocks[f])[1..]
  {
    var q := s.fdLocks[f];
    assert ListOk(q, s.locks, FdOf, f) && q[0] in q;
    assert Owned(s.locks, FdOf, f, q[0]) && LockOk(s, q[0]);
    AscendingWithout(q, q[0]);
    SameLocksAt(s.locks, q[0], q[1..]);
  }

  // ---------------------------------------------------------------- the code

  lemma {:induction false} DeletionsSnoc(closed: seq<Closed>, c: Closed)
    ensures Deletions(closed + [c]) ==
            if c.delete then Deletions(closed) + [c.(pending := false)] else Deletions(closed)
  {
    if closed == [] {
      assert closed + [c] == [c] && [c][1..] == [];
    } else {
      assert (closed + [c])[1..] == closed[1..] + [c];
      DeletionsSnoc(closed[1..], c);
    }
  }

  /** The search loop of lock_fd. */
  method SearchConflict(locks: seq<Lock>, q: seq<Id>, f: Id, start: nat, end: nat, shared: bool) returns (r: Option<Id>)
    ensures r == FindConflict(locks, q, f, start, end, shared)
  {
    var k := 0;
    while k < |q|
      invariant 0 <= k <= |q|
      invariant FindConflict(locks, q, f, start, end, shared) == FindConflict(locks, q[k..], f, start, end, shared)
    {
      if q[k] < |locks| && Blocks(locks[q[k]], f, start, end, shared) { return Some(q[k]); }
      assert q[k..][1..] == q[k + 1..];
      k := k + 1;
    }
    return None;
  }

  /** The search loop of unlock_fd. */
  method SearchExact(locks: seq<Lock>, q: seq<Id>, start: nat, end: nat) returns (r: Option<Id>)
    ensures r == FindExact(locks, q, start, end)
  {
    var k := 0;
    while k < |q|
      invariant 0 <= k <= |q|
      invariant FindExact(locks, q, start, end) == FindExact(locks, q[k..], start, end)
    {
      if q[k] < |locks| && locks[q[k]].start == start && locks[q[k]].end == end { return Some(q[k]); }
      assert q[k..][1..] == q[k + 1..];
      k := k + 1;
    }
    return None;
  }

  /** inode_has_pending_close */
  method HasPendingClose(closed: seq<Closed>, name: string) returns (found: bool)
    ensures found == HasName(closed, name)
  {
    for k := 0 to |closed|
      invariant forall j | 0 <= j < k :: closed[j].name != name
    {
      if closed[k].name == name { return true; }
    }
    return false;
  }

  /** When a descriptor has left its inode, the inode's reference is the one to be released. */
  lemma ShutReady(s: State, f: Id)
    requires CanShut(s, f)
    ensures var u, i := Shut(s, f), s.fds[f].inode;
            i < |u.inodes| && LocksOk(u) && FilesOk(u, Some(i)) && u.inodes[i].refs >= 1
  {
    var u, i := Shut(s, f), s.fds[f].inode;
    ShutSame(s, f, f);
    ShutKeepsLocks(s, f);
    forall g | 0 <= g < |u.fds| ensures FdOk(u, g) { ShutFd(s, f, g); }
    forall j | 0 <= j < |u.inodes| ensures InodeOk(u, j, Some(i)) { ShutInode(s, f, j); }
    assert InodeOk(u, i, Some(i));
  }

  class Files {
    var fds: seq<Fd>
    var inodes: seq<Inode>
    var locks: seq<Lock>
    var fdLocks: seq<seq<Id>>
    var inodeLocks: seq<seq<Id>>
    var procLocks: seq<seq<Id>>

    ghost function View(): State
      reads this
    {
      State(fds, inodes, locks, fdLocks, inodeLocks, procLocks)
    }

    method CloseUnixFd(f: Id, locked: bool)
      modifies this`fds
      ensures fds == CloseUnix(old(fds), f, locked)
    {
      if f < |fds| {
        fds := fds[f := fds[f].(closes := fds[f].closes + 1, closedLocked := fds[f].closedLocked || locked)];
      }
    }

    /** inode_close_pending */
    method InodeClosePending(i: Id)
      requires i < |inodes|
      modifies this`fds, this`inodes
      ensures View() == ClosePending(old(View()), i)
    {
      var todo, kept, locked := inodes[i].closed, [], i < |inodeLocks| && inodeLocks[i] != [];
      var k := 0;
      while k < |todo|
        invariant 0 <= k <= |todo| && inodes == old(inodes)
        invariant CloseEach(fds, todo[k..], locked) == CloseEach(old(fds), todo, locked)
        invariant kept == Deletions(todo[..k])
      {
        assert todo[k..][1..] == todo[k + 1..];
        assert todo[..k + 1] == todo[..k] + [todo[k]];
        DeletionsSnoc(todo[..k], todo[k]);
        if todo[k].pending { CloseUnixFd(todo[k].fd, locked); }
        if todo[k].delete { kept := kept + [todo[k].(pending := false)]; }
        k := k + 1;
      }
      assert todo[..k] == todo;
      inodes := inodes[i := inodes[i].(closed := kept)];
    }

    /** remove_lock */
    method RemoveFileLock(l: Id)
      requires l < |locks| && locks[l].inode < |inodes|
      modifies this
      ensures View() == RemoveLock(old(View()), l)
    {
      var lk := locks[l];
      locks := locks[l := lk.(live := false)];
      fdLocks := Drop(fdLocks, lk.fd, l);
      inodeLocks := Drop(inodeLocks, lk.inode, l);
      procLocks := Drop(procLocks, lk.proc, l);
      if !(lk.inode < |inodeLocks| && inodeLocks[lk.inode] != []) { InodeClosePending(lk.inode); }
    }

    /** add_lock, once the Unix lock is there. */
    method AddFileLock(lk: Lock)
      modifies this`locks, this`fdLocks, this`inodeLocks, this`procLocks
      ensures View() == Tie(old(View()), lk)
    {
      var l := |locks|;
      fdLocks := Append(fdLocks, lk.fd, l);
      inodeLocks := Append(inodeLocks, lk.inode, l);
      procLocks := Append(procLocks, lk.proc, l);
      locks := locks + [lk];
    }

    /** lock_fd */
    method LockFile(f: Id, proc: Id, start: nat, count: nat, shared: bool, unixOk: bool) returns (r: LockResult)
      requires f < |fds| && fds[f].open && fds[f].inode < |inodeLocks| && proc < |procLocks| && start < TWO_64
      modifies this`locks, this`fdLocks, this`inodeLocks, this`procLocks
      ensures (View(), r) == LockFd(old(View()), f, proc, start, count, shared, unixOk)
      ensures old(Inv(View())) ==> LockOutcome(old(View()), View(), r, f, proc, start, count, shared, unixOk)
    {
      if Inv(View()) { LockRecords(View(), f, proc, start, count, shared, unixOk); }
      var end := (start + count) % TWO_64;
      if end != 0 && end < start { return BadParameter; }
      var i := fds[f].inode;
      var conflict := SearchConflict(locks, inodeLocks[i], f, start, end, shared);
      if conflict.Some? { return Conflict(conflict.value); }
      if !unixOk { return Refused; }
      AddFileLock(Lock(f, i, proc, shared, start, end, true));
      return Granted;
    }

    /** unlock_fd */
    method UnlockFile(f: Id, start: nat, count: nat) returns (ok: bool)
      requires f < |fdLocks| && Inv(View())
      modifies this
      ensures View() == UnlockFd(old(View()), f, start, count)
      ensures ok <==> exists l :: l in old(fdLocks[f]) && l < |old(locks)| && old(locks)[l].start == start
                                  && old(locks)[l].end == (start + count) % TWO_64
    {
      var found := SearchExact(locks, fdLocks[f], start, (start + count) % TWO_64);
      if found.None? { return false; }
      assert LockOk(View(), found.value);
      RemoveFileLock(found.value);
      return true;
    }

    /** remove_fd_locks; also the area it asks to be unlocked. */
    method RemoveFdLocks(f: Id) returns (sp: Span)
      requires f < |fds| && Inv(View())
      modifies this
      ensures View() == RemoveEach(old(View()), old(fdLocks[f])) && Inv(View())
      ensures f < |fdLocks| && fdLocks[f] == []
      ensures forall l | l in old(fdLocks[f]) :: l < |old(locks)|
      ensures sp == SpanOf(LocksAt(old(locks), old(fdLocks[f])), NoSpan)
    {
      ghost var s0, q0 := View(), fdLocks[f];
      sp := NoSpan;
      while fdLocks[f] != []
        invariant Inv(View()) && f < |fds| && |locks| == |s0.locks|
        invariant RemoveEach(View(), fdLocks[f]) == RemoveEach(s0, q0)
        invariant SpanOf(LocksAt(locks, fdLocks[f]), sp) == SpanOf(LocksAt(s0.locks, q0), NoSpan)
        decreases |fdLocks[f]|
      {
        var q := fdLocks[f];
        var l := q[0];
        HeadLock(View(), f);
        sp := Widen(sp, locks[l]);
        RemoveLockKeepsInv(View(), l);
        RemoveFileLock(l);
      }
      assert ListOk(q0, s0.locks, FdOf, f);
    }

    /** inode_add_closed_fd */
    method InodeAddClosedFd(i: Id, c: Closed)
      requires i < |inodes|
      modifies this`fds, this`inodes
      ensures View() == AddClosed(old(View()), i, c)
    {
      var n := inodes[i];
      if i < |inodeLocks| && inodeLocks[i] != [] {
        inodes := inodes[i := n.(closed := [c] + n.closed)];
        return;
      }
      if c.pending { CloseUnixFd(c.fd, false); }
      if c.delete && c.posix {
        inodes := inodes[i := Unlink(n, c.name, true)];
      } else if c.delete {
        var waits := HasPendingClose(n.closed, c.name);
        if !waits { inodes := inodes[i := n.(closed := [c.(pending := false)] + n.closed)]; }
      }
    }

    /** inode_destroy; its assertions are proved, not assumed. */
    method InodeDestroy(i: Id)
      requires i < |inodes| && inodes[i].refs == 1 && LocksOk(View()) && FilesOk(View(), Some(i))
      modifies this`fds, this`inodes
      ensures View() == ReleaseInode(old(View()), i)
    {
      DestroyAssertions(View(), i);
      assert inodes[i].open == [];
      assert inodeLocks[i] == [];
      var n, closed := inodes[i], inodes[i].closed;
      while closed != []
        invariant inodes == old(inodes)
        invariant CloseEach(fds, closed, false) == CloseEach(old(fds), old(inodes[i].closed), false)
        invariant UnlinkEach(n, closed) == UnlinkEach(old(inodes[i]), old(inodes[i].closed))
        decreases |closed|
      {
        var c := closed[0];
        closed := closed[1..];
        if c.pending { CloseUnixFd(c.fd, false); }
        if c.delete { n := Unlink(n, c.name, c.posix); }
      }
      inodes := inodes[i := n.(refs := 0, gone := true, closed := [])];
    }

    /** fd_destroy, for a descriptor of a file; also the area it asks to be unlocked. */
    method FdDestroy(f: Id) returns (sp: Span)
      requires f < |fds| && fds[f].open && Inv(View())
      modifies this
      ensures View() == CloseFd(old(View()), f) && Inv(View())
      ensures sp == SpanOf(LocksAt(old(locks), old(fdLocks[f])), NoSpan)
    {
      CloseFdKeepsInv(View(), f);
      FdLocksGone(View(), f);
      sp := RemoveFdLocks(f);
      ghost var t := View();
      assert FdOk(t, f);
      var d, i := fds[f], fds[f].inode;
      fds := fds[f := d.(open := false)];
      inodes := inodes[i := inodes[i].(open := Without(inodes[i].open, f))];
      InodeAddClosedFd(i, Closed(f, true, d.delete, d.posix, d.name));
      ShutReady(t, f);
      if inodes[i].refs > 1 {
        inodes := inodes[i := inodes[i].(refs := inodes[i].refs - 1)];
      } else {
        InodeDestroy(i);
      }
    }
  }
}
