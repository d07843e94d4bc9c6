/** remove_unix_locks (server/fd.c): after a lock goes away, find the bytes of its range that
    no other lock covers, by subtracting the remaining locks from a list of holes.

    The hole list is doubly linked.  It is modelled as the forward chain of its nodes, each
    with the back pointer stored in it: the source does not repair the back pointer of the
    node that follows a split, so a stored back pointer can name the wrong node, or one that
    has left the chain.
 */
module UnlockHoles {

  import opened Options

  /** A lock of [start, end), where end 0 means without end. */
  datatype Lock = Lock(start: nat, end: nat)

  datatype Hole = Hole(id: nat, start: nat, end: nat, prev: Option<nat>)

  /** The chain, and the number of buffer nodes used so far. */
  datatype Holes = Holes(chain: seq<Hole>, used: nat)

  // ---------------------------------------------------------------- the source's list edits

  function Position(chain: seq<Hole>, id: nat): (r: Option<nat>)
    ensures r.Some? ==> r.value < |chain| && chain[r.value].id == id
    ensures r.None? ==> forall k | 0 <= k < |chain| :: chain[k].id != id
  {
    if chain == [] then None
    else if chain[|chain| - 1].id == id then Some(|chain| - 1)
    else Position(chain[..|chain| - 1], id)
  }

  /** The back pointer of the node after a removed one becomes that of the removed one. */
  function SetPrev(after: seq<Hole>, prev: Option<nat>): seq<Hole> {
    if after == [] then [] else after[0 := after[0].(prev := prev)]
  }

  /** What is left in the chain in front of the next hole when hole i is unlinked: all up to
      the node that its back pointer names.  If that node has left the chain, the chain does
      not change and the emptied hole stays in it. */
  function Front(chain: seq<Hole>, i: nat, emptied: Hole): (r: seq<Hole>)
    requires i < |chain|
  {
    match emptied.prev
    case None => []
    case Some(p) =>
      match Position(chain[..i], p)
      case Some(q) => chain[..q + 1]
      case None => chain[..i] + [emptied]
  }

  /** Hole i ends where the lock starts, and a new node holds what is behind the lock.  The
      back pointer of the node after it is not touched. */
  function Split(chain: seq<Hole>, i: nat, lock: Lock, used: nat): (r: seq<Hole>)
    requires i < |chain|
    ensures |r| == |chain| + 1
    ensures forall k | 0 <= k < i :: r[k] == chain[k]
    ensures r[i] == chain[i].(end := lock.start)
    ensures r[i + 1] == Hole(used, lock.end, chain[i].end, Some(chain[i].id))
    ensures forall k | i + 1 < k < |r| :: r[k] == chain[k - 1]
  {
    chain[..i] + [chain[i].(end := lock.start), Hole(used, lock.end, chain[i].end, Some(chain[i].id))] + chain[i + 1..]
  }

  /** The loop over the holes for one lock, from hole i on. */
  function Sweep(chain: seq<Hole>, i: nat, lock: Lock, used: nat): Holes
    requires i <= |chain|
    decreases |chain| - i
  {
    if i == |chain| then Holes(chain, used)
    else
      var cur := chain[i];
      if cur.end <= lock.start then Sweep(chain, i + 1, lock, used)
      else if lock.end != 0 && cur.start >= lock.end then Holes(chain, used)
      else if cur.start >= lock.start then
        var cut := cur.(start := lock.end);
        if lock.end != 0 && lock.end < cur.end then Holes(chain[i := cut], used)
        else
          var front := Front(chain, i, cut);
          Sweep(front + SetPrev(chain[i + 1..], cur.prev), |front|, lock, used)
      else if lock.end == 0 || cur.end <= lock.end then
        Sweep(chain[i := cur.(end := lock.start)], i + 1, lock, used)
      else
        Holes(Split(chain, i, lock, used), used + 1)
  }

  predicate Overlaps(lock: Lock, start: nat, end: nat) {
    !(lock.end != 0 && start >= lock.end) && !(end != 0 && lock.start >= end)
  }

  /** The locks that the two counting and subtracting loops look at. */
  predicate Counts(lock: Lock, start: nat, end: nat) {
    lock.start != lock.end && Overlaps(lock, start, end)
  }

  function Relevant(locks: seq<Lock>, start: nat, end: nat): (r: seq<Lock>)
    ensures |r| <= |locks|
  {
    if locks == [] then []
    else if Counts(locks[0], start, end) then [locks[0]] + Relevant(locks[1..], start, end)
    else Relevant(locks[1..], start, end)
  }

  function Subtract(h: Holes, locks: seq<Lock>): Holes
    decreases |locks|
  {
    if locks == [] then h
    else Subtract(Sweep(h.chain, 0, locks[0], h.used), locks[1..])
  }

  function Whole(start: nat, end: nat): Holes { Holes([Hole(0, start, end, None)], 1) }

  // ---------------------------------------------------------------- what it is meant to compute

  predicate NonEmpty(lock: Lock) { lock.end == 0 || lock.start < lock.end }

  predicate Covers(lock: Lock, x: nat) { lock.start <= x && (lock.end == 0 || x < lock.end) }

  predicate In(h: Hole, x: nat) { h.start <= x < h.end }

  ghost predicate HoleAt(chain: seq<Hole>, x: nat) {
    exists k :: 0 <= k < |chain| && In(chain[k], x)
  }

  predicate Before(chain: seq<Hole>, j: nat, k: nat)
    requires j <= k < |chain|
  {
    if j == k then chain[k].start < chain[k].end else chain[j].end < chain[k].start
  }

  /** Holes are not empty, in order, and apart. */
  ghost predicate Sorted(chain: seq<Hole>) {
    forall j, k {:trigger Before(chain, j, k)} | 0 <= j <= k < |chain| :: Before(chain, j, k)
  }

  lemma {:induction false} Apart(chain: seq<Hole>)
    requires Sorted(chain)
    ensures forall k | 0 <= k < |chain| :: chain[k].start < chain[k].end
    ensures forall j, k | 0 <= j < k < |chain| :: chain[j].end < chain[k].start
  {
    forall k | 0 <= k < |chain| ensures chain[k].start < chain[k].end { assert Before(chain, k, k); }
    forall j, k | 0 <= j < k < |chain| ensures chain[j].end < chain[k].start { assert Before(chain, j, k); }
  }

  ghost predicate Fresh(h: Holes) {
    && (forall k | 0 <= k < |h.chain| :: h.chain[k].id < h.used)
    && (forall j, k | 0 <= j < k < |h.chain| :: h.chain[j].id != h.chain[k].id)
  }

  function Behind(chain: seq<Hole>, k: nat): Option<nat>
    requires k < |chain|
  {
    if k == 0 then None else Some(chain[k - 1].id)
  }

  /** Every back pointer names the node before. */
  ghost predicate Linked(chain: seq<Hole>) {
    forall k {:trigger Behind(chain, k)} | 0 <= k < |chain| :: chain[k].prev == Behind(chain, k)
  }

  ghost predicate Good(h: Holes) { Sorted(h.chain) && Fresh(h) && Linked(h.chain) }

  predicate Inner(hole: Hole, lock: Lock) { hole.start < lock.start && lock.end != 0 && lock.end < hole.end }

  /** The lock lies strictly inside a hole that has another hole behind it. */
  ghost predicate SplitsInner(chain: seq<Hole>, lock: Lock) {
    exists k :: 0 <= k < |chain| - 1 && Inner(chain[k], lock)
  }

  // ---------------------------------------------------------------- one lock

  ghost predicate Passed(chain: seq<Hole>, i: nat, lock: Lock) {
    i <= |chain| && forall k | 0 <= k < i :: chain[k].end <= lock.start
  }

  ghost predicate Beyond(chain: seq<Hole>, j: nat, lock: Lock) {
    forall k | j <= k < |chain| :: lock.start <= chain[k].start
  }

  function Removed(chain: seq<Hole>, i: nat): (r: seq<Hole>)
    requires i < |chain|
    ensures |r| == |chain| - 1
    ensures forall k | 0 <= k < i :: r[k] == chain[k]
    ensures forall k | i < k < |r| :: r[k] == chain[k + 1]
    ensures i < |r| ==> r[i] == chain[i + 1].(prev := chain[i].prev)
  {
    chain[..i] + SetPrev(chain[i + 1..], chain[i].prev)
  }

  lemma {:induction false} RemovedSorted(chain: seq<Hole>, i: nat)
    requires Sorted(chain) && i < |chain|
    ensures Sorted(Removed(chain, i))
  {
    var r := Removed(chain, i);
    forall j, k | 0 <= j <= k < |r| ensures Before(r, j, k) {
      assert Before(chain, if j < i then j else j + 1, if k < i then k else k + 1);
    }
  }

  lemma {:induction false} RemovedFresh(chain: seq<Hole>, used: nat, i: nat)
    requires Fresh(Holes(chain, used)) && i < |chain|
    ensures Fresh(Holes(Removed(chain, i), used))
  {
  }

  lemma {:induction false} RemovedLinked(chain: seq<Hole>, i: nat)
    requires Linked(chain) && i < |chain|
    ensures Linked(Removed(chain, i))
  {
    var r := Removed(chain, i);
    forall k | 0 <= k < |r| ensures r[k].prev == Behind(r, k) {
      assert chain[k].prev == Behind(chain, k) && chain[k + 1].prev == Behind(chain, k + 1);
    }
  }

  lemma {:induction false} RemovedGood(chain: seq<Hole>, used: nat, i: nat)
    requires Good(Holes(chain, used)) && i < |chain|
    ensures Good(Holes(Removed(chain, i), used))
  {
    RemovedSorted(chain, i);
    RemovedFresh(chain, used, i);
    RemovedLinked(chain, i);
  }

  /** On a well-linked list, unlinking the current hole takes out just that hole. */
  lemma {:induction false} FrontGood(chain: seq<Hole>, used: nat, i: nat, start: nat)
    requires Fresh(Holes(chain, used)) && Linked(chain) && i < |chain|
    ensures Front(chain, i, chain[i].(start := start)) == chain[..i]
  {
    assert chain[i].prev == Behind(chain, i);
    if i > 0 {
      var q := Position(chain[..i], chain[i - 1].id);
      assert chain[..i][i - 1] == chain[i - 1];
      assert q.Some? && chain[..i][q.value] == chain[q.value];
    }
  }

  /** Only the first hole that reaches beyond the lock's start can have the lock inside. */
  lemma {:induction false} OnlyCurrentSplits(chain: seq<Hole>, i: nat, lock: Lock)
    requires Sorted(chain) && Passed(chain, i, lock) && NonEmpty(lock)
    requires i < |chain| && lock.start < chain[i].end
    ensures SplitsInner(chain, lock) <==> i < |chain| - 1 && Inner(chain[i], lock)
  {
    forall k | i < k < |chain| ensures !Inner(chain[k], lock) {
      assert Before(chain, i, k);
    }
  }

  predicate Smaller(h: Hole, than: Hole) {
    h.id == than.id && h.prev == than.prev && than.start <= h.start < h.end <= than.end
  }

  lemma {:induction false} ShrinkSorted(chain: seq<Hole>, i: nat, h: Hole)
    requires Sorted(chain) && i < |chain| && Smaller(h, chain[i])
    ensures Sorted(chain[i := h])
  {
    var r := chain[i := h];
    forall j, k | 0 <= j <= k < |r| ensures Before(r, j, k) {
      assert Before(chain, j, k);
    }
  }

  lemma {:induction false} ShrinkLinked(chain: seq<Hole>, i: nat, used: nat, h: Hole)
    requires Linked(chain) && Fresh(Holes(chain, used)) && i < |chain| && Smaller(h, chain[i])
    ensures Linked(chain[i := h]) && Fresh(Holes(chain[i := h], used))
  {
    var r := chain[i := h];
    forall k | 0 <= k < |r| ensures r[k].prev == Behind(r, k) && r[k].id == chain[k].id {
      assert chain[k].prev == Behind(chain, k);
    }
  }

  /** Making a hole smaller keeps the list good. */
  lemma {:induction false} ShrinkGood(chain: seq<Hole>, i: nat, used: nat, h: Hole)
    requires Good(Holes(chain, used)) && i < |chain| && Smaller(h, chain[i])
    ensures Good(Holes(chain[i := h], used))
  {
    ShrinkSorted(chain, i, h);
    ShrinkLinked(chain, i, used, h);
  }

  lemma {:induction false} SplitSorted(chain: seq<Hole>, i: nat, used: nat, lock: Lock)
    requires Sorted(chain) && i < |chain| && Inner(chain[i], lock) && NonEmpty(lock)
    ensures Sorted(Split(chain, i, lock, used))
  {
    var r := Split(chain, i, lock, used);
    forall j, k | 0 <= j <= k < |r| ensures Before(r, j, k) {
      assert Before(chain, if j <= i then j else j - 1, if k <= i then k else k - 1);
    }
  }

  lemma {:induction false} SplitFresh(chain: seq<Hole>, i: nat, used: nat, lock: Lock)
    requires Fresh(Holes(chain, used)) && i < |chain|
    ensures Fresh(Holes(Split(chain, i, lock, used), used + 1))
  {
  }

  lemma {:induction false} SplitKeepsOrder(chain: seq<Hole>, i: nat, used: nat, lock: Lock)
    requires Sorted(chain) && Fresh(Holes(chain, used)) && i < |chain| && Inner(chain[i], lock) && NonEmpty(lock)
    ensures Sorted(Split(chain, i, lock, used)) && Fresh(Holes(Split(chain, i, lock, used), used + 1))
  {
    SplitSorted(chain, i, used, lock);
    SplitFresh(chain, i, used, lock);
  }

  /** The back pointer of the node after a split still names the old node. */
  lemma {:induction false} SplitLinks(chain: seq<Hole>, i: nat, used: nat, lock: Lock)
    requires Fresh(Holes(chain, used)) && Linked(chain) && i < |chain|
    ensures Linked(Split(chain, i, lock, used)) <==> i == |chain| - 1
  {
    var r := Split(chain, i, lock, used);
    if i == |chain| - 1 {
      forall k | 0 <= k < |r| ensures r[k].prev == Behind(r, k) {
        if k <= i { assert chain[k].prev == Behind(chain, k); }
      }
    } else {
      assert r[i + 2].prev == Behind(chain, i + 1);
      assert Behind(r, i + 2) == Some(used);
    }
  }

  /** What one lock does to a good list. */
  ghost predicate SweepOk(chain: seq<Hole>, lock: Lock, used: nat, r: Holes) {
    && Sorted(r.chain) && Fresh(r) && used <= r.used <= used + 1
    && (Linked(r.chain) <==> !SplitsInner(chain, lock))
  }

  /** The lock covers the whole of hole i. */
  predicate Swallows(lock: Lock, h: Hole) {
    lock.start <= h.start && (lock.end == 0 || h.end <= lock.end)
  }

  lemma {:induction false} Unlinked(chain: seq<Hole>, i: nat, lock: Lock, used: nat)
    requires Good(Holes(chain, used)) && i < |chain| && Swallows(lock, chain[i]) && Passed(chain, i, lock)
    ensures var m := Removed(chain, i); Good(Holes(m, used)) && Passed(m, i, lock) && Beyond(m, i, lock)
    ensures lock.start < chain[i].end && !Inner(chain[i], lock)
  {
    RemovedGood(chain, used, i);
    assert Before(chain, i, i);
    forall k | i <= k < |chain| - 1 ensures lock.start <= Removed(chain, i)[k].start { assert Before(chain, i, k + 1); }
  }

  lemma {:induction false} SweepUnlinks(chain: seq<Hole>, i: nat, lock: Lock, used: nat)
    requires Good(Holes(chain, used)) && i < |chain| && Swallows(lock, chain[i])
    ensures Sweep(chain, i, lock, used) == Sweep(Removed(chain, i), i, lock, used)
  {
    FrontGood(chain, used, i, lock.end);
    assert Before(chain, i, i);
  }

  /** The lock covers the upper end of the hole. */
  predicate Cuts(lock: Lock, h: Hole) {
    h.start < lock.start < h.end && (lock.end == 0 || h.end <= lock.end)
  }

  function CutEnd(chain: seq<Hole>, i: nat, lock: Lock): (r: seq<Hole>)
    requires i < |chain|
    ensures |r| == |chain| && r[i] == chain[i].(end := lock.start)
    ensures forall k | 0 <= k < |chain| && k != i :: r[k] == chain[k]
  {
    chain[i := chain[i].(end := lock.start)]
  }

  lemma {:induction false} CutOff(chain: seq<Hole>, i: nat, lock: Lock, used: nat)
    requires Good(Holes(chain, used)) && i < |chain| && Cuts(lock, chain[i]) && Passed(chain, i, lock)
    ensures var m := CutEnd(chain, i, lock);
            Good(Holes(m, used)) && Passed(m, i + 1, lock) && Beyond(m, i + 1, lock)
  {
    ShrinkGood(chain, i, used, chain[i].(end := lock.start));
    forall k | i < k < |chain| ensures lock.start <= chain[k].start { assert Before(chain, i, k); }
  }

  lemma {:induction false} SweepCutsEnd(chain: seq<Hole>, i: nat, lock: Lock, used: nat)
    requires i < |chain| && Cuts(lock, chain[i])
    ensures Sweep(chain, i, lock, used) == Sweep(CutEnd(chain, i, lock), i + 1, lock, used)
  {
  }

  lemma {:induction false} TailSwept(chain: seq<Hole>, i: nat, lock: Lock, used: nat, m: seq<Hole>, j: nat, r: Holes)
    requires Sorted(chain) && i < |chain| && NonEmpty(lock) && lock.start < chain[i].end && Passed(chain, i, lock)
    requires !Inner(chain[i], lock)
    requires Passed(m, j, lock) && Beyond(m, j, lock)
    requires SweepOk(m, lock, used, r)
    ensures SweepOk(chain, lock, used, r)
  {
    OnlyCurrentSplits(chain, i, lock);
    forall k | 0 <= k < |m| ensures !Inner(m[k], lock) {}
  }

  /** The hole that reaches beyond the lock is the last one looked at. */
  lemma {:induction false} SweepStops(chain: seq<Hole>, i: nat, lock: Lock, used: nat)
    requires Good(Holes(chain, used)) && Passed(chain, i, lock) && NonEmpty(lock) && i < |chain|
    requires lock.end != 0 && lock.end < chain[i].end
    ensures SweepOk(chain, lock, used, Sweep(chain, i, lock, used))
  {
    OnlyCurrentSplits(chain, i, lock);
    if Inner(chain[i], lock) {
      SplitKeepsOrder(chain, i, used, lock);
      SplitLinks(chain, i, used, lock);
    } else if chain[i].start < lock.end {
      ShrinkGood(chain, i, used, chain[i].(start := lock.end));
    }
  }

  lemma {:induction false} SwallowLinks(chain: seq<Hole>, i: nat, lock: Lock, used: nat)
    requires Good(Holes(chain, used)) && Passed(chain, i, lock) && NonEmpty(lock)
    requires i < |chain| && Swallows(lock, chain[i])
    ensures SweepOk(chain, lock, used, Sweep(chain, i, lock, used))
    decreases |chain| - i, 0
  {
    var m := Removed(chain, i);
    Unlinked(chain, i, lock, used);
    SweepLinks(m, i, lock, used);
    TailSwept(chain, i, lock, used, m, i, Sweep(m, i, lock, used));
    SweepUnlinks(chain, i, lock, used);
  }

  lemma {:induction false} CutLinks(chain: seq<Hole>, i: nat, lock: Lock, used: nat)
    requires Good(Holes(chain, used)) && Passed(chain, i, lock) && NonEmpty(lock) && i < |chain| && Cuts(lock, chain[i])
    ensures SweepOk(chain, lock, used, Sweep(chain, i, lock, used))
    decreases |chain| - i, 0
  {
    var m := CutEnd(chain, i, lock);
    CutOff(chain, i, lock, used);
    SweepLinks(m, i + 1, lock, used);
    TailSwept(chain, i, lock, used, m, i + 1, Sweep(m, i + 1, lock, used));
    SweepCutsEnd(chain, i, lock, used);
  }

  lemma {:induction false} PassedNext(chain: seq<Hole>, i: nat, lock: Lock)
    requires i < |chain| && Passed(chain, i, lock) && chain[i].end <= lock.start
    ensures Passed(chain, i + 1, lock)
  {
  }

  lemma {:induction false} PassedAll(chain: seq<Hole>, lock: Lock)
    requires Passed(chain, |chain|, lock) && NonEmpty(lock)
    ensures !SplitsInner(chain, lock)
  {
  }

  /** One lock: the order is kept, at most one more node is used, and the list stays well
      linked exactly if the lock does not split a hole that has a successor. */
  lemma {:induction false} SweepLinks(chain: seq<Hole>, i: nat, lock: Lock, used: nat)
    requires Good(Holes(chain, used)) && Passed(chain, i, lock) && NonEmpty(lock)
    ensures SweepOk(chain, lock, used, Sweep(chain, i, lock, used))
    decreases |chain| - i, 1
  {
    if i == |chain| {
      PassedAll(chain, lock);
    } else if chain[i].end <= lock.start {
      PassedNext(chain, i, lock);
      SweepLinks(chain, i + 1, lock, used);
    } else if Swallows(lock, chain[i]) {
      SwallowLinks(chain, i, lock, used);
    } else if Cuts(lock, chain[i]) {
      CutLinks(chain, i, lock, used);
    } else {
      SweepStops(chain, i, lock, used);
    }
  }

  // ---------------------------------------------------------------- which bytes are left

  /** Replacing hole i changes the bytes only there. */
  lemma {:induction false} HoleAtUpdate(chain: seq<Hole>, i: nat, h: Hole, x: nat)
    requires i < |chain|
    ensures HoleAt(chain[i := h], x) ==> HoleAt(chain, x) || In(h, x)
    ensures HoleAt(chain, x) ==> HoleAt(chain[i := h], x) || In(chain[i], x)
    ensures In(h, x) ==> HoleAt(chain[i := h], x)
  {
    var r := chain[i := h];
    if HoleAt(chain, x) {
      var k :| 0 <= k < |chain| && In(chain[k], x);
      if k != i { assert In(r[k], x); }
    }
    if In(h, x) { assert In(r[i], x); }
  }

  lemma {:induction false} HoleAtRemoved(chain: seq<Hole>, i: nat, x: nat)
    requires i < |chain|
    ensures HoleAt(chain, x) <==> HoleAt(Removed(chain, i), x) || In(chain[i], x)
  {
    var r := Removed(chain, i);
    if HoleAt(chain, x) {
      var k :| 0 <= k < |chain| && In(chain[k], x);
      if k < i { assert In(r[k], x); } else if k > i {
        assert r[k - 1].start == chain[k].start && r[k - 1].end == chain[k].end;
      }
    }
    if HoleAt(r, x) {
      var k :| 0 <= k < |r| && In(r[k], x);
      if k >= i { assert r[k].start == chain[k + 1].start && r[k].end == chain[k + 1].end; }
    }
  }

  lemma {:induction false} HoleAtOthers(chain: seq<Hole>, i: nat, lock: Lock, x: nat)
    requires Sorted(chain) && Passed(chain, i, lock) && i < |chain| && HoleAt(chain, x) && !In(chain[i], x)
    requires lock.end != 0 && lock.end < chain[i].end
    ensures !Covers(lock, x)
  {
    var k :| 0 <= k < |chain| && In(chain[k], x);
    if k > i { assert Before(chain, i, k); }
  }

  lemma {:induction false} SplitCovers(chain: seq<Hole>, i: nat, lock: Lock, used: nat, x: nat)
    requires i < |chain|
    ensures var left := chain[i].(end := lock.start);
            HoleAt(Split(chain, i, lock, used), x) <==>
              HoleAt(chain[i := left], x) || lock.end <= x < chain[i].end
  {
    var r, m := Split(chain, i, lock, used), chain[i := chain[i].(end := lock.start)];
    if HoleAt(r, x) {
      var k :| 0 <= k < |r| && In(r[k], x);
      if k <= i { assert In(m[k], x); } else if k > i + 1 { assert r[k] == m[k - 1]; }
    }
    if HoleAt(m, x) {
      var k :| 0 <= k < |m| && In(m[k], x);
      if k <= i { assert In(r[k], x); } else { assert r[k + 1] == m[k]; }
    }
    if lock.end <= x < chain[i].end { assert In(r[i + 1], x); }
  }

  ghost predicate LeftOver(chain: seq<Hole>, lock: Lock, x: nat) {
    HoleAt(chain, x) && !Covers(lock, x)
  }

  lemma {:induction false} StopCovers(chain: seq<Hole>, i: nat, lock: Lock, used: nat, x: nat)
    requires Good(Holes(chain, used)) && Passed(chain, i, lock) && NonEmpty(lock) && i < |chain|
    requires lock.start < chain[i].end && lock.end != 0 && lock.end < chain[i].end
    ensures HoleAt(Sweep(chain, i, lock, used).chain, x) <==> LeftOver(chain, lock, x)
  {
    var cur, r := chain[i], Sweep(chain, i, lock, used).chain;
    assert Before(chain, i, i);
    assert In(cur, x) ==> HoleAt(chain, x);
    if HoleAt(chain, x) && !In(cur, x) { HoleAtOthers(chain, i, lock, x); }
    Apart(chain);
    if Inner(cur, lock) {
      var left := cur.(end := lock.start);
      HoleAtUpdate(chain, i, left, x);
      SplitCovers(chain, i, lock, used, x);
    } else if cur.start < lock.end {
      HoleAtUpdate(chain, i, cur.(start := lock.end), x);
    }
  }

  lemma {:induction false} PassedCovers(chain: seq<Hole>, lock: Lock, x: nat)
    requires Passed(chain, |chain|, lock)
    ensures HoleAt(chain, x) <==> LeftOver(chain, lock, x)
  {
  }

  lemma {:induction false} RemovedCovers(chain: seq<Hole>, i: nat, lock: Lock, x: nat)
    requires i < |chain| && Swallows(lock, chain[i])
    ensures LeftOver(Removed(chain, i), lock, x) <==> LeftOver(chain, lock, x)
  {
    HoleAtRemoved(chain, i, x);
  }

  lemma {:induction false} CutEndCovers(chain: seq<Hole>, i: nat, lock: Lock, x: nat)
    requires i < |chain| && Cuts(lock, chain[i])
    ensures LeftOver(CutEnd(chain, i, lock), lock, x) <==> LeftOver(chain, lock, x)
  {
    HoleAtUpdate(chain, i, chain[i].(end := lock.start), x);
    assert In(chain[i], x) ==> HoleAt(chain, x);
  }

  lemma {:induction false} SwallowCovers(chain: seq<Hole>, i: nat, lock: Lock, used: nat, x: nat)
    requires Good(Holes(chain, used)) && Passed(chain, i, lock) && NonEmpty(lock)
    requires i < |chain| && Swallows(lock, chain[i])
    ensures HoleAt(Sweep(chain, i, lock, used).chain, x) <==> LeftOver(chain, lock, x)
    decreases |chain| - i, 0
  {
    Unlinked(chain, i, lock, used);
    SweepCovers(Removed(chain, i), i, lock, used, x);
    RemovedCovers(chain, i, lock, x);
    SweepUnlinks(chain, i, lock, used);
  }

  lemma {:induction false} CutCovers(chain: seq<Hole>, i: nat, lock: Lock, used: nat, x: nat)
    requires Good(Holes(chain, used)) && Passed(chain, i, lock) && NonEmpty(lock) && i < |chain| && Cuts(lock, chain[i])
    ensures HoleAt(Sweep(chain, i, lock, used).chain, x) <==> LeftOver(chain, lock, x)
    decreases |chain| - i, 0
  {
    CutOff(chain, i, lock, used);
    SweepCovers(CutEnd(chain, i, lock), i + 1, lock, used, x);
    CutEndCovers(chain, i, lock, x);
    SweepCutsEnd(chain, i, lock, used);
  }

  /** One lock takes exactly its own bytes out of a good list. */
  lemma {:induction false} SweepCovers(chain: seq<Hole>, i: nat, lock: Lock, used: nat, x: nat)
    requires Good(Holes(chain, used)) && Passed(chain, i, lock) && NonEmpty(lock)
    ensures HoleAt(Sweep(chain, i, lock, used).chain, x) <==> LeftOver(chain, lock, x)
    decreases |chain| - i, 1
  {
    if i == |chain| {
      PassedCovers(chain, lock, x);
    } else if chain[i].end <= lock.start {
      PassedNext(chain, i, lock);
      SweepCovers(chain, i + 1, lock, used, x);
    } else if Swallows(lock, chain[i]) {
      SwallowCovers(chain, i, lock, used, x);
    } else if Cuts(lock, chain[i]) {
      CutCovers(chain, i, lock, used, x);
    } else {
      StopCovers(chain, i, lock, used, x);
    }
  }

  // ---------------------------------------------------------------- all the locks

  ghost predicate CoveredBy(locks: seq<Lock>, x: nat) {
    exists k :: 0 <= k < |locks| && Covers(locks[k], x)
  }

  /** No lock, as it is reached, splits a hole that has a successor. */
  ghost predicate NeverSplitsInner(h: Holes, locks: seq<Lock>)
    decreases |locks|
  {
    locks != [] ==> !SplitsInner(h.chain, locks[0]) && NeverSplitsInner(Sweep(h.chain, 0, locks[0], h.used), locks[1..])
  }

  lemma {:induction false} SubtractExact(h: Holes, locks: seq<Lock>, x: nat)
    requires Good(h) && NeverSplitsInner(h, locks)
    requires forall k | 0 <= k < |locks| :: NonEmpty(locks[k])
    ensures Good(Subtract(h, locks)) && Subtract(h, locks).used <= h.used + |locks|
    ensures HoleAt(Subtract(h, locks).chain, x) <==> HoleAt(h.chain, x) && !CoveredBy(locks, x)
    decreases |locks|
  {
    if locks != [] {
      SweepLinks(h.chain, 0, locks[0], h.used);
      SweepCovers(h.chain, 0, locks[0], h.used, x);
      SubtractExact(Sweep(h.chain, 0, locks[0], h.used), locks[1..], x);
      if CoveredBy(locks, x) {
        var k :| 0 <= k < |locks| && Covers(locks[k], x);
        if k > 0 { assert Covers(locks[1..][k - 1], x); }
      }
      if CoveredBy(locks[1..], x) {
        var k :| 0 <= k < |locks[1..]| && Covers(locks[1..][k], x);
        assert Covers(locks[k + 1], x);
      }
    }
  }

  /** Never more nodes than locks plus one, whatever the back pointers say. */
  lemma {:induction false} SweepUses(chain: seq<Hole>, i: nat, lock: Lock, used: nat)
    requires i <= |chain|
    ensures used <= Sweep(chain, i, lock, used).used <= used + 1
    decreases |chain| - i
  {
    if i < |chain| {
      var cur := chain[i];
      if cur.end <= lock.start {
        SweepUses(chain, i + 1, lock, used);
      } else if cur.start >= lock.start {
        var front := Front(chain, i, cur.(start := lock.end));
        SweepUses(front + SetPrev(chain[i + 1..], cur.prev), |front|, lock, used);
      } else {
        SweepUses(chain[i := cur.(end := lock.start)], i + 1, lock, used);
      }
    }
  }

  lemma {:induction false} SubtractUses(h: Holes, locks: seq<Lock>)
    ensures Subtract(h, locks).used <= h.used + |locks|
    decreases |locks|
  {
    if locks != [] {
      SweepUses(h.chain, 0, locks[0], h.used);
      SubtractUses(Sweep(h.chain, 0, locks[0], h.used), locks[1..]);
    }
  }

  // ---------------------------------------------------------------- where the source goes wrong

  lemma {:induction false} SkipPassed(chain: seq<Hole>, i: nat, k: nat, lock: Lock, used: nat)
    requires i <= k && Passed(chain, k, lock)
    ensures Sweep(chain, i, lock, used) == Sweep(chain, k, lock, used)
    decreases k - i
  {
    if i < k { SkipPassed(chain, i + 1, k, lock, used); }
  }

  /** Going back from the node behind the new hole leads past it, to the hole that was split. */
  lemma {:induction false} StaleFront(chain: seq<Hole>, used: nat, k: nat, lock: Lock)
    requires Fresh(Holes(chain, used)) && Linked(chain) && k + 1 < |chain|
    ensures var r, s := Split(chain, k, lock, used), chain[k + 1]; Front(r, k + 2, s.(start := s.end)) == r[..k + 1]
  {
    var r, s := Split(chain, k, lock, used), chain[k + 1];
    assert s.prev == Behind(chain, k + 1);
    var q := Position(r[..k + 2], chain[k].id);
    assert r[..k + 2][k] == r[k];
    assert q.Some? && r[..k + 2][q.value] == r[q.value];
  }

  lemma {:induction false} SweepEnds(m: seq<Hole>, j: nat, lock: Lock, used: nat)
    requires j <= |m| && (j < |m| ==> lock.end != 0 && m[j].start >= lock.end && m[j].end > lock.start)
    ensures Sweep(m, j, lock, used).chain == m
  {
  }

  /** What is left after a split at hole k when the hole behind it is unlinked. */
  function Stale(chain: seq<Hole>, k: nat, lock: Lock): (r: seq<Hole>)
    requires k + 1 < |chain|
    ensures |r| == |chain| - 1 && r[k] == chain[k].(end := lock.start)
    ensures forall j | 0 <= j < k :: r[j] == chain[j]
    ensures forall j | k < j < |r| :: r[j].start == chain[j + 1].start && r[j].end == chain[j + 1].end
  {
    chain[..k] + [chain[k].(end := lock.start)] + SetPrev(chain[k + 2..], chain[k + 1].prev)
  }

  lemma {:induction false} SplitPassed(chain: seq<Hole>, used: nat, k: nat, lock: Lock)
    requires Good(Holes(chain, used)) && NonEmpty(lock) && k + 1 < |chain| && Inner(chain[k], lock)
    ensures var r, s := Split(chain, k, lock, used), chain[k + 1]; Passed(r, k + 2, Lock(s.start, s.end))
  {
    var r := Split(chain, k, lock, used);
    SplitKeepsOrder(chain, k, used, lock);
    forall j | 0 <= j < k + 2 ensures r[j].end <= chain[k + 1].start { assert Before(r, j, k + 2); }
  }

  /** One round of the loop, at the node with the stale back pointer. */
  lemma {:induction false} StaleRound(chain: seq<Hole>, used: nat, k: nat, lock: Lock)
    requires Good(Holes(chain, used)) && NonEmpty(lock) && k + 1 < |chain| && Inner(chain[k], lock)
    ensures var r, s := Split(chain, k, lock, used), chain[k + 1];
            Sweep(r, k + 2, Lock(s.start, s.end), used + 1)
            == Sweep(Stale(chain, k, lock), k + 1, Lock(s.start, s.end), used + 1)
  {
    var r, s := Split(chain, k, lock, used), chain[k + 1];
    StaleFront(chain, used, k, lock);
    assert Before(chain, k + 1, k + 1);
    assert r[k + 2] == s && r[k + 3..] == chain[k + 2..];
    assert r[..k + 1] == chain[..k] + [chain[k].(end := lock.start)];
  }

  lemma {:induction false} StaleTail(chain: seq<Hole>, k: nat, lock: Lock)
    requires Sorted(chain) && k + 1 < |chain|
    ensures var m, s := Stale(chain, k, lock), chain[k + 1];
            s.end != 0 && (k + 1 < |m| ==> m[k + 1].start >= s.end && m[k + 1].end > s.start)
  {
    assert Before(chain, k + 1, k + 1);
    if k + 2 < |chain| { assert Before(chain, k + 1, k + 2) && Before(chain, k + 2, k + 2); }
  }

  /** After a split at hole k, a lock on the hole behind it drops the new hole as well. */
  lemma {:induction false} StaleUnlink(chain: seq<Hole>, used: nat, k: nat, lock: Lock)
    requires Good(Holes(chain, used)) && NonEmpty(lock) && k + 1 < |chain| && Inner(chain[k], lock)
    ensures var s := chain[k + 1];
            Sweep(Split(chain, k, lock, used), 0, Lock(s.start, s.end), used + 1).chain == Stale(chain, k, lock)
  {
    var r, s := Split(chain, k, lock, used), chain[k + 1];
    var next := Lock(s.start, s.end);
    SplitPassed(chain, used, k, lock);
    SkipPassed(r, 0, k + 2, next, used + 1);
    StaleRound(chain, used, k, lock);
    StaleTail(chain, k, lock);
    SweepEnds(Stale(chain, k, lock), k + 1, next, used + 1);
  }

  /** What is left has its holes in order, inside those there were. */
  lemma {:induction false} StaleSorted(chain: seq<Hole>, k: nat, lock: Lock)
    requires Sorted(chain) && k + 1 < |chain| && Inner(chain[k], lock) && NonEmpty(lock)
    ensures Sorted(Stale(chain, k, lock)) && forall y: nat | HoleAt(Stale(chain, k, lock), y) :: HoleAt(chain, y)
  {
    var r := Stale(chain, k, lock);
    forall i, j | 0 <= i <= j < |r| ensures Before(r, i, j) {
      assert Before(chain, if i <= k then i else i + 1, if j <= k then j else j + 1);
    }
    forall y: nat | HoleAt(r, y) ensures HoleAt(chain, y) {
      var j :| 0 <= j < |r| && In(r[j], y);
      assert In(chain[if j <= k then j else j + 1], y);
    }
  }

  lemma {:induction false} FirstSplit(h: Holes, lock: Lock, k: nat)
    requires Good(h) && k < |h.chain| && Inner(h.chain[k], lock) && NonEmpty(lock)
    ensures Sweep(h.chain, 0, lock, h.used) == Holes(Split(h.chain, k, lock, h.used), h.used + 1)
  {
    Apart(h.chain);
    assert Passed(h.chain, k, lock);
    SkipPassed(h.chain, 0, k, lock, h.used);
  }

  lemma {:induction false} GapAtSplit(chain: seq<Hole>, k: nat, lock: Lock)
    requires Sorted(chain) && NonEmpty(lock) && k + 1 < |chain| && Inner(chain[k], lock)
    ensures !HoleAt(Stale(chain, k, lock), lock.end)
  {
    Apart(chain);
  }

  lemma {:induction false} TwoLocks(h: Holes, lock: Lock, next: Lock, x: nat)
    ensures Subtract(h, [lock, next]) == var m := Sweep(h.chain, 0, lock, h.used); Sweep(m.chain, 0, next, m.used)
    ensures CoveredBy([lock, next], x) <==> Covers(lock, x) || Covers(next, x)
  {
    var m, locks := Sweep(h.chain, 0, lock, h.used), [lock, next];
    assert locks[1..] == [next] && [next][1..] == [];
    assert Subtract(h, locks) == Subtract(m, [next]) == Sweep(m.chain, 0, next, m.used);
    assert Covers(locks[0], x) || Covers(locks[1], x) ==> CoveredBy(locks, x);
  }

  lemma {:induction false} SplitLoses(h: Holes, lock: Lock, k: nat)
    requires Good(h) && NonEmpty(lock) && k + 1 < |h.chain| && Inner(h.chain[k], lock)
    ensures var s := h.chain[k + 1];
            var r := Subtract(h, [lock, Lock(s.start, s.end)]).chain;
            !HoleAt(r, lock.end) && Sorted(r) && forall y: nat | HoleAt(r, y) :: HoleAt(h.chain, y)
  {
    FirstSplit(h, lock, k);
    TwoLocks(h, lock, Lock(h.chain[k + 1].start, h.chain[k + 1].end), lock.end);
    StaleUnlink(h.chain, h.used, k, lock);
    GapAtSplit(h.chain, k, lock);
    StaleSorted(h.chain, k, lock);
  }

  /** The condition is tight: on any good list, a lock that splits a hole with a successor can
      be followed by a lock after which a byte that neither covers is no longer in any hole. */
  lemma {:induction false} SplittingInnerLosesBytes(h: Holes, lock: Lock) returns (next: Lock, x: nat)
    requires Good(h) && NonEmpty(lock) && SplitsInner(h.chain, lock)
    ensures NonEmpty(next)
    ensures HoleAt(h.chain, x) && !Covers(lock, x) && !Covers(next, x)
    ensures !HoleAt(Subtract(h, [lock, next]).chain, x)
    ensures HoleAt(h.chain, next.start) && next.start < next.end
    ensures Sorted(Subtract(h, [lock, next]).chain)
    ensures forall y: nat | HoleAt(Subtract(h, [lock, next]).chain, y) :: HoleAt(h.chain, y)
  {
    var k :| 0 <= k < |h.chain| - 1 && Inner(h.chain[k], lock);
    next, x := Lock(h.chain[k + 1].start, h.chain[k + 1].end), lock.end;
    assert In(h.chain[k], x) && Before(h.chain, k, k + 1) && Before(h.chain, k + 1, k + 1);
    assert In(h.chain[k + 1], next.start);
    SplitLoses(h, lock, k);
  }

  ghost predicate ExactAfter(h: Holes, locks: seq<Lock>) {
    forall x :: HoleAt(Subtract(h, locks).chain, x) <==> HoleAt(h.chain, x) && !CoveredBy(locks, x)
  }

  /** On a good list the source stays exact for whatever lock comes next, if and only if this
      lock does not split a hole that has a successor. */
  lemma {:induction false} ExactIff(h: Holes, lock: Lock)
    requires Good(h) && NonEmpty(lock)
    ensures !SplitsInner(h.chain, lock) <==> forall next | NonEmpty(next) :: ExactAfter(h, [lock, next])
  {
    if SplitsInner(h.chain, lock) {
      var next, x := SplittingInnerLosesBytes(h, lock);
      TwoLocks(h, lock, next, x);
      assert !ExactAfter(h, [lock, next]);
    } else {
      var m := Sweep(h.chain, 0, lock, h.used);
      SweepLinks(h.chain, 0, lock, h.used);
      forall next | NonEmpty(next) ensures ExactAfter(h, [lock, next]) {
        forall x
          ensures HoleAt(Subtract(h, [lock, next]).chain, x) <==> HoleAt(h.chain, x) && !CoveredBy([lock, next], x)
        {
          TwoLocks(h, lock, next, x);
          SweepCovers(h.chain, 0, lock, h.used, x);
          SweepCovers(m.chain, 0, next, m.used, x);
        }
      }
    }
  }

  // ---------------------------------------------------------------- remove_unix_locks as a whole

  datatype Span = Span(start: nat, end: nat)

  function Spans(chain: seq<Hole>): (r: seq<Span>)
    ensures |r| == |chain| && forall k | 0 <= k < |r| :: r[k] == Span(chain[k].start, chain[k].end)
  {
    seq(|chain|, k requires 0 <= k < |chain| => Span(chain[k].start, chain[k].end))
  }

  /** The end of the area, with 0 for no end, cut at the largest Unix offset. */
  function Clamp(end: nat, maxOffset: nat): nat {
    if end == 0 || end > maxOffset then maxOffset + 1 else end
  }

  /** The calls of set_unix_lock with F_UNLCK, in order. */
  function UnixUnlocks(locks: seq<Lock>, start: nat, end: nat, maxOffset: nat, allocOk: bool): seq<Span> {
    if start == end || start > maxOffset then []
    else
      var last := Clamp(end, maxOffset);
      var relevant := Relevant(locks, start, last);
      if relevant == [] then [Span(start, last)]
      else if !allocOk then []
      else Spans(Subtract(Whole(start, last), relevant).chain)
  }

  /** What one call unlocks: nothing if it is empty or starts too high, everything from its
      start if it has no end, and with its bounds the wrong way round, a negative length, the
      bytes below its start. */
  predicate UnlocksByte(sp: Span, maxOffset: nat, x: nat) {
    sp.start != sp.end && sp.start <= maxOffset &&
    if sp.end == 0 || sp.end > maxOffset then sp.start <= x
    else if sp.start < sp.end then sp.start <= x < sp.end
    else sp.end <= x < sp.start
  }

  ghost predicate Unlocks(spans: seq<Span>, maxOffset: nat, x: nat) {
    exists k :: 0 <= k < |spans| && UnlocksByte(spans[k], maxOffset, x)
  }

  /** A lock covers a byte, as far as Unix locks are concerned. */
  predicate Locks(lock: Lock, x: nat) { lock.start != lock.end && Covers(lock, x) }

  ghost predicate LockedBy(locks: seq<Lock>, x: nat) {
    exists k :: 0 <= k < |locks| && Locks(locks[k], x)
  }

  /** The call unlocks precisely the bytes of the area that no lock covers. */
  ghost predicate ExactCall(locks: seq<Lock>, start: nat, end: nat, maxOffset: nat, allocOk: bool) {
    forall x | 0 <= x <= maxOffset ::
      Unlocks(UnixUnlocks(locks, start, end, maxOffset, allocOk), maxOffset, x)
      <==> Covers(Lock(start, end), x) && !LockedBy(locks, x)
  }

  /** There is memory for the holes, or no lock is in the way and none is needed. */
  ghost predicate HasBuffer(locks: seq<Lock>, start: nat, end: nat, maxOffset: nat, allocOk: bool) {
    allocOk || forall k | 0 <= k < |locks| :: !Counts(locks[k], start, Clamp(end, maxOffset))
  }

  lemma {:induction false} LockedCons(locks: seq<Lock>, x: nat)
    requires locks != []
    ensures LockedBy(locks, x) <==> Locks(locks[0], x) || LockedBy(locks[1..], x)
  {
    var rest := locks[1..];
    if LockedBy(rest, x) {
      var k :| 0 <= k < |rest| && Locks(rest[k], x);
      assert Locks(locks[k + 1], x);
    }
    if LockedBy(locks, x) {
      var k :| 0 <= k < |locks| && Locks(locks[k], x);
      assert k > 0 ==> Locks(rest[k - 1], x);
    }
  }

  lemma {:induction false} CoveredCons(lock: Lock, rest: seq<Lock>, x: nat)
    ensures CoveredBy([lock] + rest, x) <==> Covers(lock, x) || CoveredBy(rest, x)
  {
    var all := [lock] + rest;
    assert all[0] == lock;
    if CoveredBy(rest, x) {
      var k :| 0 <= k < |rest| && Covers(rest[k], x);
      assert Covers(all[k + 1], x);
    }
    if CoveredBy(all, x) {
      var k :| 0 <= k < |all| && Covers(all[k], x);
      assert k > 0 ==> Covers(rest[k - 1], x);
    }
  }

  lemma {:induction false} RelevantCovers(locks: seq<Lock>, start: nat, end: nat, x: nat)
    requires start <= x < end
    ensures CoveredBy(Relevant(locks, start, end), x) <==> LockedBy(locks, x)
  {
    if locks != [] {
      var tail := Relevant(locks[1..], start, end);
      RelevantCovers(locks[1..], start, end, x);
      LockedCons(locks, x);
      CoveredCons(locks[0], tail, x);
    }
  }

  /** What lock_fd lets through: not wrapped around. */
  ghost predicate AllProper(locks: seq<Lock>) {
    forall k | 0 <= k < |locks| :: locks[k].start == locks[k].end || NonEmpty(locks[k])
  }

  lemma {:induction false} RelevantProper(locks: seq<Lock>, start: nat, end: nat)
    requires AllProper(locks)
    ensures forall k | 0 <= k < |Relevant(locks, start, end)| :: NonEmpty(Relevant(locks, start, end)[k])
  {
    if locks != [] { RelevantProper(locks[1..], start, end); }
  }

  lemma {:induction false} RelevantAppend(a: seq<Lock>, b: seq<Lock>, start: nat, end: nat)
    ensures Relevant(a + b, start, end) == Relevant(a, start, end) + Relevant(b, start, end)
  {
    if a == [] {
      assert a + b == b;
    } else {
      assert (a + b)[1..] == a[1..] + b;
      RelevantAppend(a[1..], b, start, end);
    }
  }

  lemma {:induction false} RelevantOne(lock: Lock, start: nat, end: nat)
    ensures Relevant([lock], start, end) == if Counts(lock, start, end) then [lock] else []
  {
    assert [lock][1..] == [];
  }

  lemma {:induction false} SubtractAppend(h: Holes, a: seq<Lock>, b: seq<Lock>)
    ensures Subtract(h, a + b) == Subtract(Subtract(h, a), b)
    decreases |a|
  {
    if a == [] {
      assert a + b == b;
    } else {
      assert (a + b)[1..] == a[1..] + b;
      SubtractAppend(Sweep(h.chain, 0, a[0], h.used), a[1..], b);
    }
  }

  // ---------------------------------------------------------------- the condition, on the locks

  /** Byte x is in the area and not locked by the locks seen so far. */
  ghost predicate Free(h: Holes, before: seq<Lock>, x: nat) {
    HoleAt(h.chain, x) && !LockedBy(before, x)
  }

  /** The lock lies strictly inside a stretch of free bytes that has another one behind it. */
  ghost predicate SplitsStretch(h: Holes, before: seq<Lock>, lock: Lock) {
    && 0 < lock.start < lock.end
    && (forall x | lock.start - 1 <= x <= lock.end :: Free(h, before, x))
    && exists z, y :: lock.end < z < y && !Free(h, before, z) && Free(h, before, y)
  }

  ghost predicate NoneSplits(h: Holes, locks: seq<Lock>) {
    forall k | 0 <= k < |locks| :: !SplitsStretch(h, locks[..k], locks[k])
  }

  lemma {:induction false} InOrder(chain: seq<Hole>, k: nat, j: nat, x: nat, y: nat)
    requires Sorted(chain) && k < |chain| && j < |chain| && In(chain[k], x) && In(chain[j], y) && x <= y
    ensures k <= j
  {
    Apart(chain);
  }

  lemma {:induction false} Adjacent(chain: seq<Hole>, k: nat, j: nat, x: nat)
    requires Sorted(chain) && k < |chain| && j < |chain| && In(chain[k], x) && In(chain[j], x + 1)
    ensures j == k
  {
    assert Before(chain, if j < k then j else k, if j < k then k else j);
  }

  /** Free bytes that follow each other are in one hole. */
  lemma {:induction false} OneHole(chain: seq<Hole>, k: nat, a: nat, b: nat)
    requires Sorted(chain) && k < |chain| && In(chain[k], a) && a <= b
    requires forall x | a <= x <= b :: HoleAt(chain, x)
    ensures chain[k].start <= b < chain[k].end
    decreases b - a
  {
    if a < b {
      OneHole(chain, k, a, b - 1);
      assert HoleAt(chain, b);
      var j :| 0 <= j < |chain| && In(chain[j], b);
      Adjacent(chain, k, j, b - 1);
    }
  }

  lemma {:induction false} StretchInHole(chain: seq<Hole>, used: nat, lock: Lock)
    requires Sorted(chain) && SplitsStretch(Holes(chain, used), [], lock)
    ensures SplitsInner(chain, lock)
  {
    var h := Holes(chain, used);
    assert Free(h, [], lock.start - 1);
    var k :| 0 <= k < |chain| && In(chain[k], lock.start - 1);
    forall x | lock.start - 1 <= x <= lock.end ensures HoleAt(chain, x) { assert Free(h, [], x); }
    OneHole(chain, k, lock.start - 1, lock.end);
    var z, y :| lock.end < z < y && !Free(h, [], z) && Free(h, [], y);
    var j :| 0 <= j < |chain| && In(chain[j], y);
    InOrder(chain, k, j, lock.end, y);
    assert In(chain[k], z) ==> HoleAt(chain, z);
  }

  /** On a sorted list the condition on the bytes is the one on the holes. */
  lemma {:induction false} StretchIsHole(chain: seq<Hole>, used: nat, lock: Lock)
    requires Sorted(chain) && NonEmpty(lock)
    ensures SplitsStretch(Holes(chain, used), [], lock) <==> SplitsInner(chain, lock)
  {
    var h := Holes(chain, used);
    assert forall x :: Free(h, [], x) == HoleAt(chain, x);
    if SplitsStretch(h, [], lock) {
      StretchInHole(chain, used, lock);
    }
    if SplitsInner(chain, lock) {
      var k :| 0 <= k < |chain| - 1 && Inner(chain[k], lock);
      forall x | lock.start - 1 <= x <= lock.end ensures Free(h, [], x) { assert In(chain[k], x); }
      var z, y := chain[k].end, chain[k + 1].start;
      assert Before(chain, k, k + 1) && Before(chain, k + 1, k + 1) && In(chain[k + 1], y);
      forall j | 0 <= j < |chain| ensures !In(chain[j], z) {
        if j < k { assert Before(chain, j, k) && Before(chain, k, k); }
        if j > k { assert Before(chain, k, j); }
      }
      assert lock.end < z < y && !Free(h, [], z) && Free(h, [], y);
    }
  }

  lemma {:induction false} FreeAfter(h: Holes, lock: Lock, before: seq<Lock>, h': Holes, x: nat)
    requires HoleAt(h'.chain, x) <==> HoleAt(h.chain, x) && !Locks(lock, x)
    ensures Free(h', before, x) <==> Free(h, [lock] + before, x)
  {
    var all := [lock] + before;
    if LockedBy(before, x) {
      var k :| 0 <= k < |before| && Locks(before[k], x);
      assert Locks(all[k + 1], x);
    }
    if LockedBy(all, x) {
      var k :| 0 <= k < |all| && Locks(all[k], x);
      assert k > 0 ==> Locks(before[k - 1], x);
    }
    assert Locks(lock, x) ==> Locks(all[0], x);
  }

  lemma {:induction false} SameStretch(h: Holes, before: seq<Lock>, h': Holes, before': seq<Lock>, lock: Lock)
    requires forall x :: Free(h, before, x) == Free(h', before', x)
    requires SplitsStretch(h, before, lock)
    ensures SplitsStretch(h', before', lock)
  {
    var z, y :| lock.end < z < y && !Free(h, before, z) && Free(h, before, y);
    assert lock.end < z < y && !Free(h', before', z) && Free(h', before', y);
    forall x | lock.start - 1 <= x <= lock.end ensures Free(h', before', x) { assert Free(h, before, x); }
  }

  /** One lock further, the condition speaks of the list without that lock's bytes. */
  lemma {:induction false} NoneSplitsStep(h: Holes, locks: seq<Lock>, h': Holes)
    requires locks != [] && forall x :: HoleAt(h'.chain, x) <==> HoleAt(h.chain, x) && !Locks(locks[0], x)
    ensures NoneSplits(h, locks) <==> !SplitsStretch(h, [], locks[0]) && NoneSplits(h', locks[1..])
  {
    var rest := locks[1..];
    forall k | 0 <= k < |rest|
      ensures SplitsStretch(h', rest[..k], rest[k]) == SplitsStretch(h, locks[..k + 1], locks[k + 1])
    {
      assert locks[..k + 1] == [locks[0]] + rest[..k];
      forall x ensures Free(h', rest[..k], x) == Free(h, locks[..k + 1], x) {
        FreeAfter(h, locks[0], rest[..k], h', x);
      }
      if SplitsStretch(h', rest[..k], rest[k]) { SameStretch(h', rest[..k], h, locks[..k + 1], rest[k]); }
      if SplitsStretch(h, locks[..k + 1], rest[k]) { SameStretch(h, locks[..k + 1], h', rest[..k], rest[k]); }
    }
    assert locks[..0] == [];
    if NoneSplits(h, locks) {
      assert !SplitsStretch(h, locks[..0], locks[0]);
      forall k | 0 <= k < |rest| ensures !SplitsStretch(h', rest[..k], rest[k]) {
        assert !SplitsStretch(h, locks[..k + 1], locks[k + 1]);
      }
    }
    if !SplitsStretch(h, [], locks[0]) && NoneSplits(h', rest) {
      forall k | 0 <= k < |locks| ensures !SplitsStretch(h, locks[..k], locks[k]) {
        if k > 0 { assert !SplitsStretch(h', rest[..k - 1], rest[k - 1]); }
      }
    }
  }

  ghost predicate Within(h: Holes, start: nat, last: nat) {
    forall x: nat | HoleAt(h.chain, x) :: start <= x < last
  }

  lemma {:induction false} SkipsIrrelevant(h: Holes, locks: seq<Lock>, start: nat, last: nat)
    requires locks != [] && AllProper(locks) && Within(h, start, last) && !Counts(locks[0], start, last)
    ensures NoneSplits(h, locks) <==> NoneSplits(h, locks[1..])
  {
    var lock := locks[0];
    forall x ensures HoleAt(h.chain, x) <==> HoleAt(h.chain, x) && !Locks(lock, x) { }
    NoneSplitsStep(h, locks, h);
    if SplitsStretch(h, [], lock) { assert Free(h, [], lock.start) && Locks(lock, lock.start); }
  }

  lemma {:induction false} NeverIffNoneCounts(h: Holes, locks: seq<Lock>, start: nat, last: nat)
    requires Good(h) && AllProper(locks) && Within(h, start, last) && locks != [] && Counts(locks[0], start, last)
    ensures NeverSplitsInner(h, Relevant(locks, start, last)) <==> NoneSplits(h, locks)
    decreases |locks|, 0
  {
    var r, h1 := Relevant(locks, start, last), Sweep(h.chain, 0, locks[0], h.used);
    assert r[0] == locks[0] && r[1..] == Relevant(locks[1..], start, last);
    StretchIsHole(h.chain, h.used, locks[0]);
    SweepLinks(h.chain, 0, locks[0], h.used);
    forall x ensures HoleAt(h1.chain, x) <==> HoleAt(h.chain, x) && !Locks(locks[0], x) {
      SweepCovers(h.chain, 0, locks[0], h.used, x);
    }
    NoneSplitsStep(h, locks, h1);
    if !SplitsInner(h.chain, locks[0]) { NeverIffNone(h1, locks[1..], start, last); }
  }

  /** The source's sweeps split no hole with a successor exactly if, on the locks themselves,
      none lies inside a free stretch that has another behind it. */
  lemma {:induction false} NeverIffNone(h: Holes, locks: seq<Lock>, start: nat, last: nat)
    requires Good(h) && AllProper(locks) && Within(h, start, last)
    ensures NeverSplitsInner(h, Relevant(locks, start, last)) <==> NoneSplits(h, locks)
    decreases |locks|
  {
    if locks != [] {
      if Counts(locks[0], start, last) {
        NeverIffNoneCounts(h, locks, start, last);
      } else {
        SkipsIrrelevant(h, locks, start, last);
        NeverIffNone(h, locks[1..], start, last);
        assert Relevant(locks, start, last) == Relevant(locks[1..], start, last);
      }
    }
  }

  /** The spans of a sorted list below the largest offset unlock the bytes of its holes. */
  lemma {:induction false} SpansMeaning(chain: seq<Hole>, maxOffset: nat, x: nat)
    requires Sorted(chain) && x <= maxOffset && forall k | 0 <= k < |chain| :: chain[k].end <= maxOffset + 1
    ensures Unlocks(Spans(chain), maxOffset, x) <==> HoleAt(chain, x)
  {
    var spans := Spans(chain);
    forall k | 0 <= k < |chain| ensures UnlocksByte(spans[k], maxOffset, x) <==> In(chain[k], x) {
      assert Before(chain, k, k);
    }
  }

  lemma {:induction false} EndsBelow(h: Holes, start: nat, last: nat)
    requires Sorted(h.chain) && Within(h, start, last)
    ensures forall k | 0 <= k < |h.chain| :: h.chain[k].end <= last
  {
    forall k | 0 <= k < |h.chain| ensures h.chain[k].end <= last {
      assert Before(h.chain, k, k) && In(h.chain[k], h.chain[k].end - 1);
      assert HoleAt(h.chain, h.chain[k].end - 1);
    }
  }

  lemma {:induction false} WholeAt(start: nat, last: nat, x: nat)
    requires start < last
    ensures Good(Whole(start, last)) && (HoleAt(Whole(start, last).chain, x) <==> start <= x < last)
  {
    var h := Whole(start, last);
    assert In(h.chain[0], x) <==> start <= x < last;
    assert Before(h.chain, 0, 0);
  }

  lemma {:induction false} Split1(locks: seq<Lock>, start: nat, last: nat)
    requires locks != []
    ensures var n := |locks| - 1;
            Relevant(locks, start, last)
            == Relevant(locks[..n], start, last) + (if Counts(locks[n], start, last) then [locks[n]] else [])
  {
    var n := |locks| - 1;
    assert locks == locks[..n] + [locks[n]];
    RelevantAppend(locks[..n], [locks[n]], start, last);
    RelevantOne(locks[n], start, last);
  }

  lemma {:induction false} AlsoCovered(few: seq<Lock>, lock: Lock, x: nat)
    ensures CoveredBy(few + [lock], x) <==> CoveredBy(few, x) || Covers(lock, x)
  {
    var all := few + [lock];
    if CoveredBy(few, x) {
      var k :| 0 <= k < |few| && Covers(few[k], x);
      assert Covers(all[k], x);
    }
    if Covers(lock, x) { assert Covers(all[|few|], x); }
    if CoveredBy(all, x) {
      var k :| 0 <= k < |all| && Covers(all[k], x);
      assert k < |few| ==> Covers(few[k], x);
    }
  }

  /** While nothing splits, the list is well linked and exact. */
  lemma {:induction false} FrontExact(front: seq<Lock>, start: nat, last: nat, x: nat)
    requires start < last && AllProper(front) && NoneSplits(Whole(start, last), front)
    ensures var m := Subtract(Whole(start, last), Relevant(front, start, last));
            Good(m) && (HoleAt(m.chain, x) <==> start <= x < last && !CoveredBy(Relevant(front, start, last), x))
  {
    var h, few := Whole(start, last), Relevant(front, start, last);
    forall y: nat ensures HoleAt(h.chain, y) <==> start <= y < last { WholeAt(start, last, y); }
    WholeAt(start, last, x);
    NeverIffNone(h, front, start, last);
    RelevantProper(front, start, last);
    SubtractExact(h, few, x);
  }

  /** The holes after all locks, when none but the last splits a stretch that has another
      behind it. */
  lemma {:induction false} AreaExact(locks: seq<Lock>, start: nat, last: nat, x: nat)
    requires start < last && AllProper(locks)
    requires locks != [] ==> NoneSplits(Whole(start, last), locks[..|locks| - 1])
    ensures var r := Subtract(Whole(start, last), Relevant(locks, start, last)).chain;
            Sorted(r) && (HoleAt(r, x) <==> start <= x < last && !LockedBy(locks, x))
  {
    var h, rel := Whole(start, last), Relevant(locks, start, last);
    WholeAt(start, last, x);
    if start <= x < last { RelevantCovers(locks, start, last, x); }
    if locks != [] {
      var front, lock := locks[..|locks| - 1], locks[|locks| - 1];
      var m, few := Subtract(h, Relevant(front, start, last)), Relevant(front, start, last);
      Split1(locks, start, last);
      FrontExact(front, start, last, x);
      if Counts(lock, start, last) {
        SubtractAppend(h, few, [lock]);
        assert [lock][1..] == [];
        assert Subtract(m, [lock]) == Sweep(m.chain, 0, lock, m.used);
        SweepLinks(m.chain, 0, lock, m.used);
        SweepCovers(m.chain, 0, lock, m.used, x);
        AlsoCovered(few, lock, x);
      } else {
        assert few + [] == few;
      }
    }
  }

  lemma {:induction false} RelevantNone(locks: seq<Lock>, start: nat, end: nat)
    ensures Relevant(locks, start, end) == [] <==> forall k | 0 <= k < |locks| :: !Counts(locks[k], start, end)
  {
    if locks != [] {
      RelevantNone(locks[1..], start, end);
      assert forall k | 1 <= k < |locks| :: locks[k] == locks[1..][k - 1];
    }
  }

  /** Without memory for the holes that it needs, the source unlocks nothing. */
  lemma {:induction false} NoBuffer(locks: seq<Lock>, start: nat, end: nat, maxOffset: nat, allocOk: bool)
    requires start <= maxOffset && start != end
    ensures var r := Subtract(Whole(start, Clamp(end, maxOffset)), Relevant(locks, start, Clamp(end, maxOffset)));
            UnixUnlocks(locks, start, end, maxOffset, allocOk)
            == if HasBuffer(locks, start, end, maxOffset, allocOk) then Spans(r.chain) else []
  {
    RelevantNone(locks, start, Clamp(end, maxOffset));
  }

  /** The spans of exact holes unlock exactly the bytes. */
  lemma {:induction false} SpansExact(r: Holes, locks: seq<Lock>, start: nat, end: nat, maxOffset: nat)
    requires start <= maxOffset && (end == 0 || start < end) && Sorted(r.chain)
    requires forall y: nat :: HoleAt(r.chain, y) <==> start <= y < Clamp(end, maxOffset) && !LockedBy(locks, y)
    ensures forall x | 0 <= x <= maxOffset ::
              Unlocks(Spans(r.chain), maxOffset, x) <==> Covers(Lock(start, end), x) && !LockedBy(locks, x)
    ensures var spans := Spans(r.chain);
            && (forall k | 0 <= k < |spans| :: spans[k].start < spans[k].end)
            && (forall j, k | 0 <= j < k < |spans| :: spans[j].end < spans[k].start)
  {
    EndsBelow(r, start, Clamp(end, maxOffset));
    Apart(r.chain);
    forall x | 0 <= x <= maxOffset
      ensures Unlocks(Spans(r.chain), maxOffset, x) <==> Covers(Lock(start, end), x) && !LockedBy(locks, x)
    {
      SpansMeaning(r.chain, maxOffset, x);
    }
  }

  /** When no lock but the last lies inside a free stretch that has another behind it, the
      source, if it has memory for the holes, unlocks exactly the bytes of the area that no
      remaining lock covers, in ascending non-empty pieces that do not touch.  Without that
      memory it unlocks nothing, which is exact only if there is nothing to unlock. */
  lemma {:induction false} ExactUnlocks(locks: seq<Lock>, start: nat, end: nat, maxOffset: nat, allocOk: bool)
    requires start <= maxOffset && (end == 0 || start < end) && start != end && AllProper(locks)
    requires locks != [] ==> NoneSplits(Whole(start, Clamp(end, maxOffset)), locks[..|locks| - 1])
    ensures HasBuffer(locks, start, end, maxOffset, allocOk) ==> ExactCall(locks, start, end, maxOffset, allocOk)
    ensures !HasBuffer(locks, start, end, maxOffset, allocOk) ==>
              && UnixUnlocks(locks, start, end, maxOffset, allocOk) == []
              && (ExactCall(locks, start, end, maxOffset, allocOk) <==>
                    forall x | 0 <= x <= maxOffset && Covers(Lock(start, end), x) :: LockedBy(locks, x))
    ensures var spans := UnixUnlocks(locks, start, end, maxOffset, allocOk);
            && (forall k | 0 <= k < |spans| :: spans[k].start < spans[k].end)
            && (forall j, k | 0 <= j < k < |spans| :: spans[j].end < spans[k].start)
  {
    var last := Clamp(end, maxOffset);
    var r := Subtract(Whole(start, last), Relevant(locks, start, last));
    NoBuffer(locks, start, end, maxOffset, allocOk);
    forall y: nat ensures HoleAt(r.chain, y) <==> start <= y < last && !LockedBy(locks, y) {
      AreaExact(locks, start, last, y);
    }
    AreaExact(locks, start, last, start);
    SpansExact(r, locks, start, end, maxOffset);
  }

  lemma {:induction false} FirstSplitting(h: Holes, locks: seq<Lock>) returns (k: nat)
    requires !NoneSplits(h, locks)
    ensures k < |locks| && NoneSplits(h, locks[..k]) && SplitsStretch(h, locks[..k], locks[k])
    decreases |locks|
  {
    var n := |locks| - 1;
    var front := locks[..n];
    assert forall j | 0 <= j < n :: front[j] == locks[j] && front[..j] == locks[..j];
    if NoneSplits(h, front) {
      k := n;
    } else {
      k := FirstSplitting(h, front);
      assert front[..k] == locks[..k];
    }
  }

  lemma {:induction false} InsideArea(front: seq<Lock>, start: nat, last: nat, y: nat)
    requires start < last && Free(Whole(start, last), front, y)
    ensures start <= y < last && !LockedBy(front, y)
  {
    WholeAt(start, last, y);
  }

  lemma {:induction false} FrontFree(front: seq<Lock>, start: nat, last: nat)
    requires start < last && AllProper(front) && NoneSplits(Whole(start, last), front)
    ensures var m := Subtract(Whole(start, last), Relevant(front, start, last));
            forall y: nat :: Free(m, [], y) == Free(Whole(start, last), front, y)
  {
    var m := Subtract(Whole(start, last), Relevant(front, start, last));
    forall y: nat ensures Free(m, [], y) == Free(Whole(start, last), front, y) {
      FrontExact(front, start, last, y);
      WholeAt(start, last, y);
      if start <= y < last { RelevantCovers(front, start, last, y); }
    }
  }

  /** Up to the first such lock the list is good, and there the lock splits a hole of it. */
  lemma {:induction false} SplitsThere(front: seq<Lock>, lock: Lock, start: nat, last: nat)
    requires start < last && AllProper(front) && NoneSplits(Whole(start, last), front)
    requires SplitsStretch(Whole(start, last), front, lock)
    ensures var m := Subtract(Whole(start, last), Relevant(front, start, last)); Good(m) && SplitsInner(m.chain, lock)
    ensures Counts(lock, start, last) && NonEmpty(lock)
  {
    var h, m := Whole(start, last), Subtract(Whole(start, last), Relevant(front, start, last));
    FrontExact(front, start, last, start);
    FrontFree(front, start, last);
    SameStretch(h, front, m, [], lock);
    StretchIsHole(m.chain, m.used, lock);
    assert Free(h, front, lock.start);
    InsideArea(front, start, last, lock.start);
  }

  lemma {:induction false} LossInArea(front: seq<Lock>, lock: Lock, start: nat, last: nat) returns (next: Lock, x: nat)
    requires start < last && AllProper(front) && NoneSplits(Whole(start, last), front) && NonEmpty(lock)
    requires var m := Subtract(Whole(start, last), Relevant(front, start, last)); Good(m) && SplitsInner(m.chain, lock)
    ensures NonEmpty(next) && Counts(next, start, last) && start <= x < last
    ensures !LockedBy(front, x) && !Covers(lock, x) && !Covers(next, x)
    ensures var r := Subtract(Subtract(Whole(start, last), Relevant(front, start, last)), [lock, next]);
            Sorted(r.chain) && Within(r, start, last) && !HoleAt(r.chain, x)
  {
    var m := Subtract(Whole(start, last), Relevant(front, start, last));
    FrontFree(front, start, last);
    next, x := SplittingInnerLosesBytes(m, lock);
    forall y: nat | HoleAt(m.chain, y) ensures start <= y < last && !LockedBy(front, y) {
      assert Free(m, [], y);
      InsideArea(front, start, last, y);
    }
  }

  lemma {:induction false} NotExactCall(front: seq<Lock>, lock: Lock, next: Lock,
                                        start: nat, end: nat, maxOffset: nat, x: nat)
    requires start <= maxOffset && (end == 0 || start < end) && start != end
    requires var last := Clamp(end, maxOffset);
             && Counts(lock, start, last) && Counts(next, start, last) && start <= x < last
             && !LockedBy(front, x) && !Covers(lock, x) && !Covers(next, x)
             && var r := Subtract(Subtract(Whole(start, last), Relevant(front, start, last)), [lock, next]);
                Sorted(r.chain) && Within(r, start, last) && !HoleAt(r.chain, x)
    ensures !ExactCall(front + [lock] + [next], start, end, maxOffset, true)
  {
    var last, all := Clamp(end, maxOffset), front + [lock] + [next];
    var h, few := Whole(start, last), Relevant(front, start, last);
    var r := Subtract(Subtract(h, few), [lock, next]);
    RelevantAppend(front + [lock], [next], start, last);
    RelevantAppend(front, [lock], start, last);
    RelevantOne(lock, start, last);
    RelevantOne(next, start, last);
    assert Relevant(all, start, last) == few + [lock, next];
    SubtractAppend(h, few, [lock, next]);
    EndsBelow(r, start, last);
    SpansMeaning(r.chain, maxOffset, x);
    assert UnixUnlocks(all, start, end, maxOffset, true) == Spans(r.chain);
    forall j | 0 <= j < |all| ensures !Locks(all[j], x) { assert j < |front| ==> all[j] == front[j]; }
  }

  /** A lock that splits a stretch with another behind it can be followed by one for which the
      call is not exact. */
  lemma {:induction false} NotExact(front: seq<Lock>, lock: Lock, start: nat, end: nat, maxOffset: nat)
    returns (next: Lock)
    requires start <= maxOffset && (end == 0 || start < end) && start != end && AllProper(front)
    requires var h := Whole(start, Clamp(end, maxOffset)); NoneSplits(h, front) && SplitsStretch(h, front, lock)
    ensures NonEmpty(next) && !ExactCall(front + [lock] + [next], start, end, maxOffset, true)
  {
    var last, x := Clamp(end, maxOffset), start;
    SplitsThere(front, lock, start, last);
    next, x := LossInArea(front, lock, start, last);
    NotExactCall(front, lock, next, start, end, maxOffset, x);
  }

  /** The call is exact for the locks up to lock k and one more. */
  ghost predicate ExactWith(locks: seq<Lock>, k: nat, next: Lock, start: nat, end: nat, maxOffset: nat)
    requires k < |locks|
  {
    ExactCall(locks[..k + 1] + [next], start, end, maxOffset, true)
  }

  /** For a whole call with memory for the holes, on the locks and the area alone: what the
      source unlocks is exact after every lock and whatever lock comes next, if and only if no
      lock lies strictly inside a stretch, free of the locks before it, that has another free
      stretch behind it. */
  lemma {:induction false} CallIff(locks: seq<Lock>, start: nat, end: nat, maxOffset: nat)
    requires start <= maxOffset && (end == 0 || start < end) && start != end && AllProper(locks)
    ensures NoneSplits(Whole(start, Clamp(end, maxOffset)), locks) <==>
            forall k, next {:trigger ExactWith(locks, k, next, start, end, maxOffset)} |
              0 <= k < |locks| && NonEmpty(next) :: ExactWith(locks, k, next, start, end, maxOffset)
  {
    var h := Whole(start, Clamp(end, maxOffset));
    if NoneSplits(h, locks) {
      forall k, next | 0 <= k < |locks| && NonEmpty(next) ensures ExactWith(locks, k, next, start, end, maxOffset) {
        var some, all := locks[..k + 1], locks[..k + 1] + [next];
        assert all[..|all| - 1] == some;
        forall j | 0 <= j < |some| ensures !SplitsStretch(h, some[..j], some[j]) { assert some[..j] == locks[..j]; }
        ExactUnlocks(all, start, end, maxOffset, true);
      }
    } else {
      var k := FirstSplitting(h, locks);
      var next := NotExact(locks[..k], locks[k], start, end, maxOffset);
      assert locks[..k + 1] == locks[..k] + [locks[k]];
      assert !ExactWith(locks, k, next, start, end, maxOffset);
    }
  }

  // ---------------------------------------------------------------- cases

  lemma {:induction false} ThreeLocks(h: Holes, a: Lock, b: Lock, c: Lock)
    ensures Subtract(h, [a, b, c]) ==
            var h1 := Sweep(h.chain, 0, a, h.used);
            var h2 := Sweep(h1.chain, 0, b, h1.used);
            Sweep(h2.chain, 0, c, h2.used)
  {
    var h1 := Sweep(h.chain, 0, a, h.used);
    var h2 := Sweep(h1.chain, 0, b, h1.used);
    assert [a, b, c][1..] == [b, c] && [b, c][1..] == [c] && [c][1..] == [];
    assert Subtract(h, [a, b, c]) == Subtract(h1, [b, c]) == Subtract(h2, [c]) == Sweep(h2.chain, 0, c, h2.used);
  }

  /** Three disjoint shared locks under an area that is being unlocked: the bytes 6 to 9 are
      locked by nobody and yet left out. */
  lemma {:induction false} LostBytes()
    ensures Subtract(Whole(0, 100), [Lock(10, 20), Lock(4, 6), Lock(20, 200)]).chain == [Hole(0, 0, 4, None)]
    ensures !CoveredBy([Lock(10, 20), Lock(4, 6), Lock(20, 200)], 6)
  {
    var h0 := Whole(0, 100);
    var h1 := Sweep(h0.chain, 0, Lock(10, 20), 1);
    assert h1 == Holes([Hole(0, 0, 10, None), Hole(1, 20, 100, Some(0))], 2);
    var h2 := Sweep(h1.chain, 0, Lock(4, 6), 2);
    assert h2 == Holes([Hole(0, 0, 4, None), Hole(2, 6, 10, Some(0)), Hole(1, 20, 100, Some(0))], 3);
    SkipPassed(h2.chain, 0, 2, Lock(20, 200), 3);
    assert Position(h2.chain[..2], 0) == Some(0) by { assert h2.chain[..2][..1] == [Hole(0, 0, 4, None)]; }
    assert Front(h2.chain, 2, Hole(1, 200, 100, Some(0))) == [Hole(0, 0, 4, None)];
    assert Sweep(h2.chain, 2, Lock(20, 200), 3).chain == [Hole(0, 0, 4, None)];
    ThreeLocks(h0, Lock(10, 20), Lock(4, 6), Lock(20, 200));
  }

  lemma {:induction false} AllRelevant(locks: seq<Lock>, start: nat, end: nat)
    requires forall k | 0 <= k < |locks| :: Counts(locks[k], start, end)
    ensures Relevant(locks, start, end) == locks
  {
    if locks != [] { AllRelevant(locks[1..], start, end); }
  }

  /** The holes after those three locks and a fourth, on the bytes that were left out. */
  lemma {:induction false} FourthLock()
    ensures Subtract(Whole(0, 100), [Lock(10, 20), Lock(4, 6), Lock(20, 200)] + [Lock(6, 10)]).chain
            == [Hole(0, 0, 4, None)]
  {
    var few, lock := [Lock(10, 20), Lock(4, 6), Lock(20, 200)], Lock(6, 10);
    LostBytes();
    SubtractAppend(Whole(0, 100), few, [lock]);
    var m := Subtract(Whole(0, 100), few);
    assert [lock][1..] == [];
    assert Subtract(m, [lock]) == Sweep(m.chain, 0, lock, m.used);
    SkipPassed(m.chain, 0, 1, lock, m.used);
  }

  /** Whether one given call is exact also depends on what comes after the bytes are lost: here
      it is not exact with three locks, and is again with a fourth that covers them. */
  lemma {:induction false} CoveredLater(maxOffset: nat)
    requires maxOffset >= 200
    ensures var few := [Lock(10, 20), Lock(4, 6), Lock(20, 200)];
            && !ExactCall(few, 0, 100, maxOffset, true)
            && ExactCall(few + [Lock(6, 10)], 0, 100, maxOffset, true)
  {
    var few, spans := [Lock(10, 20), Lock(4, 6), Lock(20, 200)], [Span(0, 4)];
    var all := few + [Lock(6, 10)];
    LostBytes();
    FourthLock();
    AllRelevant(few, 0, 100);
    AllRelevant(all, 0, 100);
    assert Spans([Hole(0, 0, 4, None)]) == spans;
    assert UnixUnlocks(few, 0, 100, maxOffset, true) == spans && UnixUnlocks(all, 0, 100, maxOffset, true) == spans;
    assert forall x :: Unlocks(spans, maxOffset, x) <==> UnlocksByte(spans[0], maxOffset, x);
    assert !LockedBy(few, 6) && !Unlocks(spans, maxOffset, 6);
    forall x: nat | x <= maxOffset ensures Unlocks(spans, maxOffset, x) <==> x < 100 && !LockedBy(all, x) {
      assert Locks(all[0], x) || Locks(all[1], x) || Locks(all[2], x) || Locks(all[3], x) <==> LockedBy(all, x);
    }
  }

  /** After three locks the node of the last hole still names the first one, which has left
      the list. */
  lemma {:induction false} GoneFirst()
    ensures Subtract(Whole(100, 200), [Lock(120, 130), Lock(105, 110), Lock(90, 105)])
            == Holes([Hole(2, 110, 120, None), Hole(1, 130, 200, Some(0))], 3)
  {
    var h0 := Whole(100, 200);
    var h1 := Sweep(h0.chain, 0, Lock(120, 130), 1);
    assert h1 == Holes([Hole(0, 100, 120, None), Hole(1, 130, 200, Some(0))], 2);
    var h2 := Sweep(h1.chain, 0, Lock(105, 110), 2);
    assert h2.chain == [Hole(0, 100, 105, None), Hole(2, 110, 120, Some(0)), Hole(1, 130, 200, Some(0))];
    var m := [Hole(2, 110, 120, None), Hole(1, 130, 200, Some(0))];
    assert SetPrev(h2.chain[1..], None) == m;
    assert Front(h2.chain, 0, Hole(0, 105, 105, None)) == [];
    assert [] + m == m;
    assert Sweep(h2.chain, 0, Lock(90, 105), 3) == Sweep(m, 0, Lock(90, 105), 3) == Holes(m, 3);
    ThreeLocks(h0, Lock(120, 130), Lock(105, 110), Lock(90, 105));
  }

  /** The hole that the last lock empties then stays in the list, with the end of the lock for
      its start. */
  lemma {:induction false} StaysEmptied(end: nat)
    requires end == 0 || end >= 200
    ensures Subtract(Whole(100, 200), [Lock(120, 130), Lock(105, 110), Lock(90, 105)] + [Lock(130, end)]).chain
            == [Hole(2, 110, 120, None), Hole(1, end, 200, Some(0))]
  {
    var few, lock := [Lock(120, 130), Lock(105, 110), Lock(90, 105)], Lock(130, end);
    GoneFirst();
    SubtractAppend(Whole(100, 200), few, [lock]);
    var m := Subtract(Whole(100, 200), few).chain;
    assert [lock][1..] == [];
    assert Subtract(Holes(m, 3), [lock]) == Sweep(m, 0, lock, 3);
    SkipPassed(m, 0, 1, lock, 3);
    assert m[..1] == [Hole(2, 110, 120, None)] && m[2..] == [];
    assert m[..1][..0] == [];
    assert Position(m[..1], 0) == None;
    assert Front(m, 1, Hole(1, end, 200, Some(0))) == [Hole(2, 110, 120, None), Hole(1, end, 200, Some(0))];
    assert SetPrev(m[2..], Some(0)) == [];
  }

  /** The source can also unlock what other locks hold.  With a last lock from byte 130 on, the
      bytes from 0 to 199 are unlocked; with one up to byte 299, those from 200 to 299, through
      a negative length. */
  lemma {:induction false} UnlocksTooMuch(maxOffset: nat)
    requires maxOffset >= 300
    ensures var locks := [Lock(120, 130), Lock(105, 110), Lock(90, 105)] + [Lock(130, 0)];
            var calls := UnixUnlocks(locks, 100, 200, maxOffset, true);
            && Unlocks(calls, maxOffset, 130) && LockedBy(locks, 130)
            && Unlocks(calls, maxOffset, 0) && !Covers(Lock(100, 200), 0)
    ensures var locks := [Lock(120, 130), Lock(105, 110), Lock(90, 105)] + [Lock(130, 300)];
            var calls := UnixUnlocks(locks, 100, 200, maxOffset, true);
            Unlocks(calls, maxOffset, 250) && LockedBy(locks, 250) && !Covers(Lock(100, 200), 250)
  {
    forall end | end == 0 || end == 300
      ensures var locks := [Lock(120, 130), Lock(105, 110), Lock(90, 105)] + [Lock(130, end)];
              && UnixUnlocks(locks, 100, 200, maxOffset, true) == [Span(110, 120), Span(end, 200)]
              && locks[3] == Lock(130, end)
    {
      var locks := [Lock(120, 130), Lock(105, 110), Lock(90, 105)] + [Lock(130, end)];
      StaysEmptied(end);
      AllRelevant(locks, 100, 200);
      assert Spans([Hole(2, 110, 120, None), Hole(1, end, 200, Some(0))]) == [Span(110, 120), Span(end, 200)];
    }
    var a, b := [Lock(120, 130), Lock(105, 110), Lock(90, 105)] + [Lock(130, 0)],
                [Lock(120, 130), Lock(105, 110), Lock(90, 105)] + [Lock(130, 300)];
    assert Locks(a[3], 130) && Locks(b[3], 250);
    var spans := [Span(110, 120), Span(0, 200)];
    assert UnlocksByte(spans[1], maxOffset, 130) && UnlocksByte(spans[1], maxOffset, 0);
    var back := [Span(110, 120), Span(300, 200)];
    assert UnlocksByte(back[1], maxOffset, 250);
  }

  // ---------------------------------------------------------------- the code

  /** The inner loop: walk the holes, edit those that the lock touches. */
  method SubtractLock(h: Holes, lock: Lock) returns (r: Holes)
    ensures r == Sweep(h.chain, 0, lock, h.used)
  {
    var chain, i := h.chain, 0;
    while i < |chain|
      invariant 0 <= i <= |chain|
      invariant Sweep(chain, i, lock, h.used) == Sweep(h.chain, 0, lock, h.used)
      decreases |chain| - i
    {
      var cur := chain[i];
      if cur.end <= lock.start {
        i := i + 1;
      } else if lock.end != 0 && cur.start >= lock.end {
        break;
      } else if cur.start >= lock.start {
        var cut := cur.(start := lock.end);
        if cut.start != 0 && cut.start < cut.end {
          return Holes(chain[i := cut], h.used);
        }
        var front := Front(chain, i, cut);
        chain := front + SetPrev(chain[i + 1..], cur.prev);
        i := |front|;
      } else if lock.end == 0 || cur.end <= lock.end {
        chain := chain[i := cur.(end := lock.start)];
        i := i + 1;
      } else {
        return Holes(Split(chain, i, lock, h.used), h.used + 1);
      }
    }
    r := Holes(chain, h.used);
  }

  method RemoveUnixLocks(locks: seq<Lock>, start: nat, end: nat, maxOffset: nat, allocOk: bool)
    returns (unlocks: seq<Span>)
    ensures unlocks == UnixUnlocks(locks, start, end, maxOffset, allocOk)
  {
    if start == end || start > maxOffset { return []; }
    var last := if end == 0 || end > maxOffset then maxOffset + 1 else end;
    var count, n := 0, 0;
    while n < |locks|
      invariant 0 <= n <= |locks|
      invariant |Relevant(locks, start, last)| == count + |Relevant(locks[n..], start, last)|
    {
      assert locks[n..][1..] == locks[n + 1..];
      if Counts(locks[n], start, last) { count := count + 1; }
      n := n + 1;
    }
    if count == 0 { return [Span(start, last)]; }
    if !allocOk { return []; }
    var h := Whole(start, last);
    n := 0;
    while n < |locks|
      invariant 0 <= n <= |locks|
      invariant Subtract(h, Relevant(locks[n..], start, last)) ==
                Subtract(Whole(start, last), Relevant(locks, start, last))
    {
      assert locks[n..][1..] == locks[n + 1..];
      if Counts(locks[n], start, last) {
        assert Relevant(locks[n..], start, last)[1..] == Relevant(locks[n + 1..], start, last);
        h := SubtractLock(h, locks[n]);
      } else {
        assert Relevant(locks[n..], start, last) == Relevant(locks[n + 1..], start, last);
      }
      n := n + 1;
    }
    unlocks := Spans(h.chain);
  }
}
