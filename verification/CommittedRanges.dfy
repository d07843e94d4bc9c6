/** The committed parts of a reserved mapping (server/mapping.c): one sorted list of byte
    ranges, shared by every view of the mapping and addressed relative to each view's start.
 */
module CommittedRanges {

  import opened Options

  datatype Range = Range(start: nat, end: nat)

  /** A view covers `size` bytes of its mapping from `start`.  A mapping whose pages are all
      committed has no list. */
  datatype View = View(start: nat, size: nat)

  const PAGE := 0x1000

  predicate Contains(r: Range, x: nat) {
    r.start <= x < r.end
  }

  ghost predicate Covered(rs: seq<Range>, x: nat) {
    exists i :: 0 <= i < |rs| && Contains(rs[i], x)
  }

  predicate InOrder(rs: seq<Range>, i: nat, j: nat)
    requires i <= j < |rs|
  {
    if i == j then rs[i].start < rs[i].end else rs[i].end < rs[j].start
  }

  /** In order, none empty, and no two touching. */
  ghost predicate Separated(rs: seq<Range>) {
    forall i, j {:trigger InOrder(rs, i, j)} | 0 <= i <= j < |rs| :: InOrder(rs, i, j)
  }

  lemma CoveredSplit(rs: seq<Range>, x: nat)
    requires rs != []
    ensures Covered(rs, x) <==> Contains(rs[0], x) || Covered(rs[1..], x)
  {
    if Covered(rs[1..], x) {
      var i :| 0 <= i < |rs[1..]| && Contains(rs[1..][i], x);
      assert Contains(rs[i + 1], x);
    }
    if Covered(rs, x) {
      var i :| 0 <= i < |rs| && Contains(rs[i], x);
      assert i > 0 ==> Contains(rs[1..][i - 1], x);
    }
  }

  lemma SeparatedCons(r: Range, rs: seq<Range>)
    requires Separated(rs) && r.start < r.end && (rs != [] ==> r.end < rs[0].start)
    ensures Separated([r] + rs)
  {
    var t := [r] + rs;
    forall i, j | 0 <= i <= j < |t| ensures InOrder(t, i, j) {
      if i > 0 {
        assert InOrder(rs, i - 1, j - 1);
      } else if j > 0 {
        assert InOrder(rs, 0, j - 1) && InOrder(rs, 0, 0);
      }
    }
  }

  lemma SeparatedTail(rs: seq<Range>, k: nat)
    requires Separated(rs) && k <= |rs|
    ensures Separated(rs[k..]) && (rs != [] ==> rs[0].start < rs[0].end)
    ensures |rs| > 1 ==> rs[0].end < rs[1].start
  {
    assert rs != [] ==> InOrder(rs, 0, 0);
    assert |rs| > 1 ==> InOrder(rs, 0, 1);
    forall i, j | 0 <= i <= j < |rs[k..]| ensures InOrder(rs[k..], i, j) { assert InOrder(rs, k + i, k + j); }
  }

  // ---------------------------------------------------------------- adding a range

  /** How far [.., end) reaches once the ranges it runs into are merged, and how many go. */
  function Absorb(rs: seq<Range>, end: nat): (r: (nat, nat))
    ensures r.0 >= end && r.1 <= |rs|
  {
    if rs == [] || rs[0].start > end then (end, 0)
    else
      var r := Absorb(rs[1..], if rs[0].end > end then rs[0].end else end);
      (r.0, r.1 + 1)
  }

  function Min(a: nat, b: nat): nat { if a < b then a else b }

  /** The list after adding [start, end); a range that touches no other needs a new entry,
      for which there may be no room. */
  function Add(rs: seq<Range>, start: nat, end: nat, room: bool): seq<Range> {
    if rs == [] || rs[0].start > end then (if room then [Range(start, end)] + rs else rs)
    else if rs[0].end < start then [rs[0]] + Add(rs[1..], start, end, room)
    else if rs[0].end < end then
      var m := Absorb(rs[1..], end);
      [Range(Min(rs[0].start, start), m.0)] + rs[1..][m.1..]
    else [Range(Min(rs[0].start, start), rs[0].end)] + rs[1..]
  }

  /** Some range of the list overlaps or abuts [start, end). */
  ghost predicate Touched(rs: seq<Range>, start: nat, end: nat) {
    exists i :: 0 <= i < |rs| && rs[i].start <= end && start <= rs[i].end
  }

  lemma {:induction false} AbsorbExact(rs: seq<Range>, end: nat, x: nat)
    requires Separated(rs)
    ensures var m := Absorb(rs, end);
            && (m.1 < |rs| ==> m.0 < rs[m.1].start)
            && (Covered(rs, x) || x < end <==> Covered(rs[m.1..], x) || x < m.0)
  {
    if rs != [] && rs[0].start <= end {
      SeparatedTail(rs, 1);
      var end' := if rs[0].end > end then rs[0].end else end;
      AbsorbExact(rs[1..], end', x);
      CoveredSplit(rs, x);
      assert rs[1..][Absorb(rs[1..], end').1..] == rs[Absorb(rs, end).1..];
    }
  }

  lemma {:induction false} AddSeparates(rs: seq<Range>, start: nat, end: nat, room: bool)
    requires Separated(rs) && start < end
    ensures var t := Add(rs, start, end, room);
            Separated(t) && (t != [] ==> t[0].start == start || (rs != [] && t[0].start == rs[0].start))
  {
    if rs != [] { SeparatedTail(rs, 1); }
    if rs == [] || rs[0].start > end {
      SeparatedCons(Range(start, end), rs);
    } else if rs[0].end < start {
      AddSeparates(rs[1..], start, end, room);
      SeparatedCons(rs[0], Add(rs[1..], start, end, room));
    } else if rs[0].end < end {
      var m := Absorb(rs[1..], end);
      AbsorbExact(rs[1..], end, 0);
      SeparatedTail(rs[1..], m.1);
      SeparatedCons(Range(Min(rs[0].start, start), m.0), rs[1..][m.1..]);
    } else {
      SeparatedCons(Range(Min(rs[0].start, start), rs[0].end), rs[1..]);
    }
  }

  lemma NotBelow(rs: seq<Range>, x: nat)
    requires rs != [] ==> Separated(rs) && x < rs[0].start
    ensures !Covered(rs, x)
  {
    forall i | 0 <= i < |rs| ensures !Contains(rs[i], x) {
      assert InOrder(rs, 0, i) && InOrder(rs, 0, 0);
    }
  }

  lemma TouchedTail(rs: seq<Range>, start: nat, end: nat)
    requires rs != [] && rs[0].end < start
    ensures Touched(rs, start, end) <==> Touched(rs[1..], start, end)
  {
    if Touched(rs, start, end) {
      var i :| 0 <= i < |rs| && rs[i].start <= end && start <= rs[i].end;
      assert rs[1..][i - 1] == rs[i];
    }
    if Touched(rs[1..], start, end) {
      var i :| 0 <= i < |rs[1..]| && rs[1..][i].start <= end && start <= rs[1..][i].end;
      assert rs[i + 1] == rs[1..][i];
    }
  }

  /** Adding is union with [start, end), except that a range touching no other is dropped
      when there is no room for it. */
  lemma {:induction false} AddCovers(rs: seq<Range>, start: nat, end: nat, room: bool, x: nat)
    requires Separated(rs) && start < end
    ensures Covered(Add(rs, start, end, room), x) <==>
            Covered(rs, x) || ((room || Touched(rs, start, end)) && start <= x < end)
  {
    var t := Add(rs, start, end, room);
    if t != [] { CoveredSplit(t, x); }
    if rs != [] {
      CoveredSplit(rs, x);
      SeparatedTail(rs, 1);
    }
    if rs == [] || rs[0].start > end {
      forall i | 0 <= i < |rs| ensures rs[i].start > end { assert InOrder(rs, 0, i) && InOrder(rs, 0, 0); }
    } else if rs[0].end < start {
      AddCovers(rs[1..], start, end, room, x);
      TouchedTail(rs, start, end);
    } else {
      assert Touched(rs, start, end);
      var m := Absorb(rs[1..], end);
      AbsorbExact(rs[1..], end, x);
      if x < rs[0].end { NotBelow(rs[1..], x); }
    }
  }

  // ---------------------------------------------------------------- the shared list over time

  /** add_mapping_committed_range through one of the views. */
  datatype Op = Op(view: View, start: nat, end: nat, room: bool)

  predicate Allowed(op: Op) {
    op.start % PAGE == 0 && op.end % PAGE == 0 && op.start < op.view.size && op.end <= op.view.size && op.start < op.end
  }

  function Apply(rs: seq<Range>, op: Op): seq<Range> {
    if Allowed(op) then Add(rs, op.view.start + op.start, op.view.start + op.end, op.room) else rs
  }

  function Run(rs: seq<Range>, ops: seq<Op>): seq<Range>
    decreases |ops|
  {
    if ops == [] then rs else Run(Apply(rs, ops[0]), ops[1..])
  }

  predicate Asks(op: Op, x: nat) {
    Allowed(op) && op.view.start + op.start <= x < op.view.start + op.end
  }

  /** The addition asks for byte x and is not dropped for lack of room. */
  ghost predicate Takes(rs: seq<Range>, op: Op, x: nat) {
    Asks(op, x) && (op.room || Touched(rs, op.view.start + op.start, op.view.start + op.end))
  }

  lemma ApplyExact(rs: seq<Range>, op: Op, x: nat)
    requires Separated(rs)
    ensures Separated(Apply(rs, op))
    ensures Covered(Apply(rs, op), x) <==> Covered(rs, x) || Takes(rs, op, x)
  {
    if Allowed(op) {
      AddSeparates(rs, op.view.start + op.start, op.view.start + op.end, op.room);
      AddCovers(rs, op.view.start + op.start, op.view.start + op.end, op.room, x);
    }
  }

  /** Some addition of the run asked for byte x and was not dropped for lack of room. */
  ghost predicate Added(rs: seq<Range>, ops: seq<Op>, x: nat)
    decreases |ops|
  {
    ops != [] && (Takes(rs, ops[0], x) || Added(Apply(rs, ops[0]), ops[1..], x))
  }

  lemma {:induction false} RunExact(rs: seq<Range>, ops: seq<Op>, x: nat)
    requires Separated(rs)
    ensures Separated(Run(rs, ops))
    ensures Covered(Run(rs, ops), x) <==> Covered(rs, x) || Added(rs, ops, x)
    decreases |ops|
  {
    if ops != [] {
      ApplyExact(rs, ops[0], x);
      RunExact(Apply(rs, ops[0]), ops[1..], x);
    }
  }

  lemma {:induction false} AddedMeaning(rs: seq<Range>, ops: seq<Op>, x: nat)
    ensures Added(rs, ops, x) ==> exists k :: 0 <= k < |ops| && Asks(ops[k], x)
    ensures (forall k | 0 <= k < |ops| :: ops[k].room) ==>
              (Added(rs, ops, x) <==> exists k :: 0 <= k < |ops| && Asks(ops[k], x))
    decreases |ops|
  {
    if ops != [] {
      var rest := ops[1..];
      AddedMeaning(Apply(rs, ops[0]), rest, x);
      assert forall k | 0 < k < |ops| :: ops[k] == rest[k - 1];
      assert forall k | 0 <= k < |rest| :: rest[k] == ops[k + 1];
    }
  }

  /** From an empty list, through any views: sorted and strictly separated, nothing but what
      was asked for, and all of it when no allocation fails. */
  lemma EveryRunIsUnion(ops: seq<Op>, x: nat)
    ensures var rs := Run([], ops);
            && Separated(rs)
            && (Covered(rs, x) ==> exists k :: 0 <= k < |ops| && Asks(ops[k], x))
            && ((forall k | 0 <= k < |ops| :: ops[k].room) ==>
                  (Covered(rs, x) <==> exists k :: 0 <= k < |ops| && Asks(ops[k], x)))
  {
    RunExact([], ops, x);
    AddedMeaning([], ops, x);
  }

  /** A dropped range is lost: after the addition its bytes still count as uncommitted. */
  lemma DroppedRange(view: View, end: nat)
    requires end % PAGE == 0 && 0 < end <= view.size
    ensures var op := Op(view, 0, end, false); Asks(op, view.start) && Run([], [op]) == []
  {
    var op := Op(view, 0, end, false);
    assert Run([], [op]) == Run(Apply([], op), []);
  }

  // ---------------------------------------------------------------- the code

  /** Byte x of the view has the same status as byte `start`. */
  /** Everything is committed in a mapping without a list. */
  ghost predicate CommittedAt(rs: Option<seq<Range>>, x: nat) {
    rs.None? || Covered(rs.value, x)
  }

  ghost predicate SameStatus(rs: Option<seq<Range>>, view: View, start: nat, x: nat) {
    CommittedAt(rs, view.start + x) <==> CommittedAt(rs, view.start + start)
  }

  datatype Status = BadOffset | Status(committed: bool, size: nat)

  /** The status of the byte, and the longest run from it with that status inside the view. */
  ghost predicate IsRun(rs: Option<seq<Range>>, view: View, start: nat, r: Status)
    requires r.Status?
  {
    && (r.committed <==> CommittedAt(rs, view.start + start))
    && 0 < r.size && start + r.size <= view.size
    && (forall x | start <= x < start + r.size :: SameStatus(rs, view, start, x))
    && (start + r.size < view.size ==> !SameStatus(rs, view, start, start + r.size))
  }

  lemma CoveredIn(rs: seq<Range>, i: nat, x: nat)
    requires Separated(rs) && i < |rs| && (i > 0 ==> rs[i - 1].end <= x) && x < rs[i].end
    ensures Covered(rs, x) <==> rs[i].start <= x
  {
    forall j | 0 <= j < |rs| && j != i ensures !Contains(rs[j], x) {
      if j > i {
        assert InOrder(rs, i, j);
      } else {
        assert InOrder(rs, j, i - 1) && InOrder(rs, i - 1, i - 1);
      }
    }
    assert rs[i].start <= x ==> Contains(rs[i], x);
  }

  function Merged(c: seq<Range>, i: nat, start: nat, end: nat): seq<Range>
    requires i < |c|
  {
    var lo := Min(c[i].start, start);
    if c[i].end >= end then c[i := Range(lo, c[i].end)]
    else
      var m := Absorb(c[i + 1..], end);
      (c[..i + 1] + c[i + 1 + m.1..])[i := Range(lo, m.0)]
  }

  lemma MergedAbsorbs(c: seq<Range>, i: nat, start: nat, end: nat, j: nat, last: nat)
    requires i < j <= |c| && c[i].end < end && Absorb(c[i + 1..], end) == (last, j - (i + 1))
    ensures Merged(c, i, start, end) == (c[..i + 1] + c[j..])[i := Range(Min(c[i].start, start), last)]
  {
  }

  lemma MergedAtHead(c: seq<Range>, start: nat, end: nat)
    requires c != [] && c[0].end < end
    ensures var m := Absorb(c[1..], end);
            Merged(c, 0, start, end) == [Range(Min(c[0].start, start), m.0)] + c[1..][m.1..]
  {
  }

  lemma CutTail(c: seq<Range>, i: nat, j: nat)
    requires 0 < i <= j <= |c|
    ensures c[..i] + c[j..] == [c[0]] + (c[1..][..i - 1] + c[1..][j - 1..])
  {
  }

  lemma UpdateTail(a: Range, s: seq<Range>, i: nat, r: Range)
    requires 0 < i <= |s|
    ensures ([a] + s)[i := r] == [a] + s[i - 1 := r]
  {
  }

  lemma {:induction false} MergedTail(c: seq<Range>, i: nat, start: nat, end: nat)
    requires 0 < i < |c|
    ensures Merged(c, i, start, end) == [c[0]] + Merged(c[1..], i - 1, start, end)
  {
    var d := c[1..];
    assert c == [c[0]] + d && d[i - 1] == c[i];
    if c[i].end >= end {
      UpdateTail(c[0], d, i, Range(Min(c[i].start, start), c[i].end));
    } else {
      assert d[i..] == c[i + 1..];
      var m := Absorb(d[i..], end);
      CutTail(c, i + 1, i + 1 + m.1);
      UpdateTail(c[0], d[..i] + d[i + m.1..], i, Range(Min(c[i].start, start), m.0));
    }
  }

  /** Where the addition happens once the ranges before it have been passed. */
  lemma {:induction false} AddAt(c: seq<Range>, i: nat, start: nat, end: nat, room: bool)
    requires i <= |c| && forall k | 0 <= k < i :: c[k].start <= end && c[k].end < start
    requires i < |c| ==> c[i].start > end || c[i].end >= start
    ensures Add(c, start, end, room) ==
            if i < |c| && c[i].start <= end then Merged(c, i, start, end)
            else if room then c[..i] + [Range(start, end)] + c[i..] else c
  {
    if i == 0 {
      if c != [] && c[0].start <= end && c[0].end < end { MergedAtHead(c, start, end); }
    } else {
      AddAt(c[1..], i - 1, start, end, room);
      if i < |c| && c[i].start <= end { MergedTail(c, i, start, end); }
    }
  }

  class Ranges {
    var data: array<Range>
    var count: nat

    ghost predicate Valid()
      reads this
    {
      count <= data.Length && data.Length > 0
    }

    ghost function Contents(): seq<Range>
      reads this, data
      requires Valid()
    {
      data[..count]
    }

    constructor ()
      ensures Valid() && Contents() == [] && fresh(data)
    {
      data, count := new Range[8], 0;
    }

    /** memmove entries j and up down to position i. */
    method CloseGap(i: nat, j: nat)
      requires Valid() && i <= j <= count
      modifies this`count, data
      ensures Valid() && Contents() == old(Contents())[..i] + old(Contents())[j..]
    {
      forall k | i <= k < i + (count - j) { data[k] := data[k + (j - i)]; }
      count := count - (j - i);
    }

    /** memmove entries i and up to make room for one. */
    method OpenGap(i: nat, r: Range)
      requires Valid() && i <= count < data.Length
      modifies this`count, data
      ensures Valid() && Contents() == old(Contents())[..i] + [r] + old(Contents())[i..]
    {
      forall k | i < k <= count { data[k] := data[k - 1]; }
      data[i] := r;
      count := count + 1;
    }

    method Grow()
      requires Valid()
      modifies this`data
      ensures Valid() && fresh(data) && data.Length == 2 * old(data.Length) && Contents() == old(Contents())
    {
      var more := new Range[data.Length * 2];
      forall k | 0 <= k < count { more[k] := data[k]; }
      data := more;
    }

    /** The ranges that [.., end) runs into from position j on. */
    method Reach(j: nat, end: nat) returns (next: nat, last: nat)
      requires Valid() && j <= count
      ensures j <= next <= count && Absorb(Contents()[j..], end) == (last, next - j)
    {
      next, last := j, end;
      ghost var c := Contents();
      while next < count
        invariant j <= next <= count
        invariant var m := Absorb(c[next..], last); Absorb(c[j..], end) == (m.0, m.1 + next - j)
      {
        if data[next].start > last { break; }
        if data[next].end > last { last := data[next].end; }
        assert c[next..][1..] == c[next + 1..];
        next := next + 1;
      }
    }

    method SetEntry(i: nat, r: Range)
      requires Valid() && i < count
      modifies data
      ensures Valid() && Contents() == old(Contents())[i := r]
    {
      data[i] := r;
    }

    /** Entry i overlaps or abuts [start, end): extend it and swallow what it runs into. */
    method Merge(i: nat, start: nat, end: nat)
      requires Valid() && i < count && data[i].start <= end && start <= data[i].end
      modifies this`count, data
      ensures Valid()
      ensures Contents() == Merged(old(Contents()), i, start, end)
    {
      var r := Range(Min(data[i].start, start), data[i].end);
      if r.end >= end {
        SetEntry(i, r);
        return;
      }
      var j, last := Reach(i + 1, end);
      MergedAbsorbs(Contents(), i, start, end, j, last);
      CloseGap(i + 1, j);
      SetEntry(i, Range(r.start, last));
    }

    /** The first entry that [start, end) belongs before or merges into. */
    method Place(start: nat, end: nat) returns (i: nat)
      requires Valid()
      ensures i <= count && (i < count ==> data[i].start > end || data[i].end >= start)
      ensures forall k | 0 <= k < i :: Contents()[k].start <= end && Contents()[k].end < start
    {
      i := 0;
      while i < count
        invariant 0 <= i <= count
        invariant forall k | 0 <= k < i :: Contents()[k].start <= end && Contents()[k].end < start
      {
        if data[i].start > end || data[i].end >= start { break; }
        i := i + 1;
      }
    }

    /** Add the bytes from lo to hi. */
    method AddBytes(lo: nat, hi: nat, allocOk: bool)
      requires Valid() && lo < hi
      modifies this, data
      ensures Valid() && (data == old(data) || fresh(data))
      ensures Contents() == Add(old(Contents()), lo, hi, old(count) < old(data.Length) || allocOk)
    {
      var i := Place(lo, hi);
      AddAt(Contents(), i, lo, hi, count < data.Length || allocOk);
      if i < count && data[i].start <= hi {
        Merge(i, lo, hi);
        return;
      }
      if count == data.Length {
        if !allocOk { return; }
        Grow();
      }
      OpenGap(i, Range(lo, hi));
    }
  }

  /** add_committed_range; false for a range the view does not allow.  A mapping without a list
      has everything committed already. */
  method AddCommittedRange(ranges: Ranges?, view: View, start: nat, end: nat, allocOk: bool) returns (ok: bool)
    requires ranges != null ==> ranges.Valid()
    modifies ranges, if ranges == null then {} else {ranges.data}
    ensures ok <==> Allowed(Op(view, start, end, allocOk))
    ensures ranges != null ==>
              var op := Op(view, start, end, old(ranges.count) < old(ranges.data.Length) || allocOk);
              && ranges.Valid() && (ranges.data == old(ranges.data) || fresh(ranges.data))
              && ranges.Contents() == Apply(old(ranges.Contents()), op)
  {
    if start % PAGE != 0 || end % PAGE != 0 || start >= view.size || end > view.size || start >= end { return false; }
    if ranges != null { ranges.AddBytes(view.start + start, view.start + end, allocOk); }
    ok := true;
  }

  lemma PastEnd(rs: seq<Range>, i: nat)
    requires Separated(rs) && i < |rs|
    ensures !Covered(rs, rs[i].end)
  {
    forall j | 0 <= j < |rs| ensures !Contains(rs[j], rs[i].end) {
      if j <= i { assert InOrder(rs, j, i) && InOrder(rs, i, i); } else { assert InOrder(rs, i, j); }
    }
  }

  lemma PastAll(rs: seq<Range>, x: nat)
    requires Separated(rs) && (rs != [] ==> rs[|rs| - 1].end <= x)
    ensures !Covered(rs, x)
  {
    forall j | 0 <= j < |rs| ensures !Contains(rs[j], x) {
      assert InOrder(rs, j, |rs| - 1) && InOrder(rs, |rs| - 1, |rs| - 1);
    }
  }

  /** The search of find_committed_range in a list. */
  method FindRange(ranges: Ranges, view: View, start: nat) returns (r: Status)
    requires ranges.Valid() && Separated(ranges.Contents()) && start < view.size
    ensures r.Status? && IsRun(Some(ranges.Contents()), view, start, r)
  {
    var at, limit := view.start + start, view.start + view.size;
    ghost var c := ranges.Contents();
    var i := 0;
    while i < ranges.count
      invariant 0 <= i <= |c| && (i > 0 ==> c[i - 1].end <= at)
    {
      if ranges.data[i].start > at {
        forall x | at <= x <= c[i].start ensures Covered(c, x) <==> c[i].start <= x {
          assert InOrder(c, i, i);
          CoveredIn(c, i, x);
        }
        return Status(false, Min(ranges.data[i].start, limit) - at);
      }
      if ranges.data[i].end > at {
        forall x | at <= x < c[i].end ensures Covered(c, x) { CoveredIn(c, i, x); }
        PastEnd(c, i);
        return Status(true, Min(ranges.data[i].end, limit) - at);
      }
      i := i + 1;
    }
    forall x | at <= x ensures !Covered(c, x) { PastAll(c, x); }
    r := Status(false, view.size - start);
  }

  /** find_committed_range: whether the byte is committed, and the longest run from it, inside
      the view, of bytes with the same status. */
  method FindCommittedRange(ranges: Ranges?, view: View, start: nat) returns (r: Status)
    requires ranges != null ==> ranges.Valid() && Separated(ranges.Contents())
    ensures r.BadOffset? <==> start % PAGE != 0 || start >= view.size
    ensures r.Status? ==> IsRun(if ranges == null then None else Some(ranges.Contents()), view, start, r)
  {
    if start % PAGE != 0 || start >= view.size { return BadOffset; }
    if ranges == null { return Status(true, view.size - start); }
    r := FindRange(ranges, view, start);
  }
}
