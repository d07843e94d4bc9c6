/** Process handle tables (server/handle.c): an array of entries with the index of the last
    one in use and a bound below which none is free, standing for a map from handles to
    objects.  Handles are numbers, a multiple of four each; global handles are left out.
 */
module HandleTable {

  import opened Options

  type Id = nat

  datatype Entry = Entry(ptr: Option<Id>, inherit: bool, protect: bool)

  const MIN_ENTRIES := 32
  const MAX_ENTRIES := 0x00ff_ffff

  // ---------------------------------------------------------------- handles

  const OBFUSCATOR: bv32 := 0x544a_4def

  function ToHandle(index: nat): nat {
    (index + 1) * 4
  }

  function ToIndex(handle: nat): int {
    handle / 4 - 1
  }

  predicate IsGlobal(handle: nat)
    requires handle < 0x1_0000_0000
  {
    (handle as bv32) ^ OBFUSCATOR <= 0x03ff_fffc
  }

  /** Every index of a table has its own handle, never 0 and never taken for a global one;
      the two low bits of a handle are ignored. */
  lemma LocalHandles(index: nat, low: nat)
    requires index < MAX_ENTRIES && low < 4
    ensures var h := ToHandle(index) + low;
            0 < h < 0x0400_0000 && ToIndex(h) == index && !IsGlobal(h)
  {
    var h := ToHandle(index) + low;
    assert (h as bv32) < 0x0400_0000;
  }

  // ---------------------------------------------------------------- a table as a map

  type Slots = map<nat, Entry>

  /** The entries in use among the first n. */
  function SlotsOf(a: seq<Entry>, n: nat): Slots
    requires n <= |a|
  {
    map i | 0 <= i < n && a[i].ptr.Some? :: a[i]
  }

  predicate IsLowest(m: Slots, i: nat) {
    i !in m && forall j | 0 <= j < i :: j in m
  }

  function Lookup(m: Slots, handle: nat): Option<Entry> {
    var i := ToIndex(handle);
    if i >= 0 && i in m then Some(m[i]) else None
  }

  /** What a child gets: all inheritable entries, or those among the listed handles. */
  function Inherited(m: Slots, listed: Option<seq<nat>>): Slots {
    map i | i in m && m[i].inherit && (listed.Some? ==> exists h :: h in listed.value && ToIndex(h) == i) :: m[i]
  }

  /** Entries of the table that point at object o. */
  ghost function Pointing(m: Slots, o: Id): set<nat> {
    set i | i in m && m[i].ptr == Some(o)
  }

  ghost function Count(m: Slots, o: Id): nat {
    |Pointing(m, o)|
  }

  function Put(m: Slots, i: nat, e: Entry): Slots {
    m[i := e]
  }

  lemma CountPut(m: Slots, i: nat, e: Entry, o: Id)
    requires i !in m
    ensures Count(Put(m, i, e), o) == Count(m, o) + (if e.ptr == Some(o) then 1 else 0)
  {
    if e.ptr == Some(o) {
      assert Pointing(Put(m, i, e), o) == Pointing(m, o) + {i};
    } else {
      assert Pointing(Put(m, i, e), o) == Pointing(m, o);
    }
  }

  function Without(m: Slots, i: nat): Slots {
    m - {i}
  }

  lemma CountDrop(m: Slots, i: nat, o: Id)
    requires i in m
    ensures Count(m, o) == Count(Without(m, i), o) + (if m[i].ptr == Some(o) then 1 else 0)
  {
    assert m == Put(Without(m, i), i, m[i]);
    CountPut(Without(m, i), i, m[i], o);
  }

  // ---------------------------------------------------------------- all the tables

  /** One table per process, and the handle_count of every object. */
  datatype State = State(tables: seq<Slots>, counts: seq<nat>)

  datatype Op =
    | NewObject
    | NewProcess
    | DoAlloc(proc: nat, obj: Id, inherit: bool, index: nat)
    | SetFlags(proc: nat, handle: nat, inherit: bool, protect: bool)
    | DoClose(proc: nat, handle: nat, veto: bool)
    | DoCopy(proc: nat, listed: Option<seq<nat>>)
    | DoExit(proc: nat)

  function Bump(counts: seq<nat>, o: Id): seq<nat> {
    if o < |counts| then counts[o := counts[o] + 1] else counts
  }

  function Unbump(counts: seq<nat>, o: Id): seq<nat> {
    if o < |counts| && counts[o] > 0 then counts[o := counts[o] - 1] else counts
  }

  ghost function AddAll(counts: seq<nat>, m: Slots): seq<nat> {
    seq(|counts|, o requires 0 <= o < |counts| => counts[o] + Count(m, o))
  }

  ghost function SubAll(counts: seq<nat>, m: Slots): seq<nat> {
    seq(|counts|, o requires 0 <= o < |counts| => if counts[o] >= Count(m, o) then counts[o] - Count(m, o) else 0)
  }

  function Alloc(s: State, p: nat, o: Id, inherit: bool, i: nat): State {
    if p >= |s.tables| || o >= |s.counts| || i >= MAX_ENTRIES || !IsLowest(s.tables[p], i) then s
    else State(s.tables[p := Put(s.tables[p], i, Entry(Some(o), inherit, false))], Bump(s.counts, o))
  }

  function Flag(s: State, p: nat, h: nat, inherit: bool, protect: bool): State {
    if p >= |s.tables| || Lookup(s.tables[p], h).None? then s
    else
      var i: nat := ToIndex(h);
      s.(tables := s.tables[p := Put(s.tables[p], i, Entry(s.tables[p][i].ptr, inherit, protect))])
  }

  /** close_handle refuses an unknown or protected handle, and one the object wants to keep. */
  predicate Closable(m: Slots, h: nat, veto: bool) {
    var r := Lookup(m, h);
    r.Some? && !r.value.protect && !veto && r.value.ptr.Some?
  }

  function Close(s: State, p: nat, h: nat, veto: bool): State {
    if p >= |s.tables| || !Closable(s.tables[p], h, veto) then s
    else
      var i: nat := ToIndex(h);
      State(s.tables[p := Without(s.tables[p], i)], Unbump(s.counts, s.tables[p][i].ptr.value))
  }

  ghost function Apply(s: State, op: Op): State {
    match op
    case NewObject => s.(counts := s.counts + [0])
    case NewProcess => s.(tables := s.tables + [map[]])
    case DoAlloc(p, o, inherit, i) => Alloc(s, p, o, inherit, i)
    case SetFlags(p, h, inherit, protect) => Flag(s, p, h, inherit, protect)
    case DoClose(p, h, veto) => Close(s, p, h, veto)
    case DoCopy(p, listed) =>
      if p >= |s.tables| then s
      else var m := Inherited(s.tables[p], listed); State(s.tables + [m], AddAll(s.counts, m))
    case DoExit(p) =>
      if p >= |s.tables| then s
      else State(s.tables[p := map[]], SubAll(s.counts, s.tables[p]))
  }

  ghost function Run(s: State, ops: seq<Op>): State
    decreases |ops|
  {
    if ops == [] then s else Run(Apply(s, ops[0]), ops[1..])
  }

  /** Handles to o over all processes. */
  ghost function Total(tables: seq<Slots>, o: Id): nat {
    if tables == [] then 0 else Count(tables[0], o) + Total(tables[1..], o)
  }

  lemma {:induction false} TotalAppend(tables: seq<Slots>, m: Slots, o: Id)
    ensures Total(tables + [m], o) == Total(tables, o) + Count(m, o)
  {
    if tables == [] {
      assert tables + [m] == [m] && [m][1..] == [];
    } else {
      assert (tables + [m])[1..] == tables[1..] + [m];
      TotalAppend(tables[1..], m, o);
    }
  }

  lemma {:induction false} TotalUpdate(tables: seq<Slots>, p: nat, m: Slots, o: Id)
    requires p < |tables|
    ensures Total(tables[p := m], o) + Count(tables[p], o) == Total(tables, o) + Count(m, o)
  {
    if p == 0 {
      assert tables[p := m][1..] == tables[1..];
    } else {
      assert tables[p := m][1..] == tables[1..][p - 1 := m];
      TotalUpdate(tables[1..], p - 1, m, o);
    }
  }

  ghost predicate TableOk(s: State, p: nat)
    requires p < |s.tables|
  {
    forall i | i in s.tables[p] :: i < MAX_ENTRIES && s.tables[p][i].ptr.Some? && s.tables[p][i].ptr.value < |s.counts|
  }

  ghost predicate Balanced(s: State, o: Id) {
    Total(s.tables, o) == if o < |s.counts| then s.counts[o] else 0
  }

  ghost predicate Inv(s: State) {
    && (forall p {:trigger TableOk(s, p)} | 0 <= p < |s.tables| :: TableOk(s, p))
    && (forall o {:trigger Balanced(s, o)} :: Balanced(s, o))
  }

  lemma CountEmpty(o: Id)
    ensures Count(map[], o) == 0
  {
    assert Pointing(map[], o) == {};
  }

  lemma ApplyKeepsTables(s: State, op: Op, p: nat)
    requires Inv(s) && p < |Apply(s, op).tables|
    ensures TableOk(Apply(s, op), p)
  {
    if p < |s.tables| { assert TableOk(s, p); }
    if op.DoCopy? && op.proc < |s.tables| { assert TableOk(s, op.proc); }
  }

  lemma AllocKeepsTotal(s: State, p: nat, obj: Id, inherit: bool, i: nat, o: Id)
    requires Balanced(s, o)
    ensures Balanced(Alloc(s, p, obj, inherit, i), o)
  {
    var t := Alloc(s, p, obj, inherit, i);
    if t != s {
      TotalUpdate(s.tables, p, t.tables[p], o);
      CountPut(s.tables[p], i, t.tables[p][i], o);
    }
  }

  lemma FlagKeepsTotal(s: State, p: nat, h: nat, inherit: bool, protect: bool, o: Id)
    requires Balanced(s, o)
    ensures Balanced(Flag(s, p, h, inherit, protect), o)
  {
    var t := Flag(s, p, h, inherit, protect);
    if t != s {
      var i: nat := ToIndex(h);
      TotalUpdate(s.tables, p, t.tables[p], o);
      CountDrop(s.tables[p], i, o);
      CountDrop(t.tables[p], i, o);
      assert Without(t.tables[p], i) == Without(s.tables[p], i);
    }
  }

  /** The assertion in release_object_from_handle: the count it takes one off is not zero. */
  lemma CloseKeepsTotal(s: State, p: nat, h: nat, veto: bool, o: Id)
    requires Balanced(s, o)
    ensures Balanced(Close(s, p, h, veto), o)
    ensures (p < |s.tables| && Closable(s.tables[p], h, veto) && o < |s.counts|
             && Lookup(s.tables[p], h).value.ptr == Some(o)) ==> s.counts[o] > 0
  {
    if p < |s.tables| && Closable(s.tables[p], h, veto) {
      var i: nat := ToIndex(h);
      TotalUpdate(s.tables, p, Without(s.tables[p], i), o);
      CountDrop(s.tables[p], i, o);
    }
  }

  lemma NoneBeyond(s: State, p: nat, m: Slots, o: Id)
    requires p < |s.tables| && TableOk(s, p) && o >= |s.counts|
    requires forall i | i in m :: i in s.tables[p] && m[i] == s.tables[p][i]
    ensures Count(m, o) == 0
  {
    assert Pointing(m, o) == {};
  }

  lemma ApplyKeepsTotal(s: State, op: Op, o: Id)
    requires Inv(s)
    ensures Balanced(Apply(s, op), o)
  {
    assert Balanced(s, o);
    CountEmpty(o);
    match op
    case NewObject =>
    case NewProcess => TotalAppend(s.tables, map[], o);
    case DoAlloc(p, obj, inherit, i) => AllocKeepsTotal(s, p, obj, inherit, i, o);
    case SetFlags(p, h, inherit, protect) => FlagKeepsTotal(s, p, h, inherit, protect, o);
    case DoClose(p, h, veto) => CloseKeepsTotal(s, p, h, veto, o);
    case DoCopy(p, listed) =>
      if p < |s.tables| {
        assert TableOk(s, p);
        TotalAppend(s.tables, Inherited(s.tables[p], listed), o);
        if o >= |s.counts| { NoneBeyond(s, p, Inherited(s.tables[p], listed), o); }
      }
    case DoExit(p) =>
      if p < |s.tables| { TotalUpdate(s.tables, p, map[], o); }
  }

  lemma ApplyKeepsInv(s: State, op: Op)
    requires Inv(s)
    ensures Inv(Apply(s, op))
  {
    var t := Apply(s, op);
    forall p | 0 <= p < |t.tables| ensures TableOk(t, p) { ApplyKeepsTables(s, op, p); }
    forall o ensures Balanced(t, o) { ApplyKeepsTotal(s, op, o); }
  }

  lemma {:induction false} RunKeepsInv(s: State, ops: seq<Op>)
    requires Inv(s)
    ensures Inv(Run(s, ops))
    decreases |ops|
  {
    if ops != [] {
      ApplyKeepsInv(s, ops[0]);
      RunKeepsInv(Apply(s, ops[0]), ops[1..]);
    }
  }

  /** Over every run the handle_count of an object is the number of entries, in all tables,
      that point at it; and no table holds more than MAX_HANDLE_ENTRIES. */
  lemma EveryRunCounts(ops: seq<Op>)
    ensures var s := Run(State([], []), ops);
            && (forall o | 0 <= o < |s.counts| :: s.counts[o] == Total(s.tables, o))
            && (forall p, i | 0 <= p < |s.tables| && i in s.tables[p] ::
                  i < MAX_ENTRIES && s.tables[p][i].ptr.Some? && s.tables[p][i].ptr.value < |s.counts|)
  {
    var s := Run(State([], []), ops);
    RunKeepsInv(State([], []), ops);
    forall o | 0 <= o < |s.counts| ensures s.counts[o] == Total(s.tables, o) { assert Balanced(s, o); }
    forall p, i | 0 <= p < |s.tables| && i in s.tables[p]
      ensures i < MAX_ENTRIES && s.tables[p][i].ptr.Some? && s.tables[p][i].ptr.value < |s.counts|
    {
      assert TableOk(s, p);
    }
  }

  // ---------------------------------------------------------------- what a handle stands for

  /** What entry i of process p holds. */
  function EntryAt(s: State, p: nat, i: nat): Option<Entry> {
    if p < |s.tables| && i in s.tables[p] then Some(s.tables[p][i]) else None
  }

  predicate Names(handle: nat, i: nat) {
    handle / 4 == i + 1
  }

  /** What entry i of process p holds after the step, told from what the entries held before. */
  ghost function EntryAfter(s: State, op: Op, p: nat, i: nat): Option<Entry> {
    var e := EntryAt(s, p, i);
    match op
    case NewObject => e
    case NewProcess => e
    case DoAlloc(q, o, inherit, k) =>
      if q == p < |s.tables| && k == i < MAX_ENTRIES && o < |s.counts|
         && e.None? && (forall j: nat | j < i :: EntryAt(s, p, j).Some?)
      then Some(Entry(Some(o), inherit, false)) else e
    case SetFlags(q, h, inherit, protect) =>
      if q == p && Names(h, i) && e.Some? then Some(Entry(e.value.ptr, inherit, protect)) else e
    case DoClose(q, h, veto) =>
      if q == p && Names(h, i) && e.Some? && !e.value.protect && !veto then None else e
    case DoCopy(q, listed) =>
      var f := EntryAt(s, q, i);
      if p == |s.tables| > q then
        if f.Some? && f.value.inherit && (listed.Some? ==> exists h :: h in listed.value && Names(h, i))
        then f else None
      else e
    case DoExit(q) => if q == p then None else e
  }

  lemma CopyOnEntry(s: State, q: nat, listed: Option<seq<nat>>, i: nat)
    requires q < |s.tables|
    ensures EntryAt(Apply(s, DoCopy(q, listed)), |s.tables|, i) == EntryAfter(s, DoCopy(q, listed), |s.tables|, i)
  {
    assert forall h: nat :: Names(h, i) <==> ToIndex(h) == i;
  }

  /** Every step, and every entry of every process: an entry appears at the lowest free place,
      goes when its handle is closed or its process ends, and is the parent's in a child; nothing
      else changes it. */
  lemma StepOnEntry(s: State, op: Op, p: nat, i: nat)
    requires Inv(s)
    ensures EntryAt(Apply(s, op), p, i) == EntryAfter(s, op, p, i)
  {
    if p < |s.tables| { assert TableOk(s, p); }
    match op
    case DoAlloc(q, o, inherit, k) =>
      if p < |s.tables| {
        assert forall j: nat :: EntryAt(s, p, j).Some? <==> j in s.tables[p];
      }
    case DoCopy(q, listed) => if p == |s.tables| > q { CopyOnEntry(s, q, listed, i); }
    case _ =>
  }

  /** No step of the run closes the handle or ends its process. */
  ghost predicate Undisturbed(ops: seq<Op>, p: nat, i: nat) {
    forall k | 0 <= k < |ops| ::
      !(ops[k].DoExit? && ops[k].proc == p) && !(ops[k].DoClose? && ops[k].proc == p && Names(ops[k].handle, i))
  }

  /** A handle stands for the same object until it is closed or its process ends, whatever else
      happens, in this process or in any other. */
  lemma {:induction false} HandleStays(s: State, ops: seq<Op>, p: nat, i: nat)
    requires Inv(s) && EntryAt(s, p, i).Some? && Undisturbed(ops, p, i)
    ensures EntryAt(Run(s, ops), p, i).Some? && EntryAt(Run(s, ops), p, i).value.ptr == EntryAt(s, p, i).value.ptr
    decreases |ops|
  {
    if ops != [] {
      var t := Apply(s, ops[0]);
      StepOnEntry(s, ops[0], p, i);
      ApplyKeepsInv(s, ops[0]);
      HandleStays(t, ops[1..], p, i);
    }
  }

  // ---------------------------------------------------------------- the array

  lemma SlotsPut(a: seq<Entry>, n: nat, i: nat, e: Entry)
    requires i < n <= |a|
    ensures SlotsOf(a[i := e], n) == if e.ptr.Some? then Put(SlotsOf(a, n), i, e) else Without(SlotsOf(a, n), i)
  {
  }

  /** One more entry in view. */
  lemma SlotsNext(a: seq<Entry>, n: nat)
    requires n < |a|
    ensures SlotsOf(a, n + 1) == if a[n].ptr.Some? then Put(SlotsOf(a, n), n, a[n]) else SlotsOf(a, n)
  {
  }

  lemma SlotsPrefix(a: seq<Entry>, b: seq<Entry>, n: nat)
    requires n <= |a| && n <= |b| && a[..n] == b[..n]
    ensures SlotsOf(a, n) == SlotsOf(b, n)
  {
    assert forall i | 0 <= i < n :: a[i] == a[..n][i] && b[i] == b[..n][i];
  }

  /** Fill entry i of the first n, or the one behind them. */
  lemma FillSlots(a: seq<Entry>, n: nat, i: nat, e: Entry)
    requires i <= n <= |a| && i < |a| && e.ptr.Some?
    ensures SlotsOf(a[i := e], if i == n then n + 1 else n) == Put(SlotsOf(a, n), i, e)
  {
    if i == n {
      SlotsPrefix(a, a[i := e], n);
      SlotsNext(a[i := e], n);
    } else {
      SlotsPut(a, n, i, e);
    }
  }

  lemma LowestFull(a: seq<Entry>, n: nat, i: nat, j: nat)
    requires j < i <= n <= |a| && IsLowest(SlotsOf(a, n), i)
    ensures a[j].ptr.Some?
  {
    assert j in SlotsOf(a, n);
  }

  class Objects {
    var counts: seq<nat>
  }

  datatype Status = Success | InvalidHandle | NotClosable

  /** An entry as a child sees it. */
  function Kept(e: Entry): Entry {
    if e.ptr.Some? && !e.inherit then e.(ptr := None) else e
  }

  ghost predicate Blank(a: seq<Entry>, n: nat) {
    forall i | n <= i < |a| :: a[i].ptr.None?
  }

  lemma SlotsBlank(a: seq<Entry>, n: nat, k: nat)
    requires n <= k <= |a| && Blank(a, n)
    ensures SlotsOf(a, k) == SlotsOf(a, n)
  {
  }

  lemma PlaceSlots(a: seq<Entry>, n: nat, k: nat, index: nat, e: Entry)
    requires n <= k <= |a| && index < k && Blank(a, n) && e.ptr.Some?
    ensures SlotsOf(a[index := e], k) == Put(SlotsOf(a, n), index, e) && Blank(a[index := e], k)
  {
    SlotsBlank(a, n, k);
    SlotsPut(a, k, index, e);
  }

  predicate Adopts(m: Slots, child: Slots, handle: nat) {
    var e := Lookup(m, handle);
    e.Some? && e.value.inherit && ToIndex(handle) !in child
  }

  function Adopt(m: Slots, child: Slots, handle: nat): Slots {
    if Adopts(m, child, handle) then Put(child, ToIndex(handle), Lookup(m, handle).value) else child
  }

  lemma AdoptStep(m: Slots, handles: seq<nat>, h: nat)
    ensures Adopt(m, Inherited(m, Some(handles)), h) == Inherited(m, Some(handles + [h]))
  {
    var a, b := Adopt(m, Inherited(m, Some(handles)), h), Inherited(m, Some(handles + [h]));
    forall i ensures i in a <==> i in b {
      assert (exists g :: g in handles + [h] && ToIndex(g) == i) <==>
             (exists g :: g in handles && ToIndex(g) == i) || ToIndex(h) == i;
    }
  }

  lemma AddNone(counts: seq<nat>)
    ensures AddAll(counts, map[]) == counts
  {
    forall o: Id { CountEmpty(o); }
  }

  lemma AddAllPut(counts: seq<nat>, m: Slots, i: nat, e: Entry)
    requires i !in m && e.ptr.Some?
    ensures AddAll(counts, Put(m, i, e)) == Bump(AddAll(counts, m), e.ptr.value)
  {
    forall o | 0 <= o < |counts| ensures AddAll(counts, Put(m, i, e))[o] == Bump(AddAll(counts, m), e.ptr.value)[o] {
      CountPut(m, i, e, o);
    }
  }

  lemma KeepStep(m: seq<Entry>, a: seq<Entry>, i: nat, counts: seq<nat>)
    requires i < |a| && i < |m| && a[i] == m[i] && SlotsOf(a, i) == Inherited(SlotsOf(m, i), None)
    ensures var b := a[i := Kept(m[i])];
            && SlotsOf(b, i + 1) == Inherited(SlotsOf(m, i + 1), None)
            && AddAll(counts, SlotsOf(b, i + 1)) ==
               if Kept(m[i]).ptr.Some? then Bump(AddAll(counts, SlotsOf(a, i)), m[i].ptr.value)
               else AddAll(counts, SlotsOf(a, i))
  {
    var b := a[i := Kept(m[i])];
    SlotsPrefix(a, b, i);
    SlotsNext(b, i);
    SlotsNext(m, i);
    if Kept(m[i]).ptr.Some? { AddAllPut(counts, SlotsOf(a, i), i, m[i]); }
  }

  class Table {
    var entries: array<Entry>
    var last: int
    var free: nat

    ghost predicate Loose()
      reads this, entries
    {
      && MIN_ENTRIES <= entries.Length <= MAX_ENTRIES
      && -1 <= last < entries.Length && free <= last + 1
      && forall i | 0 <= i < free :: entries[i].ptr.Some?
    }

    ghost predicate Valid()
      reads this, entries
    {
      Loose() && (last >= 0 ==> entries[last].ptr.Some?)
    }

    ghost function Slots(): Slots
      reads this, entries
      requires Loose()
    {
      SlotsOf(entries[..], last + 1)
    }

    /** alloc_handle_table; the entries start out undefined. */
    constructor (count: nat)
      requires count <= MAX_ENTRIES
      ensures last == -1 && free == 0
      ensures Valid() && Slots() == map[] && fresh(entries) &&
              entries.Length == if count < MIN_ENTRIES then MIN_ENTRIES else count
    {
      entries := new Entry[if count < MIN_ENTRIES then MIN_ENTRIES else count];
      last, free := -1, 0;
    }

    /** realloc to a different size, keeping what fits. */
    method Resize(count: nat)
      requires Loose() && MIN_ENTRIES <= count <= MAX_ENTRIES && last < count
      modifies this`entries
      ensures fresh(entries) && entries.Length == count
      ensures forall i | 0 <= i <= last :: entries[i] == old(entries)[i]
      ensures Loose() && Slots() == old(Slots())
    {
      var a := new Entry[count];
      forall i | 0 <= i <= last { a[i] := entries[i]; }
      SlotsPrefix(entries[..], a[..], last + 1);
      entries := a;
    }

    /** get_handle */
    method GetHandle(handle: nat) returns (r: Option<Entry>)
      requires Loose()
      ensures r == Lookup(Slots(), handle)
    {
      var index := ToIndex(handle);
      if index < 0 || index > last || entries[index].ptr.None? { return None; }
      r := Some(entries[index]);
    }

    /** The first free entry, or one past the last. */
    method FindFree() returns (i: nat)
      requires Valid()
      ensures i <= last + 1 && IsLowest(Slots(), i)
    {
      i := free;
      while i <= last
        invariant 0 <= i <= last + 1
        invariant forall j | 0 <= j < i :: entries[j].ptr.Some?
      {
        if entries[i].ptr.None? { break; }
        i := i + 1;
      }
    }

    method Fill(i: nat, e: Entry)
      requires Loose() && i <= last + 1 && i < entries.Length && IsLowest(Slots(), i) && e.ptr.Some?
      requires last >= 0 ==> entries[last].ptr.Some?
      modifies this`last, this`free, entries
      ensures Valid() && Slots() == Put(old(Slots()), i, e)
    {
      ghost var a, n := entries[..], last + 1;
      forall j | 0 <= j < i ensures a[j].ptr.Some? { LowestFull(a, n, i, j); }
      FillSlots(a, n, i, e);
      if i == last + 1 { last := i; }
      free := i + 1;
      entries[i] := e;
      assert entries[..] == a[i := e];
    }

    /** grow_handle_table, when every entry is used. */
    method Grow(reallocOk: bool) returns (ok: bool)
      requires Valid() && IsLowest(Slots(), last + 1) && last + 1 == entries.Length
      modifies this`entries
      ensures Valid() && Slots() == old(Slots()) && (if ok then fresh(entries) else entries == old(entries))
      ensures ok ==> last + 1 < entries.Length
      ensures !ok ==> !reallocOk || forall i | 0 <= i < MAX_ENTRIES :: i in Slots()
    {
      var count := if entries.Length * 2 < MAX_ENTRIES then entries.Length * 2 else MAX_ENTRIES;
      if count == entries.Length || !reallocOk { return false; }
      Resize(count);
      ok := true;
    }

    /** alloc_entry; 0 when no entry can be had. */
    method AllocEntry(objs: Objects, obj: Id, inherit: bool, reallocOk: bool) returns (handle: nat)
      requires Valid()
      modifies this, entries, objs
      ensures Valid() && (entries == old(entries) || fresh(entries))
      ensures handle != 0 ==>
                var i := handle / 4 - 1;
                && i >= 0 && handle == ToHandle(i) && i < MAX_ENTRIES && IsLowest(old(Slots()), i)
                && Slots() == Put(old(Slots()), i, Entry(Some(obj), inherit, false))
                && objs.counts == Bump(old(objs.counts), obj)
      ensures handle == 0 ==>
                && Slots() == old(Slots()) && objs.counts == old(objs.counts)
                && (!reallocOk || forall i | 0 <= i < MAX_ENTRIES :: i in Slots())
    {
      var i := FindFree();
      if i >= entries.Length {
        var ok := Grow(reallocOk);
        if !ok { return 0; }
      }
      Fill(i, Entry(Some(obj), inherit, false));
      objs.counts := Bump(objs.counts, obj);
      handle := ToHandle(i);
    }

    /** shrink_handle_table */
    method Shrink(reallocOk: bool)
      requires Loose()
      modifies this`last, this`entries
      ensures Valid() && Slots() == old(Slots()) && free == old(free) && (entries == old(entries) || fresh(entries))
    {
      while last >= 0
        invariant Loose() && entries == old(entries) && free == old(free) && last <= old(last)
        invariant entries[..] == old(entries[..]) && Slots() == old(Slots())
      {
        if entries[last].ptr.Some? { break; }
        SlotsNext(entries[..], last);
        last := last - 1;
      }
      if last >= entries.Length / 4 || entries.Length < MIN_ENTRIES * 2 || !reallocOk { return; }
      Resize(entries.Length / 2);
    }

    method Clear(index: nat)
      requires Valid() && index <= last
      modifies this`free, entries
      ensures Loose() && Slots() == Without(old(Slots()), index)
      ensures index < last ==> Valid()
    {
      SlotsPut(entries[..], last + 1, index, entries[index].(ptr := None));
      entries[index] := entries[index].(ptr := None);
      if index < free { free := index; }
    }

    /** close_handle; `veto` is the answer of the object's own close_handle operation. */
    method CloseHandle(objs: Objects, handle: nat, veto: bool, reallocOk: bool) returns (status: Status)
      requires Valid()
      modifies this, entries, objs
      ensures Valid() && (entries == old(entries) || fresh(entries))
      ensures status == (if Lookup(old(Slots()), handle).None? then InvalidHandle
                         else if Closable(old(Slots()), handle, veto) then Success else NotClosable)
      ensures status == Success ==>
                var i := handle / 4 - 1;
                && i >= 0 && i in old(Slots()) && Slots() == Without(old(Slots()), i)
                && objs.counts == Unbump(old(objs.counts), old(Slots())[i].ptr.value)
      ensures status != Success ==> Slots() == old(Slots()) && objs.counts == old(objs.counts)
    {
      var r := GetHandle(handle);
      if r.None? { return InvalidHandle; }
      if r.value.protect || veto { return NotClosable; }
      var index: nat := ToIndex(handle);
      Clear(index);
      if index == last { Shrink(reallocOk); }
      objs.counts := Unbump(objs.counts, r.value.ptr.value);
      return Success;
    }

    /** Write an entry beyond or before the last one; what lies beyond is blank. */
    method Place(index: nat, e: Entry)
      requires Loose() && free == 0 && index < entries.Length && e.ptr.Some? && Blank(entries[..], last + 1)
      modifies this`last, entries
      ensures Loose() && Slots() == Put(old(Slots()), index, e) && Blank(entries[..], last + 1)
    {
      var n := if last > index then last else index;
      ghost var a := entries[..];
      PlaceSlots(a, last + 1, n + 1, index, e);
      last := n;
      entries[index] := e;
      assert entries[..] == a[index := e];
    }

    /** inherit_handle, into a child table with as many entries as the parent's. */
    method InheritHandle(objs: Objects, parent: Table, handle: nat)
      requires Loose() && parent.Loose() && parent.entries != entries && parent.entries.Length <= entries.Length
      requires free == 0 && Blank(entries[..], last + 1)
      modifies this`last, entries, objs
      ensures Loose() && Blank(entries[..], last + 1)
      ensures Slots() == Adopt(parent.Slots(), old(Slots()), handle)
      ensures objs.counts == if Adopts(parent.Slots(), old(Slots()), handle)
                             then Bump(old(objs.counts), Lookup(parent.Slots(), handle).value.ptr.value)
                             else old(objs.counts)
    {
      var src := parent.GetHandle(handle);
      if src.None? || !src.value.inherit { return; }
      var index: nat := ToIndex(handle);
      assert index in Slots() <==> entries[index].ptr.Some?;
      if entries[index].ptr.Some? { return; }
      objs.counts := Bump(objs.counts, src.value.ptr.value);
      Place(index, src.value);
    }

    /** The listed handles, into a table that was cleared. */
    method InheritList(objs: Objects, parent: Table, handles: seq<nat>)
      requires Loose() && parent.Loose() && parent.entries != entries && parent.entries.Length <= entries.Length
      requires parent != this && free == 0 && Blank(entries[..], last + 1) && Slots() == map[]
      modifies this`last, entries, objs
      ensures Loose() && Slots() == Inherited(parent.Slots(), Some(handles))
      ensures objs.counts == AddAll(old(objs.counts), Slots())
    {
      ghost var m := parent.Slots();
      AddNone(objs.counts);
      for k := 0 to |handles|
        invariant Loose() && free == 0 && Blank(entries[..], last + 1) && entries == old(entries)
        invariant parent.Loose() && parent.Slots() == m
        invariant Slots() == Inherited(m, Some(handles[..k])) && objs.counts == AddAll(old(objs.counts), Slots())
      {
        AdoptStep(m, handles[..k], handles[k]);
        assert handles[..k + 1] == handles[..k] + [handles[k]];
        if Adopts(m, Slots(), handles[k]) {
          AddAllPut(old(objs.counts), Slots(), ToIndex(handles[k]), m[ToIndex(handles[k])]);
        }
        InheritHandle(objs, parent, handles[k]);
      }
      assert handles[..|handles|] == handles;
    }

    method KeepOrBlank(objs: Objects, i: nat)
      requires i < entries.Length
      modifies entries, objs
      ensures entries[..] == old(entries[..])[i := Kept(old(entries[i]))]
      ensures objs.counts ==
              if Kept(old(entries[i])).ptr.Some? then Bump(old(objs.counts), old(entries[i]).ptr.value)
              else old(objs.counts)
    {
      if entries[i].ptr.Some? {
        if entries[i].inherit {
          objs.counts := Bump(objs.counts, entries[i].ptr.value);
        } else {
          entries[i] := entries[i].(ptr := None);
        }
      }
    }

    method CopyEntries(parent: Table)
      requires parent.Loose() && parent.entries != entries && parent.entries.Length <= entries.Length
      modifies this`last, entries
      ensures last == parent.last && forall i | 0 <= i <= last :: entries[i] == parent.entries[i]
    {
      last := parent.last;
      forall i | 0 <= i <= last { entries[i] := parent.entries[i]; }
    }

    /** Blank the entries that are not inheritable and count the others. */
    method Prune(objs: Objects)
      requires -1 <= last < entries.Length
      modifies entries, objs
      ensures SlotsOf(entries[..], last + 1) == Inherited(SlotsOf(old(entries[..]), last + 1), None)
      ensures objs.counts == AddAll(old(objs.counts), SlotsOf(entries[..], last + 1))
    {
      ghost var m, a, counts := entries[..], entries[..], objs.counts;
      AddNone(counts);
      for i := 0 to last + 1
        invariant entries[..] == a && |a| == |m| && forall k | i <= k < |m| :: a[k] == m[k]
        invariant SlotsOf(a, i) == Inherited(SlotsOf(m, i), None)
        invariant objs.counts == AddAll(counts, SlotsOf(a, i))
      {
        KeepStep(m, a, i, counts);
        KeepOrBlank(objs, i);
        a := a[i := Kept(m[i])];
      }
    }

    /** Every inheritable entry: copy them all, then drop the others. */
    method InheritAll(objs: Objects, parent: Table)
      requires Loose() && parent.Loose() && parent.entries != entries && parent.entries.Length <= entries.Length
      requires parent != this && free == 0
      modifies this`last, entries, objs
      ensures Loose() && Slots() == Inherited(parent.Slots(), None)
      ensures objs.counts == AddAll(old(objs.counts), Slots())
    {
      CopyEntries(parent);
      SlotsPrefix(entries[..], parent.entries[..], last + 1);
      Prune(objs);
    }
  }

  /** copy_handle_table, with the three standard handles behind the listed ones. */
  method CopyHandleTable(objs: Objects, parent: Table, listed: Option<seq<nat>>, std: seq<nat>,
                         allocOk: bool, reallocOk: bool)
    returns (r: Option<Table>)
    requires parent.Valid()
    modifies objs
    ensures r.None? <==> !allocOk
    ensures r.None? ==> objs.counts == old(objs.counts)
    ensures r.Some? ==>
              var t := r.value;
              && t.Valid() && fresh(t) && fresh(t.entries)
              && t.Slots() == Inherited(parent.Slots(), if listed.Some? then Some(listed.value + std) else None)
              && objs.counts == AddAll(old(objs.counts), t.Slots())
  {
    if !allocOk { return None; }
    var t := new Table(parent.entries.Length);
    if listed.Some? {
      forall i | 0 <= i < t.entries.Length { t.entries[i] := Entry(None, false, false); }
      t.InheritList(objs, parent, listed.value + std);
    } else {
      t.InheritAll(objs, parent);
    }
    t.Shrink(reallocOk);
    r := Some(t);
  }
}
