/** Objects in the memory the server shares with its clients (server/mapping.c): blocks that
    are filled from the bottom, a list of freed objects for reuse, and an id and a sequence
    number that readers check.

    Blocks and objects are numbered in the order they are made.  The field `uses` of an object
    only counts how often its place was allocated.
 */
module SharedObjects {

  import opened Options

  type Id = nat

  datatype Block = Block(offset: nat, used: nat, size: nat)

  /** A place carved from a block; `id` is 0 while it is free. */
  datatype Object = Object(block: Id, base: nat, size: nat, id: nat, seqno: nat, uses: nat)

  datatype State = State(blocks: seq<Block>, objects: seq<Object>, free: seq<Id>, lastId: nat)

  /** Sizes of the structures: the part of an object before its shared data, and the smallest
      shared data; the system's page size; where the shared part starts in an object. */
  datatype Layout = Layout(head: nat, shm: nat, page: nat, start: nat)

  ghost predicate Sane(y: Layout) {
    y.head > 0 && y.page > 0
  }

  // ---------------------------------------------------------------- the operations

  function Max(a: nat, b: nat): nat { if a > b then a else b }

  function Round(size: nat, page: nat): nat
    requires page > 0
  {
    (size + (page - 1)) / page * page
  }

  function MapSize(blocks: seq<Block>): nat {
    if blocks == [] then 0 else blocks[|blocks| - 1].offset + blocks[|blocks| - 1].size
  }

  /** set_session_mapping: the first block starts with the session header. */
  function Start(size: nat, header: nat): State {
    State([Block(0, header, size)], [], [], 0)
  }

  function GrownSize(old': nat, needed: nat, page: nat): nat
    requires page > 0
  {
    Round(Max(old' * 3 / 2, old' + Max(needed, 0x1_0000)), page)
  }

  /** grow_session_mapping */
  function Grow(s: State, needed: nat, page: nat): State
    requires page > 0
  {
    var size := MapSize(s.blocks);
    var more := GrownSize(size, needed, page);
    s.(blocks := s.blocks + [Block(size, 0, if more > size then more - size else 0)])
  }

  predicate HasRoom(b: Block, size: nat) {
    size < b.size && b.used < b.size - size
  }

  function FindBlock(blocks: seq<Block>, size: nat): (k: nat)
    ensures k <= |blocks| && (k < |blocks| ==> HasRoom(blocks[k], size))
    ensures forall j | 0 <= j < k :: !HasRoom(blocks[j], size)
  {
    if blocks == [] || HasRoom(blocks[0], size) then 0 else FindBlock(blocks[1..], size) + 1
  }

  predicate Fits(o: Object, size: nat, least: nat) {
    (size == least && o.size == size) || (size > least && size <= o.size)
  }

  function FindFree(objects: seq<Object>, free: seq<Id>, size: nat, least: nat): (k: nat)
    ensures k <= |free| && (k < |free| ==> free[k] < |objects| && Fits(objects[free[k]], size, least))
    ensures forall j | 0 <= j < k :: free[j] >= |objects| || !Fits(objects[free[j]], size, least)
  {
    if free == [] || (free[0] < |objects| && Fits(objects[free[0]], size, least)) then 0
    else FindFree(objects, free[1..], size, least) + 1
  }

  /** Place a new object at the end of what block k uses. */
  function Carve(s: State, k: Id, size: nat): State
    requires k < |s.blocks|
  {
    var b := s.blocks[k];
    s.(blocks := s.blocks[k := b.(used := b.used + size)],
       objects := s.objects + [Object(k, b.offset + b.used, size, 0, 0, 0)])
  }

  /** A write section that gives the object a new id. */
  function Rename(s: State, o: Id): State
    requires o < |s.objects|
  {
    s.(objects := s.objects[o := s.objects[o].(id := s.lastId + 1, seqno := s.objects[o].seqno + 2)],
       lastId := s.lastId + 1)
  }

  function Use(s: State, o: Id): State
    requires o < |s.objects|
  {
    Rename(s.(objects := s.objects[o := s.objects[o].(uses := s.objects[o].uses + 1)]), o)
  }

  /** alloc_shared_object */
  function Alloc(s: State, y: Layout, shmSize: nat, growOk: bool): (State, Option<Id>)
    requires y.page > 0
  {
    var size := y.head + Max(shmSize, y.shm);
    var k := FindFree(s.objects, s.free, size, y.head + y.shm);
    if k < |s.free| then
      (Use(s.(free := s.free[..k] + s.free[k + 1..]), s.free[k]), Some(s.free[k]))
    else
      var b := FindBlock(s.blocks, size);
      if b < |s.blocks| then (Use(Carve(s, b, size), |s.objects|), Some(|s.objects|))
      else if !growOk then (s, None)
      else (Use(Carve(Grow(s, size, y.page), b, size), |s.objects|), Some(|s.objects|))
  }

  /** free_shared_object, on an object in use. */
  function Free(s: State, o: Id): State {
    if o >= |s.objects| || s.objects[o].id == 0 then s
    else s.(objects := s.objects[o := s.objects[o].(id := 0, seqno := s.objects[o].seqno + 2)], free := s.free + [o])
  }

  /** invalidate_shared_object, on an object in use. */
  function Invalidate(s: State, o: Id): State {
    if o >= |s.objects| || s.objects[o].id == 0 then s else Rename(s, o)
  }

  datatype Op = DoAlloc(size: nat, growOk: bool) | DoFree(obj: Id) | DoInvalidate(obj: Id)

  function Apply(s: State, y: Layout, op: Op): State
    requires y.page > 0
  {
    match op
    case DoAlloc(size, growOk) => Alloc(s, y, size, growOk).0
    case DoFree(o) => Free(s, o)
    case DoInvalidate(o) => Invalidate(s, o)
  }

  function Run(s: State, y: Layout, ops: seq<Op>): State
    requires y.page > 0
    decreases |ops|
  {
    if ops == [] then s else Run(Apply(s, y, ops[0]), y, ops[1..])
  }

  // ---------------------------------------------------------------- the invariant

  /** Block k starts where the one before it ends, and is not used beyond its size. */
  predicate BlockOk(blocks: seq<Block>, k: nat)
    requires k < |blocks|
  {
    && blocks[k].offset == (if k == 0 then 0 else blocks[k - 1].offset + blocks[k - 1].size)
    && blocks[k].used <= blocks[k].size
  }

  ghost predicate Tiled(blocks: seq<Block>) {
    forall k {:trigger BlockOk(blocks, k)} | 0 <= k < |blocks| :: BlockOk(blocks, k)
  }

  predicate Inside(blocks: seq<Block>, o: Object) {
    && o.block < |blocks| && o.size > 0
    && blocks[o.block].offset <= o.base && o.base + o.size <= blocks[o.block].offset + blocks[o.block].used
  }

  predicate Apart(a: Object, b: Object) {
    a.base + a.size <= b.base || b.base + b.size <= a.base
  }

  predicate ObjectOk(s: State, o: Id)
    requires o < |s.objects|
  {
    && Inside(s.blocks, s.objects[o])
    && s.objects[o].seqno % 2 == 0 && s.objects[o].id <= s.lastId
    && (s.objects[o].id == 0 <==> o in s.free)
  }

  predicate PairOk(objects: seq<Object>, i: Id, j: Id) {
    i < j < |objects| ==> Apart(objects[i], objects[j]) && (objects[i].id == objects[j].id ==> objects[i].id == 0)
  }

  ghost predicate Inv(s: State) {
    && s.blocks != [] && Tiled(s.blocks)
    && (forall o {:trigger ObjectOk(s, o)} | 0 <= o < |s.objects| :: ObjectOk(s, o))
    && (forall i, j {:trigger PairOk(s.objects, i, j)} :: PairOk(s.objects, i, j))
    && (forall o | o in s.free :: o < |s.objects|)
    && (forall i, j | 0 <= i < j < |s.free| :: s.free[i] != s.free[j])
  }

  // ---------------------------------------------------------------- each step keeps it

  lemma RoundUp(size: nat, page: nat)
    requires page > 0
    ensures Round(size, page) >= size
  {
    var x := size + (page - 1);
    assert x == x / page * page + x % page;
  }

  /** The assertion in grow_session_mapping, and the new block is large enough. */
  lemma GrowsEnough(size: nat, needed: nat, page: nat)
    requires page > 0
    ensures GrownSize(size, needed, page) >= size + needed && GrownSize(size, needed, page) > size
  {
    RoundUp(Max(size * 3 / 2, size + Max(needed, 0x1_0000)), page);
  }

  lemma {:induction false} BlocksOrdered(blocks: seq<Block>, i: nat, j: nat)
    requires Tiled(blocks) && i < j < |blocks|
    ensures blocks[i].offset + blocks[i].size <= blocks[j].offset
    decreases j
  {
    assert BlockOk(blocks, j);
    if i < j - 1 { BlocksOrdered(blocks, i, j - 1); }
  }

  lemma GrowKeepsInv(s: State, needed: nat, page: nat)
    requires Inv(s) && page > 0
    ensures Inv(Grow(s, needed, page))
    ensures var t := Grow(s, needed, page); t.blocks[|s.blocks|].used == 0 && t.blocks[|s.blocks|].size >= needed
  {
    var t := Grow(s, needed, page);
    GrowsEnough(MapSize(s.blocks), needed, page);
    forall k | 0 <= k < |t.blocks| ensures BlockOk(t.blocks, k) {
      if k < |s.blocks| { assert BlockOk(s.blocks, k); }
    }
    forall o | 0 <= o < |t.objects| ensures ObjectOk(t, o) { assert ObjectOk(s, o); }
  }

  /** What is carved from the unused end of a block meets no other object. */
  lemma CarvedApart(s: State, k: Id, size: nat, o: Id)
    requires Inv(s) && k < |s.blocks| && s.blocks[k].used + size <= s.blocks[k].size && o < |s.objects|
    ensures Apart(s.objects[o], Object(k, s.blocks[k].offset + s.blocks[k].used, size, 0, 0, 0))
  {
    assert ObjectOk(s, o) && BlockOk(s.blocks, k);
    var b := s.objects[o].block;
    assert BlockOk(s.blocks, b);
    if b < k { BlocksOrdered(s.blocks, b, k); } else if k < b { BlocksOrdered(s.blocks, k, b); }
  }

  /** A freshly carved object is used at once. */
  function CarveAndUse(s: State, k: Id, size: nat): State
    requires k < |s.blocks|
  {
    Use(Carve(s, k, size), |s.objects|)
  }

  lemma CarveKeepsInv(s: State, k: Id, size: nat)
    requires Inv(s) && k < |s.blocks| && size > 0 && s.blocks[k].used + size <= s.blocks[k].size
    ensures Inv(CarveAndUse(s, k, size))
  {
    var t, n := CarveAndUse(s, k, size), |s.objects|;
    forall j | 0 <= j < |t.blocks| ensures BlockOk(t.blocks, j) { assert BlockOk(s.blocks, j); }
    forall o | 0 <= o < |t.objects| ensures ObjectOk(t, o) {
      if o < n { assert ObjectOk(s, o); }
    }
    forall i: Id, j: Id ensures PairOk(t.objects, i, j) {
      assert PairOk(s.objects, i, j);
      if i < j && j == n {
        assert ObjectOk(s, i);
        CarvedApart(s, k, size, i);
      }
    }
  }

  /** Giving object o a new id, when it is not on the free list. */
  lemma RenameKeepsInv(s: State, o: Id)
    requires Inv(s) && o < |s.objects| && s.objects[o].id != 0
    ensures Inv(Rename(s, o))
  {
    var t := Rename(s, o);
    forall x | 0 <= x < |t.objects| ensures ObjectOk(t, x) { assert ObjectOk(s, x); }
    forall i: Id, j: Id ensures PairOk(t.objects, i, j) {
      assert PairOk(s.objects, i, j);
      if i < j < |s.objects| { assert ObjectOk(s, i) && ObjectOk(s, j); }
    }
  }

  lemma FreeKeepsInv(s: State, o: Id)
    requires Inv(s)
    ensures Inv(Free(s, o))
  {
    var t := Free(s, o);
    if t != s {
      forall x | 0 <= x < |t.objects| ensures ObjectOk(t, x) { assert ObjectOk(s, x); }
      forall i: Id, j: Id ensures PairOk(t.objects, i, j) { assert PairOk(s.objects, i, j); }
      assert ObjectOk(s, o);
    }
  }

  lemma Cut(q: seq<Id>, k: nat, x: Id)
    requires k < |q| && forall i, j | 0 <= i < j < |q| :: q[i] != q[j]
    ensures x in q[..k] + q[k + 1..] <==> x in q && x != q[k]
    ensures var r := q[..k] + q[k + 1..]; forall i, j | 0 <= i < j < |r| :: r[i] != r[j]
  {
    var r := q[..k] + q[k + 1..];
    if x in q && x != q[k] {
      var i :| 0 <= i < |q| && q[i] == x;
      assert r[if i < k then i else i - 1] == x;
    }
  }

  function Reuse(s: State, k: nat): State
    requires k < |s.free| && s.free[k] < |s.objects|
  {
    Use(s.(free := s.free[..k] + s.free[k + 1..]), s.free[k])
  }

  lemma ReuseKeepsInv(s: State, k: nat)
    requires Inv(s) && k < |s.free| && s.free[k] < |s.objects|
    ensures Inv(Reuse(s, k))
  {
    var t, o := Reuse(s, k), s.free[k];
    forall x | 0 <= x < |t.objects| ensures ObjectOk(t, x) {
      assert ObjectOk(s, x);
      Cut(s.free, k, x);
    }
    forall i: Id, j: Id ensures PairOk(t.objects, i, j) {
      assert PairOk(s.objects, i, j);
      if i < j < |s.objects| { assert ObjectOk(s, i) && ObjectOk(s, j); }
    }
    forall x | x in t.free ensures x < |t.objects| { Cut(s.free, k, x); }
    Cut(s.free, k, 0);
  }

  lemma AllocKeepsInv(s: State, y: Layout, shmSize: nat, growOk: bool)
    requires Inv(s) && Sane(y)
    ensures Inv(Alloc(s, y, shmSize, growOk).0)
  {
    var size := y.head + Max(shmSize, y.shm);
    var k := FindFree(s.objects, s.free, size, y.head + y.shm);
    var b := FindBlock(s.blocks, size);
    if k < |s.free| {
      ReuseKeepsInv(s, k);
    } else if b < |s.blocks| {
      CarveKeepsInv(s, b, size);
    } else {
      GrowKeepsInv(s, size, y.page);
      CarveKeepsInv(Grow(s, size, y.page), b, size);
    }
  }

  lemma ApplyKeepsInv(s: State, y: Layout, op: Op)
    requires Inv(s) && Sane(y)
    ensures Inv(Apply(s, y, op))
  {
    match op
    case DoAlloc(size, growOk) => AllocKeepsInv(s, y, size, growOk);
    case DoFree(o) => FreeKeepsInv(s, o);
    case DoInvalidate(o) => if o < |s.objects| && s.objects[o].id != 0 { RenameKeepsInv(s, o); }
  }

  lemma {:induction false} RunKeepsInv(s: State, y: Layout, ops: seq<Op>)
    requires Inv(s) && Sane(y)
    ensures Inv(Run(s, y, ops))
    decreases |ops|
  {
    if ops != [] {
      ApplyKeepsInv(s, y, ops[0]);
      RunKeepsInv(Apply(s, y, ops[0]), y, ops[1..]);
    }
  }

  /** The first block keeps its header, and no object of that block lies in it. */
  ghost predicate HeaderKept(s: State, header: nat) {
    && s.blocks != [] && s.blocks[0].used >= header
    && (forall o | 0 <= o < |s.objects| && s.objects[o].block == 0 :: s.objects[o].base >= header)
  }

  lemma ApplyKeepsHeader(s: State, y: Layout, op: Op, header: nat)
    requires Sane(y) && HeaderKept(s, header) && s.blocks[0].offset == 0
    ensures HeaderKept(Apply(s, y, op), header)
  {
  }

  lemma {:induction false} RunKeepsHeader(s: State, y: Layout, ops: seq<Op>, header: nat)
    requires Inv(s) && Sane(y) && HeaderKept(s, header)
    ensures HeaderKept(Run(s, y, ops), header)
    decreases |ops|
  {
    if ops != [] {
      assert BlockOk(s.blocks, 0);
      ApplyKeepsInv(s, y, ops[0]);
      ApplyKeepsHeader(s, y, ops[0], header);
      RunKeepsHeader(Apply(s, y, ops[0]), y, ops[1..], header);
    }
  }

  lemma ClearOfHeader(s: State, o: Id, header: nat)
    requires Inv(s) && HeaderKept(s, header) && o < |s.objects|
    ensures s.objects[o].base >= header
  {
    assert ObjectOk(s, o) && BlockOk(s.blocks, 0);
    if s.objects[o].block > 0 { BlocksOrdered(s.blocks, 0, s.objects[o].block); }
  }

  lemma ReachableInv(y: Layout, size: nat, header: nat, ops: seq<Op>)
    requires Sane(y) && header <= size
    ensures Inv(Run(Start(size, header), y, ops)) && HeaderKept(Run(Start(size, header), y, ops), header)
  {
    var s0 := Start(size, header);
    assert BlockOk(s0.blocks, 0);
    RunKeepsInv(s0, y, ops);
    RunKeepsHeader(s0, y, ops, header);
  }

  /** Over every run: blocks tile the mapping, and every object ever carved lies in the used
      part of its block and clear of the session header, with an even sequence number. */
  lemma EveryRunObject(y: Layout, size: nat, header: nat, ops: seq<Op>, i: Id)
    requires Sane(y) && header <= size
    ensures var s := Run(Start(size, header), y, ops);
            && Tiled(s.blocks)
            && (i < |s.objects| ==>
                  && Inside(s.blocks, s.objects[i]) && s.objects[i].base >= header
                  && s.objects[i].seqno % 2 == 0 && (s.objects[i].id == 0 <==> i in s.free))
  {
    var s := Run(Start(size, header), y, ops);
    ReachableInv(y, size, header, ops);
    if i < |s.objects| {
      ClearOfHeader(s, i, header);
      assert ObjectOk(s, i);
    }
  }

  /** Over every run: objects are apart from each other, and two in use never have the same id. */
  lemma EveryRun(y: Layout, size: nat, header: nat, ops: seq<Op>, i: Id, j: Id)
    requires Sane(y) && header <= size && i < j < |Run(Start(size, header), y, ops).objects|
    ensures var s := Run(Start(size, header), y, ops);
            && Apart(s.objects[i], s.objects[j])
            && (s.objects[i].id != 0 && s.objects[j].id != 0 ==> s.objects[i].id != s.objects[j].id)
  {
    ReachableInv(y, size, header, ops);
    assert PairOk(Run(Start(size, header), y, ops).objects, i, j);
  }

  // ---------------------------------------------------------------- locators

  /** What a client keeps to find an object again. */
  datatype Locator = Locator(offset: nat, id: nat)

  function LocatorOf(s: State, y: Layout, o: Id): Locator
    requires o < |s.objects|
  {
    Locator(s.objects[o].base + y.start, s.objects[o].id)
  }

  /** Nothing that was carved moves; an id is either kept, with the use it was given for, or
      is newer than every id before. */
  ghost predicate Later(s: State, t: State) {
    && |s.objects| <= |t.objects| && s.lastId <= t.lastId
    && (forall o | 0 <= o < |s.objects| ::
          t.objects[o].base == s.objects[o].base && t.objects[o].size == s.objects[o].size)
    && (forall o | 0 <= o < |t.objects| ::
          t.objects[o].id == 0 || t.objects[o].id > s.lastId
          || (o < |s.objects| && t.objects[o].id == s.objects[o].id && t.objects[o].uses == s.objects[o].uses))
  }

  lemma ApplyLater(s: State, y: Layout, op: Op)
    requires Sane(y)
    ensures Later(s, Apply(s, y, op))
  {
  }

  lemma LaterTrans(r: State, s: State, t: State)
    requires Later(r, s) && Later(s, t)
    ensures Later(r, t)
  {
    forall o | 0 <= o < |t.objects|
      ensures t.objects[o].id == 0 || t.objects[o].id > r.lastId
              || (o < |r.objects| && t.objects[o].id == r.objects[o].id && t.objects[o].uses == r.objects[o].uses)
    {
      if o < |s.objects| { assert s.objects[o].id == 0 || s.objects[o].id > r.lastId || o < |r.objects|; }
    }
  }

  lemma {:induction false} RunLater(s: State, y: Layout, ops: seq<Op>)
    requires Sane(y)
    ensures Later(s, Run(s, y, ops))
    decreases |ops|
  {
    if ops != [] {
      ApplyLater(s, y, ops[0]);
      RunLater(Apply(s, y, ops[0]), y, ops[1..]);
      LaterTrans(s, Apply(s, y, ops[0]), Run(s, y, ops));
    }
  }

  /** A locator taken for an object in use never comes to name anything else, however the
      run goes on: if a later state has an object with that id, it is the same object in the
      same use, at the same place. */
  lemma LocatorsStay(y: Layout, size: nat, header: nat, ops: seq<Op>, more: seq<Op>, o: Id, p: Id)
    requires Sane(y) && header <= size
    requires var s := Run(Start(size, header), y, ops); o < |s.objects| && s.objects[o].id != 0
    requires p < |Run(Run(Start(size, header), y, ops), y, more).objects|
    ensures var s := Run(Start(size, header), y, ops);
            var t := Run(s, y, more);
            t.objects[p].id == s.objects[o].id ==>
              p == o && LocatorOf(t, y, p) == LocatorOf(s, y, o) && t.objects[p].uses == s.objects[o].uses
  {
    var s0 := Start(size, header);
    assert BlockOk(s0.blocks, 0);
    var s := Run(s0, y, ops);
    RunKeepsInv(s0, y, ops);
    RunLater(s, y, more);
    assert ObjectOk(s, o);
    if p < |s.objects| { assert PairOk(s.objects, o, p) && PairOk(s.objects, p, o); }
  }

  /** An allocation that succeeds is at least as large as was asked for, and in use. */
  lemma AllocFits(s: State, y: Layout, shmSize: nat, growOk: bool)
    requires Inv(s) && Sane(y)
    ensures var r := Alloc(s, y, shmSize, growOk);
            && (r.1.Some? ==> r.1.value < |r.0.objects| && r.0.objects[r.1.value].size >= y.head + shmSize
                              && r.0.objects[r.1.value].id == s.lastId + 1)
            && (r.1.None? ==> !growOk && r.0 == s)
  {
  }

  // ---------------------------------------------------------------- what each step does

  predicate FitsAt(s: State, k: nat, size: nat, least: nat)
    requires k < |s.free|
  {
    s.free[k] < |s.objects| && Fits(s.objects[s.free[k]], size, least)
  }

  /** Object o is the first of the free list that fits the size asked for. */
  predicate Reused(s: State, y: Layout, shmSize: nat, o: Id) {
    var size, least := y.head + Max(shmSize, y.shm), y.head + y.shm;
    exists k :: 0 <= k < |s.free| && FitsAt(s, k, size, least) && s.free[k] == o
                && forall j | 0 <= j < k :: !FitsAt(s, j, size, least)
  }

  lemma ReusedOne(s: State, y: Layout, shmSize: nat, o: Id)
    ensures var k := FindFree(s.objects, s.free, y.head + Max(shmSize, y.shm), y.head + y.shm);
            Reused(s, y, shmSize, o) <==> k < |s.free| && s.free[k] == o
  {
    var size, least := y.head + Max(shmSize, y.shm), y.head + y.shm;
    var k := FindFree(s.objects, s.free, size, least);
    assert forall j | 0 <= j < k :: !FitsAt(s, j, size, least);
    if k < |s.free| { assert FitsAt(s, k, size, least); }
  }

  predicate InUse(s: State, o: Id) {
    o < |s.objects| && s.objects[o].id != 0
  }

  predicate Fresh(s: State, y: Layout, op: Op, o: Id) {
    (op.DoAlloc? && Reused(s, y, op.size, o)) || (op == DoInvalidate(o) && InUse(s, o))
  }

  predicate Freed(s: State, op: Op, o: Id) {
    op == DoFree(o) && InUse(s, o)
  }

  lemma AllocOnObject(s: State, y: Layout, shmSize: nat, growOk: bool, o: Id)
    requires Inv(s) && Sane(y) && o < |s.objects|
    ensures var t, c := Alloc(s, y, shmSize, growOk).0, s.objects[o];
            && o < |t.objects|
            && t.objects[o] == if Reused(s, y, shmSize, o)
                               then c.(id := s.lastId + 1, seqno := c.seqno + 2, uses := c.uses + 1) else c
  {
    ReusedOne(s, y, shmSize, o);
  }

  /** What a step does to every object there is: a freed one loses its id, one that is reused or
      invalidated gets a new one, and each of these moves its sequence number on by two. */
  lemma StepOnObject(s: State, y: Layout, op: Op, o: Id)
    requires Inv(s) && Sane(y) && o < |s.objects|
    ensures var t, c := Apply(s, y, op), s.objects[o];
            && o < |t.objects| && t.objects[o].block == c.block && t.objects[o].base == c.base
            && t.objects[o].size == c.size
            && t.objects[o].id == (if Fresh(s, y, op, o) then s.lastId + 1 else if Freed(s, op, o) then 0 else c.id)
            && t.objects[o].seqno == c.seqno + (if Fresh(s, y, op, o) || Freed(s, op, o) then 2 else 0)
            && t.objects[o].uses == c.uses + (if op.DoAlloc? && Reused(s, y, op.size, o) then 1 else 0)
  {
    if op.DoAlloc? { AllocOnObject(s, y, op.size, op.growOk, o); }
  }

  /** What an allocation answers: the first free object that fits; else a new one, in the first
      block with room, or in a new block if there is none and the mapping can grow; else
      nothing. */
  lemma AllocAnswer(s: State, y: Layout, shmSize: nat, growOk: bool)
    requires Inv(s) && Sane(y)
    ensures var (t, r) := Alloc(s, y, shmSize, growOk);
            var size, n := y.head + Max(shmSize, y.shm), |s.objects|;
            var room := exists b :: 0 <= b < |s.blocks| && HasRoom(s.blocks[b], size);
            if r.Some? && r.value < n then Reused(s, y, shmSize, r.value) && |t.objects| == n && t.blocks == s.blocks
            else
              && (forall o | 0 <= o < n :: !Reused(s, y, shmSize, o))
              && (r.Some? <==> room || growOk) && (r.None? ==> t == s)
              && (r.Some? ==>
                    && r.value == n && |t.objects| == n + 1 && t.free == s.free
                    && t.objects[n].size == size && t.objects[n].id == s.lastId + 1
                    && |t.blocks| == |s.blocks| + (if room then 0 else 1)
                    && t.objects[n].block < |t.blocks|
                    && (room ==> HasRoom(s.blocks[t.objects[n].block], size)
                                 && forall b | 0 <= b < t.objects[n].block :: !HasRoom(s.blocks[b], size)))
  {
    var size := y.head + Max(shmSize, y.shm);
    var k := FindFree(s.objects, s.free, size, y.head + y.shm);
    if k < |s.free| { ReusedOne(s, y, shmSize, s.free[k]); }
    forall o | 0 <= o < |s.objects| ensures Reused(s, y, shmSize, o) <==> k < |s.free| && s.free[k] == o {
      ReusedOne(s, y, shmSize, o);
    }
  }

  /** A freed object waits at the end of the free list; nothing else joins it. */
  lemma FreeListExact(s: State, y: Layout, op: Op, o: Id)
    requires Inv(s) && Sane(y) && o < |s.objects|
    ensures var t := Apply(s, y, op);
            && (o in t.free <==> Freed(s, op, o) || (o in s.free && !(op.DoAlloc? && Reused(s, y, op.size, o))))
            && (Freed(s, op, o) ==> t.free == s.free + [o])
  {
    assert ObjectOk(s, o);
    StepOnObject(s, y, op, o);
    ApplyKeepsInv(s, y, op);
    assert ObjectOk(Apply(s, y, op), o);
  }

  /** A reader that finds the sequence number it read before finds the same object in the same
      use: over any run the number never goes down, and stays only if the id and the use do. */
  lemma {:induction false} SeqnoShows(s: State, y: Layout, ops: seq<Op>, o: Id)
    requires Inv(s) && Sane(y) && o < |s.objects|
    ensures var t := Run(s, y, ops);
            && o < |t.objects| && t.objects[o].seqno >= s.objects[o].seqno
            && (t.objects[o].seqno == s.objects[o].seqno ==> t.objects[o] == s.objects[o])
    decreases |ops|
  {
    if ops != [] {
      StepOnObject(s, y, ops[0], o);
      ApplyKeepsInv(s, y, ops[0]);
      SeqnoShows(Apply(s, y, ops[0]), y, ops[1..], o);
    }
  }

  // ---------------------------------------------------------------- the code

  class Session {
    var blocks: seq<Block>
    var objects: seq<Object>
    var free: seq<Id>
    var lastId: nat

    ghost function View(): State
      reads this
    {
      State(blocks, objects, free, lastId)
    }

    constructor (size: nat, header: nat)
      ensures View() == Start(size, header)
    {
      blocks, objects, free, lastId := [Block(0, header, size)], [], [], 0;
    }

    method FindFreeSessionObject(size: nat, least: nat) returns (k: nat)
      ensures k == FindFree(objects, free, size, least)
    {
      k := 0;
      while k < |free|
        invariant 0 <= k <= |free|
        invariant FindFree(objects, free, size, least) == k + FindFree(objects, free[k..], size, least)
      {
        if free[k] < |objects| && Fits(objects[free[k]], size, least) { return; }
        assert free[k..][1..] == free[k + 1..];
        k := k + 1;
      }
    }

    method FindFreeSessionBlock(size: nat) returns (k: nat)
      ensures k == FindBlock(blocks, size)
    {
      k := 0;
      while k < |blocks|
        invariant 0 <= k <= |blocks|
        invariant FindBlock(blocks, size) == k + FindBlock(blocks[k..], size)
      {
        if HasRoom(blocks[k], size) { return; }
        assert blocks[k..][1..] == blocks[k + 1..];
        k := k + 1;
      }
    }

    method GrowSessionMapping(needed: nat, page: nat)
      requires page > 0 && blocks != []
      modifies this`blocks
      ensures View() == Grow(old(View()), needed, page)
    {
      var end := blocks[|blocks| - 1];
      var oldSize := end.offset + end.size;
      var newSize := GrownSize(oldSize, needed, page);
      GrowsEnough(oldSize, needed, page);
      assert newSize > oldSize;
      blocks := blocks + [Block(oldSize, 0, newSize - oldSize)];
    }

    /** A write section on an object: odd while the id changes, even again afterwards. */
    method WriteId(o: Id, id: nat)
      requires o < |objects| && objects[o].seqno % 2 == 0
      modifies this`objects
      ensures objects == old(objects)[o := old(objects)[o].(id := id, seqno := old(objects)[o].seqno + 2)]
    {
      var seqno := objects[o].seqno + 1;
      assert seqno % 2 == 1;
      objects := objects[o := objects[o].(seqno := seqno)];
      objects := objects[o := objects[o].(id := id)];
      assert objects[o].seqno == seqno;
      objects := objects[o := objects[o].(seqno := seqno + 1)];
    }

    /** Room for a new object in some block, growing the mapping if need be. */
    method PlaceObject(size: nat, page: nat, growOk: bool) returns (ok: bool)
      requires page > 0 && blocks != []
      modifies this`blocks, this`objects
      ensures ok <==> FindBlock(old(blocks), size) < |old(blocks)| || growOk
      ensures !ok ==> View() == old(View())
      ensures ok ==> var b := FindBlock(old(blocks), size);
                     View() == Carve(if b < |old(blocks)| then old(View()) else Grow(old(View()), size, page), b, size)
    {
      var b := FindFreeSessionBlock(size);
      if b == |blocks| {
        if !growOk { return false; }
        GrowSessionMapping(size, page);
      }
      objects := objects + [Object(b, blocks[b].offset + blocks[b].used, size, 0, 0, 0)];
      blocks := blocks[b := blocks[b].(used := blocks[b].used + size)];
      return true;
    }

    method UseObject(o: Id)
      requires o < |objects| && objects[o].seqno % 2 == 0
      modifies this`objects, this`lastId
      ensures View() == Use(old(View()), o)
    {
      objects := objects[o := objects[o].(uses := objects[o].uses + 1)];
      lastId := lastId + 1;
      WriteId(o, lastId);
    }

    /** An object at the end of a block. */
    method NewObject(size: nat, page: nat, growOk: bool) returns (ok: bool)
      requires page > 0 && blocks != []
      modifies this
      ensures ok <==> FindBlock(old(blocks), size) < |old(blocks)| || growOk
      ensures !ok ==> View() == old(View())
      ensures ok ==>
                var b, s := FindBlock(old(blocks), size), old(View());
                View() == Use(Carve(if b < |s.blocks| then s else Grow(s, size, page), b, size), |s.objects|)
    {
      var o := |objects|;
      ok := PlaceObject(size, page, growOk);
      if ok { UseObject(o); }
    }

    /** An object of the free list. */
    method ReuseObject(k: nat) returns (o: Id)
      requires Inv(View()) && k < |free|
      modifies this
      ensures o == old(free[k]) < |old(objects)|
      ensures View() == Use(old(View()).(free := old(free)[..k] + old(free)[k + 1..]), o)
    {
      o := free[k];
      assert o in free;
      assert ObjectOk(View(), o);
      free := free[..k] + free[k + 1..];
      UseObject(o);
    }

    /** alloc_shared_object */
    method AllocSharedObject(y: Layout, shmSize: nat, growOk: bool) returns (r: Option<Id>)
      requires Inv(View()) && Sane(y)
      modifies this
      ensures (View(), r) == Alloc(old(View()), y, shmSize, growOk)
    {
      var size := y.head + Max(shmSize, y.shm);
      var o := |objects|;
      var k := FindFreeSessionObject(size, y.head + y.shm);
      if k < |free| {
        o := ReuseObject(k);
        return Some(o);
      }
      var ok := NewObject(size, y.page, growOk);
      return if ok then Some(o) else None;
    }

    /** free_shared_object */
    method FreeSharedObject(o: Id)
      requires Inv(View()) && o < |objects| && objects[o].id != 0
      modifies this
      ensures View() == Free(old(View()), o) && Inv(View())
    {
      FreeKeepsInv(View(), o);
      assert ObjectOk(View(), o);
      WriteId(o, 0);
      free := free + [o];
    }

    /** invalidate_shared_object */
    method InvalidateSharedObject(o: Id)
      requires Inv(View()) && o < |objects| && objects[o].id != 0
      modifies this
      ensures View() == Invalidate(old(View()), o) && Inv(View())
    {
      RenameKeepsInv(View(), o);
      assert ObjectOk(View(), o);
      lastId := lastId + 1;
      WriteId(o, lastId);
    }
  }
}
