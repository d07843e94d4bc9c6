/** Addresses for PE image mappings (server/mapping.c): two pools, each with a list of free
    ranges kept in descending order, from which images are carved at the top end and to
    which they are given back when the last descriptor of the file goes away.
 */
module MapAddress {

  import opened Options

  datatype Area = Area(base: nat, size: nat) {
    function End(): nat { base + size }
  }

  const GRANULE := 0x10000
  const TWO_64 := 0x1_0000_0000_0000_0000

  const POOL_32 := Area(0x6000_0000, 0x1c00_0000)
  const POOL_64 := Area(0x6000_0000_0000, 0x1000_0000_0000)

  // ---------------------------------------------------------------- sizes

  /** round_size to the allocation granularity, in 64-bit arithmetic. */
  function Round(size: nat): nat {
    var x := (size + (GRANULE - 1)) % TWO_64;
    x - x % GRANULE
  }

  /** What an image of this size takes from the pool: itself, rounded, and one free granule. */
  function Need(size: nat): nat {
    (Round(size) + GRANULE) % TWO_64
  }

  /** The gap after an image is there exactly for the sizes whose rounding does not wrap.
      An image size is a 32-bit field rounded up to its section alignment, far below that. */
  lemma GapIff(size: nat)
    requires size < TWO_64
    ensures Need(size) >= size + GRANULE <==> size <= TWO_64 - 2 * GRANULE
    ensures size <= TWO_64 - 2 * GRANULE ==> Need(size) % GRANULE == 0 && Need(size) <= size + 2 * GRANULE - 1
  {
    if size <= TWO_64 - 2 * GRANULE {
      assert Round(size) == size + (GRANULE - 1) - (size + (GRANULE - 1)) % GRANULE;
    } else if size <= TWO_64 - GRANULE {
      var x := size + (GRANULE - 1);
      assert x < TWO_64;
      assert x / GRANULE == (TWO_64 - GRANULE) / GRANULE;
      assert Round(size) == TWO_64 - GRANULE;
    } else {
      var x := (size + (GRANULE - 1)) % TWO_64;
      assert x == size + (GRANULE - 1) - TWO_64;
      assert Round(size) == 0;
    }
  }

  // ---------------------------------------------------------------- one pool's free list

  /** Index of the first range that is large enough. */
  function FirstFit(free: seq<Area>, size: nat): (r: Option<nat>)
    ensures r.Some? ==> r.value < |free| && free[r.value].size >= size
    ensures r.Some? ==> forall j | 0 <= j < r.value :: free[j].size < size
    ensures r.None? ==> forall j | 0 <= j < |free| :: free[j].size < size
  {
    if free == [] then None
    else if free[0].size >= size then Some(0)
    else
      var r := FirstFit(free[1..], size);
      assert forall j | 1 <= j < |free| :: free[j] == free[1..][j - 1];
      if r.None? then None else Some(r.value + 1)
  }

  /** Take `size` bytes off the upper end of range i. */
  function Carve(free: seq<Area>, i: nat, size: nat): seq<Area>
    requires i < |free| && size <= free[i].size
  {
    free[i := Area(free[i].base, free[i].size - size)]
  }

  /** Give a range back.  `room` is false when the list is full and cannot be enlarged. */
  function GiveBack(free: seq<Area>, a: Area, room: bool): seq<Area> {
    if free == [] then (if room then [a] else free)
    else if free[0].base > a.End() then [free[0]] + GiveBack(free[1..], a, room)
    else if free[0].End() < a.base then (if room then [a] + free else free)
    else if free[0].base == a.End() then
      if |free| > 1 && free[1].End() == a.base
      then [Area(free[1].base, free[1].size + (a.size + free[0].size))] + free[2..]
      else [Area(a.base, free[0].size + a.size)] + free[1..]
    else [Area(free[0].base, free[0].size + a.size)] + free[1..]
  }

  /** The search loop ends without a range to merge with, so a new entry is needed. */
  predicate Inserts(free: seq<Area>, a: Area) {
    free == [] || (if free[0].base > a.End() then Inserts(free[1..], a) else free[0].End() < a.base)
  }

  /** The entries allocated afterwards. */
  function NewSize(free: seq<Area>, size: nat, a: Area, reallocOk: bool): nat {
    if Inserts(free, a) && |free| == size && reallocOk then (if size * 2 > 256 then size * 2 else 256) else size
  }

  /** The range touches no range on the list. */
  predicate Alone(free: seq<Area>, a: Area) {
    forall i | 0 <= i < |free| :: free[i].base > a.End() || free[i].End() < a.base
  }

  /** Nothing was adjacent, so giving back needed a new entry and there was no room for it. */
  predicate Lost(free: seq<Area>, a: Area, room: bool) {
    !room && Alone(free, a)
  }

  /** The list never outgrows the entries allocated for it. */
  lemma {:induction false} GiveBackFits(free: seq<Area>, a: Area, room: bool)
    ensures |GiveBack(free, a, room)| <= if room && Inserts(free, a) then |free| + 1 else |free|
  {
    if free != [] && free[0].base > a.End() { GiveBackFits(free[1..], a, room); }
  }

  // ---------------------------------------------------------------- what the list means

  predicate Apart(a: Area, b: Area) { a.End() <= b.base || b.End() <= a.base }

  predicate Inside(a: Area, pool: Area) { pool.base <= a.base && a.End() <= pool.End() }

  predicate At(a: Area, x: nat) { a.base <= x < a.End() }

  /** Strictly descending, and no two ranges touch: also true of ranges shrunk to nothing. */
  ghost predicate Descending(free: seq<Area>) {
    forall i, j | 0 <= i < j < |free| :: free[j].End() < free[i].base
  }

  ghost predicate FreeAt(free: seq<Area>, x: nat) {
    exists i :: 0 <= i < |free| && At(free[i], x)
  }

  predicate Aligned(a: Area) { a.base % GRANULE == 0 && a.size % GRANULE == 0 }

  ghost predicate ListOk(free: seq<Area>, pool: Area) {
    && Descending(free)
    && (forall i | 0 <= i < |free| :: Inside(free[i], pool))
  }

  ghost predicate AllAligned(free: seq<Area>) {
    forall i | 0 <= i < |free| :: Aligned(free[i])
  }

  /** No free range reaches into the area, not even an empty one in its middle. */
  ghost predicate ApartFrom(free: seq<Area>, a: Area) {
    forall i | 0 <= i < |free| :: Apart(free[i], a)
  }

  /** The range that Carve takes out. */
  function Carved(free: seq<Area>, i: nat, size: nat): Area
    requires i < |free| && size <= free[i].size
  {
    Area(free[i].base + (free[i].size - size), size)
  }

  lemma CarveKeepsList(free: seq<Area>, pool: Area, i: nat, size: nat)
    requires ListOk(free, pool) && i < |free| && size <= free[i].size
    ensures ListOk(Carve(free, i, size), pool) && ApartFrom(Carve(free, i, size), Carved(free, i, size))
    ensures Inside(Carved(free, i, size), pool)
  {
  }

  lemma CarveKeepsAligned(free: seq<Area>, i: nat, size: nat)
    requires AllAligned(free) && i < |free| && size <= free[i].size && size % GRANULE == 0
    ensures AllAligned(Carve(free, i, size)) && Aligned(Carved(free, i, size))
  {
    assert Aligned(free[i]);
  }

  lemma CarveKeepsApart(free: seq<Area>, i: nat, size: nat, b: Area)
    requires i < |free| && size <= free[i].size && ApartFrom(free, b)
    ensures ApartFrom(Carve(free, i, size), b) && Apart(Carved(free, i, size), b)
  {
  }

  /** Exactly the carved range leaves the free list. */
  lemma CarveCovers(free: seq<Area>, i: nat, size: nat, x: nat)
    requires Descending(free) && i < |free| && size <= free[i].size
    ensures FreeAt(Carve(free, i, size), x) <==> FreeAt(free, x) && !At(Carved(free, i, size), x)
  {
    var rest, a := Carve(free, i, size), Carved(free, i, size);
    if FreeAt(free, x) {
      var k :| 0 <= k < |free| && At(free[k], x);
      assert At(rest[k], x) || At(a, x);
    }
    if FreeAt(rest, x) {
      var k :| 0 <= k < |rest| && At(rest[k], x);
      assert At(free[k], x);
      assert k < i ==> free[i].End() < free[k].base;
      assert i < k ==> free[k].End() < free[i].base;
    }
  }

  ghost predicate Below(rest: seq<Area>, limit: nat) {
    forall i | 0 <= i < |rest| :: rest[i].End() < limit
  }

  lemma ConsList(head: Area, rest: seq<Area>, pool: Area)
    requires ListOk(rest, pool) && Inside(head, pool) && Below(rest, head.base)
    ensures ListOk([head] + rest, pool)
  {
    var l := [head] + rest;
    assert forall i | 1 <= i < |l| :: l[i] == rest[i - 1];
  }

  lemma TailList(free: seq<Area>, pool: Area)
    requires ListOk(free, pool) && free != []
    ensures ListOk(free[1..], pool) && Below(free[1..], free[0].base) && Inside(free[0], pool)
    ensures |free| > 1 ==> ListOk(free[2..], pool) && Below(free[2..], free[1].base) && free[1].End() < free[0].base
  {
  }

  lemma {:induction false} FreeAtCons(head: Area, rest: seq<Area>, x: nat)
    ensures FreeAt([head] + rest, x) <==> At(head, x) || FreeAt(rest, x)
  {
    var l := [head] + rest;
    if At(head, x) { assert At(l[0], x); }
    if FreeAt(rest, x) {
      var k :| 0 <= k < |rest| && At(rest[k], x);
      assert At(l[k + 1], x);
    }
  }

  /** The head of the list touches the range that is given back. */
  predicate Touches(free: seq<Area>, a: Area) {
    free != [] && free[0].base <= a.End() && a.base <= free[0].End()
  }

  lemma {:induction false} MergeKeepsList(free: seq<Area>, pool: Area, a: Area, room: bool, limit: nat)
    requires ListOk(free, pool) && Inside(a, pool) && ApartFrom(free, a) && Touches(free, a)
    requires Below(free, limit) && a.End() < limit
    ensures ListOk(GiveBack(free, a, room), pool) && Below(GiveBack(free, a, room), limit)
  {
    TailList(free, pool);
    assert |free| > 1 ==> Apart(free[1], a);
    var r := GiveBack(free, a, room);
    if free[0].base == a.End() && |free| > 1 && free[1].End() == a.base {
      ConsList(r[0], free[2..], pool);
    } else {
      ConsList(r[0], free[1..], pool);
    }
  }

  lemma {:induction false} GiveBackKeepsList(free: seq<Area>, pool: Area, a: Area, room: bool, limit: nat)
    requires ListOk(free, pool) && Inside(a, pool) && ApartFrom(free, a)
    requires Below(free, limit) && a.End() < limit
    ensures ListOk(GiveBack(free, a, room), pool) && Below(GiveBack(free, a, room), limit)
  {
    if Touches(free, a) {
      MergeKeepsList(free, pool, a, room, limit);
    } else if free != [] {
      TailList(free, pool);
      if free[0].base > a.End() {
        GiveBackKeepsList(free[1..], pool, a, room, free[0].base);
        ConsList(free[0], GiveBack(free[1..], a, room), pool);
      } else {
        ConsList(a, free, pool);
      }
    }
  }

  lemma {:induction false} GiveBackKeepsApart(free: seq<Area>, a: Area, room: bool, b: Area)
    requires ApartFrom(free, b) && ApartFrom(free, a) && Apart(a, b) && 0 < b.size
    ensures ApartFrom(GiveBack(free, a, room), b)
  {
    if free != [] && free[0].base > a.End() {
      assert forall j | 1 <= j < |free| :: free[j] == free[1..][j - 1];
      GiveBackKeepsApart(free[1..], a, room, b);
    }
  }

  lemma AlignedTogether(a: Area, b: Area)
    requires Aligned(a) && Aligned(b)
    ensures Aligned(Area(a.base, a.size + b.size)) && Aligned(Area(b.base, a.size + b.size))
  {
  }

  lemma {:induction false} GiveBackKeepsAligned(free: seq<Area>, a: Area, room: bool)
    requires AllAligned(free) && Aligned(a)
    ensures AllAligned(GiveBack(free, a, room))
  {
    if free != [] && free[0].base > a.End() {
      assert forall j | 1 <= j < |free| :: free[j] == free[1..][j - 1];
      GiveBackKeepsAligned(free[1..], a, room);
    } else if Touches(free, a) {
      AlignedTogether(free[0], a);
      if |free| > 1 { AlignedTogether(free[1], Area(a.base, a.size + free[0].size)); }
    }
  }

  lemma {:induction false} MergeCovers(free: seq<Area>, a: Area, room: bool, x: nat)
    requires ApartFrom(free, a) && Touches(free, a)
    ensures FreeAt(GiveBack(free, a, room), x) <==> FreeAt(free, x) || At(a, x)
  {
    var head, rest := free[0], free[1..];
    assert free == [head] + rest && Apart(head, a);
    FreeAtCons(head, rest, x);
    if head.base == a.End() && |free| > 1 && free[1].End() == a.base {
      var next, tail := free[1], free[2..];
      assert rest == [next] + tail;
      FreeAtCons(next, tail, x);
      FreeAtCons(Area(next.base, next.size + (a.size + head.size)), tail, x);
    } else if head.base == a.End() {
      FreeAtCons(Area(a.base, head.size + a.size), rest, x);
    } else {
      FreeAtCons(Area(head.base, head.size + a.size), rest, x);
    }
  }

  /** Exactly the given range is added, unless there was no room for it. */
  lemma {:induction false} GiveBackCovers(free: seq<Area>, a: Area, room: bool, x: nat)
    requires ApartFrom(free, a) && Descending(free)
    ensures Lost(free, a, room) ==> GiveBack(free, a, room) == free
    ensures !Lost(free, a, room) ==> (FreeAt(GiveBack(free, a, room), x) <==> FreeAt(free, x) || At(a, x))
  {
    if Touches(free, a) {
      MergeCovers(free, a, room, x);
    } else if free != [] && free[0].base > a.End() {
      var rest := free[1..];
      assert free == [free[0]] + rest;
      FreeAtCons(free[0], rest, x);
      assert forall j | 1 <= j < |free| :: free[j] == rest[j - 1];
      GiveBackCovers(rest, a, room, x);
      assert Lost(free, a, room) <==> Lost(rest, a, room);
      FreeAtCons(free[0], GiveBack(rest, a, room), x);
    } else {
      FreeAtCons(a, free, x);
    }
  }

  // ---------------------------------------------------------------- both pools, over a whole run

  /** A `struct fd`, by its own address. */
  type Fd = nat

  /** The area taken for an image of the given size; `wide` for one that is linked above 4 GB. */
  datatype Image = Image(area: Area, size: nat, wide: bool)

  /** `size32` and `size64` count the entries allocated for the two lists.  `leaked` holds the
      areas whose descriptor is gone but which found no room on the list. */
  datatype State = State(free32: seq<Area>, free64: seq<Area>, size32: nat, size64: nat,
                         taken: map<Fd, Image>, leaked: map<Fd, Image>)

  /** `reallocOk` is the outcome of realloc, should free_map_addr call it. */
  datatype Op = Assign(fd: Fd, dll: bool, wide: bool, size: nat) | CloseFd(fd: Fd, reallocOk: bool)

  /** The outcomes of realloc in init_memory, which gives the two pools to the empty lists. */
  datatype Boot = Boot(ok32: bool, ok64: bool)

  /** A pool that init_memory has no room for is lost like any other range, under a key that
      no descriptor has. */
  function Initial(boot: Boot): State {
    State(GiveBack([], POOL_32, boot.ok32), GiveBack([], POOL_64, boot.ok64),
          NewSize([], 0, POOL_32, boot.ok32), NewSize([], 0, POOL_64, boot.ok64), map[],
          (if boot.ok32 then map[] else map[TWO_64 := Image(POOL_32, POOL_32.size - GRANULE, false)]) +
          (if boot.ok64 then map[] else map[TWO_64 + 1 := Image(POOL_64, POOL_64.size - GRANULE, true)]))
  }

  predicate Wide(base: nat) { base / 0x1_0000_0000 != 0 }

  /** The list, and the entries allocated for it, that an address belongs to. */
  function ListOf(s: State, base: nat): seq<Area> { if Wide(base) then s.free64 else s.free32 }

  function SizeOf(s: State, base: nat): nat { if Wide(base) then s.size64 else s.size32 }

  /** The state with an image taken from one of the lists. */
  function Take(s: State, fd: Fd, wide: bool, rest: seq<Area>, m: Image): State {
    if wide then s.(free64 := rest, taken := s.taken[fd := m]) else s.(free32 := rest, taken := s.taken[fd := m])
  }

  /** assign_map_address, with the address it returns. */
  function AssignAddress(s: State, fd: Fd, dll: bool, wide: bool, size: nat): (State, nat) {
    if !dll then (s, 0)
    else if fd in s.taken then (s, s.taken[fd].area.base)
    else
      var free := if wide then s.free64 else s.free32;
      var fit := FirstFit(free, Need(size));
      if fit.None? then (s, 0)
      else
        var rest, a := Carve(free, fit.value, Need(size)), Carved(free, fit.value, Need(size));
        (Take(s, fd, wide, rest, Image(a, size, wide)), a.base)
  }

  predicate Room(free: seq<Area>, size: nat, reallocOk: bool) { |free| != size || reallocOk }

  /** fd_destroy gives the address range back, through free_map_addr. */
  function ReleaseAddress(s: State, fd: Fd, reallocOk: bool): State {
    if fd !in s.taken then s
    else
      var a := s.taken[fd].area;
      var free, size := ListOf(s, a.base), SizeOf(s, a.base);
      var room := Room(free, size, reallocOk);
      var rest, size' := GiveBack(free, a, room), NewSize(free, size, a, reallocOk);
      var leaked := if Lost(free, a, room) then s.leaked[fd := s.taken[fd]] else s.leaked;
      if Wide(a.base) then State(s.free32, rest, s.size32, size', s.taken - {fd}, leaked)
      else State(rest, s.free64, size', s.size64, s.taken - {fd}, leaked)
  }

  /** Descriptors are new when they get an address, and sizes are those of PE images. */
  predicate Enabled(s: State, op: Op) {
    op.Assign? ==> op.fd < TWO_64 && op.fd !in s.leaked && op.size <= TWO_64 - 2 * GRANULE
  }

  function Apply(s: State, op: Op): State {
    match op
    case Assign(fd, dll, wide, size) => AssignAddress(s, fd, dll, wide, size).0
    case CloseFd(fd, reallocOk) => ReleaseAddress(s, fd, reallocOk)
  }

  /** The state after a run. */
  function After(boot: Boot, ops: seq<Op>): State {
    if ops == [] then Initial(boot) else Apply(After(boot, ops[..|ops| - 1]), ops[|ops| - 1])
  }

  predicate Legal(boot: Boot, ops: seq<Op>) {
    ops == [] || (Legal(boot, ops[..|ops| - 1]) && Enabled(After(boot, ops[..|ops| - 1]), ops[|ops| - 1]))
  }

  predicate Reaches(boot: Boot, ops: seq<Op>, s: State) { Legal(boot, ops) && After(boot, ops) == s }

  function Held(s: State): map<Fd, Image> { s.taken + s.leaked }

  ghost predicate HeldAt(held: map<Fd, Image>, x: nat) {
    exists f :: f in held && At(held[f].area, x)
  }

  predicate ImageOk(m: Image) {
    && Inside(m.area, if m.wide then POOL_64 else POOL_32)
    && Aligned(m.area) && m.area.size == Need(m.size) && m.area.size >= m.size + GRANULE
  }

  ghost predicate HeldOk(held: map<Fd, Image>) {
    && (forall f {:trigger ImageOk(held[f])} | f in held :: ImageOk(held[f]))
    && (forall f, g {:trigger Apart(held[f].area, held[g].area)} | f in held && g in held && f != g ::
          Apart(held[f].area, held[g].area))
  }

  /** The free list is in order, and with the held areas it partitions the pool. */
  ghost predicate PoolOk(free: seq<Area>, pool: Area, held: map<Fd, Image>) {
    && ListOk(free, pool) && AllAligned(free)
    && (forall f {:trigger ApartFrom(free, held[f].area)} | f in held :: ApartFrom(free, held[f].area))
    && (forall x {:trigger At(pool, x)} | At(pool, x) :: FreeAt(free, x) || HeldAt(held, x))
  }

  ghost predicate BothOk(free32: seq<Area>, free64: seq<Area>, held: map<Fd, Image>) {
    HeldOk(held) && PoolOk(free32, POOL_32, held) && PoolOk(free64, POOL_64, held)
  }

  ghost predicate Inv(s: State) {
    && s.taken.Keys !! s.leaked.Keys && BothOk(s.free32, s.free64, Held(s))
    && |s.free32| <= s.size32 && |s.free64| <= s.size64
  }

  /** A pool as init_memory leaves it: all free, or all held by a lost entry f. */
  lemma InitialPool(free: seq<Area>, pool: Area, held: map<Fd, Image>, ok: bool, f: Fd)
    requires Aligned(pool) && free == (if ok then [pool] else []) && (!ok ==> f in held && held[f].area == pool)
    requires forall g | g in held && ok :: Apart(held[g].area, pool)
    ensures PoolOk(free, pool, held)
  {
    forall x | At(pool, x) ensures FreeAt(free, x) || HeldAt(held, x) {
      if ok { assert At(free[0], x); } else { assert At(held[f].area, x); }
    }
  }

  lemma PoolsAligned()
    ensures Aligned(POOL_32) && Aligned(POOL_64) && Apart(POOL_32, POOL_64)
    ensures ImageOk(Image(POOL_32, POOL_32.size - GRANULE, false))
    ensures ImageOk(Image(POOL_64, POOL_64.size - GRANULE, true))
  {
  }

  lemma {:induction false} InitialInv(boot: Boot)
    ensures Inv(Initial(boot))
  {
    var s := Initial(boot);
    PoolsAligned();
    InitialPool(s.free32, POOL_32, Held(s), boot.ok32, TWO_64);
    InitialPool(s.free64, POOL_64, Held(s), boot.ok64, TWO_64 + 1);
  }

  /** The pool that a new area does not come from. */
  lemma OtherPoolKept(free: seq<Area>, pool: Area, held: map<Fd, Image>, fd: Fd, m: Image)
    requires PoolOk(free, pool, held) && fd !in held && Apart(m.area, pool)
    ensures PoolOk(free, pool, held[fd := m])
  {
    var held' := held[fd := m];
    forall f | f in held' ensures ApartFrom(free, held'[f].area) {}
    forall x | At(pool, x) ensures FreeAt(free, x) || HeldAt(held[fd := m], x) {
      if HeldAt(held, x) {
        var f :| f in held && At(held[f].area, x);
        assert At(held[fd := m][f].area, x);
      }
    }
  }

  lemma {:induction false} CarveKeepsPool(free: seq<Area>, pool: Area, held: map<Fd, Image>,
                                          fd: Fd, wide: bool, i: nat, size: nat)
    requires PoolOk(free, pool, held) && fd !in held && i < |free|
    requires size <= TWO_64 - 2 * GRANULE && Need(size) <= free[i].size
    ensures PoolOk(Carve(free, i, Need(size)), pool, held[fd := Image(Carved(free, i, Need(size)), size, wide)])
  {
    GapIff(size);
    var rest, m := Carve(free, i, Need(size)), Image(Carved(free, i, Need(size)), size, wide);
    CarveKeepsList(free, pool, i, Need(size));
    CarveKeepsAligned(free, i, Need(size));
    var held' := held[fd := m];
    forall f | f in held' ensures ApartFrom(rest, held'[f].area) {
      if f != fd { CarveKeepsApart(free, i, Need(size), held[f].area); }
    }
    forall x | At(pool, x) ensures FreeAt(rest, x) || HeldAt(held', x) {
      CarveCovers(free, i, Need(size), x);
      if At(m.area, x) { assert At(held'[fd].area, x); }
      if HeldAt(held, x) {
        var f :| f in held && At(held[f].area, x);
        assert At(held'[f].area, x);
      }
    }
  }

  function PoolOf(wide: bool): Area { if wide then POOL_64 else POOL_32 }

  lemma CarveKeepsHeld(free: seq<Area>, held: map<Fd, Image>, fd: Fd, wide: bool, i: nat, size: nat)
    requires PoolOk(free, PoolOf(wide), held) && HeldOk(held) && fd !in held && i < |free|
    requires size <= TWO_64 - 2 * GRANULE && Need(size) <= free[i].size
    ensures HeldOk(held[fd := Image(Carved(free, i, Need(size)), size, wide)])
    ensures Inside(Carved(free, i, Need(size)), PoolOf(wide))
  {
    GapIff(size);
    CarveKeepsList(free, PoolOf(wide), i, Need(size));
    CarveKeepsAligned(free, i, Need(size));
    forall f | f in held ensures Apart(Carved(free, i, Need(size)), held[f].area) {
      CarveKeepsApart(free, i, Need(size), held[f].area);
    }
  }

  lemma {:induction false} CarveKeepsBoth(free32: seq<Area>, free64: seq<Area>, held: map<Fd, Image>,
                       fd: Fd, wide: bool, i: nat, size: nat)
    requires BothOk(free32, free64, held) && fd !in held && size <= TWO_64 - 2 * GRANULE
    requires var free := if wide then free64 else free32; i < |free| && Need(size) <= free[i].size
    ensures var free := if wide then free64 else free32;
            var rest := Carve(free, i, Need(size));
            BothOk(if wide then free32 else rest, if wide then rest else free64,
                   held[fd := Image(Carved(free, i, Need(size)), size, wide)])
  {
    var free := if wide then free64 else free32;
    var m := Image(Carved(free, i, Need(size)), size, wide);
    CarveKeepsHeld(free, held, fd, wide, i, size);
    CarveKeepsPool(free, PoolOf(wide), held, fd, wide, i, size);
    if wide { OtherPoolKept(free32, POOL_32, held, fd, m); } else { OtherPoolKept(free64, POOL_64, held, fd, m); }
  }

  lemma TakeKeepsInv(s: State, fd: Fd, wide: bool, rest: seq<Area>, m: Image)
    requires Inv(s) && fd !in s.taken && fd !in s.leaked && |rest| == if wide then |s.free64| else |s.free32|
    requires BothOk(if wide then s.free32 else rest, if wide then rest else s.free64, Held(s)[fd := m])
    ensures Inv(Take(s, fd, wide, rest, m))
  {
    assert Held(Take(s, fd, wide, rest, m)) == Held(s)[fd := m];
  }

  lemma {:induction false} AssignKeepsInv(s: State, fd: Fd, dll: bool, wide: bool, size: nat)
    requires Inv(s) && Enabled(s, Assign(fd, dll, wide, size))
    ensures Inv(AssignAddress(s, fd, dll, wide, size).0)
  {
    var free := if wide then s.free64 else s.free32;
    var fit := FirstFit(free, Need(size));
    if dll && fd !in s.taken && fit.Some? {
      CarveKeepsBoth(s.free32, s.free64, Held(s), fd, wide, fit.value, size);
      var a := Carved(free, fit.value, Need(size));
      TakeKeepsInv(s, fd, wide, Carve(free, fit.value, Need(size)), Image(a, size, wide));
    }
  }

  /** The address tells the pool. */
  lemma PoolOfBase(m: Image)
    requires ImageOk(m)
    ensures Wide(m.area.base) == m.wide && Inside(m.area, PoolOf(m.wide)) && m.area.base != 0
  {
  }

  lemma GiveBackKeepsPool(free: seq<Area>, pool: Area, held: map<Fd, Image>, fd: Fd, room: bool)
    requires PoolOk(free, pool, held) && HeldOk(held) && fd in held && Inside(held[fd].area, pool)
    requires !Lost(free, held[fd].area, room)
    ensures PoolOk(GiveBack(free, held[fd].area, room), pool, held - {fd})
  {
    var a, held' := held[fd].area, held - {fd};
    var rest := GiveBack(free, a, room);
    assert ImageOk(held[fd]);
    GiveBackKeepsList(free, pool, a, room, pool.End() + 1);
    GiveBackKeepsAligned(free, a, room);
    forall f | f in held' ensures ApartFrom(rest, held'[f].area) {
      assert ImageOk(held[f]) && Apart(held[fd].area, held[f].area);
      GiveBackKeepsApart(free, a, room, held[f].area);
    }
    forall x | At(pool, x) ensures FreeAt(rest, x) || HeldAt(held', x) {
      GiveBackCovers(free, a, room, x);
      if HeldAt(held, x) && !At(a, x) {
        var f :| f in held && At(held[f].area, x);
        assert At(held'[f].area, x);
      }
    }
  }

  lemma OtherPoolWithout(free: seq<Area>, pool: Area, held: map<Fd, Image>, fd: Fd)
    requires PoolOk(free, pool, held) && fd in held && Apart(held[fd].area, pool)
    ensures PoolOk(free, pool, held - {fd})
  {
    forall x | At(pool, x) ensures FreeAt(free, x) || HeldAt(held - {fd}, x) {
      if HeldAt(held, x) {
        var f :| f in held && At(held[f].area, x);
        assert f != fd && At((held - {fd})[f].area, x);
      }
    }
  }

  lemma GiveBackKeepsBoth(free32: seq<Area>, free64: seq<Area>, held: map<Fd, Image>, fd: Fd, room: bool)
    requires BothOk(free32, free64, held) && fd in held
    requires var a := held[fd].area; !Lost(if Wide(a.base) then free64 else free32, a, room)
    ensures var a := held[fd].area;
            BothOk(if Wide(a.base) then free32 else GiveBack(free32, a, room),
                   if Wide(a.base) then GiveBack(free64, a, room) else free64, held - {fd})
  {
    PoolOfBase(held[fd]);
    if Wide(held[fd].area.base) {
      GiveBackKeepsPool(free64, POOL_64, held, fd, room);
      OtherPoolWithout(free32, POOL_32, held, fd);
    } else {
      GiveBackKeepsPool(free32, POOL_32, held, fd, room);
      OtherPoolWithout(free64, POOL_64, held, fd);
    }
  }

  lemma HeldAfterRelease(s: State, fd: Fd, leaked: map<Fd, Image>)
    requires fd in s.taken && s.taken.Keys !! s.leaked.Keys
    requires leaked == s.leaked || leaked == s.leaked[fd := s.taken[fd]]
    ensures (s.taken - {fd}).Keys !! leaked.Keys
    ensures (s.taken - {fd}) + leaked == if fd in leaked then Held(s) else Held(s) - {fd}
  {
  }

  /** A closing of a descriptor at a moment when its range touches no free range, the list is
      full and it cannot be enlarged. */
  predicate Loses(s: State, op: Op) {
    op.CloseFd? && op.fd in s.taken &&
    var a := s.taken[op.fd].area;
    |ListOf(s, a.base)| == SizeOf(s, a.base) && !op.reallocOk && Alone(ListOf(s, a.base), a)
  }

  lemma ReleaseFits(s: State, fd: Fd, reallocOk: bool)
    requires Inv(s)
    ensures var r := ReleaseAddress(s, fd, reallocOk); |r.free32| <= r.size32 && |r.free64| <= r.size64
  {
    if fd in s.taken {
      var a := s.taken[fd].area;
      var free, size := ListOf(s, a.base), SizeOf(s, a.base);
      GiveBackFits(free, a, Room(free, size, reallocOk));
    }
  }

  /** The range goes back, byte for byte, to the pool it came from, unless it is lost. */
  lemma ReleaseReturns(s: State, fd: Fd, reallocOk: bool, x: nat)
    requires Inv(s) && fd in s.taken
    ensures var a, r := s.taken[fd].area, ReleaseAddress(s, fd, reallocOk);
            var lost := Loses(s, CloseFd(fd, reallocOk));
            && Inside(a, PoolOf(s.taken[fd].wide))
            && if s.taken[fd].wide
               then r.free32 == s.free32 && (FreeAt(r.free64, x) <==> FreeAt(s.free64, x) || (!lost && At(a, x)))
               else r.free64 == s.free64 && (FreeAt(r.free32, x) <==> FreeAt(s.free32, x) || (!lost && At(a, x)))
  {
    var a := s.taken[fd].area;
    assert Held(s)[fd] == s.taken[fd];
    assert ImageOk(Held(s)[fd]);
    PoolOfBase(s.taken[fd]);
    var free := ListOf(s, a.base);
    assert ApartFrom(s.free32, Held(s)[fd].area) && ApartFrom(s.free64, Held(s)[fd].area);
    GiveBackCovers(free, a, Room(free, SizeOf(s, a.base), reallocOk), x);
  }

  /** Closing keeps the invariant, and its range is lost exactly under the condition above. */
  lemma {:induction false} ReleaseKeepsInv(s: State, fd: Fd, reallocOk: bool)
    requires Inv(s)
    ensures Inv(ReleaseAddress(s, fd, reallocOk))
    ensures ReleaseAddress(s, fd, reallocOk).leaked ==
            if Loses(s, CloseFd(fd, reallocOk)) then s.leaked[fd := s.taken[fd]] else s.leaked
    ensures ReleaseAddress(s, fd, reallocOk).taken == s.taken - {fd}
  {
    ReleaseFits(s, fd, reallocOk);
    if fd in s.taken {
      var a := s.taken[fd].area;
      var free := ListOf(s, a.base);
      var room := Room(free, SizeOf(s, a.base), reallocOk);
      assert Held(s)[fd] == s.taken[fd];
      var r := ReleaseAddress(s, fd, reallocOk);
      HeldAfterRelease(s, fd, r.leaked);
      if Lost(free, a, room) {
        GiveBackCovers(free, a, room, 0);
        assert r.free32 == s.free32 && r.free64 == s.free64;
      } else {
        GiveBackKeepsBoth(s.free32, s.free64, Held(s), fd, room);
        assert BothOk(r.free32, r.free64, Held(r));
      }
    }
  }

  lemma {:induction false} ReachableInv(boot: Boot, ops: seq<Op>, s: State)
    requires Reaches(boot, ops, s)
    ensures Inv(s)
  {
    if ops == [] {
      InitialInv(boot);
    } else {
      var before := ops[..|ops| - 1];
      var m, op := After(boot, before), ops[|before|];
      ReachableInv(boot, before, m);
      match op
      case Assign(fd, dll, wide, size) => AssignKeepsInv(m, fd, dll, wide, size);
      case CloseFd(fd, reallocOk) => ReleaseKeepsInv(m, fd, reallocOk);
    }
  }

  /** A free byte is not held. */
  lemma FreeNotHeld(free: seq<Area>, pool: Area, held: map<Fd, Image>, x: nat)
    requires PoolOk(free, pool, held) && FreeAt(free, x)
    ensures !HeldAt(held, x)
  {
    var i :| 0 <= i < |free| && At(free[i], x);
    forall f | f in held ensures !At(held[f].area, x) {
      assert ApartFrom(free, held[f].area);
      assert Apart(free[i], held[f].area);
    }
  }

  /** After any run, each address of a pool is in exactly one free or held range. */
  lemma EveryRunPartitions(boot: Boot, ops: seq<Op>, s: State, x: nat)
    requires Reaches(boot, ops, s)
    ensures Descending(s.free32) && Descending(s.free64)
    ensures At(POOL_32, x) ==> FreeAt(s.free32, x) != HeldAt(Held(s), x)
    ensures At(POOL_64, x) ==> FreeAt(s.free64, x) != HeldAt(Held(s), x)
    ensures forall f, g | f in Held(s) && g in Held(s) && At(Held(s)[f].area, x) && At(Held(s)[g].area, x) :: f == g
  {
    ReachableInv(boot, ops, s);
    if FreeAt(s.free32, x) { FreeNotHeld(s.free32, POOL_32, Held(s), x); }
    if FreeAt(s.free64, x) { FreeNotHeld(s.free64, POOL_64, Held(s), x); }
    forall f, g | f in Held(s) && g in Held(s) && At(Held(s)[f].area, x) && At(Held(s)[g].area, x) ensures f == g {
      assert f != g ==> Apart(Held(s)[f].area, Held(s)[g].area);
    }
  }

  function FreeOf(s: State, wide: bool): seq<Area> { if wide then s.free64 else s.free32 }

  /** An image of this size fits into a free range of the pool, at the given address at the
      highest. */
  predicate FitsAt(free: seq<Area>, size: nat, i: nat, base: nat)
    requires i < |free|
  {
    free[i].size >= Need(size) && free[i].End() - Need(size) == base
  }

  /** The first range that fits is the highest. */
  lemma HighestFit(free: seq<Area>, size: nat, k: nat, i: nat)
    requires Descending(free) && FirstFit(free, Need(size)) == Some(k) && i < |free| && free[i].size >= Need(size)
    ensures free[i].End() <= free[k].End()
  {
    assert i >= k;
    if i > k { assert free[i].End() < free[k].base; }
  }

  /** What assign_map_address answers.  A DLL whose descriptor has an address keeps it, and what
      is no DLL gets none.  Otherwise there is an address exactly if some free range of the pool
      asked for has room, and it is the highest at which the image and its gap fit there. */
  lemma {:induction false} AssignAnswer(s: State, fd: Fd, dll: bool, wide: bool, size: nat)
    requires Inv(s) && Enabled(s, Assign(fd, dll, wide, size))
    ensures var ret, free := AssignAddress(s, fd, dll, wide, size).1, FreeOf(s, wide);
            if !dll then ret == 0
            else if fd in s.taken then ret == s.taken[fd].area.base && ret != 0
            else && (ret != 0 <==> exists i :: 0 <= i < |free| && free[i].size >= Need(size))
                 && (ret != 0 ==> exists i :: 0 <= i < |free| && FitsAt(free, size, i, ret))
                 && (forall i, base: nat | 0 <= i < |free| && FitsAt(free, size, i, base) :: base <= ret)
  {
    var free := FreeOf(s, wide);
    var fit := FirstFit(free, Need(size));
    if fd in s.taken { assert Held(s)[fd] == s.taken[fd] && ImageOk(Held(s)[fd]); }
    if dll && fd !in s.taken && fit.Some? {
      assert FitsAt(free, size, fit.value, AssignAddress(s, fd, dll, wide, size).1);
      assert Inside(free[fit.value], PoolOf(wide));
      forall i, base: nat | 0 <= i < |free| && FitsAt(free, size, i, base)
        ensures base <= AssignAddress(s, fd, dll, wide, size).1
      {
        HighestFit(free, size, fit.value, i);
      }
    }
  }

  /** What assign_map_address records: nothing unless it gives out a new address; then just that
      image, in the pool asked for, whose bytes leave the list of that pool. */
  lemma {:induction false} AssignRecords(s: State, fd: Fd, dll: bool, wide: bool, size: nat, x: nat)
    requires Inv(s) && Enabled(s, Assign(fd, dll, wide, size))
    ensures var (t, ret) := AssignAddress(s, fd, dll, wide, size);
            if !dll || fd in s.taken || ret == 0 then t == s
            else && fd in t.taken && t.taken == s.taken[fd := t.taken[fd]] && t.leaked == s.leaked
                 && t.taken[fd].size == size && t.taken[fd].wide == wide && t.taken[fd].area.base == ret
                 && t.taken[fd].area.size == Need(size) && Inside(t.taken[fd].area, PoolOf(wide))
                 && FreeOf(t, !wide) == FreeOf(s, !wide) && t.size32 == s.size32 && t.size64 == s.size64
                 && (FreeAt(FreeOf(t, wide), x) <==> FreeAt(FreeOf(s, wide), x) && !At(t.taken[fd].area, x))
  {
    AssignAnswer(s, fd, dll, wide, size);
    var free := FreeOf(s, wide);
    var fit := FirstFit(free, Need(size));
    if dll && fd !in s.taken && fit.Some? {
      CarveCovers(free, fit.value, Need(size), x);
      CarveKeepsList(free, PoolOf(wide), fit.value, Need(size));
    }
  }

  /** After any run, an image that is linked above 4 GB has its area in the 64-bit pool, and any
      other in the 32-bit pool. */
  lemma EveryRunPools(boot: Boot, ops: seq<Op>, s: State, f: Fd)
    requires Reaches(boot, ops, s) && f in s.taken
    ensures Inside(s.taken[f].area, PoolOf(s.taken[f].wide)) && Wide(s.taken[f].area.base) == s.taken[f].wide
  {
    ReachableInv(boot, ops, s);
    assert Held(s)[f] == s.taken[f] && ImageOk(Held(s)[f]);
    PoolOfBase(s.taken[f]);
  }

  /** When the array of a list grows, it at least doubles, and holds 256 ranges or more. */
  lemma GrowsEnough(free: seq<Area>, size: nat, a: Area, reallocOk: bool)
    requires |free| <= size
    ensures var more := NewSize(free, size, a, reallocOk);
            && (more != size ==> |free| == size && reallocOk && more >= 256 && more >= 2 * size)
            && (Inserts(free, a) && Room(free, size, reallocOk) ==> |free| < more)
  {
  }

  /** After any run, images start on a granule and have a free granule between them. */
  lemma EveryRunGaps(boot: Boot, ops: seq<Op>, s: State, f: Fd, g: Fd)
    requires Reaches(boot, ops, s) && f in s.taken && g in s.taken && f != g
    requires s.taken[f].area.base <= s.taken[g].area.base
    ensures s.taken[f].area.base + s.taken[f].size + GRANULE <= s.taken[g].area.base
    ensures s.taken[f].area.base % GRANULE == 0 && s.taken[f].area.base != 0
  {
    ReachableInv(boot, ops, s);
    assert Held(s)[f] == s.taken[f] && Held(s)[g] == s.taken[g];
    assert ImageOk(Held(s)[f]) && ImageOk(Held(s)[g]);
    assert Apart(Held(s)[f].area, Held(s)[g].area);
  }

  /** With several ranges, the byte just above the lowest one is not free. */
  lemma AboveLowest(free: seq<Area>, pool: Area)
    requires ListOk(free, pool) && |free| > 1
    ensures var x := free[|free| - 1].End(); At(pool, x) && !FreeAt(free, x)
  {
    var x := free[|free| - 1].End();
    assert x < free[|free| - 2].base;
    forall k | 0 <= k < |free| ensures !At(free[k], x) {
      assert k < |free| - 2 ==> free[k].base > free[|free| - 2].End();
    }
  }

  /** A free list that covers its whole pool is one range. */
  lemma FullPool(free: seq<Area>, pool: Area)
    requires ListOk(free, pool) && 0 < pool.size
    requires forall x | At(pool, x) :: FreeAt(free, x)
    ensures free == [pool]
  {
    assert At(pool, pool.base) && At(pool, pool.End() - 1);
    var i :| 0 <= i < |free| && At(free[i], pool.base);
    var j :| 0 <= j < |free| && At(free[j], pool.End() - 1);
    if |free| > 1 { AboveLowest(free, pool); }
  }

  /** Neither init_memory nor any closing of the run loses its range. */
  predicate NeverLoses(boot: Boot, ops: seq<Op>) {
    if ops == [] then boot.ok32 && boot.ok64
    else (NeverLoses(boot, ops[..|ops| - 1]) && !Loses(After(boot, ops[..|ops| - 1]), ops[|ops| - 1]))
  }

  lemma {:induction false} LeakedIff(boot: Boot, ops: seq<Op>)
    requires Legal(boot, ops)
    ensures After(boot, ops).leaked == map[] <==> NeverLoses(boot, ops)
  {
    if ops == [] {
      assert !boot.ok32 ==> TWO_64 in Initial(boot).leaked;
      assert !boot.ok64 ==> TWO_64 + 1 in Initial(boot).leaked;
    } else {
      var before := ops[..|ops| - 1];
      LeakedIff(boot, before);
      ReachableInv(boot, before, After(boot, before));
      match ops[|before|]
      case Assign(fd, dll, wide, size) =>
      case CloseFd(fd, reallocOk) => ReleaseKeepsInv(After(boot, before), fd, reallocOk);
    }
  }

  lemma LeakedNotFree(s: State)
    requires Inv(s) && s.leaked != map[]
    ensures s.free32 != [POOL_32] || s.free64 != [POOL_64]
  {
    var f :| f in s.leaked;
    assert Held(s)[f] == s.leaked[f] && ImageOk(Held(s)[f]);
    var x := Held(s)[f].area.base;
    assert HeldAt(Held(s), x);
    if FreeAt(s.free32, x) { FreeNotHeld(s.free32, POOL_32, Held(s), x); }
    if FreeAt(s.free64, x) { FreeNotHeld(s.free64, POOL_64, Held(s), x); }
    assert s.free32 == [POOL_32] ==> !At(s.free32[0], x);
    assert s.free64 == [POOL_64] ==> !At(s.free64[0], x);
  }

  /** When every descriptor is closed both pools are whole again, exactly if init_memory got its
      memory and no descriptor was closed at a moment when its range touched no free range, the
      list was full and realloc failed. */
  lemma AllClosed(boot: Boot, ops: seq<Op>, s: State)
    requires Reaches(boot, ops, s) && s.taken == map[]
    ensures s.free32 == [POOL_32] && s.free64 == [POOL_64] <==> NeverLoses(boot, ops)
  {
    ReachableInv(boot, ops, s);
    LeakedIff(boot, ops);
    if s.leaked == map[] {
      FullPool(s.free32, POOL_32);
      FullPool(s.free64, POOL_64);
    } else {
      LeakedNotFree(s);
    }
  }

  // ---------------------------------------------------------------- a run that loses a range

  const BOOT := Boot(true, true)

  const STEP := 2 * GRANULE

  /** The i-th area taken from the 64-bit pool, for images of one granule each. */
  function Top(i: nat): Area
    requires i < 512
  {
    Area(POOL_64.End() - (i + 1) * STEP, STEP)
  }

  const LOW := Area(POOL_64.base, POOL_64.size - 512 * STEP)

  lemma {:induction false} Snoc(boot: Boot, ops: seq<Op>, op: Op)
    requires Legal(boot, ops) && Enabled(After(boot, ops), op)
    ensures Legal(boot, ops + [op]) && After(boot, ops + [op]) == Apply(After(boot, ops), op)
    ensures NeverLoses(boot, ops + [op]) <==> NeverLoses(boot, ops) && !Loses(After(boot, ops), op)
  {
    assert (ops + [op])[..|ops|] == ops;
  }

  /** The images from the given one on have their areas, and there are only n descriptors. */
  predicate Images(taken: map<Fd, Image>, from: nat, n: nat)
    requires n <= 512
  {
    && (forall f | f in taken :: f < n)
    && forall i: Fd | from <= i < n :: i in taken && taken[i].area == Top(i)
  }

  ghost predicate HasOpened(s: State, n: nat)
    requires n <= 512
  {
    && s.free64 == [Area(POOL_64.base, POOL_64.size - n * STEP)] && s.size64 == 256
    && s.leaked == map[] && Images(s.taken, 0, n)
  }

  lemma OpenOne(s: State, n: nat)
    requires n < 512 && HasOpened(s, n)
    ensures HasOpened(AssignAddress(s, n, true, true, GRANULE).0, n + 1)
  {
    assert Need(GRANULE) == STEP;
    var fit := FirstFit(s.free64, STEP);
    assert s.free64[0].size >= STEP;
    assert fit == Some(0);
    assert Carved(s.free64, 0, STEP) == Top(n);
  }

  /** 512 images get an address. */
  lemma {:induction false} Opened(n: nat) returns (ops: seq<Op>)
    requires n <= 512
    ensures Legal(BOOT, ops) && HasOpened(After(BOOT, ops), n)
  {
    ops := [];
    if n > 0 {
      var before := Opened(n - 1);
      var op := Assign(n - 1, true, true, GRANULE);
      OpenOne(After(BOOT, before), n - 1);
      Snoc(BOOT, before, op);
      ops := before + [op];
    }
  }

  lemma {:induction false} SkipsAbove(above: seq<Area>, rest: seq<Area>, a: Area, room: bool)
    requires forall i | 0 <= i < |above| :: above[i].base > a.End()
    ensures GiveBack(above + rest, a, room) == above + GiveBack(rest, a, room)
  {
    if above == [] {
      assert above + rest == rest;
    } else {
      var l, tail := above + rest, GiveBack(rest, a, room);
      assert l[0] == above[0] && l[1..] == above[1..] + rest;
      SkipsAbove(above[1..], rest, a, room);
      assert [above[0]] + (above[1..] + tail) == above + tail;
    }
  }

  /** The free list after n of them are closed. */
  function Holes(n: nat): seq<Area>
    requires n <= 255
  {
    seq(n, i requires 0 <= i < n => Top(2 * i)) + [LOW]
  }

  lemma {:induction false} HoleAlone(n: nat)
    requires n <= 255
    ensures Alone(Holes(n), Top(2 * n))
  {
  }

  lemma {:induction false} HoleAdded(n: nat)
    requires n < 255
    ensures GiveBack(Holes(n), Top(2 * n), true) == Holes(n + 1)
  {
    var above := seq(n, i requires 0 <= i < n => Top(2 * i));
    SkipsAbove(above, [LOW], Top(2 * n), true);
    assert GiveBack([LOW], Top(2 * n), true) == [Top(2 * n)] + [LOW];
    assert above + ([Top(2 * n)] + [LOW]) == Holes(n + 1);
  }

  ghost predicate HasHoles(s: State, n: nat)
    requires n <= 255
  {
    s.free64 == Holes(n) && s.size64 == 256 && Images(s.taken, 2 * n, 512)
  }

  lemma PunchOne(s: State, n: nat)
    requires n < 255 && HasHoles(s, n)
    ensures HasHoles(ReleaseAddress(s, 2 * n, false), n + 1)
  {
    HoleAlone(n);
    HoleAdded(n);
    assert s.taken[2 * n].area == Top(2 * n);
    assert Wide(Top(2 * n).base);
    assert |Holes(n)| == n + 1;
  }

  /** Every other one of them is closed. */
  lemma {:induction false} Punched(n: nat) returns (ops: seq<Op>)
    requires n <= 255
    ensures Legal(BOOT, ops) && HasHoles(After(BOOT, ops), n)
  {
    if n == 0 {
      ops := Opened(512);
    } else {
      var before := Punched(n - 1);
      var op := CloseFd(2 * (n - 1), false);
      PunchOne(After(BOOT, before), n - 1);
      Snoc(BOOT, before, op);
      ops := before + [op];
    }
  }

  lemma LosesNext(s: State)
    requires HasHoles(s, 255)
    ensures Loses(s, CloseFd(510, false))
  {
    HoleAlone(255);
    assert s.taken[510].area == Top(510);
    assert Wide(Top(510).base);
  }

  predicate TakenFrom(s: State, n: nat) {
    forall f | f in s.taken :: n <= f < 512
  }

  lemma CloseOne(s: State, n: nat)
    requires TakenFrom(s, n)
    ensures TakenFrom(ReleaseAddress(s, n, true), n + 1)
  {
  }

  lemma CloseLost(s: State)
    requires HasHoles(s, 255)
    ensures Loses(s, CloseFd(510, false)) && TakenFrom(ReleaseAddress(s, 510, false), 0)
  {
    LosesNext(s);
  }

  /** The next one is closed too, without memory for it, and then all that are left. */
  lemma {:induction false} Closed(n: nat) returns (ops: seq<Op>)
    requires n <= 512
    ensures Legal(BOOT, ops) && !NeverLoses(BOOT, ops) && TakenFrom(After(BOOT, ops), n)
  {
    var before, op := [], CloseFd(510, false);
    if n == 0 {
      before := Punched(255);
      CloseLost(After(BOOT, before));
    } else {
      before := Closed(n - 1);
      op := CloseFd(n - 1, true);
      CloseOne(After(BOOT, before), n - 1);
    }
    Snoc(BOOT, before, op);
    ops := before + [op];
  }

  /** Pools are not always whole again when every descriptor is closed: with 512 images, and
      every other one of them closed, the list is full, and the next one is lost. */
  lemma NotWhole()
    ensures exists ops: seq<Op>, s: State ::
              Reaches(BOOT, ops, s) && s.taken == map[] && !(s.free32 == [POOL_32] && s.free64 == [POOL_64])
  {
    var ops := Closed(512);
    AllClosed(BOOT, ops, After(BOOT, ops));
    assert Reaches(BOOT, ops, After(BOOT, ops));
  }

  // ---------------------------------------------------------------- the list in memory

  lemma {:induction false} StepPast(free: seq<Area>, i: nat, a: Area, room: bool)
    requires i < |free| && free[i].base > a.End()
    ensures free[..i] + GiveBack(free[i..], a, room) == free[..i + 1] + GiveBack(free[i + 1..], a, room)
    ensures Inserts(free[i..], a) == Inserts(free[i + 1..], a)
  {
    assert free[i..][1..] == free[i + 1..];
    assert free[..i + 1] == free[..i] + [free[i]];
  }

  /** The list after a range was merged with entry i, which it touches. */
  function Merged(free: seq<Area>, i: nat, a: Area): seq<Area>
    requires i < |free|
  {
    if free[i].base == a.End() then
      if i + 1 < |free| && free[i + 1].End() == a.base
      then free[..i] + [Area(free[i + 1].base, free[i + 1].size + (a.size + free[i].size))] + free[i + 2..]
      else free[..i] + [Area(a.base, free[i].size + a.size)] + free[i + 1..]
    else free[..i] + [Area(free[i].base, free[i].size + a.size)] + free[i + 1..]
  }

  lemma Replaced(free: seq<Area>, i: nat, a: Area)
    requires i < |free|
    ensures free[i := a] == free[..i] + [a] + free[i + 1..]
  {
  }

  lemma Joined(free: seq<Area>, i: nat, a: Area)
    requires i + 1 < |free|
    ensures (free[..i] + free[i + 1..])[i := a] == free[..i] + [a] + free[i + 2..]
  {
  }

  /** Where the search loop stops without a range to merge with. */
  lemma {:induction false} Inserted(free: seq<Area>, i: nat, a: Area, room: bool)
    requires i <= |free| && (i < |free| ==> free[i].base <= a.End() && free[i].End() < a.base)
    ensures free[..i] + GiveBack(free[i..], a, room) == if room then free[..i] + [a] + free[i..] else free
    ensures Inserts(free[i..], a)
  {
    var tail := free[i..];
    assert GiveBack(tail, a, room) == if room then [a] + tail else tail;
    assert free[..i] + ([a] + tail) == free[..i] + [a] + tail;
    assert free[..i] + tail == free;
  }

  lemma GiveBackHead(free: seq<Area>, a: Area, room: bool)
    requires Touches(free, a)
    ensures GiveBack(free, a, room) == Merged(free, 0, a)
  {
    assert forall rest: seq<Area>, m :: free[..0] + [m] + rest == [m] + rest;
  }

  /** Putting m in the place of n entries, seen from entry i on. */
  lemma SwappedIn(free: seq<Area>, i: nat, n: nat, m: Area)
    requires i + n <= |free|
    ensures var t := free[i..]; free[..i] + [m] + free[i + n..] == free[..i] + (t[..0] + [m] + t[n..])
  {
    assert free[i..][n..] == free[i + n..];
  }

  lemma {:induction false} MergedAt(free: seq<Area>, i: nat, a: Area, room: bool)
    requires i < |free| && Touches(free[i..], a)
    ensures Merged(free, i, a) == free[..i] + GiveBack(free[i..], a, room)
  {
    GiveBackHead(free[i..], a, room);
    if free[i].base == a.End() {
      if i + 1 < |free| && free[i + 1].End() == a.base {
        SwappedIn(free, i, 2, Area(free[i + 1].base, free[i + 1].size + (a.size + free[i].size)));
      } else {
        SwappedIn(free, i, 1, Area(a.base, free[i].size + a.size));
      }
    } else {
      SwappedIn(free, i, 1, Area(free[i].base, free[i].size + a.size));
    }
  }

  /** One `struct addr_range`: the ranges in use and the room allocated for them. */
  class AddrRange {
    var free: seq<Area>
    var size: nat

    ghost predicate Valid()
      reads this
    {
      |free| <= size
    }

    constructor ()
      ensures Valid() && free == [] && size == 0
    {
      free, size := [], 0;
    }

    /** The search loop of assign_map_address; 0 when nothing fits. */
    method Assign(need: nat) returns (base: nat)
      requires Valid()
      modifies this
      ensures Valid() && size == old(size)
      ensures FirstFit(old(free), need).None? ==> base == 0 && free == old(free)
      ensures FirstFit(old(free), need).Some? ==>
                var i := FirstFit(old(free), need).value;
                free == Carve(old(free), i, need) && base == Carved(old(free), i, need).base
    {
      var i := 0;
      while i < |free|
        invariant 0 <= i <= |free|
        invariant free == old(free) && size == old(size)
        invariant forall j | 0 <= j < i :: free[j].size < need
      {
        if free[i].size >= need {
          free := free[i := Area(free[i].base, free[i].size - need)];
          base := free[i].base + free[i].size;
          return;
        }
        i := i + 1;
      }
      base := 0;
    }

    /** The range touches entry i, from above or from below or both. */
    method MergeAt(i: nat, a: Area, ghost room: bool)
      requires Valid() && i < |free| && Touches(free[i..], a)
      modifies this
      ensures Valid() && size == old(size)
      ensures free == old(free)[..i] + GiveBack(old(free)[i..], a, room)
    {
      ghost var was := free;
      MergedAt(was, i, a, room);
      var add := a.size;
      if free[i].base == a.base + a.size {
        if i + 1 < |free| && free[i + 1].base + free[i + 1].size == a.base {
          add := add + free[i].size;
          free := free[..i] + free[i + 1..];
        } else {
          free := free[i := Area(a.base, free[i].size)];
        }
      }
      free := free[i := Area(free[i].base, free[i].size + add)];
      Replaced(was, i, free[i]);
      if i + 1 < |was| { Joined(was, i, free[i]); }
    }

    /** free_map_addr */
    method FreeMapAddr(a: Area, reallocOk: bool)
      requires Valid()
      modifies this
      ensures Valid()
      ensures free == GiveBack(old(free), a, Room(old(free), old(size), reallocOk))
      ensures size == NewSize(old(free), old(size), a, reallocOk)
    {
      ghost var room := Room(free, size, reallocOk);
      var i, end := 0, a.base + a.size;
      while i < |free|
        invariant 0 <= i <= |free|
        invariant free == old(free) && size == old(size)
        invariant GiveBack(old(free), a, room) == free[..i] + GiveBack(free[i..], a, room)
        invariant Inserts(free, a) == Inserts(free[i..], a)
      {
        if free[i].base > end {
          StepPast(free, i, a, room);
          i := i + 1;
          continue;
        }
        if free[i].base + free[i].size < a.base { break; }
        MergeAt(i, a, room);
        return;
      }
      Inserted(free, i, a, room);
      if |free| == size {
        if !reallocOk { return; }
        size := if size * 2 > 256 then size * 2 else 256;
      }
      free := free[..i] + [a] + free[i..];
    }
  }

  /** ranges32 and ranges64, with the address and size that each descriptor holds. */
  class Mappings {
    const ranges32: AddrRange
    const ranges64: AddrRange
    var taken: map<Fd, Image>
    ghost var leaked: map<Fd, Image>

    ghost predicate Valid()
      reads this, ranges32, ranges64
    {
      ranges32 != ranges64 && ranges32.Valid() && ranges64.Valid()
    }

    ghost function View(): State
      reads this, ranges32, ranges64
    {
      State(ranges32.free, ranges64.free, ranges32.size, ranges64.size, taken, leaked)
    }

    /** init_memory */
    constructor (boot: Boot)
      ensures Valid() && fresh(ranges32) && fresh(ranges64) && View() == Initial(boot)
    {
      var narrow := new AddrRange();
      var wide := new AddrRange();
      narrow.FreeMapAddr(POOL_32, boot.ok32);
      wide.FreeMapAddr(POOL_64, boot.ok64);
      ranges32, ranges64, taken, leaked := narrow, wide, map[], Initial(boot).leaked;
    }

    /** assign_map_address; `wide` when the preferred base of the image is above 4 GB. */
    method AssignMapAddress(fd: Fd, dll: bool, wide: bool, size: nat) returns (ret: nat)
      requires Valid() && Inv(View()) && Enabled(View(), Assign(fd, dll, wide, size))
      modifies this, ranges32, ranges64
      ensures Valid() && Inv(View())
      ensures (View(), ret) == AssignAddress(old(View()), fd, dll, wide, size)
    {
      AssignKeepsInv(View(), fd, dll, wide, size);
      if !dll { return 0; }
      if fd in taken { return taken[fd].area.base; }
      var range := if wide then ranges64 else ranges32;
      var need := Need(size);
      ret := range.Assign(need);
      if ret != 0 { taken := taken[fd := Image(Area(ret, need), size, wide)]; }
    }

    /** fd_destroy, as far as the address goes: the list is found from the address. */
    method FdDestroy(fd: Fd, reallocOk: bool)
      requires Valid() && Inv(View())
      modifies this, ranges32, ranges64
      ensures Valid() && Inv(View())
      ensures View() == ReleaseAddress(old(View()), fd, reallocOk)
    {
      ReleaseKeepsInv(View(), fd, reallocOk);
      if fd !in taken { return; }
      var a := taken[fd].area;
      leaked := ReleaseAddress(View(), fd, reallocOk).leaked;
      var range := if a.base / 0x1_0000_0000 != 0 then ranges64 else ranges32;
      range.FreeMapAddr(a, reallocOk);
      taken := taken - {fd};
    }
  }
}
