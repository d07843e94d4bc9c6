/** Atom tables (server/atom.c): an array of entries indexed by atom, threaded into doubly
    linked hash chains, standing for a map from names to atoms with reference counts.

    Names are compared without regard to case.  The field `chains` lists the entries of each
    hash chain in order: the functions walk it where the source follows the links, and the
    class, which follows the links, keeps it as ghost state.
 */
module AtomTable {

  import opened Options

  type Id = nat

  const HASH_SIZE := 37
  const MIN_STR_ATOM := 0xc000
  const MAX_ATOMS := 0x4000
  const MAX_INT_ATOM := 0xc000
  const MAX_ATOM_LEN := 255

  /** hash_strW before its reduction, and the folding behind memicmp_strW. */
  datatype Unicode = Unicode(hash: string -> nat, fold: string -> string)

  /** What names are equal up to case. */
  type Key = (nat, string)

  function KeyOf(u: Unicode, str: string): Key {
    (|str|, u.fold(str))
  }

  ghost predicate HashAgrees(u: Unicode) {
    forall a: string, b: string :: KeyOf(u, a) == KeyOf(u, b) ==> u.hash(a) == u.hash(b)
  }

  function Bucket(u: Unicode, str: string): (b: nat)
    ensures b < HASH_SIZE
  {
    u.hash(str) % HASH_SIZE
  }

  // ---------------------------------------------------------------- integer atoms

  predicate IsDigit(c: char) {
    '0' <= c <= '9'
  }

  function DigitOf(c: char): nat
    requires IsDigit(c)
  {
    c as nat - '0' as nat
  }

  /** The number a string of digits stands for. */
  function ValueOf(digits: string): nat
    requires forall k | 0 <= k < |digits| :: IsDigit(digits[k])
  {
    if digits == "" then 0 else ValueOf(digits[..|digits| - 1]) * 10 + DigitOf(digits[|digits| - 1])
  }

  /** "#" and the decimal digits of a number below MAXINTATOM; 0 for any other name. */
  function IntAtom(str: string): nat {
    if str == "" || str[0] != '#' || exists k :: 1 <= k < |str| && !IsDigit(str[k]) then 0
    else
      var digits := str[1..];
      if ValueOf(digits) < MAX_INT_ATOM then ValueOf(digits) else 0
  }

  lemma {:induction false} PrefixValue(digits: string, n: nat)
    requires n <= |digits| && forall k | 0 <= k < |digits| :: IsDigit(digits[k])
    ensures ValueOf(digits[..n]) <= ValueOf(digits)
    decreases |digits|
  {
    if n < |digits| {
      var front := digits[..|digits| - 1];
      PrefixValue(front, n);
      assert front[..n] == digits[..n];
    } else {
      assert digits[..n] == digits;
    }
  }

  /** get_int_atom_value */
  method GetIntAtomValue(str: string) returns (r: nat)
    ensures r == IntAtom(str)
    ensures r < MAX_INT_ATOM
  {
    if str == "" || str[0] != '#' { return 0; }
    r := 0;
    var k := 1;
    while k < |str|
      invariant 1 <= k <= |str| && r < MAX_INT_ATOM
      invariant forall j | 1 <= j < k :: IsDigit(str[j])
      invariant forall j | 0 <= j < k - 1 :: IsDigit(str[1..k][j])
      invariant r == ValueOf(str[1..k])
    {
      if !IsDigit(str[k]) { return 0; }
      assert str[1..k + 1][..k - 1] == str[1..k];
      r := r * 10 + DigitOf(str[k]);
      k := k + 1;
      if r >= MAX_INT_ATOM {
        if forall j | 1 <= j < |str| :: IsDigit(str[j]) {
          PrefixValue(str[1..], k - 1);
          assert str[1..][..k - 1] == str[1..k];
        }
        return 0;
      }
    }
    assert str[1..k] == str[1..];
  }

  // ---------------------------------------------------------------- the table

  datatype Entry = Entry(str: string, hash: nat, count: nat, next: Option<Id>, prev: Option<Id>)

  /** Entry i is the one of atom MIN_STR_ATOM + i; index 0 is never used. */
  datatype State = State(atoms: seq<Option<Entry>>, heads: seq<Option<Id>>, chains: seq<seq<Id>>)

  function NoHeads(): (h: seq<Option<Id>>)
    ensures |h| == HASH_SIZE && forall b | 0 <= b < HASH_SIZE :: h[b] == None
  {
    seq(HASH_SIZE, _ => None)
  }

  function NoChains(): (c: seq<seq<Id>>)
    ensures |c| == HASH_SIZE && forall b | 0 <= b < HASH_SIZE :: c[b] == []
  {
    seq(HASH_SIZE, _ => [])
  }

  function Initial(): State {
    State([None], NoHeads(), NoChains())
  }

  predicate Live(s: State, i: Id) {
    i < |s.atoms| && s.atoms[i].Some?
  }

  predicate HasKey(u: Unicode, s: State, i: Id, str: string) {
    Live(s, i) && KeyOf(u, s.atoms[i].value.str) == KeyOf(u, str)
  }

  function FindIn(u: Unicode, s: State, chain: seq<Id>, str: string): (r: Option<Id>)
    ensures r.Some? ==> r.value in chain && HasKey(u, s, r.value, str)
    ensures r.None? ==> forall i | i in chain :: !HasKey(u, s, i, str)
  {
    if chain == [] then None else if HasKey(u, s, chain[0], str) then Some(chain[0]) else FindIn(u, s, chain[1..], str)
  }

  /** find_atom_entry in the right chain. */
  function Find(u: Unicode, s: State, str: string): Option<Id> {
    var b := Bucket(u, str);
    if b < |s.chains| then FindIn(u, s, s.chains[b], str) else None
  }

  function FirstFree(atoms: seq<Option<Entry>>, i: nat): (r: nat)
    requires i <= |atoms|
    ensures i <= r <= |atoms| && (r < |atoms| ==> atoms[r].None?) && forall j | i <= j < r :: atoms[j].Some?
    decreases |atoms| - i
  {
    if i == |atoms| || atoms[i].None? then i else FirstFree(atoms, i + 1)
  }

  function SetPrev(atoms: seq<Option<Entry>>, i: Option<Id>, prev: Option<Id>): seq<Option<Entry>> {
    if i.Some? && i.value < |atoms| && atoms[i.value].Some?
    then atoms[i.value := Some(atoms[i.value].value.(prev := prev))] else atoms
  }

  function SetNext(atoms: seq<Option<Entry>>, i: Option<Id>, next: Option<Id>): seq<Option<Entry>> {
    if i.Some? && i.value < |atoms| && atoms[i.value].Some?
    then atoms[i.value := Some(atoms[i.value].value.(next := next))] else atoms
  }

  function SetCount(s: State, i: Id, count: nat): State
    requires Live(s, i)
  {
    s.(atoms := s.atoms[i := Some(s.atoms[i].value.(count := count))])
  }

  /** A new entry at index i, first in its chain. */
  function Insert(s: State, b: nat, i: Id, str: string): State
    requires b < |s.heads| && b < |s.chains| && i <= |s.atoms|
  {
    var atoms := SetPrev(if i == |s.atoms| then s.atoms + [None] else s.atoms, s.heads[b], Some(i));
    State(atoms[i := Some(Entry(str, b, 1, s.heads[b], None))], s.heads[b := Some(i)], s.chains[b := [i] + s.chains[b]])
  }

  datatype Result = Atom(atom: nat) | NameInvalid | InvalidParameter | NoMemory | NotFound

  function ToAtom(i: Id): nat {
    i + MIN_STR_ATOM
  }

  predicate IsName(str: string) {
    0 < |str| <= MAX_ATOM_LEN && IntAtom(str) == 0
  }

  /** add_atom */
  function Add(u: Unicode, s: State, str: string, allocOk: bool): (State, Result) {
    var b := Bucket(u, str);
    if str == "" then (s, NameInvalid)
    else if |str| > MAX_ATOM_LEN then (s, InvalidParameter)
    else if IntAtom(str) != 0 then (s, Atom(IntAtom(str)))
    else
      match Find(u, s, str)
      case Some(i) =>
        if Live(s, i) then (SetCount(s, i, s.atoms[i].value.count + 1), Atom(ToAtom(i))) else (s, NotFound)
      case None =>
        if s.atoms == [] || b >= |s.heads| || b >= |s.chains| then (s, NoMemory)
        else
          var i := FirstFree(s.atoms, 1);
          if !allocOk || i == MAX_ATOMS then (s, NoMemory) else (Insert(s, b, i, str), Atom(ToAtom(i)))
  }

  function At(c: seq<Id>, k: int): Option<Id> {
    if 0 <= k < |c| then Some(c[k]) else None
  }

  function Cut(c: seq<Id>, k: nat): (r: seq<Id>)
    requires k < |c|
    ensures |r| == |c| - 1 && forall m | 0 <= m < |r| :: r[m] == c[if m < k then m else m + 1]
  {
    c[..k] + c[k + 1..]
  }

  function IndexIn(c: seq<Id>, i: Id): (k: nat)
    ensures k <= |c| && (k < |c| ==> c[k] == i) && (i in c ==> k < |c|)
  {
    if c == [] || c[0] == i then 0 else IndexIn(c[1..], i) + 1
  }

  /** The last reference of entry i is gone. */
  function Unlink(s: State, i: Id): State
    requires Live(s, i)
  {
    var e := s.atoms[i].value;
    var atoms := SetPrev(s.atoms, e.next, e.prev);
    var k := if e.hash < |s.chains| then IndexIn(s.chains[e.hash], i) else 0;
    var chains :=
      if e.hash < |s.chains| && k < |s.chains[e.hash]| then s.chains[e.hash := Cut(s.chains[e.hash], k)] else s.chains;
    if e.prev.Some? then State(SetNext(atoms, e.prev, e.next)[i := None], s.heads, chains)
    else State(atoms[i := None], if e.hash < |s.heads| then s.heads[e.hash := e.next] else s.heads, chains)
  }

  /** get_atom_entry */
  function EntryOf(s: State, atom: nat): Option<Id> {
    if atom >= MIN_STR_ATOM && Live(s, atom - MIN_STR_ATOM) then Some(atom - MIN_STR_ATOM) else None
  }

  /** delete_atom and release_atom */
  function Delete(s: State, atom: nat): State {
    match EntryOf(s, atom)
    case None => s
    case Some(i) =>
      if s.atoms[i].value.count > 1 then SetCount(s, i, s.atoms[i].value.count - 1) else Unlink(s, i)
  }

  /** grab_atom */
  function Grab(s: State, atom: nat): State {
    match EntryOf(s, atom)
    case None => s
    case Some(i) => SetCount(s, i, s.atoms[i].value.count + 1)
  }

  // ---------------------------------------------------------------- the invariant

  predicate Distinct(c: seq<Id>) {
    forall m, n | 0 <= m < n < |c| :: c[m] != c[n]
  }

  /** Position k of chain b is threaded to its neighbours. */
  predicate NodeOk(s: State, b: nat, k: nat)
    requires b < |s.chains| && k < |s.chains[b]|
  {
    var c := s.chains[b];
    Live(s, c[k]) && var e := s.atoms[c[k]].value; e.hash == b && e.next == At(c, k + 1) && e.prev == At(c, k - 1)
  }

  ghost predicate ChainOk(s: State, b: nat)
    requires b < |s.chains| && b < |s.heads|
  {
    && Distinct(s.chains[b]) && s.heads[b] == At(s.chains[b], 0)
    && forall k {:trigger NodeOk(s, b, k)} | 0 <= k < |s.chains[b]| :: NodeOk(s, b, k)
  }

  predicate AtomOk(u: Unicode, s: State, i: Id) {
    Live(s, i) ==>
      var e := s.atoms[i].value;
      i > 0 && IsName(e.str) && e.count > 0 && e.hash == Bucket(u, e.str) &&
      e.hash < |s.chains| && i in s.chains[e.hash]
  }

  predicate SameKey(u: Unicode, s: State, i: Id, j: Id) {
    Live(s, i) && Live(s, j) && KeyOf(u, s.atoms[i].value.str) == KeyOf(u, s.atoms[j].value.str)
  }

  ghost predicate ChainsOk(s: State) {
    && |s.heads| == HASH_SIZE && |s.chains| == HASH_SIZE
    && forall b {:trigger ChainOk(s, b)} | 0 <= b < HASH_SIZE :: ChainOk(s, b)
  }

  ghost predicate Inv(u: Unicode, s: State) {
    && s.atoms != [] && s.atoms[0].None? && |s.atoms| <= MAX_ATOMS
    && ChainsOk(s)
    && (forall i {:trigger AtomOk(u, s, i)} :: AtomOk(u, s, i))
    && (forall i, j {:trigger SameKey(u, s, i, j)} :: SameKey(u, s, i, j) ==> i == j)
  }

  lemma InitialInv(u: Unicode)
    ensures Inv(u, Initial())
  {
    forall b | 0 <= b < HASH_SIZE ensures ChainOk(Initial(), b) { }
  }

  /** Looking a name up finds the entry with that name, if and only if there is one. */
  lemma FindExact(u: Unicode, s: State, str: string, i: Id)
    requires HashAgrees(u) && Inv(u, s)
    ensures Find(u, s, str) == Some(i) <==> HasKey(u, s, i, str)
  {
    var b := Bucket(u, str);
    var r := FindIn(u, s, s.chains[b], str);
    if HasKey(u, s, i, str) {
      assert AtomOk(u, s, i);
      assert u.hash(s.atoms[i].value.str) == u.hash(str);
      assert SameKey(u, s, r.value, i);
    }
  }

  // ---------------------------------------------------------------- changing a count

  lemma SetCountKeepsInv(u: Unicode, s: State, i: Id, count: nat)
    requires Inv(u, s) && Live(s, i) && count > 0
    ensures Inv(u, SetCount(s, i, count))
  {
    var t := SetCount(s, i, count);
    forall b | 0 <= b < HASH_SIZE ensures ChainOk(t, b) {
      assert ChainOk(s, b);
      forall k | 0 <= k < |t.chains[b]| ensures NodeOk(t, b, k) { assert NodeOk(s, b, k); }
    }
    forall j ensures AtomOk(u, t, j) { assert AtomOk(u, s, j); }
    forall j, k ensures SameKey(u, t, j, k) ==> j == k { assert SameKey(u, t, j, k) == SameKey(u, s, j, k); }
  }

  // ---------------------------------------------------------------- inserting

  ghost predicate CanInsert(u: Unicode, s: State, i: Id, str: string) {
    && HashAgrees(u) && Inv(u, s) && IsName(str) && Find(u, s, str).None?
    && 0 < i < MAX_ATOMS && i <= |s.atoms| && !Live(s, i)
  }

  /** Every other entry keeps its name, hash and count. */
  lemma InsertOthers(u: Unicode, s: State, i: Id, str: string, j: Id)
    requires CanInsert(u, s, i, str) && j != i
    ensures var t := Insert(s, Bucket(u, str), i, str);
            && (Live(t, j) <==> Live(s, j))
            && (Live(s, j) ==> var e, f := s.atoms[j].value, t.atoms[j].value;
                               && f.str == e.str && f.hash == e.hash && f.count == e.count && f.next == e.next
                               && f.prev == if s.heads[Bucket(u, str)] == Some(j) then Some(i) else e.prev)
  {
  }

  lemma InsertNode(u: Unicode, s: State, i: Id, str: string, b: nat, k: nat)
    requires CanInsert(u, s, i, str) && b < HASH_SIZE
    requires var t := Insert(s, Bucket(u, str), i, str); b < |t.chains| && k < |t.chains[b]|
    ensures NodeOk(Insert(s, Bucket(u, str), i, str), b, k)
  {
    var a := Bucket(u, str);
    assert ChainOk(s, a) && ChainOk(s, b);
    if b != a {
      assert NodeOk(s, b, k);
      InsertOthers(u, s, i, str, s.chains[b][k]);
      if |s.chains[a]| > 0 { assert NodeOk(s, a, 0); }
    } else if k > 0 {
      assert NodeOk(s, b, k - 1);
      InsertOthers(u, s, i, str, s.chains[b][k - 1]);
    }
  }

  lemma InsertKeepsInv(u: Unicode, s: State, i: Id, str: string)
    requires CanInsert(u, s, i, str)
    ensures Inv(u, Insert(s, Bucket(u, str), i, str))
  {
    var a, t := Bucket(u, str), Insert(s, Bucket(u, str), i, str);
    forall b | 0 <= b < HASH_SIZE ensures ChainOk(t, b) {
      assert ChainOk(s, b);
      forall k | 0 <= k < |t.chains[b]| ensures NodeOk(t, b, k) { InsertNode(u, s, i, str, b, k); }
      if b == a {
        forall k | 0 <= k < |s.chains[b]| ensures s.chains[b][k] != i { assert NodeOk(s, b, k); }
      }
    }
    forall j ensures AtomOk(u, t, j) {
      assert AtomOk(u, s, j);
      if j != i { InsertOthers(u, s, i, str, j); }
    }
    forall j, k ensures SameKey(u, t, j, k) ==> j == k {
      assert SameKey(u, s, j, k) ==> j == k;
      if j != i { InsertOthers(u, s, i, str, j); FindExact(u, s, str, j); }
      if k != i { InsertOthers(u, s, i, str, k); FindExact(u, s, str, k); }
    }
  }

  // ---------------------------------------------------------------- unlinking

  /** The entry to unlink is at position k of its chain, between its neighbours. */
  lemma UnlinkPlace(u: Unicode, s: State, i: Id) returns (b: nat, k: nat)
    requires Inv(u, s) && Live(s, i)
    ensures b == s.atoms[i].value.hash < HASH_SIZE &&
            k == IndexIn(s.chains[b], i) < |s.chains[b]| && s.chains[b][k] == i
    ensures ChainOk(s, b) && s.atoms[i].value.next == At(s.chains[b], k + 1) &&
            s.atoms[i].value.prev == At(s.chains[b], k - 1)
  {
    b := s.atoms[i].value.hash;
    assert AtomOk(u, s, i) && ChainOk(s, b);
    k := IndexIn(s.chains[b], i);
    assert NodeOk(s, b, k);
  }

  lemma UnlinkOthers(u: Unicode, s: State, i: Id, j: Id)
    requires Inv(u, s) && Live(s, i) && j != i
    ensures |Unlink(s, i).atoms| == |s.atoms| && (Live(Unlink(s, i), j) <==> Live(s, j))
    ensures Live(s, j) ==> var d, e, f := s.atoms[i].value, s.atoms[j].value, Unlink(s, i).atoms[j].value;
                           && f.str == e.str && f.hash == e.hash && f.count == e.count
                           && f.prev == (if d.next == Some(j) then d.prev else e.prev)
                           && f.next == (if d.prev == Some(j) then d.next else e.next)
  {
  }

  /** Where node m of chain a was before entry k of chain b was unlinked. */
  function Formerly(a: nat, m: nat, b: nat, k: nat): nat {
    if a == b && m >= k then m + 1 else m
  }

  lemma NeighboursOf(s: State, i: Id, b: nat, k: nat, a: nat, n: nat)
    requires b < |s.chains| && b < |s.heads| && ChainOk(s, b) && k < |s.chains[b]| && s.chains[b][k] == i && Live(s, i)
    requires a < |s.chains| && n < |s.chains[a]| && NodeOk(s, a, n) && s.chains[a][n] != i
    ensures s.atoms[i].value.next == Some(s.chains[a][n]) <==> a == b && n == k + 1
    ensures s.atoms[i].value.prev == Some(s.chains[a][n]) <==> a == b && n + 1 == k
  {
    assert NodeOk(s, b, k);
    if k > 0 { assert NodeOk(s, b, k - 1); }
    if k + 1 < |s.chains[b]| { assert NodeOk(s, b, k + 1); }
  }

  lemma UnlinkNode(u: Unicode, s: State, i: Id, a: nat, m: nat)
    requires Inv(u, s) && Live(s, i) && a < HASH_SIZE
    requires a < |Unlink(s, i).chains| && m < |Unlink(s, i).chains[a]|
    ensures NodeOk(Unlink(s, i), a, m)
  {
    var b, k := UnlinkPlace(u, s, i);
    assert ChainOk(s, a);
    var n := Formerly(a, m, b, k);
    assert NodeOk(s, a, n);
    UnlinkOthers(u, s, i, s.chains[a][n]);
    NeighboursOf(s, i, b, k, a, n);
  }

  lemma CutKeeps(c: seq<Id>, k: nat, j: Id)
    requires k < |c| && j in c && j != c[k]
    ensures j in Cut(c, k)
  {
    var n :| 0 <= n < |c| && c[n] == j;
    assert Cut(c, k)[if n < k then n else n - 1] == j;
  }

  lemma UnlinkAtom(u: Unicode, s: State, i: Id, j: Id)
    requires Inv(u, s) && Live(s, i)
    ensures AtomOk(u, Unlink(s, i), j)
  {
    var b, k := UnlinkPlace(u, s, i);
    assert AtomOk(u, s, j);
    if j != i {
      UnlinkOthers(u, s, i, j);
      if Live(s, j) && s.atoms[j].value.hash == b { CutKeeps(s.chains[b], k, j); }
    }
  }

  lemma UnlinkKeepsInv(u: Unicode, s: State, i: Id)
    requires Inv(u, s) && Live(s, i)
    ensures Inv(u, Unlink(s, i))
  {
    var t := Unlink(s, i);
    var b, k := UnlinkPlace(u, s, i);
    assert AtomOk(u, s, i);
    UnlinkOthers(u, s, i, 0);
    forall a | 0 <= a < HASH_SIZE ensures ChainOk(t, a) {
      assert ChainOk(s, a);
      forall m | 0 <= m < |t.chains[a]| ensures NodeOk(t, a, m) { UnlinkNode(u, s, i, a, m); }
    }
    forall j ensures AtomOk(u, t, j) { UnlinkAtom(u, s, i, j); }
    forall j, l ensures SameKey(u, t, j, l) ==> j == l {
      assert SameKey(u, s, j, l) ==> j == l;
      if j != i { UnlinkOthers(u, s, i, j); }
      if l != i { UnlinkOthers(u, s, i, l); }
    }
  }

  // ---------------------------------------------------------------- the table as a map

  /** A name's atom and references. */
  datatype Ref = Ref(atom: nat, count: int)

  function Lookup(u: Unicode, s: State, str: string): Option<Ref> {
    match Find(u, s, str)
    case Some(i) => if Live(s, i) then Some(Ref(ToAtom(i), s.atoms[i].value.count)) else None
    case None => None
  }

  lemma {:induction false} LookupIs(u: Unicode, s: State, x: string, i: Id)
    requires HashAgrees(u) && Inv(u, s) && HasKey(u, s, i, x)
    ensures Lookup(u, s, x) == Some(Ref(ToAtom(i), s.atoms[i].value.count))
  {
    FindExact(u, s, x, i);
  }

  lemma {:induction false} LookupNone(u: Unicode, s: State, x: string)
    requires HashAgrees(u) && Inv(u, s) && forall j: Id {:trigger HasKey(u, s, j, x)} :: !HasKey(u, s, j, x)
    ensures Lookup(u, s, x).None?
  {
    var r := Find(u, s, x);
    if r.Some? { FindExact(u, s, x, r.value); }
  }

  /** Entry j has the name in both states, with the same references, or in neither. */
  predicate SameRef(u: Unicode, s: State, t: State, x: string, j: Id) {
    && (HasKey(u, t, j, x) <==> HasKey(u, s, j, x))
    && (HasKey(u, t, j, x) && HasKey(u, s, j, x) ==> t.atoms[j].value.count == s.atoms[j].value.count)
  }

  /** A name that the same entry has in both states is looked up with the same result. */
  lemma {:induction false} SameLookup(u: Unicode, s: State, t: State, x: string)
    requires HashAgrees(u) && Inv(u, s) && Inv(u, t)
    requires forall j: Id {:trigger SameRef(u, s, t, x, j)} :: SameRef(u, s, t, x, j)
    ensures Lookup(u, t, x) == Lookup(u, s, x)
  {
    if i: Id :| HasKey(u, t, i, x) {
      assert SameRef(u, s, t, x, i);
      LookupIs(u, t, x, i);
      LookupIs(u, s, x, i);
    } else {
      forall j: Id ensures !HasKey(u, s, j, x) { assert SameRef(u, s, t, x, j); }
      LookupNone(u, t, x);
      LookupNone(u, s, x);
    }
  }

  /** What one step does to the map, for every name. */
  lemma {:induction false} SetCountLookup(u: Unicode, s: State, i: Id, count: nat, x: string)
    requires HashAgrees(u) && Inv(u, s) && Live(s, i) && count > 0
    ensures Lookup(u, SetCount(s, i, count), x) ==
            if HasKey(u, s, i, x) then Some(Ref(ToAtom(i), count)) else Lookup(u, s, x)
  {
    var t := SetCount(s, i, count);
    SetCountKeepsInv(u, s, i, count);
    if HasKey(u, s, i, x) { LookupIs(u, t, x, i); } else { SameLookup(u, s, t, x); }
  }

  lemma {:induction false} InsertLookup(u: Unicode, s: State, i: Id, str: string, x: string)
    requires CanInsert(u, s, i, str)
    ensures Lookup(u, Insert(s, Bucket(u, str), i, str), x)
            == if KeyOf(u, x) == KeyOf(u, str) then Some(Ref(ToAtom(i), 1)) else Lookup(u, s, x)
  {
    var t := Insert(s, Bucket(u, str), i, str);
    InsertKeepsInv(u, s, i, str);
    if KeyOf(u, x) == KeyOf(u, str) {
      LookupIs(u, t, x, i);
    } else {
      forall j: Id ensures SameRef(u, s, t, x, j) { if j != i { InsertOthers(u, s, i, str, j); } }
      SameLookup(u, s, t, x);
    }
  }

  lemma {:induction false} UnlinkLookup(u: Unicode, s: State, i: Id, x: string)
    requires HashAgrees(u) && Inv(u, s) && Live(s, i)
    ensures Lookup(u, Unlink(s, i), x) == if HasKey(u, s, i, x) then None else Lookup(u, s, x)
  {
    var t := Unlink(s, i);
    UnlinkKeepsInv(u, s, i);
    if HasKey(u, s, i, x) {
      forall j: Id ensures !HasKey(u, t, j, x) {
        if j != i { UnlinkOthers(u, s, i, j); }
        assert SameKey(u, s, i, j) ==> i == j;
      }
      LookupNone(u, t, x);
    } else {
      forall j: Id ensures SameRef(u, s, t, x, j) { if j != i { UnlinkOthers(u, s, i, j); } }
      SameLookup(u, s, t, x);
    }
  }

  datatype Op = DoAdd(str: string, allocOk: bool) | DoGrab(atom: nat) | DoDelete(atom: nat)

  function Apply(u: Unicode, s: State, op: Op): State {
    match op
    case DoAdd(str, allocOk) => Add(u, s, str, allocOk).0
    case DoGrab(atom) => Grab(s, atom)
    case DoDelete(atom) => Delete(s, atom)
  }

  function Run(u: Unicode, s: State, ops: seq<Op>): State
    decreases |ops|
  {
    if ops == [] then s else Run(u, Apply(u, s, ops[0]), ops[1..])
  }

  lemma ApplyKeepsInv(u: Unicode, s: State, op: Op)
    requires HashAgrees(u) && Inv(u, s)
    ensures Inv(u, Apply(u, s, op))
  {
    match op
    case DoAdd(str, allocOk) =>
      if IsName(str) {
        var r := Find(u, s, str);
        if r.Some? {
          FindExact(u, s, str, r.value);
          SetCountKeepsInv(u, s, r.value, s.atoms[r.value].value.count + 1);
        } else {
          var i := FirstFree(s.atoms, 1);
          if i != MAX_ATOMS { InsertKeepsInv(u, s, i, str); }
        }
      }
    case DoGrab(atom) =>
      var r := EntryOf(s, atom);
      if r.Some? { SetCountKeepsInv(u, s, r.value, s.atoms[r.value].value.count + 1); }
    case DoDelete(atom) =>
      var r := EntryOf(s, atom);
      if r.Some? {
        if s.atoms[r.value].value.count > 1 { SetCountKeepsInv(u, s, r.value, s.atoms[r.value].value.count - 1); }
        else { UnlinkKeepsInv(u, s, r.value); }
      }
  }

  /** References a step adds to, or takes from, the name x whose atom is a. */
  function Net(u: Unicode, x: string, a: nat, op: Op): int {
    match op
    case DoAdd(str, _) => if IsName(str) && KeyOf(u, str) == KeyOf(u, x) then 1 else 0
    case DoGrab(atom) => if atom == a then 1 else 0
    case DoDelete(atom) => if atom == a then -1 else 0
  }

  /** A name that has an atom keeps it, with the references it should have, until they are all
      gone; then it has none. */
  lemma {:induction false} StepOnName(u: Unicode, s: State, op: Op, x: string)
    requires HashAgrees(u) && Inv(u, s) && Lookup(u, s, x).Some?
    ensures var r := Lookup(u, s, x).value;
            var n := r.count + Net(u, x, r.atom, op);
            Lookup(u, Apply(u, s, op), x) == if n > 0 then Some(Ref(r.atom, n)) else None
  {
    var i := Find(u, s, x).value;
    FindExact(u, s, x, i);
    assert AtomOk(u, s, i);
    match op
    case DoAdd(str, allocOk) =>
      if IsName(str) {
        var r := Find(u, s, str);
        if r.Some? {
          FindExact(u, s, str, r.value);
          SetCountLookup(u, s, r.value, s.atoms[r.value].value.count + 1, x);
          FindExact(u, s, x, r.value);
          FindExact(u, s, str, i);
        } else {
          FindExact(u, s, str, i);
          var k := FirstFree(s.atoms, 1);
          if k != MAX_ATOMS { InsertLookup(u, s, k, str, x); }
        }
      }
    case DoGrab(atom) =>
      var r := EntryOf(s, atom);
      if r.Some? {
        SetCountLookup(u, s, r.value, s.atoms[r.value].value.count + 1, x);
        FindExact(u, s, x, r.value);
      }
    case DoDelete(atom) =>
      var r := EntryOf(s, atom);
      if r.Some? {
        FindExact(u, s, x, r.value);
        if s.atoms[r.value].value.count > 1 { SetCountLookup(u, s, r.value, s.atoms[r.value].value.count - 1, x); }
        else { UnlinkLookup(u, s, r.value, x); }
      }
  }

  /** A name without an atom gets one from the first successful addition, the lowest index that
      is free, and from nothing else. */
  lemma StepOnNewName(u: Unicode, s: State, op: Op, x: string)
    requires HashAgrees(u) && Inv(u, s) && Lookup(u, s, x).None?
    ensures Lookup(u, Apply(u, s, op), x) ==
            if op.DoAdd? && IsName(op.str) && KeyOf(u, op.str) == KeyOf(u, x) &&
               op.allocOk && FirstFree(s.atoms, 1) != MAX_ATOMS
            then Some(Ref(ToAtom(FirstFree(s.atoms, 1)), 1)) else None
  {
    if Find(u, s, x).Some? { FindExact(u, s, x, Find(u, s, x).value); }
    match op
    case DoAdd(str, allocOk) =>
      if IsName(str) {
        var r := Find(u, s, str);
        if r.Some? {
          FindExact(u, s, str, r.value);
          SetCountLookup(u, s, r.value, s.atoms[r.value].value.count + 1, x);
          FindExact(u, s, x, r.value);
        } else {
          var k := FirstFree(s.atoms, 1);
          if k != MAX_ATOMS { InsertLookup(u, s, k, str, x); }
        }
      }
    case DoGrab(atom) =>
      var r := EntryOf(s, atom);
      if r.Some? {
        SetCountLookup(u, s, r.value, s.atoms[r.value].value.count + 1, x);
        FindExact(u, s, x, r.value);
      }
    case DoDelete(atom) =>
      var r := EntryOf(s, atom);
      if r.Some? {
        FindExact(u, s, x, r.value);
        if s.atoms[r.value].value.count > 1 { SetCountLookup(u, s, r.value, s.atoms[r.value].value.count - 1, x); }
        else { UnlinkLookup(u, s, r.value, x); }
      }
  }

  // ---------------------------------------------------------------- runs

  function NetOf(u: Unicode, x: string, a: nat, ops: seq<Op>): int
    decreases |ops|
  {
    if ops == [] then 0 else Net(u, x, a, ops[0]) + NetOf(u, x, a, ops[1..])
  }

  /** The references never all go away during the run. */
  ghost predicate StaysUp(u: Unicode, x: string, a: nat, n: int, ops: seq<Op>)
    decreases |ops|
  {
    n > 0 && (ops == [] || StaysUp(u, x, a, n + Net(u, x, a, ops[0]), ops[1..]))
  }

  lemma {:induction false} RunKeepsInv(u: Unicode, s: State, ops: seq<Op>)
    requires HashAgrees(u) && Inv(u, s)
    ensures Inv(u, Run(u, s, ops))
    decreases |ops|
  {
    if ops != [] {
      ApplyKeepsInv(u, s, ops[0]);
      RunKeepsInv(u, Apply(u, s, ops[0]), ops[1..]);
    }
  }

  lemma {:induction false} StepUp(u: Unicode, s: State, op: Op, x: string, a: nat, n: int)
    requires HashAgrees(u) && Inv(u, s) && Lookup(u, s, x) == Some(Ref(a, n))
    ensures Inv(u, Apply(u, s, op))
    ensures n + Net(u, x, a, op) > 0 ==> Lookup(u, Apply(u, s, op), x) == Some(Ref(a, n + Net(u, x, a, op)))
  {
    ApplyKeepsInv(u, s, op);
    StepOnName(u, s, op, x);
  }

  lemma {:induction false} StaysUpNext(u: Unicode, x: string, a: nat, n: int, ops: seq<Op>)
    requires ops != [] && StaysUp(u, x, a, n, ops)
    ensures var m := n + Net(u, x, a, ops[0]); m > 0 && StaysUp(u, x, a, m, ops[1..])
  {
  }

  lemma {:induction false} RunOnName(u: Unicode, s: State, ops: seq<Op>, x: string, a: nat, n: int)
    requires HashAgrees(u) && Inv(u, s) && Lookup(u, s, x) == Some(Ref(a, n)) && StaysUp(u, x, a, n, ops)
    ensures Lookup(u, Run(u, s, ops), x) == Some(Ref(a, n + NetOf(u, x, a, ops)))
    decreases |ops|
  {
    if ops != [] {
      var t, m := Apply(u, s, ops[0]), n + Net(u, x, a, ops[0]);
      StaysUpNext(u, x, a, n, ops);
      StepUp(u, s, ops[0], x, a, n);
      RunOnName(u, t, ops[1..], x, a, m);
      assert Run(u, s, ops) == Run(u, t, ops[1..]);
    }
  }

  /** Over every run: once a name has an atom, finding it gives that atom for as long as its
      references have not all been released, and their count is the additions and grabs minus
      the releases. */
  lemma {:induction false} EveryRunFinds(u: Unicode, before: seq<Op>, ops: seq<Op>, x: string)
    requires HashAgrees(u) && Lookup(u, Run(u, Initial(), before), x).Some?
    requires var r := Lookup(u, Run(u, Initial(), before), x).value; StaysUp(u, x, r.atom, r.count, ops)
    ensures var s := Run(u, Initial(), before);
            var r := Lookup(u, s, x).value;
            Lookup(u, Run(u, s, ops), x) == Some(Ref(r.atom, r.count + NetOf(u, x, r.atom, ops)))
  {
    InitialInv(u);
    RunKeepsInv(u, Initial(), before);
    var s := Run(u, Initial(), before);
    RunOnName(u, s, ops, x, Lookup(u, s, x).value.atom, Lookup(u, s, x).value.count);
  }

  /** Over every run: no two entries have the same name up to case, the chains hold exactly the
      entries of the array, and string atoms are above every integer atom. */
  lemma EveryRun(u: Unicode, ops: seq<Op>, i: Id, j: Id, name: string)
    requires HashAgrees(u)
    requires var s := Run(u, Initial(), ops); Live(s, i) && Live(s, j)
    ensures var s := Run(u, Initial(), ops);
            && (KeyOf(u, s.atoms[i].value.str) == KeyOf(u, s.atoms[j].value.str) ==> i == j)
            && ChainsOk(s) && s.atoms[i].value.hash < HASH_SIZE && i in s.chains[s.atoms[i].value.hash]
            && IntAtom(name) < MAX_INT_ATOM < ToAtom(i) < 0x1_0000
  {
    var s := Run(u, Initial(), ops);
    InitialInv(u);
    RunKeepsInv(u, Initial(), ops);
    assert AtomOk(u, s, i) && (SameKey(u, s, i, j) ==> i == j);
  }

  // ---------------------------------------------------------------- answers

  /** What add_atom answers: the error of each kind of bad name; the number of an integer atom;
      the atom a name has, or the one it gets, which is the one it is found under afterwards;
      and no memory only if there is none or every atom is used. */
  lemma AddAnswer(u: Unicode, s: State, str: string, allocOk: bool)
    requires HashAgrees(u) && Inv(u, s)
    ensures var (t, r) := Add(u, s, str, allocOk);
            && (r.NameInvalid? <==> str == "") && (r.InvalidParameter? <==> |str| > MAX_ATOM_LEN)
            && (0 < |str| <= MAX_ATOM_LEN && IntAtom(str) != 0 ==> r == Atom(IntAtom(str)) && t == s)
            && (IsName(str) ==>
                  var was, now := Lookup(u, s, str), Lookup(u, t, str);
                  && (r.Atom? <==> was.Some? || (allocOk && FirstFree(s.atoms, 1) != MAX_ATOMS))
                  && (r.Atom? ==> now.Some? && now.value.atom == r.atom && (was.Some? ==> r.atom == was.value.atom))
                  && (!r.Atom? ==> r.NoMemory?))
            && (!r.Atom? ==> t == s)
  {
    if IsName(str) {
      var f := Find(u, s, str);
      if f.Some? { FindExact(u, s, str, f.value); }
      if Lookup(u, s, str).Some? {
        StepOnName(u, s, DoAdd(str, allocOk), str);
        assert AtomOk(u, s, f.value);
      } else {
        StepOnNewName(u, s, DoAdd(str, allocOk), str);
      }
    }
  }

  /** A new atom has the very text that was added, and no step changes the text of an atom. */
  lemma TextStays(u: Unicode, s: State, op: Op, j: Id)
    requires HashAgrees(u) && Inv(u, s) && Live(Apply(u, s, op), j)
    ensures var text := Apply(u, s, op).atoms[j].value.str;
            if Live(s, j) then text == s.atoms[j].value.str else op.DoAdd? && text == op.str
  {
    match op
    case DoAdd(str, allocOk) =>
      if IsName(str) {
        var r := Find(u, s, str);
        if r.Some? {
          FindExact(u, s, str, r.value);
        } else {
          var i := FirstFree(s.atoms, 1);
          if i != MAX_ATOMS && j != i { InsertOthers(u, s, i, str, j); }
        }
      }
    case DoGrab(atom) =>
    case DoDelete(atom) =>
      var r := EntryOf(s, atom);
      if r.Some? && j != r.value && s.atoms[r.value].value.count <= 1 { UnlinkOthers(u, s, r.value, j); }
  }

  // ---------------------------------------------------------------- the code

  class Table {
    var atoms: seq<Option<Entry>>
    var heads: seq<Option<Id>>
    ghost var chains: seq<seq<Id>>

    ghost function View(): State
      reads this
    {
      State(atoms, heads, chains)
    }

    constructor ()
      ensures View() == Initial()
    {
      atoms, heads, chains := [None], NoHeads(), NoChains();
    }

    /** find_atom_entry: follow the links of one chain. */
    method FindAtomEntry(u: Unicode, str: string) returns (r: Option<Id>)
      requires Inv(u, View())
      ensures r == Find(u, View(), str)
    {
      var b := Bucket(u, str);
      ghost var c, k := chains[b], 0;
      assert ChainOk(View(), b);
      r := heads[b];
      while r.Some?
        invariant 0 <= k <= |c| && r == At(c, k)
        invariant FindIn(u, View(), c[k..], str) == FindIn(u, View(), c, str)
        decreases |c| - k
      {
        assert NodeOk(View(), b, k) && c[k..][1..] == c[k + 1..];
        var e := atoms[r.value].value;
        if |e.str| == |str| && u.fold(e.str) == u.fold(str) { return; }
        r := e.next;
        k := k + 1;
      }
    }

    /** The search of add_atom_entry. */
    method FindFreeEntry() returns (i: nat)
      requires atoms != []
      ensures i == FirstFree(atoms, 1)
    {
      i := 1;
      while i < |atoms|
        invariant 1 <= i <= |atoms| && FirstFree(atoms, 1) == FirstFree(atoms, i)
      {
        if atoms[i].None? { break; }
        i := i + 1;
      }
    }

    method Link(b: nat, i: Id, str: string)
      requires b < |heads| && b < |chains| && i <= |atoms|
      modifies this
      ensures View() == Insert(old(View()), b, i, str)
    {
      var next := heads[b];
      if i == |atoms| { atoms := atoms + [None]; }
      atoms := SetPrev(atoms, next, Some(i));
      heads := heads[b := Some(i)];
      atoms := atoms[i := Some(Entry(str, b, 1, next, None))];
      chains := chains[b := [i] + chains[b]];
    }

    /** add_atom */
    method AddAtom(u: Unicode, str: string, allocOk: bool) returns (r: Result)
      requires Inv(u, View())
      modifies this
      ensures (View(), r) == Add(u, old(View()), str, allocOk)
    {
      if str == "" { return NameInvalid; }
      if |str| > MAX_ATOM_LEN { return InvalidParameter; }
      var value := GetIntAtomValue(str);
      if value != 0 { return Atom(value); }
      var found := FindAtomEntry(u, str);
      if found.Some? {
        var i := found.value;
        atoms := atoms[i := Some(atoms[i].value.(count := atoms[i].value.count + 1))];
        return Atom(ToAtom(i));
      }
      var i := FindFreeEntry();
      if !allocOk || i == MAX_ATOMS { return NoMemory; }
      Link(Bucket(u, str), i, str);
      return Atom(ToAtom(i));
    }

    /** delete_atom */
    method DeleteAtom(u: Unicode, atom: nat)
      requires Inv(u, View())
      modifies this
      ensures View() == Delete(old(View()), atom)
    {
      if atom < MIN_STR_ATOM || atom >= MIN_STR_ATOM + |atoms| || atoms[atom - MIN_STR_ATOM].None? { return; }
      var i: Id := atom - MIN_STR_ATOM;
      var e := atoms[i].value;
      assert AtomOk(u, View(), i);
      if e.count > 1 {
        atoms := atoms[i := Some(e.(count := e.count - 1))];
        return;
      }
      ghost var b, k := UnlinkPlace(u, View(), i);
      atoms := SetPrev(atoms, e.next, e.prev);
      if e.prev.Some? {
        atoms := SetNext(atoms, e.prev, e.next);
      } else {
        heads := heads[e.hash := e.next];
      }
      atoms := atoms[i := None];
      chains := chains[b := Cut(chains[b], k)];
    }

    /** find_atom */
    method FindAtom(u: Unicode, str: string) returns (r: Result)
      requires Inv(u, View())
      ensures IsName(str) ==> r == match Lookup(u, View(), str) case Some(ref) => Atom(ref.atom) case None => NotFound
      ensures IntAtom(str) != 0 && |str| <= MAX_ATOM_LEN ==> r == Atom(IntAtom(str))
      ensures r == NameInvalid <==> str == ""
      ensures r == InvalidParameter <==> |str| > MAX_ATOM_LEN
    {
      if str == "" { return NameInvalid; }
      if |str| > MAX_ATOM_LEN { return InvalidParameter; }
      var value := GetIntAtomValue(str);
      if value != 0 { return Atom(value); }
      var found := FindAtomEntry(u, str);
      if found.None? { return NotFound; }
      return Atom(ToAtom(found.value));
    }

    /** grab_atom; 0 when there is no such atom. */
    method GrabAtom(atom: nat) returns (r: nat)
      modifies this
      ensures View() == Grab(old(View()), atom)
      ensures r == if atom < MIN_STR_ATOM || EntryOf(old(View()), atom).Some? then atom else 0
    {
      if atom < MIN_STR_ATOM { return atom; }
      if atom >= MIN_STR_ATOM + |atoms| || atoms[atom - MIN_STR_ATOM].None? { return 0; }
      var i: Id := atom - MIN_STR_ATOM;
      atoms := atoms[i := Some(atoms[i].value.(count := atoms[i].value.count + 1))];
      return atom;
    }
  }
}
