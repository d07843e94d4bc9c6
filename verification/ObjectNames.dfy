/** Named objects (server/object.c) in directories (server/directory.c): hashed children,
    reference counts that tie a child to its parent, and paths printed and parsed.

    Objects are numbered in creation order and a number is never reused.  The field `held`
    counts the references taken from outside the namespace; no step reads it except to know
    which references a client may give back.
 */
module ObjectNames {

  import opened Options

  type Id = nat

  datatype Name = Name(text: string, parent: Id)

  /** A directory, or an object of some other type without a lookup of its own. */
  datatype Kind = Directory(buckets: seq<seq<Id>>) | Plain(ops: nat)

  datatype Object = Object(kind: Kind, name: Option<Name>, refs: nat, held: nat)

  datatype State = State(objs: map<Id, Object>, next: Id)

  /** hash_strW before its reduction, and the comparison behind OBJ_CASE_INSENSITIVE. */
  datatype Unicode = Unicode(hash: string -> nat, same: (string, string) -> bool)

  datatype Error = PathSyntaxBad | TypeMismatch | NameInvalid | PathNotFound | NameCollision | NoMemory

  const ROOT: Id := 0

  ghost predicate Reflexive(u: Unicode) {
    forall x: string :: u.same(x, x)
  }

  function Slot(u: Unicode, text: string, size: nat): (k: nat)
    requires size > 0
    ensures k < size
  {
    u.hash(text) % size
  }

  function NoEntries(size: nat): (b: seq<seq<Id>>)
    ensures |b| == size && forall k | 0 <= k < size :: b[k] == []
  {
    seq(size, _ => [])
  }

  /** The root directory, with the reference of the server and the one that makes it permanent. */
  function Initial(size: nat): State {
    State(map[ROOT := Object(Directory(NoEntries(size)), None, 2, 2)], 1)
  }

  // ---------------------------------------------------------------- looking up

  /** Length of the first path element. */
  function Element(name: string): (n: nat)
    ensures n <= |name| && '\\' !in name[..n]
    ensures n < |name| ==> name[n] == '\\'
  {
    if name == "" || name[0] == '\\' then 0 else
      var n := Element(name[1..]);
      assert name[..n + 1] == [name[0]] + name[1..][..n];
      n + 1
  }

  predicate Matches(u: Unicode, s: State, i: Id, text: string, anyCase: bool) {
    && i in s.objs
    && s.objs[i].name.Some?
    && var t := s.objs[i].name.value.text;
       |t| == |text| && if anyCase then u.same(t, text) else t == text
  }

  function Scan(u: Unicode, s: State, bucket: seq<Id>, text: string, anyCase: bool): (r: Option<Id>)
    ensures r.Some? ==> r.value in bucket && Matches(u, s, r.value, text, anyCase)
    ensures r.None? ==> forall i | i in bucket :: !Matches(u, s, i, text, anyCase)
  {
    if bucket == [] then None
    else if Matches(u, s, bucket[0], text, anyCase) then Some(bucket[0])
    else Scan(u, s, bucket[1..], text, anyCase)
  }

  /** find_object */
  function Find(u: Unicode, s: State, buckets: seq<seq<Id>>, text: string, anyCase: bool): Option<Id> {
    if text == "" || buckets == [] then None
    else Scan(u, s, buckets[Slot(u, text, |buckets|)], text, anyCase)
  }

  /** The name still to parse: no pointer at all, some text, or the null text left behind
      by the last component. */
  datatype Rest = NoName | Text(str: string) | Ended

  datatype Step = Next(obj: Id, rest: Rest) | Stop | Fail(error: Error)

  /** The lookup_name operation of a directory, and of an object without one. */
  function LookupName(u: Unicode, s: State, kind: Kind, rest: Rest, anyCase: bool): Step {
    match kind
    case Plain(_) => if rest.NoName? then Fail(TypeMismatch) else Stop
    case Directory(buckets) =>
      if !rest.Text? then Stop
      else
        var str, n := rest.str, Element(rest.str);
        match Find(u, s, buckets, str[..n], anyCase)
        case Some(f) => Next(f, if n < |str| then Text(str[n + 1..]) else Ended)
        case None => if n == 0 then Fail(NameInvalid) else if n < |str| then Fail(PathNotFound) else Stop
  }

  datatype Result = Found(obj: Id, left: string) | Failed(error: Error)

  function Left(rest: Rest): string {
    if rest.Text? then rest.str else ""
  }

  function Size(rest: Rest): nat {
    if rest.Text? then |rest.str| + 1 else 0
  }

  function Walk(u: Unicode, s: State, obj: Id, rest: Rest, anyCase: bool): Result
    decreases Size(rest)
  {
    if obj !in s.objs then Failed(PathNotFound) else
      match LookupName(u, s, s.objs[obj].kind, rest, anyCase)
      case Next(o, r) => Walk(u, s, o, r, anyCase)
      case Stop => Found(obj, Left(rest))
      case Fail(e) => Failed(e)
  }

  function AsRest(name: string): Rest {
    if name == "" then NoName else Text(name)
  }

  /** lookup_named_object */
  function Lookup(u: Unicode, s: State, root: Option<Id>, name: string, anyCase: bool): Result {
    if root.Some? == (name != "" && name[0] == '\\') then Failed(PathSyntaxBad)
    else if root.Some? then Walk(u, s, root.value, AsRest(name), anyCase)
    else Walk(u, s, ROOT, AsRest(name[1..]), anyCase)
  }

  // ---------------------------------------------------------------- creating and releasing

  function Grab(s: State, o: Id): State {
    if o !in s.objs then s
    else s.(objs := s.objs[o := s.objs[o].(refs := s.objs[o].refs + 1, held := s.objs[o].held + 1)])
  }

  /** namespace_add on the buckets of the parent, and the parent's new reference. */
  function Enlist(u: Unicode, parent: Object, text: string, i: Id): Object {
    if parent.kind.Plain? || parent.kind.buckets == [] then parent
    else
      var b := parent.kind.buckets;
      var k := Slot(u, text, |b|);
      parent.(kind := Directory(b[k := [i] + b[k]]), refs := parent.refs + 1)
  }

  function NewObject(kind: Kind, name: Option<Name>, permanent: bool): Object {
    var n := if permanent then 2 else 1;
    Object(kind, name, n, n)
  }

  datatype Attributes = Attributes(anyCase: bool, openIf: bool, permanent: bool)

  datatype Created = New(obj: Id) | Existing(obj: Id) | Refused(error: Error)

  function CreateUnnamed(s: State, kind: Kind, permanent: bool): State {
    State(s.objs[s.next := NewObject(kind, None, permanent)], s.next + 1)
  }

  function CreateIn(u: Unicode, s: State, p: Id, text: string, kind: Kind, permanent: bool): State {
    if p !in s.objs then s
    else State(s.objs[p := Enlist(u, s.objs[p], text, s.next)]
                     [s.next := NewObject(kind, Some(Name(text, p)), permanent)],
               s.next + 1)
  }

  predicate SameOps(a: Kind, b: Kind) {
    if a.Plain? then b == a else b.Directory?
  }

  /** create_named_object for a type that is linked into directories; `kind` is the new
      object, an empty directory or a plain one. */
  function Create(u: Unicode, s: State, root: Option<Id>, name: string, kind: Kind, attr: Attributes, allocOk: bool):
    (State, Created)
  {
    if name == "" then
      if allocOk then (CreateUnnamed(s, kind, attr.permanent), New(s.next)) else (s, Refused(NoMemory))
    else
      match Lookup(u, s, root, name, attr.anyCase)
      case Failed(e) => (s, Refused(e))
      case Found(o, left) =>
        if o !in s.objs then (s, Refused(PathNotFound))
        else if left == "" then
          if attr.openIf && SameOps(s.objs[o].kind, kind) then (Grab(s, o), Existing(o))
          else (s, Refused(if attr.openIf then TypeMismatch else NameCollision))
        else if !allocOk then (s, Refused(NoMemory))
        else if s.objs[o].kind.Plain? then (s, Refused(TypeMismatch))
        else (CreateIn(u, s, o, left, kind, attr.permanent), New(s.next))
  }

  function Without(q: seq<Id>, i: Id): (r: seq<Id>)
    ensures forall j :: j in r <==> j in q && j != i
  {
    if q == [] then [] else if q[0] == i then Without(q[1..], i) else [q[0]] + Without(q[1..], i)
  }

  function Delist(u: Unicode, parent: Object, text: string, i: Id): Object {
    if parent.kind.Plain? || parent.kind.buckets == [] then parent
    else
      var b := parent.kind.buckets;
      var k := Slot(u, text, |b|);
      parent.(kind := Directory(b[k := Without(b[k], i)]))
  }

  /** The object loses its name and its place in the parent, which still has its reference. */
  function Detach(u: Unicode, s: State, o: Id): State
    requires o in s.objs && s.objs[o].name.Some?
  {
    var n := s.objs[o].name.value;
    var t := s.(objs := s.objs[o := s.objs[o].(name := None)]);
    if n.parent !in t.objs then t
    else t.(objs := t.objs[n.parent := Delist(u, t.objs[n.parent], n.text, o)])
  }

  function Erase(s: State, o: Id): State {
    s.(objs := map x | x in s.objs && x != o :: s.objs[x])
  }

  /** release_object; an object whose last reference goes gives up its parent in turn. */
  function Drop(u: Unicode, s: State, o: Id): State
    decreases o
  {
    if o !in s.objs then s
    else if s.objs[o].refs > 1 then s.(objs := s.objs[o := s.objs[o].(refs := s.objs[o].refs - 1)])
    else if s.objs[o].name.None? then Erase(s, o)
    else
      var p, t := s.objs[o].name.value.parent, Erase(Detach(u, s, o), o);
      if p < o then Drop(u, t, p) else t
  }

  /** unlink_named_object */
  function Unlink(u: Unicode, s: State, o: Id): State {
    if o !in s.objs || s.objs[o].name.None? then s
    else Drop(u, Detach(u, s, o), s.objs[o].name.value.parent)
  }

  function Unhold(s: State, o: Id): State
    requires o in s.objs && s.objs[o].held > 0
  {
    s.(objs := s.objs[o := s.objs[o].(held := s.objs[o].held - 1)])
  }

  /** A client gives back a reference it holds; the server keeps its own on the root. */
  function Release(u: Unicode, s: State, o: Id): State {
    if o !in s.objs || s.objs[o].held <= (if o == ROOT then 1 else 0) then s
    else Drop(u, Unhold(s, o), o)
  }

  // ---------------------------------------------------------------- the invariant

  predicate NameOk(u: Unicode, s: State, i: Id)
    requires i in s.objs
  {
    s.objs[i].name.Some? ==>
      var n := s.objs[i].name.value;
      && n.parent in s.objs && n.parent < i
      && n.text != "" && '\\' !in n.text
      && s.objs[n.parent].kind.Directory?
      && var b := s.objs[n.parent].kind.buckets;
         b != [] && i in b[Slot(u, n.text, |b|)]
  }

  predicate EntryOk(u: Unicode, s: State, d: Id, k: nat, size: nat, i: Id) {
    && i in s.objs && s.objs[i].name.Some?
    && s.objs[i].name.value.parent == d
    && k < size && Slot(u, s.objs[i].name.value.text, size) == k
  }

  ghost predicate DirOk(u: Unicode, s: State, d: Id)
    requires d in s.objs
  {
    s.objs[d].kind.Directory? ==>
      var b := s.objs[d].kind.buckets;
      b != [] && forall k, i | 0 <= k < |b| && i in b[k] :: EntryOk(u, s, d, k, |b|, i)
  }

  ghost function Children(s: State, o: Id): set<Id> {
    set c | c in s.objs && s.objs[c].name.Some? && s.objs[c].name.value.parent == o
  }

  /** Every reference is a client's, a child's, or one that is about to be dropped. */
  ghost predicate RefsOk(s: State, o: Id, due: multiset<Id>)
    requires o in s.objs
  {
    s.objs[o].refs > 0 && s.objs[o].refs == s.objs[o].held + |Children(s, o)| + due[o]
  }

  predicate SameName(s: State, i: Id, j: Id) {
    i in s.objs && j in s.objs && s.objs[i].name.Some? && s.objs[i].name == s.objs[j].name
  }

  ghost predicate Unique(s: State) {
    forall i, j {:trigger SameName(s, i, j)} | SameName(s, i, j) :: i == j
  }

  ghost predicate NamesOk(u: Unicode, s: State) {
    && (forall i {:trigger NameOk(u, s, i)} | i in s.objs :: NameOk(u, s, i))
    && (forall i {:trigger DirOk(u, s, i)} | i in s.objs :: DirOk(u, s, i))
    && Unique(s)
  }

  ghost predicate RootOk(s: State) {
    && ROOT in s.objs && s.objs[ROOT].kind.Directory? && s.objs[ROOT].name.None? && s.objs[ROOT].held > 0
    && forall i | i in s.objs :: i < s.next
  }

  ghost predicate Inv(u: Unicode, s: State, due: multiset<Id>) {
    NamesOk(u, s) && RootOk(s) && forall i {:trigger RefsOk(s, i, due)} | i in s.objs :: RefsOk(s, i, due)
  }

  // ---------------------------------------------------------------- paths

  predicate ParentBelow(s: State, i: Id)
    requires i in s.objs
  {
    s.objs[i].name.Some? ==> s.objs[i].name.value.parent in s.objs && s.objs[i].name.value.parent < i
  }

  ghost predicate Ranked(s: State) {
    forall i {:trigger ParentBelow(s, i)} | i in s.objs :: ParentBelow(s, i)
  }

  lemma NamesRanked(u: Unicode, s: State)
    requires NamesOk(u, s)
    ensures Ranked(s)
  {
    forall i | i in s.objs ensures ParentBelow(s, i) { assert NameOk(u, s, i); }
  }

  /** The path of default_get_full_name; empty for an object without a name. */
  ghost function FullName(s: State, o: Id): string
    requires Ranked(s) && o in s.objs
    decreases o
  {
    assert ParentBelow(s, o);
    if s.objs[o].name.None? then ""
    else FullName(s, s.objs[o].name.value.parent) + "\\" + s.objs[o].name.value.text
  }

  /** The ancestor at which the printed path begins. */
  ghost function Top(s: State, o: Id): (t: Id)
    requires Ranked(s) && o in s.objs
    ensures t in s.objs && s.objs[t].name.None?
    decreases o
  {
    assert ParentBelow(s, o);
    if s.objs[o].name.None? then o else Top(s, s.objs[o].name.value.parent)
  }

  /** What the rest adds to a printed path. */
  function Tail(rest: Rest): string {
    if rest.Text? then "\\" + rest.str else ""
  }

  lemma {:induction false} ElementUnique(name: string, n: nat)
    requires n <= |name| && '\\' !in name[..n] && (n < |name| ==> name[n] == '\\')
    ensures n == Element(name)
  {
    var m := Element(name);
    assert forall i | 0 <= i < m :: name[..m][i] == name[i];
    assert forall i | 0 <= i < n :: name[..n][i] == name[i];
  }

  lemma {:induction false} ElementOf(text: string, rest: Rest)
    requires '\\' !in text && !rest.NoName?
    ensures Element(text + Tail(rest)) == |text|
  {
    var str := text + Tail(rest);
    assert str[..|text|] == text;
    ElementUnique(str, |text|);
  }

  /** Looking a child's own name up in its parent finds that child. */
  lemma FindChild(u: Unicode, s: State, o: Id)
    requires NamesOk(u, s) && o in s.objs && s.objs[o].name.Some?
    ensures var n := s.objs[o].name.value;
            && n.parent in s.objs && s.objs[n.parent].kind.Directory?
            && Find(u, s, s.objs[n.parent].kind.buckets, n.text, false) == Some(o)
  {
    var n := s.objs[o].name.value;
    assert NameOk(u, s, o) && DirOk(u, s, n.parent);
    var b := s.objs[n.parent].kind.buckets;
    var k := Slot(u, n.text, |b|);
    assert Matches(u, s, o, n.text, false);
    var r := Scan(u, s, b[k], n.text, false);
    assert EntryOk(u, s, n.parent, k, |b|, r.value);
    assert SameName(s, r.value, o);
  }

  lemma Parts(text: string, rest: Rest)
    ensures var str := text + Tail(rest);
            && str[..|text|] == text
            && (if rest.Text? then |text| < |str| && str[|text| + 1..] == rest.str else str == text)
  {
  }

  lemma {:induction false} StepFinds(u: Unicode, s: State, o: Id, rest: Rest)
    requires NamesOk(u, s) && o in s.objs && s.objs[o].name.Some? && !rest.NoName?
    ensures var n := s.objs[o].name.value;
            && n.parent in s.objs
            && LookupName(u, s, s.objs[n.parent].kind, Text(n.text + Tail(rest)), false) == Next(o, rest)
  {
    var n := s.objs[o].name.value;
    assert NameOk(u, s, o);
    ElementOf(n.text, rest);
    FindChild(u, s, o);
    Parts(n.text, rest);
  }

  lemma {:induction false} StepDown(u: Unicode, s: State, o: Id, rest: Rest)
    requires NamesOk(u, s) && o in s.objs && s.objs[o].name.Some? && !rest.NoName?
    ensures var n := s.objs[o].name.value;
            Walk(u, s, n.parent, Text(n.text + Tail(rest)), false) == Walk(u, s, o, rest, false)
  {
    StepFinds(u, s, o, rest);
  }

  lemma Rejoin(a: string, text: string, tail: string)
    ensures a + ("\\" + (text + tail)) == (a + "\\" + text) + tail
    ensures a != "" ==> (a + "\\" + text)[1..] + tail == a[1..] + ("\\" + (text + tail))
    ensures a == "" ==> (a + "\\" + text)[1..] + tail == text + tail
  {
    assert a == "" ==> (a + "\\" + text)[1..] == text;
  }

  /** A path from the root walks to its object, whatever follows it. */
  lemma {:induction false} Descend(u: Unicode, s: State, o: Id, rest: Rest)
    requires NamesOk(u, s) && Ranked(s) && o in s.objs && s.objs[o].name.Some? && !rest.NoName?
    requires Top(s, o) == ROOT
    ensures var full := FullName(s, o);
            && full != "" && full[0] == '\\'
            && Walk(u, s, ROOT, Text(full[1..] + Tail(rest)), false) == Walk(u, s, o, rest, false)
    decreases o
  {
    var n := s.objs[o].name.value;
    assert ParentBelow(s, o);
    StepDown(u, s, o, rest);
    Rejoin(FullName(s, n.parent), n.text, Tail(rest));
    if s.objs[n.parent].name.Some? {
      Descend(u, s, n.parent, Text(n.text + Tail(rest)));
    }
  }

  lemma SplitAt(str: string, n: nat)
    requires n < |str| && str[n] == '\\'
    ensures str == str[..n] + ("\\" + str[n + 1..])
  {
    assert str[n..] == "\\" + str[n + 1..];
    assert str == str[..n] + str[n..];
  }

  lemma {:induction false} ElementAndRest(str: string)
    ensures var n := Element(str);
            str == str[..n] + Tail(if n < |str| then Text(str[n + 1..]) else Ended)
  {
    var n := Element(str);
    if n < |str| {
      SplitAt(str, n);
    } else {
      assert str[..n] + "" == str;
    }
  }

  lemma {:induction false} NextFacts(u: Unicode, s: State, obj: Id, rest: Rest)
    requires NamesOk(u, s) && Ranked(s) && obj in s.objs
    requires LookupName(u, s, s.objs[obj].kind, rest, false).Next?
    ensures var step := LookupName(u, s, s.objs[obj].kind, rest, false);
            && rest.Text? && !step.rest.NoName? && Size(step.rest) < Size(rest)
            && step.obj in s.objs && Top(s, step.obj) == Top(s, obj)
            && FullName(s, obj) + Tail(rest) == FullName(s, step.obj) + Tail(step.rest)
  {
    var step := LookupName(u, s, s.objs[obj].kind, rest, false);
    var str, n, b := rest.str, Element(rest.str), s.objs[obj].kind.buckets;
    assert DirOk(u, s, obj);
    assert EntryOk(u, s, obj, Slot(u, str[..n], |b|), |b|, step.obj);
    assert ParentBelow(s, step.obj);
    ElementAndRest(str);
    Rejoin(FullName(s, obj), str[..n], Tail(step.rest));
  }

  /** What a walk that has ended says about the text it was given. */
  ghost predicate Accounts(s: State, start: string, r: Result)
    requires Ranked(s) && r.Found? && r.obj in s.objs
  {
    var full := FullName(s, r.obj);
    if r.left != "" then start == full + ("\\" + r.left)
    else start == full || (s.objs[r.obj].kind.Plain? && start == full + "\\")
  }

  /** A case-sensitive walk only goes down, and what it has passed plus what is left is the
      text it was given; an object without a lookup also swallows one trailing backslash. */
  lemma {:induction false} WalkSound(u: Unicode, s: State, obj: Id, rest: Rest)
    requires NamesOk(u, s) && Ranked(s) && obj in s.objs
    requires Walk(u, s, obj, rest, false).Found?
    ensures var r := Walk(u, s, obj, rest, false);
            r.obj in s.objs && Top(s, r.obj) == Top(s, obj) && Accounts(s, FullName(s, obj) + Tail(rest), r)
    decreases Size(rest)
  {
    var step := LookupName(u, s, s.objs[obj].kind, rest, false);
    if step.Next? {
      NextFacts(u, s, obj, rest);
      WalkSound(u, s, step.obj, step.rest);
    } else {
      assert rest.Text? && rest.str == "" ==> Tail(rest) == "\\";
      assert !rest.Text? ==> FullName(s, obj) + Tail(rest) == FullName(s, obj);
    }
  }

  /** The text that a lookup from the root needs in order to end at x with nothing left. */
  ghost predicate Denotes(s: State, name: string, x: Id)
    requires Ranked(s) && x in s.objs
  {
    if x == ROOT then name == "\\"
    else name == FullName(s, x) || (s.objs[x].kind.Plain? && name == FullName(s, x) + "\\")
  }

  lemma DenotedIsFound(u: Unicode, s: State, name: string, x: Id)
    requires NamesOk(u, s) && RootOk(s) && Ranked(s) && x in s.objs
    requires Top(s, x) == ROOT && Denotes(s, name, x)
    ensures Lookup(u, s, None, name, false) == Found(x, "")
  {
    if x != ROOT {
      var full := FullName(s, x);
      var rest := if name == full then Ended else Text("");
      Descend(u, s, x, rest);
      assert name == full + Tail(rest) && name[0] == full[0];
      assert name[1..] == full[1..] + Tail(rest);
      assert NameOk(u, s, x);
      assert |name| > 1;
    }
  }

  /** Exactly which names a case-sensitive lookup from the root resolves to an object. */
  lemma LookupExact(u: Unicode, s: State, name: string, x: Id)
    requires NamesOk(u, s) && RootOk(s) && Ranked(s) && x in s.objs
    ensures Lookup(u, s, None, name, false) == Found(x, "") <==> Top(s, x) == ROOT && Denotes(s, name, x)
  {
    if Lookup(u, s, None, name, false) == Found(x, "") {
      var rest := AsRest(name[1..]);
      WalkSound(u, s, ROOT, rest);
      assert Accounts(s, Tail(rest), Found(x, "")) by { assert FullName(s, ROOT) + Tail(rest) == Tail(rest); }
      if rest.Text? {
        assert name == Tail(rest);
      } else {
        assert name == "\\" && FullName(s, x) == "";
      }
    } else if Top(s, x) == ROOT && Denotes(s, name, x) {
      DenotedIsFound(u, s, name, x);
    }
  }

  /** Printing then parsing is the identity exactly on the objects whose topmost ancestor is
      the root directory. */
  lemma RoundTrip(u: Unicode, s: State, o: Id)
    requires NamesOk(u, s) && RootOk(s) && Ranked(s) && o in s.objs && s.objs[o].name.Some?
    ensures Lookup(u, s, None, FullName(s, o), false) == Found(o, "") <==> Top(s, o) == ROOT
  {
    LookupExact(u, s, FullName(s, o), o);
  }

  // ---------------------------------------------------------------- every step keeps the invariant

  /** When the lookup stops in a directory with text left, that text can become a child. */
  lemma {:induction false} WalkLeft(u: Unicode, s: State, obj: Id, rest: Rest, anyCase: bool)
    requires NamesOk(u, s) && obj in s.objs && Walk(u, s, obj, rest, anyCase).Found?
    ensures var r := Walk(u, s, obj, rest, anyCase);
            && r.obj in s.objs
            && (s.objs[r.obj].kind.Directory? && r.left != "" ==>
                  '\\' !in r.left && Find(u, s, s.objs[r.obj].kind.buckets, r.left, anyCase).None?)
    decreases Size(rest)
  {
    var step := LookupName(u, s, s.objs[obj].kind, rest, anyCase);
    if step.Next? {
      var str, n, b := rest.str, Element(rest.str), s.objs[obj].kind.buckets;
      assert DirOk(u, s, obj);
      assert EntryOk(u, s, obj, Slot(u, str[..n], |b|), |b|, step.obj);
      WalkLeft(u, s, step.obj, step.rest, anyCase);
    } else if rest.Text? {
      assert rest.str[..|rest.str|] == rest.str;
    }
  }

  lemma NotFoundIsFree(u: Unicode, s: State, d: Id, text: string, anyCase: bool, i: Id)
    requires NamesOk(u, s) && Reflexive(u) && d in s.objs && s.objs[d].kind.Directory? && text != ""
    requires Find(u, s, s.objs[d].kind.buckets, text, anyCase).None?
    requires i in s.objs
    ensures s.objs[i].name != Some(Name(text, d))
  {
    if s.objs[i].name == Some(Name(text, d)) {
      assert NameOk(u, s, i);
      assert Matches(u, s, i, text, anyCase);
    }
  }

  predicate Empty(kind: Kind) {
    kind.Directory? ==> kind.buckets != [] && forall k | 0 <= k < |kind.buckets| :: kind.buckets[k] == []
  }

  ghost predicate CanAdd(s: State, p: Id, text: string, kind: Kind) {
    && p in s.objs && s.objs[p].kind.Directory? && text != "" && '\\' !in text && Empty(kind)
    && forall i | i in s.objs :: s.objs[i].name != Some(Name(text, p))
  }

  lemma CreateInKeepsName(u: Unicode, s: State, p: Id, text: string, kind: Kind, permanent: bool, i: Id)
    requires NamesOk(u, s) && RootOk(s) && CanAdd(s, p, text, kind)
    requires i in CreateIn(u, s, p, text, kind, permanent).objs
    ensures NameOk(u, CreateIn(u, s, p, text, kind, permanent), i)
  {
    assert DirOk(u, s, p) && p < s.next;
    if i != s.next { assert NameOk(u, s, i); }
  }

  lemma CreateInKeepsDir(u: Unicode, s: State, p: Id, text: string, kind: Kind, permanent: bool, i: Id)
    requires NamesOk(u, s) && RootOk(s) && CanAdd(s, p, text, kind)
    requires i in CreateIn(u, s, p, text, kind, permanent).objs
    ensures DirOk(u, CreateIn(u, s, p, text, kind, permanent), i)
  {
    var t := CreateIn(u, s, p, text, kind, permanent);
    assert DirOk(u, s, p) && p < s.next;
    if i != s.next {
      assert DirOk(u, s, i);
      if t.objs[i].kind.Directory? {
        var b, c := s.objs[i].kind.buckets, t.objs[i].kind.buckets;
        forall k, j | 0 <= k < |c| && j in c[k] ensures EntryOk(u, t, i, k, |c|, j) {
          if j in b[k] { assert EntryOk(u, s, i, k, |b|, j); }
        }
      }
    }
  }

  lemma CreateInKeepsNames(u: Unicode, s: State, p: Id, text: string, kind: Kind, permanent: bool)
    requires NamesOk(u, s) && RootOk(s) && CanAdd(s, p, text, kind)
    ensures NamesOk(u, CreateIn(u, s, p, text, kind, permanent))
    ensures RootOk(CreateIn(u, s, p, text, kind, permanent))
  {
    var t := CreateIn(u, s, p, text, kind, permanent);
    forall i | i in t.objs ensures NameOk(u, t, i) { CreateInKeepsName(u, s, p, text, kind, permanent, i); }
    forall i | i in t.objs ensures DirOk(u, t, i) { CreateInKeepsDir(u, s, p, text, kind, permanent, i); }
    assert DirOk(u, s, p) && p < s.next;
    forall i, j | SameName(t, i, j) ensures i == j {
      if i != s.next && j != s.next { assert SameName(s, i, j); }
    }
  }

  lemma ChildrenAfterCreate(s: State, t: State, i: Id, name: Name, o: Id)
    requires i !in s.objs && t.objs.Keys == s.objs.Keys + {i} && t.objs[i].name == Some(name)
    requires forall x | x in s.objs :: t.objs[x].name == s.objs[x].name
    ensures Children(t, o) == if o == name.parent then Children(s, o) + {i} else Children(s, o)
  {
  }

  lemma CreateInKeepsInv(u: Unicode, s: State, p: Id, text: string, kind: Kind, permanent: bool)
    requires Inv(u, s, multiset{}) && CanAdd(s, p, text, kind)
    ensures Inv(u, CreateIn(u, s, p, text, kind, permanent), multiset{})
  {
    var t := CreateIn(u, s, p, text, kind, permanent);
    CreateInKeepsNames(u, s, p, text, kind, permanent);
    assert DirOk(u, s, p);
    forall o | o in t.objs ensures RefsOk(t, o, multiset{}) {
      ChildrenAfterCreate(s, t, s.next, Name(text, p), o);
      if o == s.next {
        assert Children(s, o) == {} by {
          forall c | c in s.objs ensures c !in Children(s, o) { assert NameOk(u, s, c); }
        }
      } else {
        assert RefsOk(s, o, multiset{});
      }
    }
  }

  lemma CreateUnnamedKeepsInv(u: Unicode, s: State, kind: Kind, permanent: bool)
    requires Inv(u, s, multiset{}) && Empty(kind)
    ensures Inv(u, CreateUnnamed(s, kind, permanent), multiset{})
  {
    var t := CreateUnnamed(s, kind, permanent);
    forall i | i in t.objs ensures NameOk(u, t, i) && DirOk(u, t, i) && RefsOk(t, i, multiset{}) {
      assert Children(t, i) == Children(s, i);
      if i != s.next {
        assert NameOk(u, s, i) && DirOk(u, s, i) && RefsOk(s, i, multiset{});
        if t.objs[i].kind.Directory? {
          var b := t.objs[i].kind.buckets;
          forall k, j | 0 <= k < |b| && j in b[k] ensures EntryOk(u, t, i, k, |b|, j) {
            assert EntryOk(u, s, i, k, |b|, j);
          }
        }
      } else {
        assert Children(s, i) == {} by {
          forall c | c in s.objs ensures c !in Children(s, i) { assert NameOk(u, s, c); }
        }
      }
    }
    forall i, j | SameName(t, i, j) ensures i == j {
      assert SameName(s, i, j);
    }
  }

  /** Only reference counts differ. */
  predicate SameShape(s: State, t: State) {
    && t.next == s.next && t.objs.Keys == s.objs.Keys
    && forall x | x in s.objs :: t.objs[x].kind == s.objs[x].kind && t.objs[x].name == s.objs[x].name
  }

  lemma SameShapeKeepsNames(u: Unicode, s: State, t: State)
    requires NamesOk(u, s) && SameShape(s, t)
    ensures NamesOk(u, t) && forall o :: Children(t, o) == Children(s, o)
  {
    forall i | i in t.objs ensures NameOk(u, t, i) && DirOk(u, t, i) {
      assert NameOk(u, s, i) && DirOk(u, s, i);
      if t.objs[i].kind.Directory? {
        var b := t.objs[i].kind.buckets;
        forall k, j | 0 <= k < |b| && j in b[k] ensures EntryOk(u, t, i, k, |b|, j) {
          assert EntryOk(u, s, i, k, |b|, j);
        }
      }
    }
    forall i, j | SameName(t, i, j) ensures i == j { assert SameName(s, i, j); }
  }

  lemma CountsKeepInv(u: Unicode, s: State, t: State, o: Id, refs: int, held: int,
                      due: multiset<Id>, due': multiset<Id>)
    requires Inv(u, s, due) && o in s.objs && SameShape(s, t)
    requires forall x | x in s.objs && x != o :: t.objs[x] == s.objs[x] && due'[x] == due[x]
    requires t.objs[o].refs == s.objs[o].refs + refs > 0 && t.objs[o].held == s.objs[o].held + held
    requires refs == held + due'[o] - due[o]
    requires o == ROOT ==> t.objs[o].held > 0
    ensures Inv(u, t, due')
  {
    SameShapeKeepsNames(u, s, t);
    forall x | x in t.objs ensures RefsOk(t, x, due') { assert RefsOk(s, x, due); }
  }

  lemma GrabKeepsInv(u: Unicode, s: State, o: Id)
    requires Inv(u, s, multiset{}) && o in s.objs
    ensures Inv(u, Grab(s, o), multiset{})
  {
    CountsKeepInv(u, s, Grab(s, o), o, 1, 1, multiset{}, multiset{});
  }

  lemma CreateKeepsInv(u: Unicode, s: State, root: Option<Id>, name: string,
                       kind: Kind, attr: Attributes, allocOk: bool)
    requires Reflexive(u) && Inv(u, s, multiset{}) && Empty(kind) && (root.Some? ==> root.value in s.objs)
    ensures Inv(u, Create(u, s, root, name, kind, attr, allocOk).0, multiset{})
  {
    if name == "" {
      CreateUnnamedKeepsInv(u, s, kind, attr.permanent);
    } else {
      var r := Lookup(u, s, root, name, attr.anyCase);
      if r.Found? {
        if root.Some? {
          WalkLeft(u, s, root.value, AsRest(name), attr.anyCase);
        } else {
          WalkLeft(u, s, ROOT, AsRest(name[1..]), attr.anyCase);
        }
        if r.left == "" {
          GrabKeepsInv(u, s, r.obj);
        } else if s.objs[r.obj].kind.Directory? {
          forall i | i in s.objs ensures s.objs[i].name != Some(Name(r.left, r.obj)) {
            NotFoundIsFree(u, s, r.obj, r.left, attr.anyCase, i);
          }
          CreateInKeepsInv(u, s, r.obj, r.left, kind, attr.permanent);
        }
      }
    }
  }

  lemma DetachKeepsDir(u: Unicode, s: State, o: Id, i: Id)
    requires o in s.objs && s.objs[o].name.Some? && i in s.objs && DirOk(u, s, i)
    ensures DirOk(u, Detach(u, s, o), i)
  {
    var t := Detach(u, s, o);
    if t.objs[i].kind.Directory? {
      var b, c := s.objs[i].kind.buckets, t.objs[i].kind.buckets;
      forall k, j | 0 <= k < |c| && j in c[k] ensures EntryOk(u, t, i, k, |c|, j) {
        assert EntryOk(u, s, i, k, |b|, j);
      }
    }
  }

  lemma DetachKeepsNames(u: Unicode, s: State, o: Id)
    requires NamesOk(u, s) && RootOk(s) && o in s.objs && s.objs[o].name.Some?
    ensures NamesOk(u, Detach(u, s, o)) && RootOk(Detach(u, s, o))
  {
    var t := Detach(u, s, o);
    assert NameOk(u, s, o);
    forall i | i in t.objs ensures NameOk(u, t, i) { assert NameOk(u, s, i); }
    forall i | i in t.objs ensures DirOk(u, t, i) { DetachKeepsDir(u, s, o, i); }
    forall i, j | SameName(t, i, j) ensures i == j { assert SameName(s, i, j); }
  }

  lemma DetachKeepsInv(u: Unicode, s: State, o: Id, due: multiset<Id>)
    requires Inv(u, s, due) && o in s.objs && s.objs[o].name.Some?
    ensures Inv(u, Detach(u, s, o), due + multiset{s.objs[o].name.value.parent})
  {
    var t, p := Detach(u, s, o), s.objs[o].name.value.parent;
    DetachKeepsNames(u, s, o);
    assert NameOk(u, s, o);
    forall x | x in t.objs ensures RefsOk(t, x, due + multiset{p}) {
      assert RefsOk(s, x, due);
      assert Children(t, x) == Children(s, x) - {o};
      assert o in Children(s, x) <==> x == p;
    }
  }

  lemma EraseKeepsInv(u: Unicode, s: State, o: Id, due: multiset<Id>)
    requires Inv(u, s, due) && o in s.objs && s.objs[o].name.None? && o != ROOT && Children(s, o) == {}
    ensures Inv(u, Erase(s, o), due[o := 0])
  {
    var t := Erase(s, o);
    forall i | i in t.objs ensures NameOk(u, t, i) && DirOk(u, t, i) && RefsOk(t, i, due[o := 0]) {
      assert NameOk(u, s, i) && DirOk(u, s, i) && RefsOk(s, i, due);
      assert i !in Children(s, o);
      assert Children(t, i) == Children(s, i);
      if t.objs[i].kind.Directory? {
        var b := t.objs[i].kind.buckets;
        forall k, j | 0 <= k < |b| && j in b[k] ensures EntryOk(u, t, i, k, |b|, j) {
          assert EntryOk(u, s, i, k, |b|, j);
        }
      }
    }
    forall i, j | SameName(t, i, j) ensures i == j { assert SameName(s, i, j); }
  }

  /** The survivors are as they were, and what clients hold survives. */
  ghost predicate Survive(s: State, t: State) {
    && (forall x | x in t.objs :: x in s.objs && t.objs[x].name == s.objs[x].name && t.objs[x].held == s.objs[x].held)
    && (forall x | x in s.objs && s.objs[x].held > 0 :: x in t.objs)
  }

  /** Freeing an object unlinks it, which leaves its parent one reference to give up. */
  lemma FreeKeepsInv(u: Unicode, s: State, o: Id, due: multiset<Id>)
    requires Inv(u, s, due) && o in s.objs && s.objs[o].name.Some?
    requires Children(s, o) == {} && s.objs[o].held == 0 && s.objs[o].refs == 1 && due[o] == 1
    ensures var p, t := s.objs[o].name.value.parent, Erase(Detach(u, s, o), o);
            && p < o && p in t.objs && Inv(u, t, (due + multiset{p})[o := 0]) && Survive(s, t)
  {
    var p, m := s.objs[o].name.value.parent, Detach(u, s, o);
    assert NameOk(u, s, o);
    DetachKeepsInv(u, s, o, due);
    assert Children(m, o) == {} by {
      forall c | c in m.objs ensures c !in Children(m, o) { assert c !in Children(s, o); }
    }
    EraseKeepsInv(u, m, o, due + multiset{p});
  }

  lemma DuePaid(due: multiset<Id>, o: Id, p: Id)
    requires p != o
    ensures var due' := (due + multiset{p})[o := 0]; due'[p] > 0 && due'[p := due'[p] - 1] == due[o := 0]
  {
  }

  lemma {:induction false} DropKeepsInv(u: Unicode, s: State, o: Id, due: multiset<Id>)
    requires Inv(u, s, due) && o in s.objs && due[o] > 0
    ensures Inv(u, Drop(u, s, o), due[o := due[o] - 1])
    ensures Survive(s, Drop(u, s, o))
    decreases o
  {
    assert RefsOk(s, o, due);
    if s.objs[o].refs > 1 {
      CountsKeepInv(u, s, Drop(u, s, o), o, -1, 0, due, due[o := due[o] - 1]);
    } else {
      assert Children(s, o) == {} && s.objs[o].held == 0 && due[o] == 1;
      if s.objs[o].name.None? {
        EraseKeepsInv(u, s, o, due);
      } else {
        var p := s.objs[o].name.value.parent;
        FreeKeepsInv(u, s, o, due);
        DuePaid(due, o, p);
        DropKeepsInv(u, Erase(Detach(u, s, o), o), p, (due + multiset{p})[o := 0]);
      }
    }
  }

  lemma UnlinkKeepsInv(u: Unicode, s: State, o: Id)
    requires Inv(u, s, multiset{})
    ensures Inv(u, Unlink(u, s, o), multiset{})
  {
    if o in s.objs && s.objs[o].name.Some? {
      var p := s.objs[o].name.value.parent;
      assert NameOk(u, s, o);
      DetachKeepsInv(u, s, o, multiset{});
      assert multiset{} + multiset{p} == multiset{p} && multiset{p}[p := 0] == multiset{};
      DropKeepsInv(u, Detach(u, s, o), p, multiset{p});
    }
  }

  lemma ReleaseKeepsInv(u: Unicode, s: State, o: Id)
    requires Inv(u, s, multiset{})
    ensures Inv(u, Release(u, s, o), multiset{})
  {
    if o in s.objs && s.objs[o].held > (if o == ROOT then 1 else 0) {
      assert RefsOk(s, o, multiset{});
      CountsKeepInv(u, s, Unhold(s, o), o, 0, -1, multiset{}, multiset{o});
      DropKeepsInv(u, Unhold(s, o), o, multiset{o});
      assert multiset{o}[o := 0] == multiset{};
    }
  }

  lemma ReleaseSurvivors(u: Unicode, s: State, o: Id)
    requires Inv(u, s, multiset{})
    ensures var t := Release(u, s, o);
            && (forall x | x in t.objs :: x in s.objs && t.objs[x].name == s.objs[x].name)
            && (forall x | x in s.objs && s.objs[x].held > 0 && x != o :: x in t.objs)
  {
    if o in s.objs && s.objs[o].held > (if o == ROOT then 1 else 0) {
      var m := Unhold(s, o);
      assert RefsOk(s, o, multiset{});
      CountsKeepInv(u, s, m, o, 0, -1, multiset{}, multiset{o});
      DropKeepsInv(u, m, o, multiset{o});
      assert forall x | x in m.objs :: x in s.objs && m.objs[x].name == s.objs[x].name;
      assert forall x | x in s.objs && x != o :: m.objs[x] == s.objs[x];
    }
  }

  // ---------------------------------------------------------------- runs

  datatype Op =
    | DoCreate(root: Option<Id>, name: string, kind: Kind, attr: Attributes, allocOk: bool)
    | DoGrab(obj: Id)
    | DoRelease(obj: Id)
    | DoUnlink(obj: Id)

  function Apply(u: Unicode, s: State, op: Op): State {
    match op
    case DoCreate(root, name, kind, attr, allocOk) =>
      if (root.Some? && root.value !in s.objs) || !Empty(kind) then s
      else Create(u, s, root, name, kind, attr, allocOk).0
    case DoGrab(o) => Grab(s, o)
    case DoRelease(o) => Release(u, s, o)
    case DoUnlink(o) => Unlink(u, s, o)
  }

  function Run(u: Unicode, s: State, ops: seq<Op>): State
    decreases |ops|
  {
    if ops == [] then s else Run(u, Apply(u, s, ops[0]), ops[1..])
  }

  lemma InitialInv(u: Unicode, size: nat)
    requires size > 0
    ensures Inv(u, Initial(size), multiset{})
  {
    var s := Initial(size);
    assert NameOk(u, s, ROOT) && DirOk(u, s, ROOT);
    assert Children(s, ROOT) == {};
    assert RefsOk(s, ROOT, multiset{});
  }

  lemma ApplyKeepsInv(u: Unicode, s: State, op: Op)
    requires Reflexive(u) && Inv(u, s, multiset{})
    ensures Inv(u, Apply(u, s, op), multiset{})
  {
    match op
    case DoCreate(root, name, kind, attr, allocOk) =>
      if (root.Some? ==> root.value in s.objs) && Empty(kind) { CreateKeepsInv(u, s, root, name, kind, attr, allocOk); }
    case DoGrab(o) => if o in s.objs { GrabKeepsInv(u, s, o); }
    case DoRelease(o) => ReleaseKeepsInv(u, s, o);
    case DoUnlink(o) => UnlinkKeepsInv(u, s, o);
  }

  lemma {:induction false} RunKeepsInv(u: Unicode, s: State, ops: seq<Op>)
    requires Reflexive(u) && Inv(u, s, multiset{})
    ensures Inv(u, Run(u, s, ops), multiset{})
    decreases |ops|
  {
    if ops != [] {
      ApplyKeepsInv(u, s, ops[0]);
      RunKeepsInv(u, Apply(u, s, ops[0]), ops[1..]);
    }
  }

  /** Over every run: a parent outlives its children and is a directory, siblings have
      different names, and looking a printed path up gives the object back exactly when the
      path starts at the root. */
  lemma EveryRunRoundTrips(u: Unicode, size: nat, ops: seq<Op>, o: Id)
    requires Reflexive(u) && size > 0
    requires var s := Run(u, Initial(size), ops); o in s.objs && s.objs[o].name.Some?
    ensures var s := Run(u, Initial(size), ops);
            && s.objs[o].name.value.parent in s.objs && s.objs[s.objs[o].name.value.parent].kind.Directory?
            && (forall i | i in s.objs && s.objs[i].name == s.objs[o].name :: i == o)
            && Ranked(s)
            && (Lookup(u, s, None, FullName(s, o), false) == Found(o, "") <==> Top(s, o) == ROOT)
  {
    var s := Run(u, Initial(size), ops);
    InitialInv(u, size);
    RunKeepsInv(u, Initial(size), ops);
    NamesRanked(u, s);
    assert NameOk(u, s, o);
    forall i | i in s.objs && s.objs[i].name == s.objs[o].name ensures i == o { assert SameName(s, i, o); }
    RoundTrip(u, s, o);
  }

  /** A child of a directory that has no name prints as a path from the root and is not
      found there. */
  lemma Orphan(u: Unicode, size: nat)
    requires Reflexive(u) && size > 0
    ensures var attr := Attributes(false, false, false);
            var s := Run(u, Initial(size), [DoCreate(None, "", Directory(NoEntries(1)), attr, true),
                                            DoCreate(Some(1), "a", Plain(0), attr, true)]);
            && 2 in s.objs && Ranked(s) && FullName(s, 2) == "\\a"
            && Lookup(u, s, None, "\\a", false) != Found(2, "")
  {
    var attr := Attributes(false, false, false);
    var op0, op1 := DoCreate(None, "", Directory(NoEntries(1)), attr, true),
                    DoCreate(Some(1), "a", Plain(0), attr, true);
    var s0 := Initial(size);
    var s1 := Apply(u, s0, op0);
    var s := Apply(u, s1, op1);
    assert [op0, op1][1..] == [op1] && [op1][1..] == [];
    assert Run(u, s1, [op1]) == Run(u, s, []) == s;
    assert Run(u, s0, [op0, op1]) == s;
    InitialInv(u, size);
    ApplyKeepsInv(u, s0, op0);
    ApplyKeepsInv(u, s1, op1);
    assert Element("a") == 1 && "a"[..1] == "a";
    assert Lookup(u, s1, Some(1), "a", false) == Found(1, "a");
    assert s.objs[2].name == Some(Name("a", 1));
    NamesRanked(u, s);
    assert FullName(s, 1) == "" && Top(s, 2) == 1;
    RoundTrip(u, s, 2);
  }

  lemma {:induction false} SamePath(s: State, t: State, x: Id)
    requires Ranked(s) && Ranked(t) && x in s.objs && x in t.objs
    requires forall y | y in s.objs && y in t.objs :: t.objs[y].name == s.objs[y].name
    ensures FullName(t, x) == FullName(s, x) && Top(t, x) == Top(s, x)
    decreases x
  {
    assert ParentBelow(s, x) && ParentBelow(t, x);
    if s.objs[x].name.Some? { SamePath(s, t, s.objs[x].name.value.parent); }
  }

  /** No other step than unlinking renames an object. */
  lemma NamesStay(u: Unicode, s: State, op: Op)
    requires Inv(u, s, multiset{}) && !op.DoUnlink?
    ensures var t := Apply(u, s, op);
            && (forall x | x in s.objs && x in t.objs :: t.objs[x].name == s.objs[x].name)
            && (forall x | x in s.objs && s.objs[x].held > 0 && op != DoRelease(x) :: x in t.objs)
  {
    if op.DoRelease? { ReleaseSurvivors(u, s, op.obj); }
  }

  /** Only unlinking changes a path: every other step leaves the path of every object that
      is still there, and never frees an object a client holds, unless that client let go. */
  lemma PathsStay(u: Unicode, s: State, op: Op, x: Id)
    requires Reflexive(u) && Inv(u, s, multiset{}) && x in s.objs && !op.DoUnlink?
    ensures s.objs[x].held > 0 && op != DoRelease(x) ==> x in Apply(u, s, op).objs
    ensures Ranked(s) && Ranked(Apply(u, s, op))
    ensures x in Apply(u, s, op).objs ==>
              FullName(Apply(u, s, op), x) == FullName(s, x) && Top(Apply(u, s, op), x) == Top(s, x)
  {
    var t := Apply(u, s, op);
    ApplyKeepsInv(u, s, op);
    NamesRanked(u, s);
    NamesRanked(u, t);
    NamesStay(u, s, op);
    if x in t.objs { SamePath(s, t, x); }
  }

  // ---------------------------------------------------------------- relative paths, and any case

  /** Object d is o or one of its ancestors. */
  ghost predicate Under(s: State, d: Id, o: Id)
    requires Ranked(s) && o in s.objs
    decreases o
  {
    assert ParentBelow(s, o);
    o == d || (s.objs[o].name.Some? && Under(s, d, s.objs[o].name.value.parent))
  }

  /** The path from an ancestor. */
  ghost function RelName(s: State, d: Id, o: Id): string
    requires Ranked(s) && o in s.objs && Under(s, d, o) && o != d
    decreases o
  {
    assert ParentBelow(s, o);
    var n := s.objs[o].name.value;
    if n.parent == d then n.text else RelName(s, d, n.parent) + "\\" + n.text
  }

  lemma {:induction false} RelNameStarts(u: Unicode, s: State, d: Id, o: Id)
    requires NamesOk(u, s) && Ranked(s) && o in s.objs && Under(s, d, o) && o != d
    ensures RelName(s, d, o) != "" && RelName(s, d, o)[0] != '\\'
    decreases o
  {
    assert ParentBelow(s, o) && NameOk(u, s, o);
    var n := s.objs[o].name.value;
    if n.parent != d { RelNameStarts(u, s, d, n.parent); }
  }

  lemma {:induction false} DescendFrom(u: Unicode, s: State, d: Id, o: Id, rest: Rest)
    requires NamesOk(u, s) && Ranked(s) && o in s.objs && Under(s, d, o) && o != d && !rest.NoName?
    ensures Walk(u, s, d, Text(RelName(s, d, o) + Tail(rest)), false) == Walk(u, s, o, rest, false)
    decreases o
  {
    var n := s.objs[o].name.value;
    assert ParentBelow(s, o);
    StepDown(u, s, o, rest);
    if n.parent != d {
      Rejoin(RelName(s, d, n.parent), n.text, Tail(rest));
      DescendFrom(u, s, d, n.parent, Text(n.text + Tail(rest)));
    }
  }

  /** A path from any ancestor, looked up from there, gives the object back. */
  lemma RelativeRoundTrip(u: Unicode, s: State, d: Id, o: Id)
    requires NamesOk(u, s) && Ranked(s) && o in s.objs && Under(s, d, o) && o != d
    ensures Lookup(u, s, Some(d), RelName(s, d, o), false) == Found(o, "")
  {
    RelNameStarts(u, s, d, o);
    DescendFrom(u, s, d, o, Ended);
    assert RelName(s, d, o) + Tail(Ended) == RelName(s, d, o);
  }

  /** The hash does not tell names apart that are equal up to case. */
  ghost predicate HashAgrees(u: Unicode) {
    forall a, b, n: nat | u.same(a, b) && n > 0 :: Slot(u, a, n) == Slot(u, b, n)
  }

  predicate IsChild(s: State, d: Id, i: Id) {
    i in s.objs && s.objs[i].name.Some? && s.objs[i].name.value.parent == d
  }

  /** With or without regard to case, a directory finds a child of its own with that name, and
      finds one whenever there is one. */
  lemma FindExact(u: Unicode, s: State, d: Id, text: string, anyCase: bool, i: Id)
    requires NamesOk(u, s) && HashAgrees(u) && d in s.objs && s.objs[d].kind.Directory? && text != ""
    ensures var r := Find(u, s, s.objs[d].kind.buckets, text, anyCase);
            && (r.Some? ==> IsChild(s, d, r.value) && Matches(u, s, r.value, text, anyCase))
            && (IsChild(s, d, i) && Matches(u, s, i, text, anyCase) ==> r.Some?)
  {
    assert DirOk(u, s, d);
    var b := s.objs[d].kind.buckets;
    var k := Slot(u, text, |b|);
    var r := Find(u, s, b, text, anyCase);
    if r.Some? { assert EntryOk(u, s, d, k, |b|, r.value); }
    if IsChild(s, d, i) && Matches(u, s, i, text, anyCase) {
      assert NameOk(u, s, i);
      assert i in b[k];
    }
  }

  // ---------------------------------------------------------------- what each request answers and does

  /** The lookup ended below an existing directory, so the text left can name a new child. */
  predicate CanMake(s: State, look: Result) {
    look.Found? && look.left != "" && look.obj in s.objs && s.objs[look.obj].kind.Directory?
  }

  predicate Opens(s: State, look: Result, kind: Kind, attr: Attributes) {
    look.Found? && look.left == "" && look.obj in s.objs && attr.openIf && SameOps(s.objs[look.obj].kind, kind)
  }

  lemma LookupFinds(u: Unicode, s: State, root: Option<Id>, name: string, anyCase: bool)
    requires Inv(u, s, multiset{}) && (root.Some? ==> root.value in s.objs)
    ensures var r := Lookup(u, s, root, name, anyCase);
            r.Found? ==> r.obj in s.objs && (s.objs[r.obj].kind.Directory? && r.left != "" ==> '\\' !in r.left)
  {
    if Lookup(u, s, root, name, anyCase).Found? {
      if root.Some? { WalkLeft(u, s, root.value, AsRest(name), anyCase); }
      else { WalkLeft(u, s, ROOT, AsRest(name[1..]), anyCase); }
    }
  }

  /** What create_named_object answers: the object that is there, if it may be opened and is of
      the type asked for; a new one, if the name is free in a directory or empty and there is
      memory; and otherwise the error of the case it is. */
  ghost predicate Answers(u: Unicode, s: State, r: Created, root: Option<Id>, name: string,
                          kind: Kind, attr: Attributes, allocOk: bool) {
    var look := Lookup(u, s, root, name, attr.anyCase);
    && (r.Existing? <==> name != "" && Opens(s, look, kind, attr)) && (r.Existing? ==> r.obj == look.obj)
    && (r.New? <==> allocOk && (name == "" || CanMake(s, look)))
    && (r.New? ==> r.obj == s.next && r.obj !in s.objs)
    && (name == "" && r.Refused? ==> r.error == NoMemory)
    && (name != "" && r.Refused? ==>
          if look.Failed? then r.error == look.error
          else if look.left == "" then r.error == if attr.openIf then TypeMismatch else NameCollision
          else r.error == if allocOk then TypeMismatch else NoMemory)
  }

  lemma CreateAnswer(u: Unicode, s: State, root: Option<Id>, name: string, kind: Kind, attr: Attributes, allocOk: bool)
    requires Inv(u, s, multiset{}) && (root.Some? ==> root.value in s.objs)
    ensures Answers(u, s, Create(u, s, root, name, kind, attr, allocOk).1, root, name, kind, attr, allocOk)
  {
    LookupFinds(u, s, root, name, attr.anyCase);
  }

  /** A new object of this kind, and nobody else is changed but the parent, which gets a child
      and a reference. */
  ghost predicate Made(s: State, t: State, parent: Option<Id>, i: Id, kind: Kind, n: nat) {
    && t.next == s.next + 1 && i == s.next && t.objs.Keys == s.objs.Keys + {i}
    && t.objs[i].kind == kind && t.objs[i].refs == n && t.objs[i].held == n
    && forall x | x in s.objs ::
         && t.objs[x].name == s.objs[x].name && t.objs[x].held == s.objs[x].held
         && t.objs[x].kind.Directory? == s.objs[x].kind.Directory?
         && t.objs[x].refs == s.objs[x].refs + if parent == Some(x) then 1 else 0
  }

  lemma CreateUnnamedMakes(u: Unicode, s: State, kind: Kind, permanent: bool)
    requires Inv(u, s, multiset{})
    ensures var t := CreateUnnamed(s, kind, permanent);
            Made(s, t, None, s.next, kind, if permanent then 2 else 1) && t.objs[s.next].name.None?
  {
  }

  lemma CreateInMakes(u: Unicode, s: State, p: Id, text: string, kind: Kind, permanent: bool)
    requires Inv(u, s, multiset{}) && p in s.objs && s.objs[p].kind.Directory?
    ensures var t := CreateIn(u, s, p, text, kind, permanent);
            && Made(s, t, Some(p), s.next, kind, if permanent then 2 else 1)
            && t.objs[s.next].name == Some(Name(text, p))
  {
    assert DirOk(u, s, p);
  }

  /** What create_named_object changes: one more reference for an object that is there; a new
      object under the text left and the parent found, with one reference or two if it is
      permanent; and nothing when it refuses. */
  ghost predicate Records(u: Unicode, s: State, t: State, r: Created, root: Option<Id>, name: string,
                          kind: Kind, attr: Attributes) {
    var look := Lookup(u, s, root, name, attr.anyCase);
    match r
    case Refused(_) => t == s
    case Existing(o) =>
      && o in s.objs
      && t == s.(objs := s.objs[o := s.objs[o].(refs := s.objs[o].refs + 1, held := s.objs[o].held + 1)])
    case New(i) =>
      && (name != "" ==> look.Found?)
      && Made(s, t, if name == "" then None else Some(look.obj), i, kind, if attr.permanent then 2 else 1)
      && t.objs[i].name == if name == "" then None else Some(Name(look.left, look.obj))
  }

  lemma CreateRecords(u: Unicode, s: State, root: Option<Id>, name: string, kind: Kind, attr: Attributes, allocOk: bool)
    requires Inv(u, s, multiset{}) && (root.Some? ==> root.value in s.objs)
    ensures var (t, r) := Create(u, s, root, name, kind, attr, allocOk);
            Records(u, s, t, r, root, name, kind, attr)
  {
    LookupFinds(u, s, root, name, attr.anyCase);
    var look := Lookup(u, s, root, name, attr.anyCase);
    if name == "" {
      CreateUnnamedMakes(u, s, kind, attr.permanent);
    } else if CanMake(s, look) {
      CreateInMakes(u, s, look.obj, look.left, kind, attr.permanent);
    }
  }

  /** References that clients have on an object, which is none when it was freed. */
  function HeldOf(s: State, x: Id): int {
    if x in s.objs then s.objs[x].held else 0
  }

  /** References that the step hands to clients, or takes back. */
  function Gain(u: Unicode, s: State, op: Op, x: Id): int {
    match op
    case DoCreate(root, name, kind, attr, allocOk) =>
      if (root.Some? && root.value !in s.objs) || !Empty(kind) then 0
      else
        (match Create(u, s, root, name, kind, attr, allocOk).1
         case New(o) => if o == x then (if attr.permanent then 2 else 1) else 0
         case Existing(o) => if o == x then 1 else 0
         case Refused(_) => 0)
    case DoGrab(o) => if o == x && o in s.objs then 1 else 0
    case DoRelease(o) => if o == x && HeldOf(s, o) > (if o == ROOT then 1 else 0) then -1 else 0
    case DoUnlink(_) => 0
  }

  lemma SurviveHeld(s: State, t: State, x: Id)
    requires Survive(s, t) && (x in s.objs ==> s.objs[x].held >= 0)
    ensures HeldOf(t, x) == HeldOf(s, x)
  {
  }

  predicate Below(s: State) {
    forall i | i in s.objs && s.objs[i].name.Some? :: s.objs[i].name.value.parent < i
  }

  lemma {:induction false} DropAbove(u: Unicode, s: State, o: Id, x: Id)
    requires Below(s) && x in s.objs && x > o
    ensures x in Drop(u, s, o).objs && Drop(u, s, o).objs[x] == s.objs[x]
    decreases o
  {
    if o in s.objs && s.objs[o].refs <= 1 && s.objs[o].name.Some? {
      DropAbove(u, Erase(Detach(u, s, o), o), s.objs[o].name.value.parent, x);
    }
  }

  lemma UnlinkHeld(u: Unicode, s: State, o: Id, x: Id)
    requires Inv(u, s, multiset{}) && o in s.objs
    ensures HeldOf(Unlink(u, s, o), x) == HeldOf(s, x)
  {
    if s.objs[o].name.Some? {
      var p := s.objs[o].name.value.parent;
      assert NameOk(u, s, o);
      DetachKeepsInv(u, s, o, multiset{});
      assert multiset{} + multiset{p} == multiset{p};
      DropKeepsInv(u, Detach(u, s, o), p, multiset{p});
      SurviveHeld(Detach(u, s, o), Unlink(u, s, o), x);
    }
  }

  /** Unlinking takes an object's name away and nothing else from it; of the others it changes no
      name, and frees only what nobody holds. */
  lemma UnlinkExact(u: Unicode, s: State, o: Id)
    requires Inv(u, s, multiset{}) && o in s.objs
    ensures var t := Unlink(u, s, o);
            && o in t.objs && t.objs[o] == s.objs[o].(name := None)
            && (forall x | x in t.objs && x != o :: x in s.objs && t.objs[x].name == s.objs[x].name)
            && (forall x: Id :: HeldOf(t, x) == HeldOf(s, x))
  {
    forall x: Id ensures HeldOf(Unlink(u, s, o), x) == HeldOf(s, x) { UnlinkHeld(u, s, o, x); }
    if s.objs[o].name.Some? {
      var p, m := s.objs[o].name.value.parent, Detach(u, s, o);
      assert NameOk(u, s, o);
      DetachKeepsInv(u, s, o, multiset{});
      assert multiset{} + multiset{p} == multiset{p};
      DropKeepsInv(u, m, p, multiset{p});
      assert Below(m) by { forall i | i in s.objs ensures NameOk(u, s, i) {} }
      DropAbove(u, m, p, o);
    }
  }

  lemma ReleaseHeld(u: Unicode, s: State, o: Id, x: Id)
    requires Inv(u, s, multiset{})
    ensures HeldOf(Release(u, s, o), x) == HeldOf(s, x) + Gain(u, s, DoRelease(o), x)
  {
    if o in s.objs && s.objs[o].held > (if o == ROOT then 1 else 0) {
      var m := Unhold(s, o);
      assert RefsOk(s, o, multiset{});
      CountsKeepInv(u, s, m, o, 0, -1, multiset{}, multiset{o});
      DropKeepsInv(u, m, o, multiset{o});
      SurviveHeld(m, Drop(u, m, o), x);
    }
  }

  lemma CreateHeld(u: Unicode, s: State, root: Option<Id>, name: string,
                   kind: Kind, attr: Attributes, allocOk: bool, x: Id)
    requires Inv(u, s, multiset{}) && (root.Some? ==> root.value in s.objs) && Empty(kind)
    ensures var op := DoCreate(root, name, kind, attr, allocOk);
            HeldOf(Create(u, s, root, name, kind, attr, allocOk).0, x) == HeldOf(s, x) + Gain(u, s, op, x)
  {
    CreateAnswer(u, s, root, name, kind, attr, allocOk);
    CreateRecords(u, s, root, name, kind, attr, allocOk);
  }

  /** A step changes what clients hold by just what it hands out or takes back. */
  lemma StepOnHeld(u: Unicode, s: State, op: Op, x: Id)
    requires Inv(u, s, multiset{})
    ensures HeldOf(Apply(u, s, op), x) == HeldOf(s, x) + Gain(u, s, op, x)
  {
    match op
    case DoCreate(root, name, kind, attr, allocOk) =>
      if (root.Some? ==> root.value in s.objs) && Empty(kind) {
        CreateHeld(u, s, root, name, kind, attr, allocOk, x);
      }
    case DoGrab(o) =>
    case DoRelease(o) => ReleaseHeld(u, s, o, x);
    case DoUnlink(o) => if o in s.objs { UnlinkExact(u, s, o); }
  }

  /** What a run hands out of an object, less what it takes back. */
  function Balance(u: Unicode, s: State, ops: seq<Op>, x: Id): int
    decreases |ops|
  {
    if ops == [] then 0 else Gain(u, s, ops[0], x) + Balance(u, Apply(u, s, ops[0]), ops[1..], x)
  }

  lemma {:induction false} RunHeld(u: Unicode, s: State, ops: seq<Op>, x: Id)
    requires Reflexive(u) && Inv(u, s, multiset{})
    ensures HeldOf(Run(u, s, ops), x) == HeldOf(s, x) + Balance(u, s, ops, x)
    decreases |ops|
  {
    if ops != [] {
      ApplyKeepsInv(u, s, ops[0]);
      StepOnHeld(u, s, ops[0], x);
      RunHeld(u, Apply(u, s, ops[0]), ops[1..], x);
    }
  }

  /** Over every run: clients hold of an object just the answers that gave it to them, two for a
      new permanent one, and the grabs, less the releases; its references are those and its
      children; and it is there as long as there are any. */
  lemma EveryRunHeld(u: Unicode, size: nat, ops: seq<Op>, x: Id)
    requires Reflexive(u) && size > 0
    ensures var s, n := Run(u, Initial(size), ops), Balance(u, Initial(size), ops, x) + (if x == ROOT then 2 else 0);
            && HeldOf(s, x) == n
            && (x in s.objs ==> s.objs[x].refs == n + |Children(s, x)| && s.objs[x].refs > 0)
  {
    var s := Run(u, Initial(size), ops);
    InitialInv(u, size);
    RunKeepsInv(u, Initial(size), ops);
    RunHeld(u, Initial(size), ops, x);
    if x in s.objs { assert RefsOk(s, x, multiset{}); }
  }

  // ---------------------------------------------------------------- the code

  /** get_path_element */
  method GetPathElement(name: string) returns (n: nat)
    ensures n == Element(name)
  {
    n := 0;
    while n < |name|
      invariant 0 <= n <= |name| && '\\' !in name[..n]
    {
      if name[n] == '\\' { break; }
      n := n + 1;
    }
    ElementUnique(name, n);
  }

  /** Write a path element and the backslash before it, so that they end at `end`. */
  method PutElement(buf: array<char>, end: nat, text: string)
    requires |text| < end <= buf.Length
    modifies buf
    ensures buf[end - |text| - 1..] == "\\" + text + old(buf[end..])
  {
    ghost var done := buf[end..];
    var at := end - |text|;
    forall k | 0 <= k < |text| { buf[at + k] := text[k]; }
    buf[at - 1] := '\\';
    assert buf[end..] == done;
    assert buf[at..end] == text;
    assert buf[at - 1..] == [buf[at - 1]] + buf[at..end] + buf[end..];
  }

  lemma PathParts(before: string, text: string, done: string)
    ensures (before + "\\" + text) + done == before + ("\\" + text + done)
  {
  }

  class Namespace {
    var objs: map<Id, Object>
    var next: Id

    ghost function View(): State
      reads this
    {
      State(objs, next)
    }

    /** find_object */
    method FindObject(u: Unicode, buckets: seq<seq<Id>>, text: string, anyCase: bool) returns (r: Option<Id>)
      ensures r == Find(u, View(), buckets, text, anyCase)
    {
      if text == "" || buckets == [] { return None; }
      var bucket := buckets[Slot(u, text, |buckets|)];
      var k := 0;
      while k < |bucket|
        invariant 0 <= k <= |bucket|
        invariant Scan(u, View(), bucket[k..], text, anyCase) == Scan(u, View(), bucket, text, anyCase)
      {
        var i := bucket[k];
        if i in objs && objs[i].name.Some? {
          var t := objs[i].name.value.text;
          if |t| == |text| && (if anyCase then u.same(t, text) else t == text) { return Some(i); }
        }
        assert bucket[k..][1..] == bucket[k + 1..];
        k := k + 1;
      }
      r := None;
    }

    /** directory_lookup_name */
    method DirectoryLookupName(u: Unicode, buckets: seq<seq<Id>>, rest: Rest, anyCase: bool) returns (step: Step)
      ensures step == LookupName(u, View(), Directory(buckets), rest, anyCase)
    {
      if !rest.Text? { return Stop; }
      var n := GetPathElement(rest.str);
      var found := FindObject(u, buckets, rest.str[..n], anyCase);
      if found.Some? { return Next(found.value, if n < |rest.str| then Text(rest.str[n + 1..]) else Ended); }
      if n == 0 { return Fail(NameInvalid); }
      return if n < |rest.str| then Fail(PathNotFound) else Stop;
    }

    /** lookup_named_object */
    method LookupNamedObject(u: Unicode, root: Option<Id>, name: string, anyCase: bool) returns (r: Result)
      ensures r == Lookup(u, View(), root, name, anyCase)
    {
      var rest, parent := AsRest(name), ROOT;
      if root.Some? {
        if name != "" && name[0] == '\\' { return Failed(PathSyntaxBad); }
        parent := root.value;
      } else {
        if name == "" || name[0] != '\\' { return Failed(PathSyntaxBad); }
        rest := AsRest(name[1..]);
      }
      ghost var result := Walk(u, View(), parent, rest, anyCase);
      while true
        invariant result == Walk(u, View(), parent, rest, anyCase)
        decreases Size(rest)
      {
        if parent !in objs { return Failed(PathNotFound); }
        var step: Step;
        match objs[parent].kind {
          case Plain(_) => step := if rest.NoName? then Fail(TypeMismatch) else Stop;
          case Directory(buckets) => step := DirectoryLookupName(u, buckets, rest, anyCase);
        }
        match step {
          case Next(o, left) => parent, rest := o, left;
          case Stop => return Found(parent, Left(rest));
          case Fail(e) => return Failed(e);
        }
      }
    }

    /** The first loop of default_get_full_name. */
    method MeasurePath(o: Id) returns (len: nat)
      requires Ranked(View()) && o in objs
      ensures len == |FullName(View(), o)| && (len == 0 <==> objs[o].name.None?)
    {
      var ptr := o;
      len := 0;
      while objs[ptr].name.Some?
        invariant ptr in objs
        invariant |FullName(View(), o)| == len + |FullName(View(), ptr)|
        invariant len == 0 <==> ptr == o
        decreases ptr
      {
        assert ParentBelow(View(), ptr);
        var name := objs[ptr].name.value;
        len := len + |name.text| + 1;
        ptr := name.parent;
      }
    }

    /** default_get_full_name: measure the path, then fill the buffer from its end; nothing for
        an object without a name or when there is no memory.  Also tells whether the caller's
        limit was passed. */
    method GetFullName(o: Id, max: nat, allocOk: bool) returns (r: Option<array<char>>, tooLong: bool)
      requires Ranked(View()) && o in objs
      ensures r.None? <==> objs[o].name.None? || !allocOk
      ensures r.Some? ==> fresh(r.value) && r.value[..] == FullName(View(), o)
      ensures tooLong <==> r.Some? && |FullName(View(), o)| > max
    {
      var len := MeasurePath(o);
      if len == 0 || !allocOk { return None, false; }
      var buf, ptr := new char[len], o;
      tooLong := len > max;
      while objs[ptr].name.Some?
        invariant ptr in objs && len <= buf.Length
        invariant len == |FullName(View(), ptr)|
        invariant FullName(View(), o) == FullName(View(), ptr) + buf[len..]
        decreases ptr
      {
        assert ParentBelow(View(), ptr);
        var name := objs[ptr].name.value;
        ghost var done, before := buf[len..], FullName(View(), name.parent);
        PutElement(buf, len, name.text);
        PathParts(before, name.text, done);
        len := len - |name.text| - 1;
        ptr := name.parent;
      }
      assert buf[0..] == buf[..];
      r := Some(buf);
    }

    /** release_object, with the unlinking it does on the last reference. */
    method ReleaseObject(u: Unicode, o: Id, ghost due: multiset<Id>)
      requires o in objs && Inv(u, View(), due) && due[o] > 0
      modifies this
      ensures View() == Drop(u, old(View()), o)
      ensures Inv(u, View(), due[o := due[o] - 1])
      decreases o
    {
      DropKeepsInv(u, View(), o, due);
      assert RefsOk(View(), o, due);
      if objs[o].refs > 1 {
        objs := objs[o := objs[o].(refs := objs[o].refs - 1)];
        return;
      }
      if objs[o].name.None? {
        objs := map x | x in objs && x != o :: objs[x];
        return;
      }
      assert NameOk(u, View(), o);
      DetachKeepsInv(u, View(), o, due);
      var name := objs[o].name.value;
      ghost var more := due + multiset{name.parent};
      assert Children(Detach(u, View(), o), o) <= Children(View(), o) == {};
      EraseKeepsInv(u, Detach(u, View(), o), o, more);
      objs := objs[o := objs[o].(name := None)];
      objs := objs[name.parent := Delist(u, objs[name.parent], name.text, o)];
      objs := map x | x in objs && x != o :: objs[x];
      ReleaseObject(u, name.parent, more[o := 0]);
    }

    /** unlink_named_object */
    method UnlinkNamedObject(u: Unicode, o: Id)
      requires o in objs && Inv(u, View(), multiset{})
      modifies this
      ensures View() == Unlink(u, old(View()), o)
      ensures Inv(u, View(), multiset{})
    {
      UnlinkKeepsInv(u, View(), o);
      if objs[o].name.None? { return; }
      assert NameOk(u, View(), o);
      var name := objs[o].name.value;
      DetachKeepsInv(u, View(), o, multiset{});
      assert multiset{} + multiset{name.parent} == multiset{name.parent};
      objs := objs[o := objs[o].(name := None)];
      objs := objs[name.parent := Delist(u, objs[name.parent], name.text, o)];
      ReleaseObject(u, name.parent, multiset{name.parent});
    }

    /** create_object, linked into a directory. */
    method CreateObject(u: Unicode, parent: Id, text: string, kind: Kind, permanent: bool)
      requires parent in objs
      modifies this
      ensures View() == CreateIn(u, old(View()), parent, text, kind, permanent)
    {
      var count := if permanent then 2 else 1;
      objs := objs[parent := Enlist(u, objs[parent], text, next)];
      objs := objs[next := Object(kind, Some(Name(text, parent)), count, count)];
      next := next + 1;
    }

    /** create_named_object */
    method CreateNamedObject(u: Unicode, root: Option<Id>, name: string, kind: Kind, attr: Attributes, allocOk: bool)
      returns (r: Created)
      modifies this
      ensures (View(), r) == Create(u, old(View()), root, name, kind, attr, allocOk)
      ensures old(Inv(u, View(), multiset{}) && (root.Some? ==> root.value in objs)) ==>
                && Answers(u, old(View()), r, root, name, kind, attr, allocOk)
                && Records(u, old(View()), View(), r, root, name, kind, attr)
    {
      if Inv(u, View(), multiset{}) && (root.Some? ==> root.value in objs) {
        CreateAnswer(u, View(), root, name, kind, attr, allocOk);
        CreateRecords(u, View(), root, name, kind, attr, allocOk);
      }
      if name == "" {
        if !allocOk { return Refused(NoMemory); }
        var count := if attr.permanent then 2 else 1;
        r := New(next);
        objs, next := objs[next := Object(kind, None, count, count)], next + 1;
        return;
      }
      var found := LookupNamedObject(u, root, name, attr.anyCase);
      if found.Failed? { return Refused(found.error); }
      var parent, left := found.obj, found.left;
      if parent !in objs { return Refused(PathNotFound); }
      if left == "" {
        if attr.openIf && SameOps(objs[parent].kind, kind) {
          objs := objs[parent := objs[parent].(refs := objs[parent].refs + 1, held := objs[parent].held + 1)];
          return Existing(parent);
        }
        return Refused(if attr.openIf then TypeMismatch else NameCollision);
      }
      if !allocOk { return Refused(NoMemory); }
      if objs[parent].kind.Plain? { return Refused(TypeMismatch); }
      r := New(next);
      CreateObject(u, parent, left, kind, attr.permanent);
    }
  }
}
