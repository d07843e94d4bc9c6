/** Clipboard formats (server/clipboard.c): a list in order of arrival with a count and a map
    of the predefined formats present.  A format may be synthesized `from` another, or wait to
    be rendered by the clipboard owner; only a format with data survives the owner on its own.
 */
module Clipboard {

  const CF_TEXT := 1
  const CF_BITMAP := 2
  const CF_METAFILEPICT := 3
  const CF_OEMTEXT := 7
  const CF_DIB := 8
  const CF_UNICODETEXT := 13
  const CF_ENHMETAFILE := 14
  const CF_LOCALE := 16
  const CF_DIBV5 := 17
  const CF_MAX := 18

  datatype Format = Format(id: nat, from: nat, data: bool, seqno: nat)

  datatype State = State(formats: seq<Format>, count: nat, present: set<nat>, seqno: nat, openSeqno: nat)

  const Initial := State([], 0, {}, 0, 0)

  // ---------------------------------------------------------------- the operations

  /** add_format */
  function Add(s: State, f: Format): State {
    s.(formats := s.formats + [f], count := s.count + 1,
       present := if f.id < CF_MAX then s.present + {f.id} else s.present)
  }

  /** get_format; the length of the list when there is none. */
  function Position(fs: seq<Format>, id: nat): (k: nat)
    ensures k <= |fs| && (k < |fs| ==> fs[k].id == id) && forall j | 0 <= j < k :: fs[j].id != id
  {
    if fs == [] || fs[0].id == id then 0 else Position(fs[1..], id) + 1
  }

  /** set_clipboard_data by the thread that has the clipboard open.  Memory is needed for a copy
      of the data and for a new format. */
  function SetData(s: State, id: nat, data: bool, rendering: bool, allocOk: bool): State {
    var k := Position(s.formats, id);
    if id == 0 || (!allocOk && (data || k == |s.formats|)) then s
    else
      var f := Format(id, 0, data, s.seqno);
      var t := if k < |s.formats| then s.(formats := s.formats[k := f]) else Add(s, f);
      if rendering then t else t.(seqno := s.seqno + 1)
  }

  /** A format to synthesize and its two possible sources, the better one first. */
  datatype Row = Row(id: nat, first: nat, second: nat)

  const Rows: seq<Row> := [
    Row(CF_TEXT, CF_OEMTEXT, CF_UNICODETEXT),
    Row(CF_OEMTEXT, CF_UNICODETEXT, CF_TEXT),
    Row(CF_UNICODETEXT, CF_TEXT, CF_OEMTEXT),
    Row(CF_METAFILEPICT, CF_ENHMETAFILE, 0),
    Row(CF_ENHMETAFILE, CF_METAFILEPICT, 0),
    Row(CF_BITMAP, CF_DIB, CF_DIBV5),
    Row(CF_DIB, CF_BITMAP, CF_DIBV5),
    Row(CF_DIBV5, CF_BITMAP, CF_DIB)
  ]

  /** The locale of the text formats. */
  function AddLocale(s: State, fails: set<nat>): State {
    if CF_LOCALE !in s.present &&
       (CF_TEXT in s.present || CF_OEMTEXT in s.present || CF_UNICODETEXT in s.present) && CF_LOCALE !in fails
    then Add(s, Format(CF_LOCALE, 0, true, s.seqno)).(seqno := s.seqno + 1)
    else s
  }

  /** One row, by the formats that were there when the clipboard was closed. */
  function AddRow(s: State, r: Row, was: set<nat>, fails: set<nat>): State {
    if r.id in was || (r.first !in was && r.second !in was) || r.id in fails then s
    else Add(s, Format(r.id, if r.first in was then r.first else r.second, false, s.seqno))
  }

  function AddRows(s: State, i: nat, was: set<nat>, fails: set<nat>): State
    requires i <= |Rows|
    decreases |Rows| - i
  {
    if i == |Rows| then s else AddRows(AddRow(s, Rows[i], was, fails), i + 1, was, fails)
  }

  /** close_clipboard; `fails` holds the formats for which an allocation fails. */
  function Close(s: State, fails: set<nat>): State {
    if s.seqno == s.openSeqno then s
    else
      var t := AddRows(AddLocale(s, fails), 0, s.present, fails);
      if t.count == AddLocale(s, fails).count then t else t.(seqno := t.seqno + 1)
  }

  /** The positions release_clipboard keeps, from k on. */
  function Kept(fs: seq<Format>, k: nat, present: set<nat>): (idx: seq<nat>)
    requires k <= |fs|
    ensures forall p | 0 <= p < |idx| :: k <= idx[p] < |fs|
    decreases |fs| - k
  {
    if k == |fs| then []
    else if fs[k].data || (fs[k].from != 0 && fs[k].from in present) then [k] + Kept(fs, k + 1, present)
    else Kept(fs, k + 1, present - {fs[k].id})
  }

  predicate Ascends(idx: seq<nat>) {
    forall p, q | 0 <= p < q < |idx| :: idx[p] < idx[q]
  }

  lemma {:induction false} KeptAscends(fs: seq<Format>, k: nat, present: set<nat>)
    requires k <= |fs|
    ensures Ascends(Kept(fs, k, present))
    decreases |fs| - k
  {
    if k < |fs| {
      if fs[k].data || (fs[k].from != 0 && fs[k].from in present) {
        var rest := Kept(fs, k + 1, present);
        KeptAscends(fs, k + 1, present);
        assert forall p | 0 < p < |rest| + 1 :: ([k] + rest)[p] == rest[p - 1];
      } else {
        KeptAscends(fs, k + 1, present - {fs[k].id});
      }
    }
  }

  function MapAfter(fs: seq<Format>, k: nat, present: set<nat>): set<nat>
    requires k <= |fs|
    decreases |fs| - k
  {
    if k == |fs| then present
    else if fs[k].data || (fs[k].from != 0 && fs[k].from in present) then MapAfter(fs, k + 1, present)
    else MapAfter(fs, k + 1, present - {fs[k].id})
  }

  function Pick(fs: seq<Format>, idx: seq<nat>): seq<Format>
    requires forall p | 0 <= p < |idx| :: idx[p] < |fs|
  {
    seq(|idx|, p requires 0 <= p < |idx| => fs[idx[p]])
  }

  /** release_clipboard: formats that only the owner could render go, and with them what was to
      be made from them. */
  function Release(s: State): State {
    var fs := Pick(s.formats, Kept(s.formats, 0, s.present));
    var t := s.(formats := fs, count := |fs|, present := MapAfter(s.formats, 0, s.present));
    if |fs| == |s.formats| then t else t.(seqno := s.seqno + 1)
  }

  datatype Op =
    | DoOpen
    | DoSet(id: nat, data: bool, rendering: bool, allocOk: bool)
    | DoClose(fails: set<nat>)
    | DoEmpty
    | DoRelease

  function Apply(s: State, op: Op): State {
    match op
    case DoOpen => s.(openSeqno := s.seqno)
    case DoSet(id, data, rendering, allocOk) => SetData(s, id, data, rendering, allocOk)
    case DoClose(fails) => Close(s, fails)
    case DoEmpty => s.(formats := [], count := 0, present := {}, seqno := s.seqno + 1)
    case DoRelease => Release(s)
  }

  function Run(s: State, ops: seq<Op>): State
    decreases |ops|
  {
    if ops == [] then s else Run(Apply(s, ops[0]), ops[1..])
  }

  // ---------------------------------------------------------------- the invariant

  predicate Distinct(fs: seq<Format>) {
    forall i, j | 0 <= i < j < |fs| :: fs[i].id != fs[j].id
  }

  /** The source of a synthesized format is a predefined one, and earlier in the list. */
  predicate FormatOk(fs: seq<Format>, k: nat)
    requires k < |fs|
  {
    && fs[k].id != 0
    && (fs[k].from != 0 ==> !fs[k].data && fs[k].from < CF_MAX && exists j :: 0 <= j < k && fs[j].id == fs[k].from)
  }

  predicate Has(fs: seq<Format>, id: nat) {
    exists k :: 0 <= k < |fs| && fs[k].id == id
  }

  ghost predicate Inv(s: State) {
    && Distinct(s.formats)
    && (forall k {:trigger FormatOk(s.formats, k)} | 0 <= k < |s.formats| :: FormatOk(s.formats, k))
    && s.count == |s.formats|
    && (forall x: nat {:trigger x in s.present} :: x in s.present <==> x < CF_MAX && Has(s.formats, x))
  }

  lemma HasAppend(fs: seq<Format>, f: Format, x: nat)
    ensures Has(fs + [f], x) <==> Has(fs, x) || f.id == x
  {
    var t := fs + [f];
    if Has(fs, x) {
      var k :| 0 <= k < |fs| && fs[k].id == x;
      assert t[k].id == x;
    }
    if f.id == x { assert t[|fs|].id == x; }
  }

  lemma AddKeepsInv(s: State, f: Format)
    requires Inv(s) && f.id != 0 && !Has(s.formats, f.id)
    requires f.from != 0 ==> !f.data && f.from in s.present
    ensures Inv(Add(s, f))
    ensures forall x :: x in s.present ==> x in Add(s, f).present
  {
    var t := Add(s, f);
    forall k | 0 <= k < |t.formats| ensures FormatOk(t.formats, k) {
      if k < |s.formats| {
        assert FormatOk(s.formats, k);
        if s.formats[k].from != 0 {
          var j :| 0 <= j < k && s.formats[j].id == s.formats[k].from;
          assert t.formats[j].id == t.formats[k].from;
        }
      } else if f.from != 0 {
        var j :| 0 <= j < |s.formats| && s.formats[j].id == f.from;
        assert t.formats[j].id == f.from;
      }
    }
    forall x: nat ensures x in t.present <==> x < CF_MAX && Has(t.formats, x) { HasAppend(s.formats, f, x); }
  }

  lemma SameIds(a: seq<Format>, b: seq<Format>, x: nat)
    requires |a| == |b| && forall i | 0 <= i < |a| :: a[i].id == b[i].id
    ensures Has(a, x) <==> Has(b, x)
  {
    if Has(a, x) {
      var k :| 0 <= k < |a| && a[k].id == x;
      assert b[k].id == x;
    }
    if Has(b, x) {
      var k :| 0 <= k < |b| && b[k].id == x;
      assert a[k].id == x;
    }
  }

  lemma SetDataKeepsInv(s: State, id: nat, data: bool, rendering: bool, allocOk: bool)
    requires Inv(s)
    ensures Inv(SetData(s, id, data, rendering, allocOk))
  {
    var k, f := Position(s.formats, id), Format(id, 0, data, s.seqno);
    if id != 0 && k == |s.formats| {
      AddKeepsInv(s, f);
    } else if id != 0 {
      var fs := s.formats[k := f];
      forall i | 0 <= i < |fs| ensures FormatOk(fs, i) {
        assert FormatOk(s.formats, i);
        if fs[i].from != 0 {
          var j :| 0 <= j < i && s.formats[j].id == s.formats[i].from;
          assert fs[j].id == fs[i].from;
        }
      }
      forall x: nat ensures Has(fs, x) <==> Has(s.formats, x) { SameIds(s.formats, fs, x); }
    }
  }

  /** The rows still to come name formats that are not there yet. */
  ghost predicate RowsFree(s: State, i: nat, was: set<nat>) {
    forall j | i <= j < |Rows| && Rows[j].id !in was :: !Has(s.formats, Rows[j].id)
  }

  lemma {:induction false} AddRowsKeepsInv(s: State, i: nat, was: set<nat>, fails: set<nat>)
    requires i <= |Rows| && Inv(s) && 0 !in was && was <= s.present && RowsFree(s, i, was)
    ensures Inv(AddRows(s, i, was, fails))
    decreases |Rows| - i
  {
    if i < |Rows| {
      var r, t := Rows[i], AddRow(s, Rows[i], was, fails);
      if t != s {
        var f := t.formats[|s.formats|];
        AddKeepsInv(s, f);
        forall j | i + 1 <= j < |Rows| && Rows[j].id !in was ensures !Has(t.formats, Rows[j].id) {
          HasAppend(s.formats, f, Rows[j].id);
        }
      }
      AddRowsKeepsInv(t, i + 1, was, fails);
    }
  }

  lemma CloseKeepsInv(s: State, fails: set<nat>)
    requires Inv(s)
    ensures Inv(Close(s, fails))
  {
    var t := AddLocale(s, fails);
    if t != s { AddKeepsInv(s, Format(CF_LOCALE, 0, true, s.seqno)); }
    forall j | 0 <= j < |Rows| && Rows[j].id !in s.present ensures !Has(t.formats, Rows[j].id) {
      if t != s { HasAppend(s.formats, Format(CF_LOCALE, 0, true, s.seqno), Rows[j].id); }
    }
    assert 0 !in s.present by {
      forall k | 0 <= k < |s.formats| ensures s.formats[k].id != 0 { assert FormatOk(s.formats, k); }
    }
    AddRowsKeepsInv(t, 0, s.present, fails);
  }

  // ---------------------------------------------------------------- what survives the owner

  /** Following `from` at most n times ends at a format that holds data. */
  ghost predicate Reaches(fs: seq<Format>, id: nat, n: nat)
    decreases n
  {
    exists k :: 0 <= k < |fs| && fs[k].id == id &&
      (fs[k].data || (fs[k].from != 0 && n > 0 && Reaches(fs, fs[k].from, n - 1)))
  }

  ghost predicate CanReach(fs: seq<Format>, id: nat) {
    exists n :: Reaches(fs, id, n)
  }

  lemma ReachStep(fs: seq<Format>, k: nat)
    requires Distinct(fs) && k < |fs|
    ensures CanReach(fs, fs[k].id) <==> fs[k].data || (fs[k].from != 0 && CanReach(fs, fs[k].from))
  {
    if CanReach(fs, fs[k].id) {
      var n: nat :| Reaches(fs, fs[k].id, n);
      var j :| 0 <= j < |fs| && fs[j].id == fs[k].id &&
               (fs[j].data || (fs[j].from != 0 && n > 0 && Reaches(fs, fs[j].from, n - 1)));
      assert j == k;
    } else if fs[k].data {
      assert Reaches(fs, fs[k].id, 0);
    } else if fs[k].from != 0 && CanReach(fs, fs[k].from) {
      var n: nat :| Reaches(fs, fs[k].from, n);
      assert Reaches(fs, fs[k].id, n + 1);
    }
  }

  /** Before position k the map has been cut down to what reaches data; from k on it is whole. */
  ghost predicate CutTo(fs: seq<Format>, k: nat, present: set<nat>) {
    && (forall j {:trigger fs[j].id} | 0 <= j < |fs| && fs[j].id < CF_MAX ::
          fs[j].id in present <==> (j >= k || CanReach(fs, fs[j].id)))
  }

  ghost predicate AllOk(fs: seq<Format>) {
    Distinct(fs) && forall k {:trigger FormatOk(fs, k)} | 0 <= k < |fs| :: FormatOk(fs, k)
  }

  lemma CutStep(fs: seq<Format>, k: nat, present: set<nat>)
    requires AllOk(fs) && k < |fs| && CutTo(fs, k, present)
    ensures fs[k].data || (fs[k].from != 0 && fs[k].from in present) <==> CanReach(fs, fs[k].id)
    ensures CutTo(fs, k + 1, if CanReach(fs, fs[k].id) then present else present - {fs[k].id})
  {
    assert FormatOk(fs, k);
    ReachStep(fs, k);
    if fs[k].from != 0 {
      var j :| 0 <= j < k && fs[j].id == fs[k].from;
      assert fs[j].id in present <==> CanReach(fs, fs[j].id);
    }
  }

  lemma {:induction false} KeptExact(fs: seq<Format>, k: nat, present: set<nat>, j: nat)
    requires AllOk(fs) && k <= |fs| && CutTo(fs, k, present) && j < |fs|
    ensures j in Kept(fs, k, present) <==> k <= j && CanReach(fs, fs[j].id)
    ensures fs[j].id < CF_MAX ==> (fs[j].id in MapAfter(fs, k, present) <==> CanReach(fs, fs[j].id))
    decreases |fs| - k
  {
    if k < |fs| {
      CutStep(fs, k, present);
      KeptExact(fs, k + 1, if CanReach(fs, fs[k].id) then present else present - {fs[k].id}, j);
    } else {
      assert fs[j].id < CF_MAX ==> (fs[j].id in present <==> CanReach(fs, fs[j].id));
    }
  }

  lemma StartsWhole(s: State)
    requires Inv(s)
    ensures CutTo(s.formats, 0, s.present)
  {
    forall j | 0 <= j < |s.formats| && s.formats[j].id < CF_MAX ensures s.formats[j].id in s.present {
      assert Has(s.formats, s.formats[j].id);
    }
  }

  /** A format survives the clipboard owner exactly if following `from` leads to data. */
  lemma ReleaseExact(s: State, j: nat)
    requires Inv(s) && j < |s.formats|
    ensures Has(Release(s).formats, s.formats[j].id) <==> CanReach(s.formats, s.formats[j].id)
  {
    var fs, idx := s.formats, Kept(s.formats, 0, s.present);
    StartsWhole(s);
    KeptExact(fs, 0, s.present, j);
    var gs := Pick(fs, idx);
    if j in idx {
      var p :| 0 <= p < |idx| && idx[p] == j;
      assert gs[p].id == fs[j].id;
    }
    if Has(gs, fs[j].id) {
      var p :| 0 <= p < |gs| && gs[p].id == fs[j].id;
      assert idx[p] == j;
    }
  }

  lemma ReleaseFormat(s: State, p: nat)
    requires Inv(s) && p < |Release(s).formats|
    ensures FormatOk(Release(s).formats, p)
    ensures Release(s).formats[p].data || Release(s).formats[p].from != 0
  {
    var fs, idx := s.formats, Kept(s.formats, 0, s.present);
    var gs := Pick(fs, idx);
    StartsWhole(s);
    KeptAscends(fs, 0, s.present);
    var k := idx[p];
    assert FormatOk(fs, k) && k in idx;
    KeptExact(fs, 0, s.present, k);
    ReachStep(fs, k);
    if fs[k].from != 0 {
      var j :| 0 <= j < k && fs[j].id == fs[k].from;
      KeptExact(fs, 0, s.present, j);
      var q :| 0 <= q < |idx| && idx[q] == j;
      assert gs[q].id == gs[p].from;
    }
  }

  lemma {:induction false} MapShrinks(fs: seq<Format>, k: nat, present: set<nat>)
    requires k <= |fs|
    ensures MapAfter(fs, k, present) <= present
    decreases |fs| - k
  {
    if k < |fs| {
      MapShrinks(fs, k + 1, present);
      MapShrinks(fs, k + 1, present - {fs[k].id});
    }
  }

  lemma ReleaseMap(s: State, x: nat)
    requires Inv(s)
    ensures x in Release(s).present <==> x < CF_MAX && Has(Release(s).formats, x)
  {
    var fs, t := s.formats, Release(s);
    MapShrinks(fs, 0, s.present);
    StartsWhole(s);
    if Has(fs, x) {
      var j :| 0 <= j < |fs| && fs[j].id == x;
      KeptExact(fs, 0, s.present, j);
      ReleaseExact(s, j);
    } else {
      var idx := Kept(fs, 0, s.present);
      forall p | 0 <= p < |t.formats| ensures t.formats[p].id != x { assert t.formats[p] == fs[idx[p]]; }
    }
  }

  lemma ReleaseKeepsInv(s: State)
    requires Inv(s)
    ensures Inv(Release(s))
  {
    var idx, fs := Kept(s.formats, 0, s.present), Release(s).formats;
    KeptAscends(s.formats, 0, s.present);
    assert forall p | 0 <= p < |idx| :: fs[p] == s.formats[idx[p]];
    forall p | 0 <= p < |Release(s).formats| ensures FormatOk(Release(s).formats, p) { ReleaseFormat(s, p); }
    forall x: nat ensures x in Release(s).present <==> x < CF_MAX && Has(Release(s).formats, x) { ReleaseMap(s, x); }
  }

  lemma {:induction false} ChainEnds(fs: seq<Format>, p: nat)
    requires AllOk(fs) && p < |fs| && forall k | 0 <= k < |fs| :: fs[k].data || fs[k].from != 0
    ensures CanReach(fs, fs[p].id)
    decreases p
  {
    ReachStep(fs, p);
    assert FormatOk(fs, p);
    if !fs[p].data {
      var j :| 0 <= j < p && fs[j].id == fs[p].from;
      ChainEnds(fs, j);
    }
  }

  // ---------------------------------------------------------------- runs

  lemma {:induction false} RunKeepsInv(s: State, ops: seq<Op>)
    requires Inv(s)
    ensures Inv(Run(s, ops))
    decreases |ops|
  {
    if ops != [] {
      match ops[0] {
        case DoOpen =>
        case DoSet(id, data, rendering, allocOk) => SetDataKeepsInv(s, id, data, rendering, allocOk);
        case DoClose(fails) => CloseKeepsInv(s, fails);
        case DoEmpty =>
        case DoRelease => ReleaseKeepsInv(s);
      }
      RunKeepsInv(Apply(s, ops[0]), ops[1..]);
    }
  }

  /** In every reachable state format ids are unique, the count and the map agree with the
      list, and the source of a synthesized format is earlier in the list. */
  lemma EveryRun(ops: seq<Op>)
    ensures var s := Run(Initial, ops);
            && Distinct(s.formats) && s.count == |s.formats|
            && (forall x: nat :: x in s.present <==> x < CF_MAX && Has(s.formats, x))
            && (forall k | 0 <= k < |s.formats| && s.formats[k].from != 0 ::
                  exists j :: 0 <= j < k && s.formats[j].id == s.formats[k].from)
  {
    var s := Run(Initial, ops);
    RunKeepsInv(Initial, ops);
    forall k | 0 <= k < |s.formats| && s.formats[k].from != 0
      ensures exists j :: 0 <= j < k && s.formats[j].id == s.formats[k].from
    {
      assert FormatOk(s.formats, k);
    }
  }

  /** After any run and a release, exactly the formats that led to data are left, and each of
      them still does. */
  lemma EveryReleaseGrounds(ops: seq<Op>)
    ensures var s := Run(Initial, ops);
            var t := Release(s);
            && (forall p | 0 <= p < |t.formats| :: CanReach(t.formats, t.formats[p].id))
            && (forall j | 0 <= j < |s.formats| ::
                  Has(t.formats, s.formats[j].id) <==> CanReach(s.formats, s.formats[j].id))
  {
    var s := Run(Initial, ops);
    var t := Release(s);
    RunKeepsInv(Initial, ops);
    ReleaseKeepsInv(s);
    forall p | 0 <= p < |t.formats| ensures t.formats[p].data || t.formats[p].from != 0 { ReleaseFormat(s, p); }
    forall p | 0 <= p < |t.formats| ensures CanReach(t.formats, t.formats[p].id) { ChainEnds(t.formats, p); }
    forall j | 0 <= j < |s.formats| ensures Has(t.formats, s.formats[j].id) <==> CanReach(s.formats, s.formats[j].id) {
      ReleaseExact(s, j);
    }
  }

  // ---------------------------------------------------------------- what each step does

  /** Setting a format makes it the one asked for, in its old place or at the end; no other
      format changes. */
  lemma SetExact(s: State, id: nat, data: bool, rendering: bool, allocOk: bool)
    requires Inv(s)
    ensures var t, f := SetData(s, id, data, rendering, allocOk), Format(id, 0, data, s.seqno);
            if id == 0 || (!allocOk && (data || !Has(s.formats, id))) then t == s
            else
              && t.seqno == s.seqno + (if rendering then 0 else 1) && t.openSeqno == s.openSeqno
              && (!Has(s.formats, id) ==> t.formats == s.formats + [f])
              && (Has(s.formats, id) ==>
                    && |t.formats| == |s.formats|
                    && forall j | 0 <= j < |s.formats| ::
                         t.formats[j] == if s.formats[j].id == id then f else s.formats[j])
  {
    var k := Position(s.formats, id);
    if k < |s.formats| { assert Has(s.formats, id); }
  }

  /** The formats that can be made from each other. */
  function Group(id: nat): set<nat> {
    if id in {CF_TEXT, CF_OEMTEXT, CF_UNICODETEXT} then {CF_TEXT, CF_OEMTEXT, CF_UNICODETEXT}
    else if id in {CF_BITMAP, CF_DIB, CF_DIBV5} then {CF_BITMAP, CF_DIB, CF_DIBV5}
    else if id in {CF_METAFILEPICT, CF_ENHMETAFILE} then {CF_METAFILEPICT, CF_ENHMETAFILE}
    else {}
  }

  /** Each text is best made from the next one in the circle of text, OEM text and Unicode text;
      a DIB of either kind from the bitmap, and the bitmap from the plain DIB. */
  function Preferred(id: nat): nat {
    if id == CF_TEXT then CF_OEMTEXT
    else if id == CF_OEMTEXT then CF_UNICODETEXT
    else if id == CF_UNICODETEXT then CF_TEXT
    else if id == CF_METAFILEPICT then CF_ENHMETAFILE
    else if id == CF_ENHMETAFILE then CF_METAFILEPICT
    else if id == CF_BITMAP then CF_DIB
    else CF_BITMAP
  }

  predicate Source(id: nat, from: nat, was: set<nat>) {
    from in Group(id) && from != id && from in was && (Preferred(id) in was ==> from == Preferred(id))
  }

  /** Closing makes the format: it was missing, one of its group was there, and there is memory. */
  predicate Made(id: nat, was: set<nat>, fails: set<nat>) {
    id !in was && id !in fails && Group(id) * was != {}
  }

  predicate LocaleMade(was: set<nat>, fails: set<nat>) {
    CF_LOCALE !in was && CF_LOCALE !in fails && Group(CF_TEXT) * was != {}
  }

  predicate RowMakes(i: nat, was: set<nat>, fails: set<nat>)
    requires i < |Rows|
  {
    Rows[i].id !in was && Rows[i].id !in fails && (Rows[i].first in was || Rows[i].second in was)
  }

  lemma RowMakesIt(i: nat, was: set<nat>, fails: set<nat>)
    requires i < |Rows| && 0 !in was
    ensures RowMakes(i, was, fails) <==> Made(Rows[i].id, was, fails)
    ensures RowMakes(i, was, fails) ==>
              Source(Rows[i].id, if Rows[i].first in was then Rows[i].first else Rows[i].second, was)
  {
    var r := Rows[i];
    assert r.first in Group(r.id) && r.first != r.id && r.first == Preferred(r.id);
    assert r.second == 0 || (r.second in Group(r.id) && r.second != r.id);
    assert forall x | x in Group(r.id) :: x == r.id || x == r.first || x == r.second;
    if Made(r.id, was, fails) {
      var x :| x in Group(r.id) * was;
      assert x == r.first || x == r.second;
    }
    if RowMakes(i, was, fails) {
      var from := if r.first in was then r.first else r.second;
      assert from in Group(r.id) * was;
    }
  }

  function RowOf(id: nat): (i: nat)
    requires Group(id) != {}
    ensures i < |Rows| && Rows[i].id == id
  {
    if id == CF_TEXT then 0
    else if id == CF_OEMTEXT then 1
    else if id == CF_UNICODETEXT then 2
    else if id == CF_METAFILEPICT then 3
    else if id == CF_ENHMETAFILE then 4
    else if id == CF_BITMAP then 5
    else if id == CF_DIB then 6
    else 7
  }

  /** A format that closing put there. */
  predicate Synthesized(f: Format, was: set<nat>, fails: set<nat>, seqno: nat) {
    !f.data && f.seqno == seqno && Made(f.id, was, fails) && Source(f.id, f.from, was)
  }

  lemma {:induction false} AddRowsAppends(s: State, i: nat, was: set<nat>, fails: set<nat>)
    requires i <= |Rows| && 0 !in was
    ensures var t := AddRows(s, i, was, fails);
            && t.seqno == s.seqno && t.openSeqno == s.openSeqno && s.formats <= t.formats
            && t.count - s.count == |t.formats| - |s.formats|
            && (forall k | |s.formats| <= k < |t.formats| :: Synthesized(t.formats[k], was, fails, s.seqno))
            && (forall j | i <= j < |Rows| && RowMakes(j, was, fails) :: Has(t.formats, Rows[j].id))
    decreases |Rows| - i
  {
    if i < |Rows| {
      var u, t := AddRow(s, Rows[i], was, fails), AddRows(s, i, was, fails);
      RowMakesIt(i, was, fails);
      AddRowsAppends(u, i + 1, was, fails);
      forall k | |s.formats| <= k < |t.formats| ensures Synthesized(t.formats[k], was, fails, s.seqno) {
        if k < |u.formats| { assert t.formats[k] == u.formats[k]; }
      }
      if RowMakes(i, was, fails) {
        assert t.formats[|s.formats|] == u.formats[|s.formats|];
      }
    }
  }

  lemma HasPrefix(a: seq<Format>, b: seq<Format>, x: nat)
    requires a <= b && Has(a, x)
    ensures Has(b, x)
  {
    var k :| 0 <= k < |a| && a[k].id == x;
    assert b[k] == a[k];
  }

  lemma LocaleExact(s: State, fails: set<nat>)
    ensures AddLocale(s, fails) ==
              if LocaleMade(s.present, fails)
              then Add(s, Format(CF_LOCALE, 0, true, s.seqno)).(seqno := s.seqno + 1) else s
  {
    var g := Group(CF_TEXT);
    assert g == {CF_TEXT, CF_OEMTEXT, CF_UNICODETEXT};
    if g * s.present != {} {
      var x :| x in g * s.present;
      assert x == CF_TEXT || x == CF_OEMTEXT || x == CF_UNICODETEXT;
    } else {
      assert forall x | x in g :: x !in g * s.present;
      assert CF_TEXT in g && CF_OEMTEXT in g && CF_UNICODETEXT in g;
    }
  }

  /** An unchanged clipboard closes as it is.  A changed one keeps its formats, in front of the
      locale if a text was there, and of the formats that can be made from one that was there,
      each from its best source. */
  ghost predicate Closed(s: State, t: State, fails: set<nat>) {
    var n, locale := |s.formats|, LocaleMade(s.present, fails);
    var m, seqno := if locale then n + 1 else n, if locale then s.seqno + 1 else s.seqno;
    if s.seqno == s.openSeqno then t == s
    else
      && s.formats <= t.formats && m <= |t.formats|
      && (locale ==> t.formats[n] == Format(CF_LOCALE, 0, true, s.seqno))
      && (forall k | m <= k < |t.formats| :: Synthesized(t.formats[k], s.present, fails, seqno))
      && (forall x: nat {:trigger Made(x, s.present, fails)} | Made(x, s.present, fails) :: Has(t.formats, x))
      && t.seqno == (if |t.formats| == m then seqno else seqno + 1) && t.openSeqno == s.openSeqno
  }

  lemma CloseExact(s: State, fails: set<nat>)
    requires Inv(s)
    ensures Closed(s, Close(s, fails), fails)
  {
    var u := AddLocale(s, fails);
    var t := AddRows(u, 0, s.present, fails);
    assert 0 !in s.present by {
      forall k | 0 <= k < |s.formats| ensures s.formats[k].id != 0 { assert FormatOk(s.formats, k); }
    }
    LocaleExact(s, fails);
    AddRowsAppends(u, 0, s.present, fails);
    forall x: nat | Made(x, s.present, fails) ensures Has(t.formats, x) {
      RowMakesIt(RowOf(x), s.present, fails);
    }
    if u != s { assert t.formats[|s.formats|] == u.formats[|s.formats|]; }
  }

  /** A release keeps the order of the formats that stay and each of them whole, and counts as a
      change if one goes. */
  lemma ReleaseOrder(s: State)
    requires Inv(s)
    ensures var t := Release(s);
            && (exists idx: seq<nat> :: Ascends(idx) && |idx| == |t.formats| &&
                  forall p | 0 <= p < |idx| :: idx[p] < |s.formats| && t.formats[p] == s.formats[idx[p]])
            && t.openSeqno == s.openSeqno
            && t.seqno == s.seqno + (if |t.formats| == |s.formats| then 0 else 1)
  {
    var idx := Kept(s.formats, 0, s.present);
    KeptAscends(s.formats, 0, s.present);
    assert Release(s).formats == Pick(s.formats, idx);
  }

  // ---------------------------------------------------------------- the sequence number tells

  lemma {:induction false} AscendsAtLeast(idx: seq<nat>, p: nat)
    requires Ascends(idx) && p < |idx|
    ensures idx[p] >= p
  {
    if p > 0 { AscendsAtLeast(idx, p - 1); }
  }

  lemma {:induction false} AscendsAtMost(idx: seq<nat>, n: nat, p: nat)
    requires Ascends(idx) && |idx| == n && p < n && forall q | 0 <= q < n :: idx[q] < n
    ensures idx[p] <= p
    decreases n - p
  {
    if p + 1 < n { AscendsAtMost(idx, n, p + 1); }
  }

  lemma {:induction false} AscendsWhole(idx: seq<nat>, n: nat, p: nat)
    requires Ascends(idx) && |idx| == n && p < n && forall q | 0 <= q < n :: idx[q] < n
    ensures idx[p] == p
  {
    AscendsAtLeast(idx, p);
    AscendsAtMost(idx, n, p);
  }

  /** A step that is not part of rendering changes the formats only with the sequence number,
      which never goes down. */
  lemma StepTells(s: State, op: Op)
    requires Inv(s) && !(op.DoSet? && op.rendering)
    ensures Apply(s, op).seqno >= s.seqno
    ensures Apply(s, op).formats != s.formats ==> Apply(s, op).seqno > s.seqno
  {
    match op
    case DoOpen =>
    case DoSet(id, data, rendering, allocOk) =>
    case DoClose(fails) => CloseExact(s, fails);
    case DoEmpty =>
    case DoRelease =>
      var idx, n := Kept(s.formats, 0, s.present), |s.formats|;
      KeptAscends(s.formats, 0, s.present);
      if |idx| == n {
        forall p | 0 <= p < n ensures Release(s).formats[p] == s.formats[p] { AscendsWhole(idx, n, p); }
        assert Release(s).formats == s.formats;
      }
  }

  ghost predicate NoRendering(ops: seq<Op>) {
    forall i | 0 <= i < |ops| && ops[i].DoSet? :: !ops[i].rendering
  }

  /** A client that finds the sequence number it saw before finds the formats it saw before. */
  lemma {:induction false} SeqnoTells(s: State, ops: seq<Op>)
    requires Inv(s) && NoRendering(ops)
    ensures Run(s, ops).seqno >= s.seqno
    ensures Run(s, ops).seqno == s.seqno ==> Run(s, ops).formats == s.formats
    decreases |ops|
  {
    if ops != [] {
      StepTells(s, ops[0]);
      RunKeepsInv(s, ops[..1]);
      assert ops[..1][1..] == [] && Run(s, ops[..1]) == Apply(s, ops[0]);
      SeqnoTells(Apply(s, ops[0]), ops[1..]);
    }
  }

  // ---------------------------------------------------------------- where made formats come from

  predicate FromGroup(f: Format) {
    f.from != 0 ==> f.from in Group(f.id) && f.from != f.id
  }

  ghost predicate Sourced(s: State) {
    forall k | 0 <= k < |s.formats| :: FromGroup(s.formats[k])
  }

  lemma ClosedSourced(s: State, t: State, fails: set<nat>)
    requires Closed(s, t, fails) && Sourced(s)
    ensures Sourced(t)
  {
    if t != s {
      forall k | 0 <= k < |t.formats| ensures FromGroup(t.formats[k]) {
        if k < |s.formats| { assert t.formats[k] == s.formats[k]; }
      }
    }
  }

  lemma ReleaseSourced(s: State)
    requires Inv(s) && Sourced(s)
    ensures Sourced(Release(s))
  {
    var fs, idx := s.formats, Kept(s.formats, 0, s.present);
    assert Release(s).formats == Pick(fs, idx);
    forall p | 0 <= p < |idx| ensures FromGroup(fs[idx[p]]) {}
  }

  lemma SetSourced(s: State, id: nat, data: bool, rendering: bool, allocOk: bool)
    requires Inv(s) && Sourced(s)
    ensures Sourced(SetData(s, id, data, rendering, allocOk))
  {
    var t := SetData(s, id, data, rendering, allocOk);
    SetExact(s, id, data, rendering, allocOk);
    forall k | 0 <= k < |t.formats| ensures FromGroup(t.formats[k]) {
      if k < |s.formats| { assert FromGroup(s.formats[k]); }
    }
  }

  lemma StepSourced(s: State, op: Op)
    requires Inv(s) && Sourced(s)
    ensures Sourced(Apply(s, op))
  {
    match op
    case DoOpen =>
    case DoSet(id, data, rendering, allocOk) => SetSourced(s, id, data, rendering, allocOk);
    case DoClose(fails) =>
      CloseExact(s, fails);
      ClosedSourced(s, Close(s, fails), fails);
    case DoEmpty =>
    case DoRelease => ReleaseSourced(s);
  }

  lemma {:induction false} RunSourced(s: State, ops: seq<Op>)
    requires Inv(s) && Sourced(s)
    ensures Sourced(Run(s, ops))
    decreases |ops|
  {
    if ops != [] {
      StepSourced(s, ops[0]);
      RunKeepsInv(s, ops[..1]);
      assert ops[..1][1..] == [] && Run(s, ops[..1]) == Apply(s, ops[0]);
      RunSourced(Apply(s, ops[0]), ops[1..]);
    }
  }

  /** In every reachable state a made format comes from another of its own group, which is there. */
  lemma EveryRunSourced(ops: seq<Op>, k: nat)
    requires k < |Run(Initial, ops).formats| && Run(Initial, ops).formats[k].from != 0
    ensures var s := Run(Initial, ops);
            var f := s.formats[k];
            f.from in Group(f.id) && f.from != f.id && f.from in s.present && !f.data
  {
    var s := Run(Initial, ops);
    RunKeepsInv(Initial, ops);
    RunSourced(Initial, ops);
    assert FormatOk(s.formats, k) && FromGroup(s.formats[k]);
    assert Has(s.formats, s.formats[k].from);
  }

  // ---------------------------------------------------------------- the code

  lemma {:induction false} KeepsNext(idx: seq<nat>, fs: seq<Format>, k: nat, left: set<nat>)
    requires k < |fs| && (fs[k].data || (fs[k].from != 0 && fs[k].from in left))
    ensures idx + Kept(fs, k, left) == idx + [k] + Kept(fs, k + 1, left)
  {
    var rest := Kept(fs, k + 1, left);
    assert Kept(fs, k, left) == [k] + rest;
    assert idx + ([k] + rest) == idx + [k] + rest;
  }

  /** The loop of release_clipboard: what stays, and the map of it. */
  method Survivors(fs: seq<Format>, present: set<nat>) returns (idx: seq<nat>, left: set<nat>)
    ensures idx == Kept(fs, 0, present) && left == MapAfter(fs, 0, present)
    ensures |idx| <= |fs|
  {
    idx, left := [], present;
    var k := 0;
    while k < |fs|
      invariant 0 <= k <= |fs| && |idx| <= k
      invariant idx + Kept(fs, k, left) == Kept(fs, 0, present)
      invariant MapAfter(fs, k, left) == MapAfter(fs, 0, present)
    {
      if fs[k].data || (fs[k].from != 0 && fs[k].from in left) {
        KeepsNext(idx, fs, k, left);
        idx := idx + [k];
      } else {
        left := left - {fs[k].id};
      }
      k := k + 1;
    }
    assert Kept(fs, k, left) == [];
  }

  class ClipboardObject {
    var formats: seq<Format>
    var count: nat
    var present: set<nat>
    var seqno: nat
    var openSeqno: nat

    ghost function View(): State
      reads this
    {
      State(formats, count, present, seqno, openSeqno)
    }

    constructor ()
      ensures View() == Initial
    {
      formats, count, present, seqno, openSeqno := [], 0, {}, 0, 0;
    }

    /** get_format */
    method GetFormat(id: nat) returns (k: nat)
      ensures k == Position(formats, id)
    {
      k := 0;
      while k < |formats|
        invariant 0 <= k <= |formats|
        invariant Position(formats, id) == k + Position(formats[k..], id)
      {
        if formats[k].id == id { return; }
        assert formats[k..][1..] == formats[k + 1..];
        k := k + 1;
      }
    }

    method AddFormat(f: Format)
      modifies this`formats, this`count, this`present
      ensures View() == Add(old(View()), f)
    {
      formats, count := formats + [f], count + 1;
      if f.id < CF_MAX { present := present + {f.id}; }
    }

    method SetClipboardData(id: nat, data: bool, rendering: bool, allocOk: bool)
      modifies this
      ensures View() == SetData(old(View()), id, data, rendering, allocOk)
    {
      if id == 0 || (data && !allocOk) { return; }
      var k := GetFormat(id);
      if k == |formats| {
        if !allocOk { return; }
        AddFormat(Format(id, 0, data, seqno));
      } else {
        formats := formats[k := Format(id, 0, data, seqno)];
      }
      if !rendering { seqno := seqno + 1; }
    }

    method SynthesizeRow(r: Row, was: set<nat>, fails: set<nat>) returns (made: bool)
      modifies this`formats, this`count, this`present
      ensures View() == AddRow(old(View()), r, was, fails)
      ensures count == old(count) + if made then 1 else 0
    {
      if r.id in was || r.id in fails { return false; }
      var from := 0;
      if r.first in was { from := r.first; } else if r.second in was { from := r.second; } else { return false; }
      AddFormat(Format(r.id, from, false, seqno));
      return true;
    }

    method AddLocaleFormat(fails: set<nat>)
      modifies this`formats, this`count, this`present, this`seqno
      ensures View() == AddLocale(old(View()), fails)
    {
      if CF_LOCALE in present || CF_LOCALE in fails { return; }
      if CF_TEXT in present || CF_OEMTEXT in present || CF_UNICODETEXT in present {
        AddFormat(Format(CF_LOCALE, 0, true, seqno));
        seqno := seqno + 1;
      }
    }

    /** synthesize_formats; the number of formats made. */
    method SynthesizeFormats(fails: set<nat>) returns (total: nat)
      modifies this`formats, this`count, this`present, this`seqno
      ensures View() == AddRows(AddLocale(old(View()), fails), 0, old(present), fails)
      ensures total == count - AddLocale(old(View()), fails).count
    {
      var was := present;
      AddLocaleFormat(fails);
      ghost var s0 := View();
      total := 0;
      for i := 0 to |Rows|
        invariant AddRows(View(), i, was, fails) == AddRows(s0, 0, was, fails)
        invariant count == s0.count + total
      {
        var made := SynthesizeRow(Rows[i], was, fails);
        if made { total := total + 1; }
      }
    }

    method CloseClipboard(fails: set<nat>)
      modifies this
      ensures View() == Close(old(View()), fails)
    {
      if seqno == openSeqno { return; }
      var total := SynthesizeFormats(fails);
      if total > 0 { seqno := seqno + 1; }
    }

    /** release_clipboard */
    method ReleaseClipboard()
      requires Inv(View())
      modifies this
      ensures View() == Release(old(View()))
    {
      var idx, left := Survivors(formats, present);
      if |idx| != |formats| { seqno := seqno + 1; }
      formats, count, present := Pick(formats, idx), count - (|formats| - |idx|), left;
    }
  }
}
