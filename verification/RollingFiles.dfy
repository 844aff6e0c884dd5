// Log files as the pieces written to them, archives as they were when finished, and
// what moving and removing files does to them.
module RollingFiles {

  /** n is the number of bytes; a record carries the event it was made from. */
  datatype Piece = Header(n: nat) | Footer(n: nat) | Separator(n: nat) | Record(id: int, n: nat)

  function SizeOf(ps: seq<Piece>): nat {
    if ps == [] then 0 else SizeOf(ps[..|ps| - 1]) + ps[|ps| - 1].n
  }

  function RecordsOf(ps: seq<Piece>): seq<int> {
    if ps == [] then []
    else
      var last := ps[|ps| - 1];
      RecordsOf(ps[..|ps| - 1]) + if last.Record? then [last.id] else []
  }

  lemma OneMore(ps: seq<Piece>, p: Piece)
    ensures SizeOf(ps + [p]) == SizeOf(ps) + p.n
    ensures RecordsOf(ps + [p]) == RecordsOf(ps) + if p.Record? then [p.id] else []
  {
    assert (ps + [p])[..|ps|] == ps;
  }

  lemma JustOne(p: Piece)
    ensures SizeOf([p]) == p.n && RecordsOf([p]) == if p.Record? then [p.id] else []
  {
    OneMore([], p);
    assert [] + [p] == [p];
  }

  lemma TwoMore(ps: seq<Piece>, p: Piece, q: Piece)
    ensures SizeOf(ps + [p, q]) == SizeOf(ps) + p.n + q.n
    ensures RecordsOf(ps + [p, q])
         == RecordsOf(ps) + (if p.Record? then [p.id] else []) + if q.Record? then [q.id] else []
  {
    OneMore(ps, p);
    OneMore(ps + [p], q);
    assert ps + [p] + [q] == ps + [p, q];
  }

  // ----- Complete JSON files (section 5 of RFC 8259)

  datatype Read = Malformed | Values(ids: seq<int>)

  /** value *( separator value ) */
  function ReadItems(ps: seq<Piece>): Read {
    if ps == [] || !ps[0].Record? then Malformed
    else if |ps| == 1 then Values([ps[0].id])
    else if !ps[1].Separator? then Malformed
    else
      var rest := ReadItems(ps[2..]);
      if rest.Malformed? then Malformed else Values([ps[0].id] + rest.ids)
  }

  /** begin-array [ items ] end-array */
  function ReadArray(ps: seq<Piece>): Read {
    if |ps| < 2 || !ps[0].Header? || !ps[|ps| - 1].Footer? then Malformed
    else
      var items := ps[1..|ps| - 1];
      if items == [] then Values([]) else ReadItems(items)
  }

  lemma {:induction false} ItemsAppend(ps: seq<Piece>, s: nat, id: int, n: nat)
    requires ReadItems(ps).Values?
    ensures ReadItems(ps + [Separator(s), Record(id, n)]) == Values(ReadItems(ps).ids + [id])
  {
    var more := [Separator(s), Record(id, n)];
    if |ps| == 1 {
      assert (ps + more)[2..] == [Record(id, n)];
    } else {
      ItemsAppend(ps[2..], s, id, n);
      assert (ps + more)[2..] == ps[2..] + more;
    }
  }

  /** An array under construction that holds all records of the file. */
  predicate OpenArray(ps: seq<Piece>) {
    && ps != [] && ps[0].Header?
    && (if |ps| == 1 then RecordsOf(ps) == [] else ReadItems(ps[1..]) == Values(RecordsOf(ps)))
  }

  lemma OpenArrayStarts(n: nat)
    ensures OpenArray([Header(n)])
  {
  }

  lemma OpenArrayFirst(h: nat, id: int, n: nat)
    ensures OpenArray([Header(h), Record(id, n)])
  {
    OneMore([Header(h)], Record(id, n));
    assert [Header(h)] + [Record(id, n)] == [Header(h), Record(id, n)];
    assert [Header(h), Record(id, n)][1..] == [Record(id, n)];
  }

  lemma OpenArrayNext(ps: seq<Piece>, s: nat, id: int, n: nat)
    requires OpenArray(ps) && |ps| > 1
    ensures OpenArray(ps + [Separator(s), Record(id, n)])
  {
    ItemsAppend(ps[1..], s, id, n);
    var all := ps + [Separator(s)] + [Record(id, n)];
    assert all == ps + [Separator(s), Record(id, n)];
    assert all[1..] == ps[1..] + [Separator(s), Record(id, n)];
    OneMore(ps, Separator(s));
    OneMore(ps + [Separator(s)], Record(id, n));
  }

  /** The footer makes the array complete. */
  lemma ClosedArrayReads(ps: seq<Piece>, f: nat)
    requires OpenArray(ps)
    ensures ReadArray(ps + [Footer(f)]) == Values(RecordsOf(ps))
  {
    var all := ps + [Footer(f)];
    assert all[1..|all| - 1] == ps[1..];
  }

  // ----- Archives

  /** body is what the file held before its footer; begunEmpty says that it was begun empty;
      kept says that nothing has deleted or overwritten it. */
  datatype Archive = Archive(path: string, body: seq<Piece>, begunEmpty: bool, kept: bool)

  type Files = map<string, seq<Piece>>

  /** The records of all archives, in the order in which they were finished. */
  function Archived(history: seq<Archive>): seq<int> {
    if history == [] then []
    else Archived(history[..|history| - 1]) + RecordsOf(history[|history| - 1].body)
  }

  lemma ArchivedAppend(history: seq<Archive>, a: Archive)
    ensures Archived(history + [a]) == Archived(history) + RecordsOf(a.body)
  {
    assert (history + [a])[..|history|] == history;
  }

  /** Every archive that is kept is found under its path, and no two share a path. */
  ghost predicate Faithful(files: Files, history: seq<Archive>, active: string, footer: seq<Piece>) {
    && (forall i :: 0 <= i < |history| && history[i].kept ==>
          history[i].path != active && history[i].path in files && files[history[i].path] == history[i].body + footer)
    && (forall i, j :: 0 <= i < j < |history| && history[i].kept && history[j].kept ==>
          history[i].path != history[j].path)
  }

  function Removed(files: Files, path: string): Files {
    files - {path}
  }

  /** os.Rename: it replaces the target and does nothing when the source is missing. */
  function Renamed(files: Files, from: string, to: string): Files {
    if from !in files || from == to then files else (files - {from})[to := files[from]]
  }

  function Forget(history: seq<Archive>, path: string): (r: seq<Archive>)
    ensures |r| == |history|
  {
    seq(|history|, i requires 0 <= i < |history| =>
      if history[i].path == path then history[i].(kept := false) else history[i])
  }

  function Relocate(history: seq<Archive>, from: string, to: string): (r: seq<Archive>)
    ensures |r| == |history|
  {
    seq(|history|, i requires 0 <= i < |history| =>
      if history[i].path == from then history[i].(path := to) else history[i])
  }

  function Moved(files: Files, history: seq<Archive>, from: string, to: string): (r: seq<Archive>)
    ensures |r| == |history|
  {
    if from !in files || from == to then history else Relocate(Forget(history, to), from, to)
  }

  /** Same archives, possibly elsewhere or gone. */
  ghost predicate SameBodies(a: seq<Archive>, b: seq<Archive>) {
    && |a| == |b|
    && forall i :: 0 <= i < |a| ==> a[i].body == b[i].body && a[i].begunEmpty == b[i].begunEmpty
  }

  lemma {:induction false} SameBodiesArchived(a: seq<Archive>, b: seq<Archive>)
    requires SameBodies(a, b)
    ensures Archived(a) == Archived(b)
  {
    if a != [] {
      SameBodiesArchived(a[..|a| - 1], b[..|b| - 1]);
    }
  }

  lemma RemoveKeepsFaith(files: Files, history: seq<Archive>, active: string, footer: seq<Piece>, path: string)
    requires Faithful(files, history, active, footer)
    ensures Faithful(Removed(files, path), Forget(history, path), active, footer)
    ensures SameBodies(history, Forget(history, path))
  {
  }

  lemma RenameKeepsFaith(
    files: Files, history: seq<Archive>, active: string, footer: seq<Piece>, from: string, to: string)
    requires Faithful(files, history, active, footer) && from != active && to != active
    ensures Faithful(Renamed(files, from, to), Moved(files, history, from, to), active, footer)
    ensures SameBodies(history, Moved(files, history, from, to))
  {
  }

  /** The active file becomes an archive under a path that no file had. */
  lemma FinishKeepsFaith(
    files: Files, history: seq<Archive>, active: string, footer: seq<Piece>, target: string, body: seq<Piece>,
        begunEmpty: bool)
    requires Faithful(files, history, active, footer) && target !in files
    requires active in files && files[active] == body + footer
    ensures Faithful(
      Renamed(files, active, target), history + [Archive(target, body, begunEmpty, true)], active, footer)
  {
  }

  /** Writing to the active file touches no archive. */
  lemma WriteKeepsFaith(files: Files, history: seq<Archive>, active: string, footer: seq<Piece>, ps: seq<Piece>)
    requires Faithful(files, history, active, footer)
    ensures Faithful(files[active := ps], history, active, footer)
  {
  }

  // ----- Steps and runs

  ghost predicate AllKept(history: seq<Archive>) {
    forall i :: 0 <= i < |history| ==> history[i].kept
  }

  ghost predicate AllBegunEmpty(history: seq<Archive>) {
    forall i :: 0 <= i < |history| ==> history[i].begunEmpty
  }

  /** What a reader finds: the records of the archives that are left, in the order in
      which they were finished. */
  ghost function DiskRecords(files: Files, history: seq<Archive>): seq<int> {
    if history == [] then []
    else
      var last := history[|history| - 1];
      DiskRecords(files, history[..|history| - 1])
      + if last.kept && last.path in files then RecordsOf(files[last.path]) else []
  }

  /** With every archive kept, the disk holds the records of all of them. */
  lemma {:induction false} DiskHoldsArchived(
    files: Files, history: seq<Archive>, active: string, footer: seq<Piece>)
    requires Faithful(files, history, active, footer) && AllKept(history)
    requires forall ps :: RecordsOf(ps + footer) == RecordsOf(ps)
    ensures DiskRecords(files, history) == Archived(history)
  {
    if history != [] {
      var init, last := history[..|history| - 1], history[|history| - 1];
      assert forall i :: 0 <= i < |init| ==> init[i] == history[i];
      DiskHoldsArchived(files, init, active, footer);
      assert RecordsOf(last.body + footer) == RecordsOf(last.body);
    }
  }

  /** Earlier archives stay as they are, new ones are kept under paths that no file had,
      and no file but the active one changes. */
  ghost predicate Preserves(active: string, f0: Files, h0: seq<Archive>, f1: Files, h1: seq<Archive>) {
    && h0 <= h1
    && (forall i :: |h0| <= i < |h1| ==> h1[i].kept && h1[i].path != active && h1[i].path !in f0)
    && (forall p :: p in f0 && p != active ==> p in f1 && f1[p] == f0[p])
  }

  lemma PreservesTwice(
    active: string, f0: Files, h0: seq<Archive>, f1: Files, h1: seq<Archive>, f2: Files, h2: seq<Archive>)
    requires Preserves(active, f0, h0, f1, h1) && Preserves(active, f1, h1, f2, h2)
    ensures Preserves(active, f0, h0, f2, h2)
  {
    forall i | |h0| <= i < |h2| ensures h2[i].kept && h2[i].path != active && h2[i].path !in f0 {
      assert i < |h1| ==> h2[i] == h1[i];
    }
  }

  lemma PreservedStayKept(active: string, f0: Files, h0: seq<Archive>, f1: Files, h1: seq<Archive>)
    requires Preserves(active, f0, h0, f1, h1) && AllKept(h0)
    ensures AllKept(h1)
  {
    forall i | 0 <= i < |h1| ensures h1[i].kept {
      assert i < |h0| ==> h1[i] == h0[i];
    }
  }

  /** b0 and b1 say whether the active file was begun empty before and after. The file that
      was active becomes the next archive; every file opened since was begun empty. */
  ghost predicate BegunAfter(h0: seq<Archive>, b0: bool, h1: seq<Archive>, b1: bool) {
    && |h0| <= |h1|
    && (forall i :: 0 <= i < |h0| ==> h1[i].begunEmpty == h0[i].begunEmpty && h1[i].body == h0[i].body)
    && (if |h1| == |h0| then b1 == b0 else b1 && h1[|h0|].begunEmpty == b0)
    && (forall i :: |h0| < i < |h1| ==> h1[i].begunEmpty)
  }

  lemma BodiesStay(h0: seq<Archive>, b0: bool, h1: seq<Archive>, b1: bool, i: nat)
    requires BegunAfter(h0, b0, h1, b1) && i < |h0|
    ensures |h0| <= |h1| && h1[i].body == h0[i].body
  {
  }

  lemma BegunTwice(h0: seq<Archive>, b0: bool, h1: seq<Archive>, b1: bool, h2: seq<Archive>, b2: bool)
    requires BegunAfter(h0, b0, h1, b1) && BegunAfter(h1, b1, h2, b2)
    ensures BegunAfter(h0, b0, h2, b2)
  {
  }

  lemma AllBegunAfter(h0: seq<Archive>, h1: seq<Archive>, b1: bool)
    requires BegunAfter(h0, true, h1, b1) && AllBegunEmpty(h0)
    ensures AllBegunEmpty(h1) && b1
  {
  }
}
