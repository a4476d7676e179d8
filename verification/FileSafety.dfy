/** What holds of order files over every run of uploads, removals, purges and copy purges, with
    storage calls and commits free to fail: src/suliko/domain/order_files.py.

    Each call works on what is committed when it starts; its storage calls take effect at once,
    its rows when its transaction commits, after any number of steps of others, or never. */
module FileSafety {
  import opened Options
  import opened FileStore

  /** `pending` are the transactions that have not ended; `lost` the keys of uploads that left an
      object no row records. */
  datatype World = World(objects: Objects, rows: set<Row>, pending: map<nat, Change>, nextId: nat, lost: set<Key>)

  datatype Step =
    | UploadFile(t: nat, b: Backend, u: Upload, sibling: Option<nat>)
    | RemoveFile(t: nat, id: nat, at: int)
    | RemoveDocument(t: nat, doc: nat, at: int)
    | PurgeRemoved(t: nat, b: Backend, now: int, cutoff: int, f: Faults)
    | PurgeCopies(t: nat, b: Backend, closed: set<nat>, olderThan: int, f: Faults)
    | Commit(t: nat)
    | Rollback(t: nat)

  ghost function Added(w: World): set<Row> {
    set t | t in w.pending && w.pending[t].AddRow? :: w.pending[t].row
  }

  /** The rows there are and those about to be. */
  ghost function Records(w: World): set<Row> {
    w.rows + Added(w)
  }

  ghost predicate SiblingFound(rows: set<Row>, order: nat, sibling: Option<nat>) {
    && (sibling.None? ==> forall r | r in rows :: !IsSibling(r, order))
    && (sibling.Some? ==> exists r :: r in rows && IsSibling(r, order) && r.key.order == sibling.value)
  }

  lemma SiblingIsFound(rows: seq<Row>, order: nat)
    ensures SiblingFound(Set(rows), order, Sibling(rows, order))
  {
    var newest := NewestSibling(rows, order);
    if newest.Some? { assert newest.value in Set(rows); }
  }

  function MarkedSet(rows: set<Row>, now: int): set<Row> {
    set r | r in rows :: Marked(r, now)
  }

  function Due(rows: set<Row>, now: int, cutoff: int): set<Row> {
    set r | r in MarkedSet(rows, now) && DueForPurge(r, cutoff)
  }

  function DueCopies(rows: set<Row>, closed: set<nat>, olderThan: int): set<Row> {
    set r | r in rows && CopyIsDue(r, closed, olderThan)
  }

  /** A transaction is new; public ids, vault files and row ids are never given twice; a purge's
      cutoff is not in the future. */
  ghost predicate Enabled(w: World, step: Step) {
    match step
    case UploadFile(t, _, u, sibling) =>
      && t !in w.pending && u.id >= w.nextId && SiblingFound(w.rows, u.doc.order, sibling)
      && forall r | r in Records(w) :: r.public != u.public && (r.key.InVault? ==> r.key.file != u.file)
    case RemoveFile(t, _, _) => t !in w.pending
    case RemoveDocument(t, _, _) => t !in w.pending
    case PurgeRemoved(t, _, now, cutoff, _) => t !in w.pending && cutoff <= now
    case PurgeCopies(t, _, _, _, _) => t !in w.pending
    case Commit(t) => t in w.pending
    case Rollback(t) => t in w.pending
  }

  ghost function After(w: World, step: Step): World
    requires Enabled(w, step)
  {
    match step
    case UploadFile(t, b, u, sibling) =>
      var o := Uploaded(w.objects, b, u, sibling);
      if Succeeds(u, b) then
        w.(objects := o, pending := w.pending[t := AddRow(RowOf(u, b, sibling))], nextId := u.id + 1)
      else w.(objects := o, lost := w.lost + {Plain(u.public), VaultKey(u, sibling)})
    case RemoveFile(t, id, at) => w.(pending := w.pending[t := Hide(id, at)])
    case RemoveDocument(t, doc, at) => w.(pending := w.pending[t := DropDocument(doc, at)])
    case PurgeRemoved(t, b, now, cutoff, f) =>
      var due := Due(w.rows, now, cutoff);
      w.(objects := Erased(w.objects, b, due, f), pending := w.pending[t := EraseRows(Purged(b, due, f), now)])
    case PurgeCopies(t, b, closed, olderThan, f) =>
      var due := DueCopies(w.rows, closed, olderThan);
      w.(objects := w.objects.(blobs := w.objects.blobs - CopiesDropped(b, due, f)),
         pending := w.pending[t := ClearCopies(Cleared(b, due, f))])
    case Commit(t) =>
      w.(rows := Applied(w.rows, w.pending[t]), pending := w.pending - {t})
    case Rollback(t) =>
      w.(pending := w.pending - {t},
         lost := w.lost + match w.pending[t]
                          case AddRow(row) => {row.key, Plain(row.public)}
                          case _ => {})
  }

  ghost predicate Reaches(w: World, steps: seq<Step>, end: World)
    decreases |steps|
  {
    if steps == [] then end == w
    else Enabled(w, steps[0]) && Reaches(After(w, steps[0]), steps[1..], end)
  }

  // ---- Committed files survive ----

  /** The row's own object, with the recorded bytes. */
  predicate HasMain(o: Objects, r: Row) {
    if r.key.Plain? then r.key in o.blobs && o.blobs[r.key] == r.content
    else r.key in o.vault && o.vault[r.key] == r.content
  }

  predicate RecordOk(o: Objects, r: Row) {
    && (r.removed.None? ==> HasMain(o, r))
    && (r.key.Plain? ==> r.key.public == r.public && r.working.None?)
    && (r.working.Some? ==> r.working.value == Plain(r.public))
    && (r.working.Some? && r.working.value in o.blobs ==> o.blobs[r.working.value] == r.content)
  }

  ghost predicate RowsDiffer(r: Row, q: Row) {
    r.id != q.id && r.public != q.public && r.key != q.key
  }

  /** What a pending change was based on still holds. */
  ghost predicate ChangeOk(w: World, c: Change) {
    match c
    case AddRow(row) => row.removed.None?
    case EraseRows(ids, _) => forall r | r in Records(w) && r.id in ids :: r.removed.Some?
    case ClearCopies(ids) => forall r | r in Added(w) :: r.id !in ids
    case _ => true
  }

  ghost predicate Ids(c: Change, below: nat) {
    match c
    case EraseRows(ids, _) => forall i | i in ids :: i < below
    case ClearCopies(ids) => forall i | i in ids :: i < below
    case _ => true
  }

  ghost predicate Safe(w: World) {
    && (forall k | k in w.objects.blobs :: k.Plain?)
    && (forall r | r in Records(w) :: RecordOk(w.objects, r) && r.id < w.nextId)
    && (forall r, q | r in Records(w) && q in Records(w) && r != q :: RowsDiffer(r, q))
    && (forall t | t in w.pending :: ChangeOk(w, w.pending[t]) && Ids(w.pending[t], w.nextId))
    && (forall t | t in w.pending && w.pending[t].AddRow? :: w.pending[t].row !in w.rows)
    && (forall t, u | t in w.pending && u in w.pending && t != u && w.pending[t].AddRow? :: w.pending[t] != w.pending[u])
  }

  /** An upload adds one record if it succeeds, and none otherwise. */
  lemma UploadRecords(w: World, t: nat, b: Backend, u: Upload, sibling: Option<nat>)
    requires Enabled(w, UploadFile(t, b, u, sibling))
    ensures Records(After(w, UploadFile(t, b, u, sibling)))
            == if Succeeds(u, b) then Records(w) + {RowOf(u, b, sibling)} else Records(w)
    ensures Added(After(w, UploadFile(t, b, u, sibling)))
            == if Succeeds(u, b) then Added(w) + {RowOf(u, b, sibling)} else Added(w)
  {
    var end := After(w, UploadFile(t, b, u, sibling));
    if Succeeds(u, b) { assert end.pending[t] == AddRow(RowOf(u, b, sibling)); }
    forall r | r in Added(w) ensures r in Added(end) {
      var q :| q in w.pending && w.pending[q].AddRow? && w.pending[q].row == r;
      assert q in end.pending && end.pending[q] == w.pending[q];
    }
  }

  /** Its storage calls touch no other record's objects, and store its own. */
  lemma UploadKeeps(o: Objects, b: Backend, u: Upload, sibling: Option<nat>, r: Row)
    requires RecordOk(o, r) && r.public != u.public && (r.key.InVault? ==> r.key.file != u.file)
    ensures RecordOk(Uploaded(o, b, u, sibling), r)
  {
  }

  lemma UploadStores(o: Objects, b: Backend, u: Upload, sibling: Option<nat>)
    requires Succeeds(u, b)
    ensures RecordOk(Uploaded(o, b, u, sibling), RowOf(u, b, sibling))
  {
  }

  lemma UploadSafe(w: World, t: nat, b: Backend, u: Upload, sibling: Option<nat>)
    requires Safe(w) && Enabled(w, UploadFile(t, b, u, sibling))
    ensures Safe(After(w, UploadFile(t, b, u, sibling)))
  {
    var end, row := After(w, UploadFile(t, b, u, sibling)), RowOf(u, b, sibling);
    UploadRecords(w, t, b, u, sibling);
    forall r | r in Records(w) ensures RecordOk(end.objects, r) { UploadKeeps(w.objects, b, u, sibling, r); }
    if Succeeds(u, b) {
      UploadStores(w.objects, b, u, sibling);
      assert row !in Records(w);
    }
    assert forall k | k in end.objects.blobs :: k.Plain?;
    hide Uploaded, RecordOk, Records, Added;
    forall q | q in end.pending ensures ChangeOk(end, end.pending[q]) && Ids(end.pending[q], end.nextId) {
      if q in w.pending && (q != t || !Succeeds(u, b)) {
        assert end.pending[q] == w.pending[q];
        assert ChangeOk(w, w.pending[q]) && Ids(w.pending[q], w.nextId);
      }
    }
  }

  /** Starting anything but an upload adds no record. */
  lemma StartRecords(w: World, t: nat, o: Objects, c: Change)
    requires t !in w.pending && !c.AddRow?
    ensures Records(w.(objects := o, pending := w.pending[t := c])) == Records(w)
    ensures Added(w.(objects := o, pending := w.pending[t := c])) == Added(w)
  {
    var end := w.(objects := o, pending := w.pending[t := c]);
    forall r | r in Added(w) ensures r in Added(end) {
      var q :| q in w.pending && w.pending[q].AddRow? && w.pending[q].row == r;
      assert q in end.pending && end.pending[q] == w.pending[q];
    }
  }

  lemma StartSafe(w: World, t: nat, o: Objects, c: Change)
    requires Safe(w) && t !in w.pending && !c.AddRow? && ChangeOk(w, c) && Ids(c, w.nextId)
    requires forall r | r in Records(w) :: RecordOk(o, r)
    requires o.blobs.Keys <= w.objects.blobs.Keys
    ensures Safe(w.(objects := o, pending := w.pending[t := c]))
  {
    var end := w.(objects := o, pending := w.pending[t := c]);
    StartRecords(w, t, o, c);
    forall q | q in end.pending ensures ChangeOk(end, end.pending[q]) && Ids(end.pending[q], end.nextId) {
      if q != t { assert ChangeOk(w, w.pending[q]) && Ids(w.pending[q], w.nextId); }
    }
  }

  /** The rows due are removed ones, and as they were: marking a row now does not make it due. */
  lemma DueAreRemoved(w: World, now: int, cutoff: int)
    requires cutoff <= now
    ensures forall r | r in Due(w.rows, now, cutoff) :: r in w.rows && r.removed.Some?
  {
  }

  /** Deleting the objects of removed rows touches no other's. */
  lemma EraseKeeps(w: World, b: Backend, due: set<Row>, f: Faults, r: Row)
    requires Safe(w) && r in Records(w) && forall q | q in due :: q in w.rows && q.removed.Some?
    ensures RecordOk(Erased(w.objects, b, due, f), r)
  {
    assert RecordOk(w.objects, r);
    if r !in due {
      forall q | q in due ensures r.key != q.key && r.public != q.public
        ensures q.working.Some? ==> q.working.value == Plain(q.public)
        ensures q.key.Plain? ==> q.key.public == q.public
      {
        assert q in Records(w) && r != q;
        assert RowsDiffer(r, q) && RecordOk(w.objects, q);
      }
      assert HasMain(w.objects, r) ==> HasMain(Erased(w.objects, b, due, f), r);
    }
  }

  lemma PurgeSafe(w: World, t: nat, b: Backend, now: int, cutoff: int, f: Faults)
    requires Safe(w) && Enabled(w, PurgeRemoved(t, b, now, cutoff, f))
    ensures Safe(After(w, PurgeRemoved(t, b, now, cutoff, f)))
  {
    var due := Due(w.rows, now, cutoff);
    DueAreRemoved(w, now, cutoff);
    forall r | r in Records(w) ensures RecordOk(Erased(w.objects, b, due, f), r) { EraseKeeps(w, b, due, f, r); }
    var c := EraseRows(Purged(b, due, f), now);
    forall r | r in Records(w) && r.id in Purged(b, due, f) ensures r.removed.Some? {
      var q :| q in due && q.id == r.id;
      assert q in Records(w);
      assert r != q ==> RowsDiffer(r, q);
    }
    forall i | i in Purged(b, due, f) ensures i < w.nextId {
      var q :| q in due && q.id == i;
      assert q in Records(w);
    }
    StartSafe(w, t, Erased(w.objects, b, due, f), c);
  }

  lemma CopiesSafe(w: World, t: nat, b: Backend, closed: set<nat>, olderThan: int, f: Faults)
    requires Safe(w) && Enabled(w, PurgeCopies(t, b, closed, olderThan, f))
    ensures Safe(After(w, PurgeCopies(t, b, closed, olderThan, f)))
  {
    var due := DueCopies(w.rows, closed, olderThan);
    var o := w.objects.(blobs := w.objects.blobs - CopiesDropped(b, due, f));
    forall r | r in Records(w) ensures RecordOk(o, r) {
      assert RecordOk(w.objects, r);
      forall q | q in due ensures q.working.value == Plain(q.public) && q.key.InVault? {
        assert q in Records(w);
        assert RecordOk(w.objects, q);
      }
      if r.key.Plain? && r.key in CopiesDropped(b, due, f) {
        var q :| q in due && q.working.value == r.key;
        assert q in Records(w) && q != r;
        assert RowsDiffer(r, q);
      }
    }
    forall i | i in Cleared(b, due, f) ensures i < w.nextId {
      var q :| q in due && q.id == i;
      assert q in Records(w);
    }
    forall r | r in Added(w) ensures r.id !in Cleared(b, due, f) {
      var p :| p in w.pending && w.pending[p].AddRow? && w.pending[p].row == r;
      forall q | q in due ensures q.id != r.id { assert q in Records(w) && r in Records(w) && q != r; }
    }
    StartSafe(w, t, o, ClearCopies(Cleared(b, due, f)));
  }

  /** A change keeps what identifies a row. */
  lemma ChangedKeeps(o: Objects, r: Row, c: Change)
    requires RecordOk(o, r)
    ensures var q := Changed(r, c);
            && RecordOk(o, q) && q.id == r.id && q.public == r.public && q.key == r.key && q.content == r.content
            && (q.removed.None? ==> r.removed.None?) && (q.working == r.working || q.working.None?)
            && (q.doc == r.doc || q.doc.None?)
  {
  }

  lemma CommitAddSafe(w: World, t: nat)
    requires Safe(w) && t in w.pending && w.pending[t].AddRow?
    ensures Safe(After(w, Commit(t))) && Records(After(w, Commit(t))) == Records(w)
  {
    var end, row := After(w, Commit(t)), w.pending[t].row;
    assert Records(end) == Records(w) by {
      forall r | r in Added(w) ensures r in Records(end) {
        var q :| q in w.pending && w.pending[q].AddRow? && w.pending[q].row == r;
        if q != t { assert q in end.pending && end.pending[q] == w.pending[q]; }
      }
      assert row in Added(w);
    }
    forall q | q in end.pending ensures ChangeOk(end, end.pending[q]) && Ids(end.pending[q], end.nextId) {
      assert ChangeOk(w, w.pending[q]) && Ids(w.pending[q], w.nextId);
    }
  }

  /** After a change commits, each record is one that was, changed or not. */
  lemma CommitOrigin(w: World, t: nat, r: Row) returns (q: Row)
    requires Safe(w) && t in w.pending && !w.pending[t].AddRow? && r in Records(After(w, Commit(t)))
    ensures q in Records(w) && (r == q || r == Changed(q, w.pending[t]))
    ensures r in After(w, Commit(t)).rows ==> q in w.rows && r == Changed(q, w.pending[t])
    ensures r in Added(After(w, Commit(t))) && r !in After(w, Commit(t)).rows ==> q in Added(w) && r == q
  {
    var end := After(w, Commit(t));
    if r in end.rows {
      q :| q in w.rows && r == Changed(q, w.pending[t]);
    } else {
      q := r;
    }
  }

  lemma CommitChangeSafe(w: World, t: nat)
    requires Safe(w) && t in w.pending && !w.pending[t].AddRow?
    ensures Safe(After(w, Commit(t)))
  {
    var end, c := After(w, Commit(t)), w.pending[t];
    forall r | r in Records(end) ensures RecordOk(end.objects, r) && r.id < end.nextId {
      var q := CommitOrigin(w, t, r);
      assert RecordOk(w.objects, q);
      ChangedKeeps(w.objects, q, c);
    }
    forall r, s | r in Records(end) && s in Records(end) && r != s ensures RowsDiffer(r, s) {
      CommitDiffers(w, t, r, s);
    }
    forall p | p in end.pending ensures ChangeOk(end, end.pending[p]) && Ids(end.pending[p], end.nextId) {
      assert ChangeOk(w, w.pending[p]) && Ids(w.pending[p], w.nextId);
      if w.pending[p].EraseRows? {
        forall r | r in Records(end) && r.id in w.pending[p].ids ensures r.removed.Some? {
          var q := CommitOrigin(w, t, r);
          assert RecordOk(w.objects, q);
          ChangedKeeps(w.objects, q, c);
          assert q.removed.Some?;
        }
      }
    }
    forall p | p in end.pending && end.pending[p].AddRow? ensures end.pending[p].row !in end.rows {
      var row := w.pending[p].row;
      assert row in Added(w);
      forall q | q in w.rows ensures Changed(q, c) != row {
        assert RecordOk(w.objects, q) && RowsDiffer(row, q);
        ChangedKeeps(w.objects, q, c);
      }
    }
  }

  lemma CommitDiffers(w: World, t: nat, r: Row, s: Row)
    requires Safe(w) && t in w.pending && !w.pending[t].AddRow?
    requires r in Records(After(w, Commit(t))) && s in Records(After(w, Commit(t))) && r != s
    ensures RowsDiffer(r, s)
  {
    var q := CommitOrigin(w, t, r);
    var p := CommitOrigin(w, t, s);
    assert RecordOk(w.objects, q) && RecordOk(w.objects, p);
    ChangedKeeps(w.objects, q, w.pending[t]);
    ChangedKeeps(w.objects, p, w.pending[t]);
    if q == p {
      NotBoth(w, t, r, s, q);
    } else {
      assert RowsDiffer(q, p);
    }
  }

  lemma NotBoth(w: World, t: nat, r: Row, s: Row, q: Row)
    requires Safe(w) && q in Records(w) && t in w.pending
    requires (q in w.rows && r == Changed(q, w.pending[t])) || (q in Added(w) && r == q)
    requires (q in w.rows && s == Changed(q, w.pending[t])) || (q in Added(w) && s == q)
    ensures r == s
  {
    if q in Added(w) {
      var p :| p in w.pending && w.pending[p].AddRow? && w.pending[p].row == q;
      assert q !in w.rows;
    }
  }

  lemma RollbackSafe(w: World, t: nat)
    requires Safe(w) && t in w.pending
    ensures Safe(After(w, Rollback(t))) && Records(After(w, Rollback(t))) <= Records(w)
  {
    var end := After(w, Rollback(t));
    assert Records(end) <= Records(w);
    forall p | p in end.pending ensures ChangeOk(end, end.pending[p]) && Ids(end.pending[p], end.nextId) {
      assert ChangeOk(w, w.pending[p]) && Ids(w.pending[p], w.nextId);
    }
  }

  lemma StepSafe(w: World, step: Step)
    requires Safe(w) && Enabled(w, step)
    ensures Safe(After(w, step))
  {
    match step {
      case UploadFile(t, b, u, sibling) => UploadSafe(w, t, b, u, sibling);
      case RemoveFile(t, id, at) => StartSafe(w, t, w.objects, Hide(id, at));
      case RemoveDocument(t, doc, at) => StartSafe(w, t, w.objects, DropDocument(doc, at));
      case PurgeRemoved(t, b, now, cutoff, f) => PurgeSafe(w, t, b, now, cutoff, f);
      case PurgeCopies(t, b, closed, olderThan, f) => CopiesSafe(w, t, b, closed, olderThan, f);
      case Commit(t) => if w.pending[t].AddRow? { CommitAddSafe(w, t); } else { CommitChangeSafe(w, t); }
      case Rollback(t) => RollbackSafe(w, t);
    }
  }

  /** Over every run, whatever fails: the object of every committed row that was not removed is
      there, with the bytes that were uploaded; and a download of it answers those bytes or an
      error, never other bytes. */
  lemma {:induction false} CommittedFilesSurvive(w: World, steps: seq<Step>, end: World)
    requires Safe(w) && Reaches(w, steps, end)
    ensures Safe(end)
    ensures forall r | r in end.rows && r.removed.None? :: HasMain(end.objects, r)
    ensures forall r, b, answers | r in end.rows && r.removed.None? && Downloaded(end.objects, b, r, answers).Served? ::
              Downloaded(end.objects, b, r, answers).content == r.content
    decreases |steps|
  {
    if steps == [] {
      forall r | r in end.rows && r.removed.None?
        ensures HasMain(end.objects, r)
        ensures forall b, answers | Downloaded(end.objects, b, r, answers).Served? ::
                  Downloaded(end.objects, b, r, answers).content == r.content
      {
        assert r in Records(end);
        assert RecordOk(end.objects, r);
      }
    } else {
      hide *;
      StepSafe(w, steps[0]);
      ReachesRest(w, steps, end);
      CommittedFilesSurvive(After(w, steps[0]), steps[1..], end);
    }
  }

  lemma {:induction false} ReachesRest(w: World, steps: seq<Step>, end: World)
    requires steps != [] && Reaches(w, steps, end)
    ensures Enabled(w, steps[0]) && Reaches(After(w, steps[0]), steps[1..], end)
  {
  }

  /** Where storage answers, a live file in ordinary storage is always served, and one in the
      vault exactly while its working copy is there. */
  lemma ServedExactly(w: World, b: Backend, r: Row)
    requires Safe(w) && r in w.rows && r.removed.None? && b != Vault(false) && (r.key.InVault? ==> b.Vault?)
    ensures Downloaded(w.objects, b, r, true) == Served(r.content)
            <==> r.key.Plain? || (r.working.Some? && r.working.value in w.objects.blobs)
    ensures Downloaded(w.objects, b, r, true) != Failed
  {
    assert r in Records(w);
    assert RecordOk(w.objects, r);
  }
}
