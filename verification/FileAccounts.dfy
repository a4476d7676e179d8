/** Two more things that hold of order files over whole runs: no bytes are left behind by a
    purge, and an order's files share one order of the vault; each with what breaks it. */
module FileAccounts {
  import opened Options
  import opened FileStore
  import opened FileSafety

  // ---- No bytes are left behind ----

  ghost predicate KeyOf(r: Row, key: Key) {
    r.key == key || r.working == Some(key)
  }

  ghost predicate Known(w: World, key: Key) {
    key in w.lost || exists r :: r in Records(w) && KeyOf(r, key)
  }

  predicate NoCopy(o: Objects, r: Row) {
    r.working.Some? ==> r.working.value !in o.blobs
  }

  /** Nothing of the row is in storage any more. */
  predicate Gone(o: Objects, r: Row) {
    NoCopy(o, r) && r.key !in o.blobs && r.key !in o.vault
  }

  ghost predicate Done(w: World, c: Change) {
    match c
    case EraseRows(ids, _) => forall r | r in w.rows && r.id in ids :: Gone(w.objects, r)
    case ClearCopies(ids) => forall r | r in w.rows && r.id in ids :: NoCopy(w.objects, r)
    case _ => true
  }

  /** Every object is some row's, or was left by an upload that failed. */
  ghost predicate AllKnown(w: World) {
    && (forall k | k in w.objects.blobs :: Known(w, k))
    && (forall k | k in w.objects.vault :: k.InVault? && Known(w, k))
  }

  /** And a row about to be deleted has none. */
  ghost predicate Accounted(w: World) {
    AllKnown(w) && forall t | t in w.pending :: Done(w, w.pending[t])
  }

  /** A pending change that was done stays so. */
  ghost predicate StaysDone(w: World, end: World) {
    forall p | p in end.pending && p in w.pending && end.pending[p] == w.pending[p] && Done(w, w.pending[p]) :: Done(end, end.pending[p])
  }

  /** A purge of vault files reaches the vault. */
  ghost predicate Reaching(w: World, step: Step) {
    step.PurgeRemoved? ==> step.b.Vault? || forall r | r in Due(w.rows, step.now, step.cutoff) :: r.key.Plain?
  }

  ghost predicate ReachingRun(w: World, steps: seq<Step>)
    decreases |steps|
  {
    steps == [] || (Enabled(w, steps[0]) && Reaching(w, steps[0]) && ReachingRun(After(w, steps[0]), steps[1..]))
  }

  /** Deleting without a fault, a purge leaves nothing of a row exactly when the row is not in
      the vault or the backend is; ordinary storage answers that it has no such key, and the row
      goes while its bytes, and its working copy, stay. */
  lemma PurgeLeavesNothing(o: Objects, b: Backend, due: set<Row>, f: Faults, r: Row)
    requires r in due && MainDone(b, r, f) && RecordOk(o, r)
    requires (forall k | k in o.blobs :: k.Plain?) && (forall k | k in o.vault :: k.InVault?)
    requires r.key.InVault? ==> r.key in o.vault
    ensures Gone(Erased(o, b, due, f), r) <==> r.key.Plain? || b.Vault?
  {
    if r.key.Plain? || b.Vault? {
      if r.working.Some? { assert WorkingDropped(b, r, f); }
      assert MainDropped(b, r, f);
    }
  }

  lemma UploadKnown(w: World, t: nat, b: Backend, u: Upload, sibling: Option<nat>)
    requires Safe(w) && AllKnown(w) && Enabled(w, UploadFile(t, b, u, sibling))
    ensures AllKnown(After(w, UploadFile(t, b, u, sibling))) && StaysDone(w, After(w, UploadFile(t, b, u, sibling)))
  {
    var end, row := After(w, UploadFile(t, b, u, sibling)), RowOf(u, b, sibling);
    UploadRecords(w, t, b, u, sibling);
    forall k | k in end.objects.blobs || k in end.objects.vault ensures Known(end, k) {
      if k in w.objects.blobs || k in w.objects.vault {
        assert Known(w, k);
        if k !in w.lost {
          var r :| r in Records(w) && KeyOf(r, k);
          assert r in Records(end);
        }
      } else if Succeeds(u, b) {
        assert row in Records(end) && KeyOf(row, k);
      }
    }
    forall p | p in end.pending && p in w.pending && end.pending[p] == w.pending[p] && Done(w, w.pending[p])
      ensures Done(end, end.pending[p])
    {
      UploadKeepsDone(w, b, u, sibling, w.pending[p], end);
    }
  }

  lemma UploadKeepsDone(w: World, b: Backend, u: Upload, sibling: Option<nat>, c: Change, end: World)
    requires Safe(w) && Done(w, c) && end.objects == Uploaded(w.objects, b, u, sibling) && end.rows == w.rows
    requires forall r | r in Records(w) :: r.public != u.public && (r.key.InVault? ==> r.key.file != u.file)
    ensures Done(end, c)
  {
    forall r | r in w.rows
      ensures NoCopy(w.objects, r) ==> NoCopy(end.objects, r)
      ensures Gone(w.objects, r) ==> Gone(end.objects, r)
    {
      assert r in Records(w);
      assert RecordOk(w.objects, r);
    }
  }

  /** Objects only go away, no record does. */
  lemma StartKnown(w: World, t: nat, o: Objects, c: Change)
    requires Safe(w) && AllKnown(w) && t !in w.pending && !c.AddRow?
    requires o.blobs.Keys <= w.objects.blobs.Keys && o.vault.Keys <= w.objects.vault.Keys
    ensures var end := w.(objects := o, pending := w.pending[t := c]); AllKnown(end) && StaysDone(w, end)
  {
    var end := w.(objects := o, pending := w.pending[t := c]);
    StartRecords(w, t, o, c);
    forall k | k in o.blobs || k in o.vault ensures Known(end, k) {
      assert Known(w, k);
    }
  }

  lemma PurgeDone(w: World, t: nat, b: Backend, now: int, cutoff: int, f: Faults)
    requires Safe(w) && AllKnown(w) && Enabled(w, PurgeRemoved(t, b, now, cutoff, f)) && Reaching(w, PurgeRemoved(t, b, now, cutoff, f))
    ensures var end := After(w, PurgeRemoved(t, b, now, cutoff, f)); Done(end, end.pending[t])
  {
    var due := Due(w.rows, now, cutoff);
    var o := Erased(w.objects, b, due, f);
    DueAreRemoved(w, now, cutoff);
    forall r | r in w.rows && r.id in Purged(b, due, f) ensures Gone(o, r) {
      var q :| q in due && MainDone(b, q, f) && q.id == r.id;
      assert r in Records(w) && q in Records(w);
      assert r != q ==> RowsDiffer(r, q);
      assert RecordOk(w.objects, r);
      ErasedIsGone(w.objects, b, due, f, r);
    }
  }

  lemma ErasedIsGone(o: Objects, b: Backend, due: set<Row>, f: Faults, r: Row)
    requires r in due && MainDone(b, r, f) && RecordOk(o, r) && (b.Vault? || r.key.Plain?)
    requires (forall k | k in o.blobs :: k.Plain?) && (forall k | k in o.vault :: k.InVault?)
    ensures Gone(Erased(o, b, due, f), r)
  {
    if r.working.Some? { assert WorkingDropped(b, r, f); }
    assert MainDropped(b, r, f);
  }

  lemma CopiesDone(w: World, t: nat, b: Backend, closed: set<nat>, olderThan: int, f: Faults)
    requires Safe(w) && Enabled(w, PurgeCopies(t, b, closed, olderThan, f))
    ensures var end := After(w, PurgeCopies(t, b, closed, olderThan, f)); Done(end, end.pending[t])
  {
    var due := DueCopies(w.rows, closed, olderThan);
    var o := w.objects.(blobs := w.objects.blobs - CopiesDropped(b, due, f));
    forall r | r in w.rows && r.id in Cleared(b, due, f) ensures NoCopy(o, r) {
      var q :| q in due && b.Vault? && WorkingDone(b, q, f) && q.id == r.id;
      assert r in Records(w) && q in Records(w);
      assert r != q ==> RowsDiffer(r, q);
      assert WorkingDropped(b, q, f);
    }
  }

  lemma CommitAddKnown(w: World, t: nat)
    requires Safe(w) && AllKnown(w) && t in w.pending && w.pending[t].AddRow?
    ensures AllKnown(After(w, Commit(t))) && StaysDone(w, After(w, Commit(t)))
  {
    var end, row := After(w, Commit(t)), w.pending[t].row;
    CommitAddSafe(w, t);
    forall k | k in end.objects.blobs || k in end.objects.vault ensures Known(end, k) { assert Known(w, k); }
    forall p | p in end.pending && Done(w, w.pending[p]) ensures Done(end, end.pending[p]) {
      assert ChangeOk(w, w.pending[p]) && Ids(w.pending[p], w.nextId);
      assert row in Added(w);
      AddKeepsDone(w, row, w.pending[p], end);
    }
  }

  /** No pending change is about a row that is only now committed. */
  lemma AddKeepsDone(w: World, row: Row, c: Change, end: World)
    requires Done(w, c) && end.objects == w.objects && end.rows == w.rows + {row}
    requires match c
             case EraseRows(ids, _) => row.id !in ids
             case ClearCopies(ids) => row.id !in ids
             case _ => true
    ensures Done(end, c)
  {
  }

  /** What a row that is not deleted had under it stays known. */
  lemma KeyStaysKnown(w: World, t: nat, r: Row, key: Key)
    requires Safe(w) && AllKnown(w) && t in w.pending && !w.pending[t].AddRow?
    requires r in Records(w) && KeyOf(r, key) && (key in w.objects.blobs || key in w.objects.vault)
    requires w.pending[t].EraseRows? && r in w.rows ==> r.id !in w.pending[t].ids
    requires w.pending[t].ClearCopies? ==> Done(w, w.pending[t])
    ensures Known(After(w, Commit(t)), key)
  {
    var end, c := After(w, Commit(t)), w.pending[t];
    assert RecordOk(w.objects, r);
    ChangedKeeps(w.objects, r, c);
    if r in w.rows {
      assert Changed(r, c) in end.rows;
      assert Changed(r, c) in Records(end) && KeyOf(Changed(r, c), key) by { KeyAfter(w, c, r, key); }
    } else {
      var p :| p in w.pending && w.pending[p].AddRow? && w.pending[p].row == r;
      assert p in end.pending && end.pending[p] == w.pending[p];
      assert r in Records(end);
    }
  }

  lemma KeyAfter(w: World, c: Change, r: Row, key: Key)
    requires r in w.rows && KeyOf(r, key) && RecordOk(w.objects, r) && (key in w.objects.blobs || key in w.objects.vault)
    requires !c.AddRow? && (c.ClearCopies? ==> Done(w, c)) && forall k | k in w.objects.vault :: k.InVault?
    ensures KeyOf(Changed(r, c), key)
  {
  }

  /** A row about to be deleted has nothing stored that is not written off. */
  ghost predicate LeavesNothing(w: World, step: Step) {
    step.Commit? && step.t in w.pending && w.pending[step.t].EraseRows? ==>
      forall r, key | r in w.rows && r.id in w.pending[step.t].ids && KeyOf(r, key)
                      && (key in w.objects.blobs || key in w.objects.vault) :: key in w.lost
  }

  lemma CommitChangeKnown(w: World, t: nat)
    requires Safe(w) && AllKnown(w) && t in w.pending && !w.pending[t].AddRow?
    requires (w.pending[t].ClearCopies? ==> Done(w, w.pending[t])) && LeavesNothing(w, Commit(t))
    ensures AllKnown(After(w, Commit(t)))
  {
    var end, c := After(w, Commit(t)), w.pending[t];
    forall k | k in end.objects.blobs || k in end.objects.vault ensures Known(end, k) {
      assert Known(w, k);
      if k !in w.lost {
        var r :| r in Records(w) && KeyOf(r, k);
        KeyStaysKnown(w, t, r, k);
      }
    }
  }

  lemma CommitStaysDone(w: World, t: nat)
    requires Safe(w) && t in w.pending && !w.pending[t].AddRow?
    ensures StaysDone(w, After(w, Commit(t)))
  {
    var end := After(w, Commit(t));
    forall p | p in end.pending && Done(w, w.pending[p]) ensures Done(end, end.pending[p]) {
      ChangeKeepsDone(w, w.pending[t], w.pending[p], end);
    }
  }

  /** What a deleted row leaves in storage, no other row knows. */
  lemma OnlyItsOwn(w: World, r: Row, q: Row, key: Key)
    requires Safe(w) && r in Records(w) && q in Records(w) && KeyOf(r, key) && KeyOf(q, key)
    ensures r == q
  {
    assert RecordOk(w.objects, r) && RecordOk(w.objects, q);
    assert r != q ==> RowsDiffer(r, q);
  }

  lemma KeyBefore(w: World, t: nat, q: Row, key: Key) returns (r: Row)
    requires Safe(w) && t in w.pending && w.pending[t].EraseRows? && q in Records(After(w, Commit(t))) && KeyOf(q, key)
    ensures r in Records(w) && KeyOf(r, key) && (r in w.rows ==> r.id !in w.pending[t].ids)
  {
    var end, c := After(w, Commit(t)), w.pending[t];
    if q in end.rows {
      r :| r in w.rows && r.id !in c.ids && q == Changed(r, c);
      assert RecordOk(w.objects, r) by { assert r in Records(w); }
      ChangedKeeps(w.objects, r, c);
      assert q.working == r.working || q.working.None?;
    } else {
      r := q;
      var p :| p in w.pending && w.pending[p].AddRow? && w.pending[p].row == r;
    }
  }

  lemma CommitLeaves(w: World, t: nat)
    requires Safe(w) && t in w.pending && AllKnown(After(w, Commit(t)))
    ensures LeavesNothing(w, Commit(t))
  {
    var end, c := After(w, Commit(t)), w.pending[t];
    if c.EraseRows? {
      forall r, key | r in w.rows && r.id in c.ids && KeyOf(r, key) && (key in w.objects.blobs || key in w.objects.vault)
        ensures key in w.lost
      {
        ErasedIsLost(w, t, r, key);
      }
    }
  }

  lemma ErasedIsLost(w: World, t: nat, r: Row, key: Key)
    requires Safe(w) && t in w.pending && w.pending[t].EraseRows? && Known(After(w, Commit(t)), key)
    requires r in w.rows && r.id in w.pending[t].ids && KeyOf(r, key)
    ensures key in w.lost
  {
    var end := After(w, Commit(t));
    forall q | q in Records(end) ensures !KeyOf(q, key) {
      if KeyOf(q, key) {
        var o := KeyBefore(w, t, q, key);
        OnlyItsOwn(w, r, o, key);
      }
    }
  }

  lemma ChangeKeepsDone(w: World, c: Change, d: Change, end: World)
    requires Safe(w) && Done(w, d) && !c.AddRow? && end.objects == w.objects && end.rows == Applied(w.rows, c)
    ensures Done(end, d)
  {
    forall r | r in end.rows ensures exists q :: q in w.rows && r == Changed(q, c) && RecordOk(w.objects, q) && q.id == r.id {
      var q :| q in w.rows && r == Changed(q, c);
      assert q in Records(w);
      assert RecordOk(w.objects, q);
    }
  }

  lemma RollbackKnown(w: World, t: nat)
    requires Safe(w) && AllKnown(w) && t in w.pending
    ensures AllKnown(After(w, Rollback(t))) && StaysDone(w, After(w, Rollback(t)))
  {
    var end := After(w, Rollback(t));
    forall k | k in end.objects.blobs || k in end.objects.vault ensures Known(end, k) {
      assert Known(w, k);
      if k !in w.lost {
        var r :| r in Records(w) && KeyOf(r, k);
        assert RecordOk(w.objects, r);
        if r in w.rows {
          assert r in Records(end);
        } else {
          var p :| p in w.pending && w.pending[p].AddRow? && w.pending[p].row == r;
          if p != t { assert p in end.pending && end.pending[p] == w.pending[p]; }
          assert p != t ==> r in Records(end);
        }
      }
    }
  }

  /** The copies a pending change forgets are gone. */
  ghost predicate CopiesGone(w: World) {
    forall t | t in w.pending && w.pending[t].ClearCopies? :: Done(w, w.pending[t])
  }

  /** The exact step: everything stored stays known exactly when no row is deleted that has
      something stored. */
  lemma StepKnown(w: World, step: Step)
    requires Safe(w) && AllKnown(w) && CopiesGone(w) && Enabled(w, step)
    ensures AllKnown(After(w, step)) <==> LeavesNothing(w, step)
    ensures StaysDone(w, After(w, step)) && CopiesGone(After(w, step))
  {
    hide Safe, AllKnown, Done, Uploaded, Erased, Purged, Due, DueCopies, CopiesDropped, Cleared, RowOf, Applied, ChangeOk;
    match step {
      case UploadFile(t, b, u, sibling) => UploadKnown(w, t, b, u, sibling);
      case RemoveFile(t, id, at) => StartKnown(w, t, w.objects, Hide(id, at));
      case RemoveDocument(t, doc, at) => StartKnown(w, t, w.objects, DropDocument(doc, at));
      case PurgeRemoved(t, b, now, cutoff, f) => PurgeKnown(w, t, b, now, cutoff, f);
      case PurgeCopies(t, b, closed, olderThan, f) =>
        CopiesKnown(w, t, b, closed, olderThan, f);
        CopiesDone(w, t, b, closed, olderThan, f);
      case Commit(t) =>
        if w.pending[t].AddRow? {
          CommitAddKnown(w, t);
        } else {
          CommitStaysDone(w, t);
          if LeavesNothing(w, step) { CommitChangeKnown(w, t); } else { NotKnownAfter(w, t); }
        }
      case Rollback(t) => RollbackKnown(w, t);
    }
  }

  lemma NotKnownAfter(w: World, t: nat)
    requires Safe(w) && t in w.pending && !LeavesNothing(w, Commit(t))
    ensures !AllKnown(After(w, Commit(t)))
  {
    hide LeavesNothing, Safe, After, AllKnown;
    if AllKnown(After(w, Commit(t))) { CommitLeaves(w, t); }
  }

  lemma PurgeKnown(w: World, t: nat, b: Backend, now: int, cutoff: int, f: Faults)
    requires Safe(w) && AllKnown(w) && Enabled(w, PurgeRemoved(t, b, now, cutoff, f))
    ensures var end := After(w, PurgeRemoved(t, b, now, cutoff, f)); AllKnown(end) && StaysDone(w, end)
  {
    var due := Due(w.rows, now, cutoff);
    StartKnown(w, t, Erased(w.objects, b, due, f), EraseRows(Purged(b, due, f), now));
  }

  lemma CopiesKnown(w: World, t: nat, b: Backend, closed: set<nat>, olderThan: int, f: Faults)
    requires Safe(w) && AllKnown(w) && Enabled(w, PurgeCopies(t, b, closed, olderThan, f))
    ensures var end := After(w, PurgeCopies(t, b, closed, olderThan, f)); AllKnown(end) && StaysDone(w, end)
  {
    var due := DueCopies(w.rows, closed, olderThan);
    StartKnown(w, t, w.objects.(blobs := w.objects.blobs - CopiesDropped(b, due, f)), ClearCopies(Cleared(b, due, f)));
  }

  ghost predicate LeavesNothingRun(w: World, steps: seq<Step>)
    decreases |steps|
  {
    steps == [] || (Enabled(w, steps[0]) && LeavesNothing(w, steps[0]) && LeavesNothingRun(After(w, steps[0]), steps[1..]))
  }

  ghost predicate AlwaysKnown(w: World, steps: seq<Step>)
    decreases |steps|
  {
    AllKnown(w) && (steps == [] || (Enabled(w, steps[0]) && AlwaysKnown(After(w, steps[0]), steps[1..])))
  }

  /** Over every run, whatever backends, faults and rollbacks: every stored object is some row's or
      was left by an upload that failed, throughout, exactly when no purge commits whose rows still
      have something stored by then. */
  lemma {:induction false} OrphansExactly(w: World, steps: seq<Step>, end: World)
    requires Safe(w) && AllKnown(w) && CopiesGone(w) && Reaches(w, steps, end)
    ensures AlwaysKnown(w, steps) <==> LeavesNothingRun(w, steps)
    decreases |steps|
  {
    hide Safe, AllKnown, CopiesGone, Enabled, After, LeavesNothing;
    if steps != [] {
      ReachesRest(w, steps, end);
      StepSafe(w, steps[0]);
      StepKnown(w, steps[0]);
      if LeavesNothing(w, steps[0]) {
        OrphansExactly(After(w, steps[0]), steps[1..], end);
      } else {
        assert !AlwaysKnown(After(w, steps[0]), steps[1..]);
      }
    }
  }

  /** A purge that reaches the vault readies only rows that have nothing stored. */
  lemma StepAccounted(w: World, step: Step)
    requires Safe(w) && Accounted(w) && Enabled(w, step) && Reaching(w, step)
    ensures Accounted(After(w, step))
  {
    hide Safe, AllKnown, Done, Uploaded, Erased, Purged, Due, DueCopies, CopiesDropped, Cleared, RowOf, Applied, ChangeOk;
    DoneLeavesNothing(w, step);
    StepKnown(w, step);
    NewIsDone(w, step);
  }

  lemma DoneLeavesNothing(w: World, step: Step)
    requires Safe(w) && Accounted(w) && Enabled(w, step)
    ensures LeavesNothing(w, step)
  {
    if step.Commit? { assert Done(w, w.pending[step.t]); }
  }

  lemma NewIsDone(w: World, step: Step)
    requires Safe(w) && AllKnown(w) && Enabled(w, step) && Reaching(w, step)
    ensures forall p | p in After(w, step).pending :: (p in w.pending && After(w, step).pending[p] == w.pending[p])
                                                      || Done(After(w, step), After(w, step).pending[p])
  {
    match step {
      case PurgeRemoved(t, b, now, cutoff, f) => PurgeDone(w, t, b, now, cutoff, f);
      case PurgeCopies(t, b, closed, olderThan, f) => CopiesDone(w, t, b, closed, olderThan, f);
      case _ =>
    }
  }

  /** Over every run whose purges reach the vault: a row goes only once nothing of it is stored,
      and every stored object is some row's or was left by an upload that failed. */
  lemma {:induction false} NothingIsOrphaned(w: World, steps: seq<Step>, end: World)
    requires Safe(w) && Accounted(w) && Reaches(w, steps, end) && ReachingRun(w, steps)
    ensures Accounted(end)
    ensures forall k | k in end.objects.blobs || k in end.objects.vault ::
              k in end.lost || exists r :: r in Records(end) && KeyOf(r, k)
    decreases |steps|
  {
    if steps == [] {
      forall k | k in end.objects.blobs || k in end.objects.vault ensures Known(end, k) {}
    } else {
      StepSafe(w, steps[0]);
      StepAccounted(w, steps[0]);
      ReachesRest(w, steps, end);
      hide Safe, Accounted, Enabled, After, Known, KeyOf, Records;
      NothingIsOrphaned(After(w, steps[0]), steps[1..], end);
    }
  }

  /** A purge through ordinary storage deletes the row of a vault file and leaves its bytes. */
  lemma SwitchedBackendOrphans(w: World, t: nat, now: int, cutoff: int, r: Row)
    requires Safe(w) && Accounted(w) && w.pending == map[] && cutoff <= now
    requires r in w.rows && r.key.InVault? && r.key in w.objects.vault && r.key !in w.lost && DueForPurge(r, cutoff)
    ensures var purged := After(w, PurgeRemoved(t, Ordinary, now, cutoff, Faults(map[], map[])));
            var end := After(purged, Commit(t));
            r.key in end.objects.vault && !Known(end, r.key)
  {
    var f := Faults(map[], map[]);
    var due := Due(w.rows, now, cutoff);
    var purged := After(w, PurgeRemoved(t, Ordinary, now, cutoff, f));
    var end := After(purged, Commit(t));
    assert Marked(r, now) == r;
    assert r in due && MainDone(Ordinary, r, f);
    assert r.id in Purged(Ordinary, due, f);
    assert purged.pending[t] == EraseRows(Purged(Ordinary, due, f), now);
    forall q | q in Records(end) ensures !KeyOf(q, r.key) {
      var o :| o in w.rows && o.id !in Purged(Ordinary, due, f) && q == Marked(o, now);
      assert r in Records(w) && o in Records(w) && o != r;
      assert RowsDiffer(r, o) && RecordOk(w.objects, o);
    }
  }

  // ---- One order of the vault ----

  predicate Joined(r: Row) {
    r.doc.Some? && r.key.InVault?
  }

  ghost predicate TogetherPair(r: Row, q: Row) {
    Joined(r) && Joined(q) && r.doc.value.order == q.doc.value.order ==> r.key.order == q.key.order
  }

  /** The vault files of one order, those removed included, are in one order of the vault, as
      long as their document is there. */
  ghost predicate Together(w: World) {
    forall r, q | r in Records(w) && q in Records(w) :: TogetherPair(r, q)
  }

  /** An upload to the vault finds a committed vault file of its order, or takes the vault order
      that every upload of the order not yet committed has taken. */
  ghost predicate KeepsTogether(w: World, step: Step) {
    step.UploadFile? && step.b.Vault? && Succeeds(step.u, step.b) && step.sibling.None? ==>
      forall r | r in Added(w) && Joined(r) && r.doc.value.order == step.u.doc.order :: r.key.order == step.u.order
  }

  ghost predicate KeepsTogetherRun(w: World, steps: seq<Step>)
    decreases |steps|
  {
    steps == [] || (Enabled(w, steps[0]) && KeepsTogether(w, steps[0]) && KeepsTogetherRun(After(w, steps[0]), steps[1..]))
  }

  /** Together before every step and at the end. */
  ghost predicate AlwaysTogether(w: World, steps: seq<Step>)
    decreases |steps|
  {
    Together(w) && (steps == [] || (Enabled(w, steps[0]) && AlwaysTogether(After(w, steps[0]), steps[1..])))
  }

  lemma UploadTogether(w: World, t: nat, b: Backend, u: Upload, sibling: Option<nat>)
    requires Together(w) && Enabled(w, UploadFile(t, b, u, sibling))
    ensures Together(After(w, UploadFile(t, b, u, sibling))) <==> KeepsTogether(w, UploadFile(t, b, u, sibling))
  {
    var row, end := RowOf(u, b, sibling), After(w, UploadFile(t, b, u, sibling));
    UploadRecords(w, t, b, u, sibling);
    if Succeeds(u, b) && b.Vault? {
      forall r | r in Records(w) && Joined(r) && r.doc.value.order == u.doc.order
        ensures TogetherPair(r, row) <==> r.key.order == row.key.order
        ensures TogetherPair(row, r) <==> r.key.order == row.key.order
        ensures sibling.None? ==> r in Added(w)
        ensures sibling.Some? ==> r.key.order == row.key.order
      {
        assert r in w.rows ==> IsSibling(r, u.doc.order);
        if sibling.Some? {
          var q :| q in w.rows && IsSibling(q, u.doc.order) && q.key.order == sibling.value;
          assert TogetherPair(r, q);
        }
      }
      assert row in Records(end);
      if Together(end) {
        forall r | r in Added(w) && Joined(r) && r.doc.value.order == u.doc.order ensures r.key.order == row.key.order {
          assert TogetherPair(r, row);
        }
      }
    }
  }

  lemma StepTogether(w: World, step: Step)
    requires Safe(w) && Together(w) && Enabled(w, step)
    ensures Together(After(w, step)) <==> KeepsTogether(w, step)
  {
    match step {
      case UploadFile(t, b, u, sibling) => UploadTogether(w, t, b, u, sibling);
      case RemoveFile(t, id, at) => StartRecords(w, t, w.objects, Hide(id, at));
      case RemoveDocument(t, doc, at) => StartRecords(w, t, w.objects, DropDocument(doc, at));
      case PurgeRemoved(t, b, now, cutoff, f) =>
        StartRecords(w, t, After(w, step).objects, After(w, step).pending[t]);
      case PurgeCopies(t, b, closed, olderThan, f) =>
        StartRecords(w, t, After(w, step).objects, After(w, step).pending[t]);
      case Commit(t) =>
        if w.pending[t].AddRow? {
          CommitAddSafe(w, t);
        } else {
          CommitTogether(w, t);
        }
      case Rollback(t) => RollbackSafe(w, t);
    }
  }

  lemma CommitTogether(w: World, t: nat)
    requires Safe(w) && Together(w) && t in w.pending && !w.pending[t].AddRow?
    ensures Together(After(w, Commit(t)))
  {
    var end := After(w, Commit(t));
    forall r, s | r in Records(end) && s in Records(end) ensures TogetherPair(r, s) {
      var q := CommitOrigin(w, t, r);
      var p := CommitOrigin(w, t, s);
      assert RecordOk(w.objects, q) && RecordOk(w.objects, p) && TogetherPair(q, p);
      ChangedKeeps(w.objects, q, w.pending[t]);
      ChangedKeeps(w.objects, p, w.pending[t]);
    }
  }

  /** Over every run: the vault files of each order share one order of the vault throughout, as far
      as their documents remain, exactly when each upload that starts a new one does so while no
      other of its order is under way in a different one. */
  lemma {:induction false} OneVaultOrder(w: World, steps: seq<Step>, end: World)
    requires Safe(w) && Together(w) && Reaches(w, steps, end)
    ensures AlwaysTogether(w, steps) <==> KeepsTogetherRun(w, steps)
    ensures KeepsTogetherRun(w, steps) ==> Together(end)
    decreases |steps|
  {
    if steps != [] {
      StepSafe(w, steps[0]);
      StepTogether(w, steps[0]);
      ReachesRest(w, steps, end);
      hide Safe, Together, Enabled, After;
      if Together(After(w, steps[0])) {
        OneVaultOrder(After(w, steps[0]), steps[1..], end);
      } else {
        assert !AlwaysTogether(After(w, steps[0]), steps[1..]);
      }
    }
  }

  /** Two first uploads at once start two orders of the vault. */
  lemma ConcurrentUploadsSplit(t: nat, t': nat, u: Upload, u': Upload)
    requires t != t' && u.id < u'.id && u.public != u'.public && u.file != u'.file && u.order != u'.order && u.doc.order == u'.doc.order
    requires Succeeds(u, Vault(false)) && Succeeds(u', Vault(false))
    ensures var w := World(Objects(map[], map[]), {}, map[], 0, {});
            var first := UploadFile(t, Vault(false), u, None);
            var second := UploadFile(t', Vault(false), u', None);
            Enabled(w, first) && Enabled(After(w, first), second) && !Together(After(After(w, first), second))
  {
    var w := World(Objects(map[], map[]), {}, map[], 0, {});
    UploadRecords(w, t, Vault(false), u, None);
    var one := After(w, UploadFile(t, Vault(false), u, None));
    UploadRecords(one, t', Vault(false), u', None);
    var r, q := RowOf(u, Vault(false), None), RowOf(u', Vault(false), None);
    assert !TogetherPair(r, q);
  }

  // ---- Files whose document was deleted ----

  /** The order each file was uploaded for, by the row's id; a row forgets it with its document. */
  type Orders = map<nat, nat>

  function OrdersAfter(orders: Orders, step: Step): Orders {
    if step.UploadFile? && Succeeds(step.u, step.b) then orders[step.u.id := step.u.doc.order] else orders
  }

  ghost predicate Remembered(w: World, orders: Orders) {
    forall r | r in Records(w) :: r.id in orders && (r.doc.Some? ==> orders[r.id] == r.doc.value.order)
  }

  ghost predicate FiledFor(orders: Orders, r: Row, order: nat) {
    r.key.InVault? && r.id in orders && orders[r.id] == order
  }

  /** All of an order's vault files, those whose document was deleted too, are in one vault order. */
  ghost predicate AllTogether(w: World, orders: Orders) {
    forall r, q, order | r in Records(w) && q in Records(w) && FiledFor(orders, r, order) && FiledFor(orders, q, order) ::
      r.key.order == q.key.order
  }

  ghost predicate KeepsAll(w: World, orders: Orders, step: Step) {
    step.UploadFile? && step.b.Vault? && Succeeds(step.u, step.b) && step.sibling.None? ==>
      forall r | r in Records(w) && FiledFor(orders, r, step.u.doc.order) :: r.key.order == step.u.order
  }

  ghost predicate KeepsAllRun(w: World, orders: Orders, steps: seq<Step>)
    decreases |steps|
  {
    steps == []
    || (&& Enabled(w, steps[0]) && KeepsAll(w, orders, steps[0])
        && KeepsAllRun(After(w, steps[0]), OrdersAfter(orders, steps[0]), steps[1..]))
  }

  ghost predicate AlwaysAllTogether(w: World, orders: Orders, steps: seq<Step>)
    decreases |steps|
  {
    && AllTogether(w, orders)
    && (steps == []
        || (Enabled(w, steps[0]) && AlwaysAllTogether(After(w, steps[0]), OrdersAfter(orders, steps[0]), steps[1..])))
  }

  lemma UploadAllTogether(w: World, orders: Orders, t: nat, b: Backend, u: Upload, sibling: Option<nat>)
    requires Safe(w) && Remembered(w, orders) && AllTogether(w, orders) && Enabled(w, UploadFile(t, b, u, sibling))
    ensures var step := UploadFile(t, b, u, sibling);
            && Remembered(After(w, step), OrdersAfter(orders, step))
            && (AllTogether(After(w, step), OrdersAfter(orders, step)) <==> KeepsAll(w, orders, step))
  {
    var row, step := RowOf(u, b, sibling), UploadFile(t, b, u, sibling);
    var end, known := After(w, step), OrdersAfter(orders, step);
    UploadRecords(w, t, b, u, sibling);
    forall r, order | r in Records(w) ensures FiledFor(known, r, order) <==> FiledFor(orders, r, order) {
      assert r.id != u.id;
    }
    if Succeeds(u, b) && b.Vault? {
      assert row in Records(end) && FiledFor(known, row, u.doc.order);
      forall r | r in Records(w) && FiledFor(orders, r, u.doc.order) && sibling.Some? ensures r.key.order == row.key.order {
        var q :| q in w.rows && IsSibling(q, u.doc.order) && q.key.order == sibling.value;
        assert q in Records(w) && FiledFor(orders, q, u.doc.order);
      }
      if AllTogether(end, known) {
        forall r | r in Records(w) && FiledFor(orders, r, u.doc.order) ensures r.key.order == row.key.order {
          assert r in Records(end) && FiledFor(known, r, u.doc.order);
        }
      }
    }
  }

  /** A step that adds no record and keeps what identifies each. */
  lemma SameFiles(w: World, end: World, orders: Orders)
    requires Remembered(w, orders) && AllTogether(w, orders)
    requires forall r | r in Records(end) :: exists q :: q in Records(w) && SameFile(r, q)
    ensures Remembered(end, orders) && AllTogether(end, orders)
  {
    forall r, q, order | r in Records(end) && q in Records(end) && FiledFor(orders, r, order) && FiledFor(orders, q, order)
      ensures r.key.order == q.key.order
    {
      var r' :| r' in Records(w) && SameFile(r, r');
      var q' :| q' in Records(w) && SameFile(q, q');
      assert FiledFor(orders, r', order) && FiledFor(orders, q', order);
    }
  }

  predicate SameFile(r: Row, q: Row) {
    r.id == q.id && r.key == q.key && (r.doc == q.doc || r.doc.None?)
  }

  lemma StepAllTogether(w: World, orders: Orders, step: Step)
    requires Safe(w) && Remembered(w, orders) && AllTogether(w, orders) && Enabled(w, step)
    ensures Remembered(After(w, step), OrdersAfter(orders, step))
    ensures AllTogether(After(w, step), OrdersAfter(orders, step)) <==> KeepsAll(w, orders, step)
  {
    match step {
      case UploadFile(t, b, u, sibling) => UploadAllTogether(w, orders, t, b, u, sibling);
      case _ =>
        forall r | r in Records(After(w, step)) ensures exists q :: q in Records(w) && SameFile(r, q) {
          var q := StepOrigin(w, step, r);
        }
        SameFiles(w, After(w, step), orders);
    }
  }

  lemma StepOrigin(w: World, step: Step, r: Row) returns (q: Row)
    requires Safe(w) && Enabled(w, step) && !step.UploadFile? && r in Records(After(w, step))
    ensures q in Records(w) && SameFile(r, q)
  {
    q := r;
    match step {
      case RemoveFile(t, id, at) => StartRecords(w, t, w.objects, Hide(id, at));
      case RemoveDocument(t, doc, at) => StartRecords(w, t, w.objects, DropDocument(doc, at));
      case PurgeRemoved(t, b, now, cutoff, f) =>
        StartRecords(w, t, After(w, step).objects, After(w, step).pending[t]);
      case PurgeCopies(t, b, closed, olderThan, f) =>
        StartRecords(w, t, After(w, step).objects, After(w, step).pending[t]);
      case Commit(t) =>
        if w.pending[t].AddRow? {
          CommitAddSafe(w, t);
        } else {
          q := CommitOrigin(w, t, r);
          assert RecordOk(w.objects, q);
          ChangedKeeps(w.objects, q, w.pending[t]);
        }
      case Rollback(t) => RollbackSafe(w, t);
    }
  }

  /** The same of all of an order's files: they share one order of the vault throughout a run exactly
      when each upload that starts a new one finds no file of its order anywhere else, be its
      document deleted or its transaction not yet committed. */
  lemma {:induction false} AllInOneVaultOrder(w: World, orders: Orders, steps: seq<Step>, end: World)
    requires Safe(w) && Remembered(w, orders) && AllTogether(w, orders) && Reaches(w, steps, end)
    ensures AlwaysAllTogether(w, orders, steps) <==> KeepsAllRun(w, orders, steps)
    decreases |steps|
  {
    if steps != [] {
      StepSafe(w, steps[0]);
      StepAllTogether(w, orders, steps[0]);
      ReachesRest(w, steps, end);
      hide Safe, AllTogether, Remembered, Enabled, After, OrdersAfter;
      if AllTogether(After(w, steps[0]), OrdersAfter(orders, steps[0])) {
        AllInOneVaultOrder(After(w, steps[0]), OrdersAfter(orders, steps[0]), steps[1..], end);
      } else {
        assert !AlwaysAllTogether(After(w, steps[0]), OrdersAfter(orders, steps[0]), steps[1..]);
      }
    }
  }

  /** A document is deleted, then a file is uploaded for its order: the order's files stay in one
      order of the vault exactly when another document of it has one there, or the new order of
      the vault happens to be theirs. */
  lemma UploadAfterRemoval(w: World, orders: Orders, t: nat, doc: nat, at: int, t': nat, b: Backend, u: Upload, sibling: Option<nat>)
    requires Safe(w) && Remembered(w, orders) && AllTogether(w, orders) && w.pending == map[]
    requires var gone := After(After(w, RemoveDocument(t, doc, at)), Commit(t));
             b.Vault? && Succeeds(u, b) && Enabled(gone, UploadFile(t', b, u, sibling))
    ensures var gone := After(After(w, RemoveDocument(t, doc, at)), Commit(t));
            var upload := UploadFile(t', b, u, sibling);
            AllTogether(After(gone, upload), OrdersAfter(orders, upload))
            <==> || (exists r :: r in w.rows && IsSibling(r, u.doc.order) && r.doc.value.id != doc)
                 || (forall r | r in w.rows && FiledFor(orders, r, u.doc.order) :: r.key.order == u.order)
  {
    hide Safe, Remembered, AllTogether, RowOf, Uploaded;
    var removal := RemoveDocument(t, doc, at);
    var gone := After(After(w, removal), Commit(t));
    StepSafe(w, removal);
    StepAllTogether(w, orders, removal);
    StepSafe(After(w, removal), Commit(t));
    StepAllTogether(After(w, removal), orders, Commit(t));
    StepAllTogether(gone, orders, UploadFile(t', b, u, sibling));
    AfterRemoval(w.rows, orders, DropDocument(doc, at), u.doc.order, u.order);
    assert gone.rows == Applied(w.rows, DropDocument(doc, at)) && Records(gone) == gone.rows;
  }

  lemma AfterRemoval(rows: set<Row>, orders: Orders, c: Change, order: nat, vault: nat)
    requires c.DropDocument?
    ensures (exists r :: r in Applied(rows, c) && IsSibling(r, order))
            <==> (exists r :: r in rows && IsSibling(r, order) && r.doc.value.id != c.doc)
    ensures (forall r | r in Applied(rows, c) && FiledFor(orders, r, order) :: r.key.order == vault)
            <==> (forall r | r in rows && FiledFor(orders, r, order) :: r.key.order == vault)
  {
    forall r | r in rows
      ensures Changed(r, c) in Applied(rows, c)
      ensures IsSibling(Changed(r, c), order) <==> IsSibling(r, order) && r.doc.value.id != c.doc
      ensures FiledFor(orders, Changed(r, c), order) <==> FiledFor(orders, r, order)
      ensures Changed(r, c).key == r.key
    {
    }
  }

  /** An empty store is safe, accounted for and together. */
  lemma EmptyStore()
    ensures var w := World(Objects(map[], map[]), {}, map[], 0, {}); Safe(w) && Accounted(w) && Together(w)
  {
  }
}
