/** Order files: rows in the database, bytes in object storage, and what survives when either
    fails between the steps: src/suliko/domain/order_files.py and
    src/suliko/integrations/object_storage.py.

    A storage call can succeed, fail before it did anything, or fail after (the answer was lost).
    Storage changes at once; rows change when the transaction commits. Keys are what the API
    builds them from: a random public id, or the vault's order and file numbers. */
module FileStore {
  import opened Options

  newtype byte = x: int | 0 <= x < 256

  type Bytes = seq<byte>

  datatype Key = Plain(public: nat) | InVault(order: nat, file: nat)

  datatype Doc = Doc(id: nat, order: nat)

  /** A row of `order_files`. `content` is what was uploaded: the row keeps its size and hash.
      `doc` is None once the document was deleted. */
  datatype Row = Row(
    id: nat, public: nat, doc: Option<Doc>, key: Key, working: Option<Key>, content: Bytes, created: int, removed: Option<int>)

  /** Ordinary storage, or the vault with or without ordinary storage beside it. */
  datatype Backend = Ordinary | Vault(copies: bool)

  datatype Outcome = Done | FailedBefore | FailedAfter

  datatype Objects = Objects(blobs: map<Key, Bytes>, vault: map<Key, Bytes>)

  function Put(store: map<Key, Bytes>, key: Key, content: Bytes, outcome: Outcome): map<Key, Bytes> {
    if outcome.FailedBefore? then store else store[key := content]
  }

  function Drop(store: map<Key, Bytes>, key: Key, outcome: Outcome): map<Key, Bytes> {
    if outcome.FailedBefore? then store else store - {key}
  }

  // ---- Upload ----

  /** An upload and how its storage calls come out; `order` and `file` are the numbers the vault
      gives where it starts a new order, and for the file. */
  datatype Upload = Upload(
    id: nat, public: nat, doc: Doc, content: Bytes, created: int,
    working: Outcome, main: Outcome, dropping: Outcome, order: nat, file: nat)

  function VaultKey(u: Upload, sibling: Option<nat>): Key {
    InVault(if sibling.Some? then sibling.value else u.order, u.file)
  }

  function RowOf(u: Upload, b: Backend, sibling: Option<nat>): Row {
    Row(u.id, u.public, Some(u.doc), if b.Vault? then VaultKey(u, sibling) else Plain(u.public),
        if b == Vault(true) then Some(Plain(u.public)) else None, u.content, u.created, None)
  }

  predicate Succeeds(u: Upload, b: Backend) {
    u.main.Done? && (b == Vault(true) ==> u.working.Done?)
  }

  /** What an upload leaves in storage, whatever fails. */
  function Uploaded(o: Objects, b: Backend, u: Upload, sibling: Option<nat>): Objects {
    match b
    case Ordinary => o.(blobs := Put(o.blobs, Plain(u.public), u.content, u.main))
    case Vault(false) => o.(vault := Put(o.vault, VaultKey(u, sibling), u.content, u.main))
    case Vault(true) =>
      var first := Put(o.blobs, Plain(u.public), u.content, u.working);
      if !u.working.Done? then o.(blobs := first)
      else
        Objects(if u.main.Done? then first else Drop(first, Plain(u.public), u.dropping),
                Put(o.vault, VaultKey(u, sibling), u.content, u.main))
  }

  // ---- Removing the bytes ----

  /** How the two deletions of a row come out. */
  datatype Faults = Faults(working: map<nat, Outcome>, main: map<nat, Outcome>)

  function OutcomeOf(outcomes: map<nat, Outcome>, id: nat): Outcome {
    if id in outcomes then outcomes[id] else Done
  }

  predicate TriesWorking(b: Backend, r: Row) {
    r.working.Some? && b.Vault?
  }

  predicate WorkingDone(b: Backend, r: Row, f: Faults) {
    TriesWorking(b, r) ==> b == Vault(true) && OutcomeOf(f.working, r.id).Done?
  }

  predicate WorkingDropped(b: Backend, r: Row, f: Faults) {
    TriesWorking(b, r) && b == Vault(true) && !OutcomeOf(f.working, r.id).FailedBefore?
  }

  /** Whether the backend takes the deletion of a key at all; ordinary storage takes any, and
      answers that a key it does not have is gone. */
  predicate Takes(b: Backend, key: Key) {
    b.Ordinary? || key.InVault? || b.copies
  }

  predicate MainDone(b: Backend, r: Row, f: Faults) {
    WorkingDone(b, r, f) && Takes(b, r.key) && OutcomeOf(f.main, r.id).Done?
  }

  predicate MainDropped(b: Backend, r: Row, f: Faults) {
    WorkingDone(b, r, f) && Takes(b, r.key) && !OutcomeOf(f.main, r.id).FailedBefore?
  }

  function BlobsDropped(b: Backend, due: set<Row>, f: Faults): set<Key> {
    (set r | r in due && WorkingDropped(b, r, f) :: r.working.value)
    + (set r | r in due && MainDropped(b, r, f) && !(b.Vault? && r.key.InVault?) :: r.key)
  }

  function VaultDropped(b: Backend, due: set<Row>, f: Faults): set<Key> {
    set r | r in due && MainDropped(b, r, f) && b.Vault? && r.key.InVault? :: r.key
  }

  function Erased(o: Objects, b: Backend, due: set<Row>, f: Faults): Objects {
    Objects(o.blobs - BlobsDropped(b, due, f), o.vault - VaultDropped(b, due, f))
  }

  function Purged(b: Backend, due: set<Row>, f: Faults): set<nat> {
    set r | r in due && MainDone(b, r, f) :: r.id
  }

  predicate DueForPurge(r: Row, cutoff: int) {
    r.removed.Some? && r.removed.value < cutoff
  }

  /** What makes a working copy due: a removal, a deleted document, a closed order, or age. */
  predicate CopyIsDue(r: Row, closed: set<nat>, olderThan: int) {
    r.working.Some? && (r.removed.Some? || r.doc.None? || r.doc.value.order in closed || r.created < olderThan)
  }

  function CopiesDropped(b: Backend, due: set<Row>, f: Faults): set<Key> {
    set r | r in due && WorkingDropped(b, r, f) :: r.working.value
  }

  function Cleared(b: Backend, due: set<Row>, f: Faults): set<nat> {
    set r | r in due && b.Vault? && WorkingDone(b, r, f) :: r.id
  }

  // ---- Download ----

  datatype Download = Served(content: Bytes) | Unavailable | Failed

  /** What a download answers; `answers` is whether storage answers at all. */
  function Downloaded(o: Objects, b: Backend, r: Row, answers: bool): Download {
    if r.key.InVault? && b.Vault? then
      if r.working.None? then Unavailable
      else if !b.copies || !answers then Failed
      else if r.working.value in o.blobs then Served(o.blobs[r.working.value]) else Unavailable
    else if b == Vault(false) || !answers then Failed
    else if r.key in o.blobs then Served(o.blobs[r.key])
    else if r.key.InVault? then Unavailable
    else Failed
  }

  // ---- Changes of rows ----

  datatype Change =
    | AddRow(row: Row)
    | Hide(id: nat, at: int)
    | DropDocument(doc: nat, at: int)
    | EraseRows(ids: set<nat>, now: int)
    | ClearCopies(ids: set<nat>)

  /** A row of a document deleted with nothing marking it is marked by the purge. */
  function Marked(r: Row, now: int): Row {
    if r.doc.None? && r.removed.None? then r.(removed := Some(now)) else r
  }

  function Changed(r: Row, c: Change): Row {
    match c
    case AddRow(_) => r
    case Hide(id, at) => if r.id == id then r.(removed := Some(at)) else r
    case DropDocument(doc, at) =>
      if r.doc.Some? && r.doc.value.id == doc then
        r.(doc := None, removed := if r.removed.None? then Some(at) else r.removed)
      else r
    case EraseRows(_, now) => Marked(r, now)
    case ClearCopies(ids) => if r.id in ids then r.(working := None) else r
  }

  function Applied(rows: set<Row>, c: Change): set<Row> {
    match c
    case AddRow(row) => rows + {row}
    case EraseRows(ids, _) => set r | r in rows && r.id !in ids :: Changed(r, c)
    case _ => set r | r in rows :: Changed(r, c)
  }

  // ---- The functions of the module, on a session and its storage ----

  class Files {
    const backend: Backend
    var blobs: map<Key, Bytes>
    var vault: map<Key, Bytes>
    var rows: seq<Row>

    constructor (b: Backend)
      ensures backend == b && blobs == map[] && vault == map[] && rows == []
    {
      backend, blobs, vault, rows := b, map[], map[], [];
    }

    ghost function Stored(): Objects
      reads this
    {
      Objects(blobs, vault)
    }

    /** The vault order that the order's newest vault file is in, were it removed since or not. */
    method VaultSibling(order: nat) returns (sibling: Option<nat>)
      ensures sibling == Sibling(rows, order)
    {
      var newest: Option<Row> := None;
      for i := 0 to |rows|
        invariant newest == NewestSibling(rows[..i], order)
      {
        assert rows[..i + 1][..i] == rows[..i];
        var r := rows[i];
        if r.doc.Some? && r.doc.value.order == order && r.key.InVault? && (newest.None? || r.id > newest.value.id) {
          newest := Some(r);
        }
      }
      assert rows[..|rows|] == rows;
      sibling := if newest.Some? then Some(newest.value.key.order) else None;
    }

    method UploadDocumentFile(u: Upload) returns (row: Option<Row>)
      modifies this
      ensures Stored() == Uploaded(old(Stored()), backend, u, Sibling(old(rows), u.doc.order))
      ensures row.Some? <==> Succeeds(u, backend)
      ensures row.Some? ==> row.value == RowOf(u, backend, Sibling(old(rows), u.doc.order)) && rows == old(rows) + [row.value]
      ensures row.None? ==> rows == old(rows)
    {
      var key, working := Plain(u.public), None;
      if backend.Vault? {
        if backend.copies {
          blobs := Put(blobs, key, u.content, u.working);
          if !u.working.Done? { return None; }
          working := Some(key);
        }
        var sibling := VaultSibling(u.doc.order);
        key := VaultKey(u, sibling);
        vault := Put(vault, key, u.content, u.main);
        if !u.main.Done? {
          if working.Some? { blobs := Drop(blobs, working.value, u.dropping); }
          return None;
        }
      } else {
        blobs := Put(blobs, key, u.content, u.main);
        if !u.main.Done? { return None; }
      }
      var added := Row(u.id, u.public, Some(u.doc), key, working, u.content, u.created, None);
      rows := rows + [added];
      return Some(added);
    }

    method OpenDownload(r: Row, answers: bool) returns (d: Download)
      ensures d == Downloaded(Stored(), backend, r, answers)
    {
      var key := r.key;
      if r.key.InVault? && backend.Vault? {
        if r.working.None? { return Unavailable; }
        key := r.working.value;
      }
      if !answers || (backend.Vault? && !backend.copies) { return Failed; }
      if key in blobs { return Served(blobs[key]); }
      return if r.key.InVault? then Unavailable else Failed;
    }

    method RemoveDocumentFile(id: nat, at: int)
      modifies this`rows
      ensures Set(rows) == Applied(old(Set(rows)), Hide(id, at))
    {
      ghost var before := rows;
      for i := 0 to |rows|
        invariant |rows| == |before|
        invariant forall k | i <= k < |rows| :: rows[k] == before[k]
        invariant forall k | 0 <= k < i :: rows[k] == Changed(before[k], Hide(id, at))
      {
        if rows[i].id == id { rows := rows[i := rows[i].(removed := Some(at))]; }
      }
      EachChanged(before, rows, Hide(id, at));
    }

    /** Both deletions of a row; `ok` is whether neither raised. */
    method DeleteObjects(r: Row, f: Faults) returns (ok: bool)
      modifies this`blobs, this`vault
      ensures Stored() == Erased(old(Stored()), backend, {r}, f)
      ensures ok <==> MainDone(backend, r, f)
    {
      hide Erased;
      if r.working.Some? && backend.Vault? {
        if !backend.copies {
          ErasedOne(old(Stored()), backend, r, f);
          return false;
        }
        blobs := Drop(blobs, r.working.value, OutcomeOf(f.working, r.id));
        if !OutcomeOf(f.working, r.id).Done? {
          ErasedOne(old(Stored()), backend, r, f);
          return false;
        }
      }
      ErasedOne(old(Stored()), backend, r, f);
      if backend.Vault? && r.key.InVault? {
        vault := Drop(vault, r.key, OutcomeOf(f.main, r.id));
      } else {
        if backend.Vault? && !backend.copies { return false; }
        blobs := Drop(blobs, r.key, OutcomeOf(f.main, r.id));
      }
      return OutcomeOf(f.main, r.id).Done?;
    }

    method MarkOrphans(now: int)
      modifies this`rows
      ensures |rows| == |old(rows)| && forall i | 0 <= i < |rows| :: rows[i] == Marked(old(rows)[i], now)
    {
      ghost var before := rows;
      for i := 0 to |rows|
        invariant |rows| == |before|
        invariant forall k | i <= k < |rows| :: rows[k] == before[k]
        invariant forall k | 0 <= k < i :: rows[k] == Marked(before[k], now)
      {
        if rows[i].doc.None? && rows[i].removed.None? { rows := rows[i := rows[i].(removed := Some(now))]; }
      }
    }

    /** The loop over the rows that are due; a row that cannot be deleted is kept for next time. */
    method DeleteDue(cutoff: int, f: Faults) returns (kept: seq<Row>, purged: nat, failed: nat)
      modifies this`blobs, this`vault
      ensures Stored() == Erased(old(Stored()), backend, DueAmong(rows, cutoff), f)
      ensures kept == KeptOf(rows, cutoff, backend, f)
      ensures purged + failed == CountDue(rows, cutoff) && failed == CountDue(kept, cutoff)
    {
      ghost var start := Stored();
      assert Erased(start, backend, DueAmong(rows[..0], cutoff), f) == start;
      kept, purged, failed := [], 0, 0;
      for i := 0 to |rows|
        invariant Stored() == Erased(start, backend, DueAmong(rows[..i], cutoff), f)
        invariant kept == KeptOf(rows[..i], cutoff, backend, f)
        invariant purged + failed == CountDue(rows[..i], cutoff) && failed == CountDue(kept, cutoff)
      {
        hide Erased;
        var r := rows[i];
        OneRowMore(start, backend, rows, i, cutoff, f);
        assert (kept + [r])[..|kept|] == kept;
        if DueForPurge(r, cutoff) {
          var ok := DeleteObjects(r, f);
          if ok { purged := purged + 1; } else { failed := failed + 1; kept := kept + [r]; }
        } else {
          kept := kept + [r];
        }
      }
      assert rows[..|rows|] == rows;
    }

    /** Rows whose objects are gone are deleted, the rest of the due ones stay and are counted
        as failed. */
    method PurgeRemovedFiles(now: int, cutoff: int, f: Faults) returns (purged: nat, failed: nat)
      requires DistinctIds(rows)
      modifies this
      ensures var due := DueAmong(MarkedAll(old(rows), now), cutoff);
              && Stored() == Erased(old(Stored()), backend, due, f)
              && Set(rows) == Applied(old(Set(rows)), EraseRows(Purged(backend, due, f), now))
      ensures purged + failed == CountDue(MarkedAll(old(rows), now), cutoff) && failed == CountDue(rows, cutoff)
    {
      ghost var before := rows;
      MarkOrphans(now);
      assert rows == MarkedAll(before, now);
      var kept, p, n := DeleteDue(cutoff, f);
      KeptIsApplied(before, now, cutoff, backend, f);
      rows := kept;
      return p, n;
    }

    /** A copy that is due and can be deleted goes, and the row forgets it. */
    method DeleteCopy(r: Row, closed: set<nat>, olderThan: int, f: Faults) returns (row: Row)
      requires backend.Vault?
      modifies this`blobs
      ensures row == WithoutCopy(backend, r, closed, olderThan, f)
      ensures blobs == old(blobs) - if CopyIsDue(r, closed, olderThan) && backend.copies && !OutcomeOf(f.working, r.id).FailedBefore?
                                    then {r.working.value} else {}
    {
      row := r;
      if CopyIsDue(r, closed, olderThan) && backend.copies {
        blobs := Drop(blobs, r.working.value, OutcomeOf(f.working, r.id));
        if OutcomeOf(f.working, r.id).Done? { row := r.(working := None); }
      }
    }

    method PurgeWorkingCopies(closed: set<nat>, olderThan: int, f: Faults) returns (purged: nat)
      modifies this
      ensures Stored() == old(Stored()).(blobs := old(blobs) - CopiesDropped(backend, CopiesDue(old(rows), closed, olderThan), f))
      ensures |rows| == |old(rows)|
      ensures forall i | 0 <= i < |rows| :: rows[i] == WithoutCopy(backend, old(rows)[i], closed, olderThan, f)
    {
      ghost var before, start := rows, blobs;
      purged := 0;
      if !backend.Vault? { return; }
      assert CopiesDropped(backend, CopiesDue(before[..0], closed, olderThan), f) == {};
      for i := 0 to |rows|
        invariant |rows| == |before| && vault == old(vault)
        invariant blobs == start - CopiesDropped(backend, CopiesDue(before[..i], closed, olderThan), f)
        invariant forall k | i <= k < |rows| :: rows[k] == before[k]
        invariant forall k | 0 <= k < i :: rows[k] == WithoutCopy(backend, before[k], closed, olderThan, f)
      {
        hide CopiesDropped, CopiesDue, WithoutCopy, CopyIsDue;
        OneCopyMore(backend, before, i, closed, olderThan, f);
        var row := DeleteCopy(rows[i], closed, olderThan, f);
        if row.working != rows[i].working { purged := purged + 1; }
        rows := rows[i := row];
      }
      assert before[..|before|] == before;
    }
  }

  function CopiesDue(rows: seq<Row>, closed: set<nat>, olderThan: int): set<Row> {
    set r | r in rows && CopyIsDue(r, closed, olderThan)
  }

  function WithoutCopy(b: Backend, r: Row, closed: set<nat>, olderThan: int, f: Faults): Row {
    if CopyIsDue(r, closed, olderThan) && b.Vault? && WorkingDone(b, r, f) then r.(working := None) else r
  }

  lemma OneCopyMore(b: Backend, rows: seq<Row>, i: nat, closed: set<nat>, olderThan: int, f: Faults)
    requires i < |rows| && b.Vault?
    ensures CopiesDropped(b, CopiesDue(rows[..i + 1], closed, olderThan), f)
            == CopiesDropped(b, CopiesDue(rows[..i], closed, olderThan), f)
               + if CopyIsDue(rows[i], closed, olderThan) && b.copies && !OutcomeOf(f.working, rows[i].id).FailedBefore?
                 then {rows[i].working.value} else {}
  {
    assert rows[..i + 1] == rows[..i] + [rows[i]];
    assert rows[i] in rows[..i + 1];
  }

  ghost predicate DistinctIds(rows: seq<Row>) {
    forall i, k | 0 <= i < k < |rows| :: rows[i].id != rows[k].id
  }

  function Set(rows: seq<Row>): set<Row> {
    set r | r in rows
  }

  function MarkedAll(rows: seq<Row>, now: int): seq<Row> {
    seq(|rows|, i requires 0 <= i < |rows| => Marked(rows[i], now))
  }

  function DueAmong(rows: seq<Row>, cutoff: int): set<Row> {
    set r | r in rows && DueForPurge(r, cutoff)
  }

  function CountDue(rows: seq<Row>, cutoff: int): nat {
    if rows == [] then 0
    else CountDue(rows[..|rows| - 1], cutoff) + if DueForPurge(rows[|rows| - 1], cutoff) then 1 else 0
  }

  function KeptOf(rows: seq<Row>, cutoff: int, b: Backend, f: Faults): seq<Row> {
    if rows == [] then []
    else
      var rest, last := KeptOf(rows[..|rows| - 1], cutoff, b, f), rows[|rows| - 1];
      if DueForPurge(last, cutoff) && MainDone(b, last, f) then rest else rest + [last]
  }

  lemma {:induction false} KeptAre(rows: seq<Row>, cutoff: int, b: Backend, f: Faults)
    ensures forall r :: r in KeptOf(rows, cutoff, b, f) <==> r in rows && !(DueForPurge(r, cutoff) && MainDone(b, r, f))
  {
    if rows != [] {
      var rest, last := rows[..|rows| - 1], rows[|rows| - 1];
      KeptAre(rest, cutoff, b, f);
      assert rows == rest + [last];
    }
  }

  lemma OneRowMore(o: Objects, b: Backend, rows: seq<Row>, i: nat, cutoff: int, f: Faults)
    requires i < |rows|
    ensures rows[..i + 1][..i] == rows[..i]
    ensures Erased(o, b, DueAmong(rows[..i + 1], cutoff), f)
            == if DueForPurge(rows[i], cutoff) then Erased(Erased(o, b, DueAmong(rows[..i], cutoff), f), b, {rows[i]}, f)
               else Erased(o, b, DueAmong(rows[..i], cutoff), f)
  {
    hide Erased, DueForPurge;
    assert rows[..i + 1] == rows[..i] + [rows[i]];
    if DueForPurge(rows[i], cutoff) {
      assert DueAmong(rows[..i + 1], cutoff) == DueAmong(rows[..i], cutoff) + {rows[i]};
    } else {
      assert DueAmong(rows[..i + 1], cutoff) == DueAmong(rows[..i], cutoff);
    }
    ErasedMore(o, b, DueAmong(rows[..i], cutoff), rows[i], f);
  }

  lemma KeptIsApplied(rows: seq<Row>, now: int, cutoff: int, b: Backend, f: Faults)
    requires DistinctIds(rows)
    ensures var marked := MarkedAll(rows, now);
            Set(KeptOf(marked, cutoff, b, f)) == Applied(Set(rows), EraseRows(Purged(b, DueAmong(marked, cutoff), f), now))
  {
    var marked := MarkedAll(rows, now);
    var due := DueAmong(marked, cutoff);
    KeptAre(marked, cutoff, b, f);
    forall r | r in rows
      ensures Marked(r, now) in marked
      ensures r.id in Purged(b, due, f) <==> DueForPurge(Marked(r, now), cutoff) && MainDone(b, Marked(r, now), f)
    {
      PurgedIs(rows, now, cutoff, b, f, r);
    }
    hide DueForPurge, MainDone, Marked, KeptOf, Purged;
    forall r | r in marked ensures exists q :: q in rows && Marked(q, now) == r {
      var i :| 0 <= i < |marked| && marked[i] == r;
      assert Marked(rows[i], now) == r;
    }
  }

  lemma PurgedIs(rows: seq<Row>, now: int, cutoff: int, b: Backend, f: Faults, r: Row)
    requires DistinctIds(rows) && r in rows
    ensures Marked(r, now) in MarkedAll(rows, now)
    ensures r.id in Purged(b, DueAmong(MarkedAll(rows, now), cutoff), f)
            <==> DueForPurge(Marked(r, now), cutoff) && MainDone(b, Marked(r, now), f)
  {
    hide DueForPurge, MainDone;
    var marked := MarkedAll(rows, now);
    var i :| 0 <= i < |rows| && rows[i] == r;
    assert marked[i] == Marked(r, now);
    forall q | q in marked && q.id == r.id ensures q == Marked(r, now) {
      var k :| 0 <= k < |marked| && marked[k] == q;
      assert rows[k].id == rows[i].id;
      assert k == i;
    }
  }

  lemma EachChanged(before: seq<Row>, after: seq<Row>, c: Change)
    requires |before| == |after| && forall k | 0 <= k < |after| :: after[k] == Changed(before[k], c)
    requires !c.AddRow? && !c.EraseRows?
    ensures Set(after) == Applied(Set(before), c)
  {
    forall r | r in Applied(Set(before), c) ensures r in Set(after) {
      var q :| q in before && r == Changed(q, c);
      var k :| 0 <= k < |before| && before[k] == q;
      assert after[k] == r;
    }
  }

  lemma ErasedOne(o: Objects, b: Backend, r: Row, f: Faults)
    ensures Erased(o, b, {r}, f)
            == Objects(
                 o.blobs - (if WorkingDropped(b, r, f) then {r.working.value} else {})
                         - (if MainDropped(b, r, f) && !(b.Vault? && r.key.InVault?) then {r.key} else {}),
                 o.vault - (if MainDropped(b, r, f) && b.Vault? && r.key.InVault? then {r.key} else {}))
  {
  }

  lemma ErasedMore(o: Objects, b: Backend, due: set<Row>, r: Row, f: Faults)
    ensures Erased(o, b, due + {r}, f) == Erased(Erased(o, b, due, f), b, {r}, f)
  {
    assert BlobsDropped(b, due + {r}, f) == BlobsDropped(b, due, f) + BlobsDropped(b, {r}, f);
    assert VaultDropped(b, due + {r}, f) == VaultDropped(b, due, f) + VaultDropped(b, {r}, f);
  }

  predicate IsSibling(r: Row, order: nat) {
    r.doc.Some? && r.doc.value.order == order && r.key.InVault?
  }

  function NewestSibling(rows: seq<Row>, order: nat): (newest: Option<Row>)
    ensures newest.Some? ==> newest.value in rows && IsSibling(newest.value, order)
    ensures newest.None? <==> forall r | r in rows :: !IsSibling(r, order)
  {
    if rows == [] then None
    else
      var rest, last := NewestSibling(rows[..|rows| - 1], order), rows[|rows| - 1];
      if IsSibling(last, order) && (rest.None? || last.id > rest.value.id) then Some(last) else rest
  }

  function Sibling(rows: seq<Row>, order: nat): Option<nat> {
    var newest := NewestSibling(rows, order);
    if newest.Some? then Some(newest.value.key.order) else None
  }
}
