/** Numbers that count 1, 2, 3 within each bureau: src/suliko/db/numbering.py and revision
    0016 (alembic/versions/0016_per_tenant_numbers.py).

    Sessions draw numbers, insert rows, commit and roll back in any interleaving. A session
    sees committed rows and its own (read committed), and the advisory lock on a table and
    tenant, here a `key`, is held to the end of the transaction. `NumbersAreApart` and
    `NumbersHaveNoGaps` hold over every run. */
module Numbering {
  import opened Options

  datatype Row = Row(id: nat, key: int, number: nat)

  /** A session and its transaction: the numbers drawn in the flush under way (kept in
      `session.info`, beyond the transaction), the rows numbered but not inserted, whether a
      flush is under way, what the transaction inserted and deleted, and the locks it holds. */
  datatype Session = Session(
    drawn: map<int, nat>, pending: seq<(int, nat)>, flushing: bool, inserted: set<Row>, deleted: set<Row>, locks: set<int>)

  const NEW_SESSION := Session(map[], [], false, {}, {}, {})

  datatype Db = Db(committed: set<Row>, sessions: map<nat, Session>)

  // ---- What a session sees ----

  ghost function ViewOf(committed: set<Row>, s: Session): set<Row> {
    (committed - s.deleted) + s.inserted
  }

  ghost function View(db: Db, a: nat): set<Row>
    requires a in db.sessions
  {
    ViewOf(db.committed, db.sessions[a])
  }

  ghost predicate IsHighest(rows: set<Row>, key: int, h: nat) {
    && (forall r | r in rows && r.key == key :: r.number <= h)
    && (h == 0 || exists r :: r in rows && r.key == key && r.number == h)
  }

  lemma {:induction false} HighestExists(rows: set<Row>, key: int) returns (h: nat)
    ensures IsHighest(rows, key, h)
  {
    if r :| r in rows {
      h := HighestExists(rows - {r}, key);
      assert rows == (rows - {r}) + {r};
      if r.key == key && r.number > h { h := r.number; }
      if h != 0 && !(r.key == key && r.number == h) {
        var q :| q in rows - {r} && q.key == key && q.number == h;
        assert q in rows;
      }
    } else {
      h := 0;
    }
  }

  /** `coalesce(max(number), 0)` */
  ghost function Highest(rows: set<Row>, key: int): (h: nat)
    ensures IsHighest(rows, key, h)
  {
    assert exists h: nat :: IsHighest(rows, key, h) by { var h := HighestExists(rows, key); }
    var h: nat :| IsHighest(rows, key, h);
    h
  }

  function Max(a: int, b: int): int { if a > b then a else b }

  function DrawnOf(drawn: map<int, nat>, key: int): nat {
    if key in drawn then drawn[key] else 0
  }

  /** The number a draw gives: above the highest seen, and above those of this flush. */
  function NextNumber(highest: nat, drawn: map<int, nat>, key: int): nat {
    Max(highest + 1, DrawnOf(drawn, key) + 1)
  }

  /** What the ORM's listener does to the session. */
  class SessionInfo {
    var drawn: map<int, nat>

    constructor ()
      ensures drawn == map[]
    {
      drawn := map[];
    }

    /** `_assign`; `highest` is what the database answers under the lock. */
    method Assign(given: Option<nat>, key: int, highest: nat) returns (number: nat)
      modifies this
      ensures given.Some? ==> number == given.value && drawn == old(drawn)
      ensures given.None? ==> number == NextNumber(highest, old(drawn), key) && drawn == old(drawn)[key := number]
      ensures given.None? ==> number > highest && forall k | k in old(drawn) && k == key :: number > old(drawn)[k]
    {
      if given.Some? { return given.value; }
      number := Max(highest + 1, DrawnOf(drawn, key) + 1);
      drawn := drawn[key := number];
    }

    /** `_forget_drawn`, after the flush */
    method Forget()
      modifies this
      ensures drawn == map[]
    {
      drawn := map[];
    }
  }

  // ---- Steps ----

  datatype Step =
    | Draw(a: nat, key: int)               // before_insert: lock, read the highest, draw
    | Insert(a: nat, id: nat)              // the INSERT of the oldest row numbered
    | FlushEnd(a: nat)                     // after_flush
    | Trigger(a: nat, key: int, id: nat)   // an INSERT around the ORM, numbered by the trigger
    | Delete(a: nat, row: Row)
    | Commit(a: nat)
    | Rollback(a: nat, kept: bool)         // `kept`: the session is used again after it

  ghost predicate LockFree(db: Db, a: nat, key: int) {
    forall b | b in db.sessions && b != a :: key !in db.sessions[b].locks
  }

  ghost predicate FreshId(db: Db, id: nat) {
    && (forall r | r in db.committed :: r.id != id)
    && forall b, r | b in db.sessions && r in db.sessions[b].inserted :: r.id != id
  }

  /** Whether a step can be taken: locks make a session wait, and a session runs one flush at
      a time. */
  ghost predicate Enabled(db: Db, step: Step) {
    step.a in db.sessions &&
    match step
    case Draw(a, key) => LockFree(db, a, key)
    case Insert(a, id) => db.sessions[a].pending != [] && db.sessions[a].flushing && FreshId(db, id)
    case FlushEnd(a) => db.sessions[a].flushing && db.sessions[a].pending == []
    case Trigger(a, key, id) => !db.sessions[a].flushing && LockFree(db, a, key) && FreshId(db, id)
    case Delete(a, row) =>
      !db.sessions[a].flushing && row in View(db, a) && forall b | b in db.sessions && b != a :: row !in db.sessions[b].deleted
    case Commit(a) => !db.sessions[a].flushing
    case Rollback(a, _) => true
  }

  function Drew(s: Session, key: int, number: nat): Session {
    s.(drawn := s.drawn[key := number], pending := s.pending + [(key, number)], flushing := true, locks := s.locks + {key})
  }

  function Inserted(s: Session, id: nat): Session
    requires s.pending != []
  {
    s.(pending := s.pending[1..], inserted := s.inserted + {Row(id, s.pending[0].0, s.pending[0].1)})
  }

  ghost function Apply(db: Db, step: Step): Db
    requires Enabled(db, step)
  {
    var s := db.sessions[step.a];
    match step
    case Draw(a, key) =>
      var number := NextNumber(Highest(View(db, a), key), s.drawn, key);
      db.(sessions := db.sessions[a := Drew(s, key, number)])
    case Insert(a, id) =>
      db.(sessions := db.sessions[a := Inserted(s, id)])
    case FlushEnd(a) =>
      db.(sessions := db.sessions[a := s.(drawn := map[], flushing := false)])
    case Trigger(a, key, id) =>
      var row := Row(id, key, Highest(View(db, a), key) + 1);
      db.(sessions := db.sessions[a := s.(inserted := s.inserted + {row}, locks := s.locks + {key})])
    case Delete(a, row) =>
      db.(sessions := db.sessions[a :=
        if row in s.inserted then s.(inserted := s.inserted - {row}) else s.(deleted := s.deleted + {row})])
    case Commit(a) =>
      Db(View(db, a), db.sessions[a := s.(inserted := {}, deleted := {}, locks := {})])
    case Rollback(a, kept) =>
      db.(sessions := db.sessions[a := if kept then NEW_SESSION.(drawn := s.drawn) else NEW_SESSION])
  }

  /** The states a run of steps leads to. */
  ghost predicate Reaches(db: Db, steps: seq<Step>, end: Db)
    decreases |steps|
  {
    if steps == [] then end == db
    else Enabled(db, steps[0]) && Reaches(Apply(db, steps[0]), steps[1..], end)
  }

  // ---- No two rows with one number ----

  ghost predicate Distinct(rows: set<Row>) {
    forall r, q | r in rows && q in rows && r.key == q.key && r.number == q.number :: r == q
  }

  /** A session's rows and numbers are its own: it holds their locks, and none is on a row it
      sees. */
  ghost predicate SessionApart(committed: set<Row>, s: Session) {
    var seen := ViewOf(committed, s);
    && s.deleted <= committed && Distinct(seen) && (s.pending != [] ==> s.flushing)
    && (forall r | r in s.inserted :: r.key in s.locks)
    && (forall r, q | r in s.inserted && q in committed :: r.id != q.id)
    && (forall i | 0 <= i < |s.pending| :: PendingApart(s, seen, s.pending[i].0, s.pending[i].1))
    && (forall i, j | 0 <= i < j < |s.pending| && s.pending[i].0 == s.pending[j].0 :: s.pending[i].1 != s.pending[j].1)
  }

  ghost predicate PendingApart(s: Session, seen: set<Row>, key: int, number: nat) {
    key in s.locks && number <= DrawnOf(s.drawn, key) && forall r | r in seen && r.key == key :: r.number != number
  }

  /** Two sessions share no lock, no deleted row and no id. */
  ghost predicate PairApart(s: Session, t: Session) {
    s.locks !! t.locks && s.deleted !! t.deleted && forall r, q | r in s.inserted && q in t.inserted :: r.id != q.id
  }

  ghost predicate Apart(db: Db) {
    && Distinct(db.committed)
    && (forall a | a in db.sessions :: SessionApart(db.committed, db.sessions[a]))
    && (forall a, b | a in db.sessions && b in db.sessions && a != b :: PairApart(db.sessions[a], db.sessions[b]))
  }

  /** What a session does to itself leaves the others as they were. */
  lemma OneSession(db: Db, a: nat, s: Session)
    requires Apart(db) && a in db.sessions && SessionApart(db.committed, s)
    requires forall b | b in db.sessions && b != a :: PairApart(s, db.sessions[b]) && PairApart(db.sessions[b], s)
    ensures Apart(db.(sessions := db.sessions[a := s]))
  {
    hide Distinct, SessionApart, PairApart;
  }

  lemma PartApart(db: Db, a: nat)
    requires Apart(db) && a in db.sessions
    ensures SessionApart(db.committed, db.sessions[a])
  {
  }

  lemma NothingPending(committed: set<Row>, s: Session)
    requires SessionApart(committed, s) && !s.flushing
    ensures s.pending == []
  {
  }

  lemma DrawApart(db: Db, a: nat, key: int)
    requires Apart(db) && Enabled(db, Draw(a, key))
    ensures Apart(Apply(db, Draw(a, key)))
  {
    hide SessionApart;
    var s, after := db.sessions[a], Apply(db, Draw(a, key)).sessions[a];
    PartApart(db, a);
    DrawSession(db.committed, s, key);
    forall b | b in db.sessions && b != a ensures PairApart(after, db.sessions[b]) && PairApart(db.sessions[b], after) {
      assert PairApart(s, db.sessions[b]) && key !in db.sessions[b].locks;
    }
    OneSession(db, a, after);
  }

  lemma DrawSession(committed: set<Row>, s: Session, key: int)
    requires SessionApart(committed, s)
    ensures var number := NextNumber(Highest(ViewOf(committed, s), key), s.drawn, key);
            SessionApart(committed, Drew(s, key, number))
  {
    var number := NextNumber(Highest(ViewOf(committed, s), key), s.drawn, key);
    var t := Drew(s, key, number);
    assert ViewOf(committed, t) == ViewOf(committed, s);
    forall i | 0 <= i < |t.pending| ensures PendingApart(t, ViewOf(committed, t), t.pending[i].0, t.pending[i].1) {
      if i < |s.pending| { assert PendingApart(s, ViewOf(committed, s), s.pending[i].0, s.pending[i].1); }
    }
    forall i, j | 0 <= i < j < |t.pending| && t.pending[i].0 == t.pending[j].0 ensures t.pending[i].1 != t.pending[j].1 {
      assert PendingApart(s, ViewOf(committed, s), s.pending[i].0, s.pending[i].1);
    }
  }

  lemma InsertApart(db: Db, a: nat, id: nat)
    requires Apart(db) && Enabled(db, Insert(a, id))
    ensures Apart(Apply(db, Insert(a, id)))
  {
    hide SessionApart;
    var s, after := db.sessions[a], Apply(db, Insert(a, id)).sessions[a];
    PartApart(db, a);
    InsertSession(db.committed, s, id);
    forall b | b in db.sessions && b != a ensures PairApart(after, db.sessions[b]) && PairApart(db.sessions[b], after) {
      assert PairApart(s, db.sessions[b]) && PairApart(db.sessions[b], s);
    }
    OneSession(db, a, after);
  }

  lemma InsertSession(committed: set<Row>, s: Session, id: nat)
    requires SessionApart(committed, s) && s.pending != [] && forall q | q in committed :: q.id != id
    ensures SessionApart(committed, Inserted(s, id))
  {
    var row := Row(id, s.pending[0].0, s.pending[0].1);
    var t := Inserted(s, id);
    assert PendingApart(s, ViewOf(committed, s), s.pending[0].0, s.pending[0].1);
    assert ViewOf(committed, t) == ViewOf(committed, s) + {row};
    DistinctMore(ViewOf(committed, s), row);
    forall i | 0 <= i < |t.pending| ensures PendingApart(t, ViewOf(committed, t), t.pending[i].0, t.pending[i].1) {
      assert t.pending[i] == s.pending[i + 1];
      assert PendingApart(s, ViewOf(committed, s), s.pending[i + 1].0, s.pending[i + 1].1);
    }
  }

  lemma DistinctMore(rows: set<Row>, row: Row)
    requires Distinct(rows) && forall r | r in rows && r.key == row.key :: r.number != row.number
    ensures Distinct(rows + {row})
  {
  }

  lemma TriggerApart(db: Db, a: nat, key: int, id: nat)
    requires Apart(db) && Enabled(db, Trigger(a, key, id))
    ensures Apart(Apply(db, Trigger(a, key, id)))
  {
    hide SessionApart;
    var s, after := db.sessions[a], Apply(db, Trigger(a, key, id)).sessions[a];
    PartApart(db, a);
    NothingPending(db.committed, s);
    TriggerSession(db.committed, s, key, id);
    forall b | b in db.sessions && b != a ensures PairApart(after, db.sessions[b]) && PairApart(db.sessions[b], after) {
      assert PairApart(s, db.sessions[b]) && PairApart(db.sessions[b], s) && key !in db.sessions[b].locks;
    }
    OneSession(db, a, after);
  }

  lemma TriggerSession(committed: set<Row>, s: Session, key: int, id: nat)
    requires SessionApart(committed, s) && s.pending == [] && forall q | q in committed :: q.id != id
    ensures var row := Row(id, key, Highest(ViewOf(committed, s), key) + 1);
            SessionApart(committed, s.(inserted := s.inserted + {row}, locks := s.locks + {key}))
  {
    var row := Row(id, key, Highest(ViewOf(committed, s), key) + 1);
    assert ViewOf(committed, s.(inserted := s.inserted + {row}, locks := s.locks + {key})) == ViewOf(committed, s) + {row};
    DistinctMore(ViewOf(committed, s), row);
  }

  lemma DeleteApart(db: Db, a: nat, row: Row)
    requires Apart(db) && Enabled(db, Delete(a, row))
    ensures Apart(Apply(db, Delete(a, row)))
  {
    var s, after := db.sessions[a], Apply(db, Delete(a, row)).sessions[a];
    assert SessionApart(db.committed, s);
    DeleteSession(db.committed, s, row);
    hide SessionApart;
    forall b | b in db.sessions && b != a ensures PairApart(after, db.sessions[b]) && PairApart(db.sessions[b], after) {
      assert PairApart(s, db.sessions[b]) && PairApart(db.sessions[b], s) && row !in db.sessions[b].deleted;
    }
    OneSession(db, a, after);
  }

  lemma DeleteSession(committed: set<Row>, s: Session, row: Row)
    requires SessionApart(committed, s) && row in ViewOf(committed, s)
    ensures SessionApart(committed, if row in s.inserted then s.(inserted := s.inserted - {row}) else s.(deleted := s.deleted + {row}))
  {
    var t := if row in s.inserted then s.(inserted := s.inserted - {row}) else s.(deleted := s.deleted + {row});
    assert ViewOf(committed, t) <= ViewOf(committed, s);
    forall i | 0 <= i < |t.pending| ensures PendingApart(t, ViewOf(committed, t), t.pending[i].0, t.pending[i].1) {
      assert PendingApart(s, ViewOf(committed, s), s.pending[i].0, s.pending[i].1);
    }
  }

  lemma FlushApart(db: Db, a: nat)
    requires Apart(db) && Enabled(db, FlushEnd(a))
    ensures Apart(Apply(db, FlushEnd(a)))
  {
    var s, after := db.sessions[a], Apply(db, FlushEnd(a)).sessions[a];
    assert SessionApart(db.committed, s);
    assert ViewOf(db.committed, after) == ViewOf(db.committed, s);
    forall b | b in db.sessions && b != a ensures PairApart(after, db.sessions[b]) && PairApart(db.sessions[b], after) {
      assert PairApart(s, db.sessions[b]) && PairApart(db.sessions[b], s);
    }
    OneSession(db, a, after);
  }

  /** A session that holds nothing is apart from any. */
  lemma BareApart(committed: set<Row>, t: Session)
    requires Distinct(committed) && t.pending == [] && t.inserted == {} && t.deleted == {}
    ensures SessionApart(committed, t)
  {
    assert ViewOf(committed, t) == committed;
  }

  lemma RollbackApart(db: Db, a: nat, kept: bool)
    requires Apart(db) && Enabled(db, Rollback(a, kept))
    ensures Apart(Apply(db, Rollback(a, kept)))
  {
    hide SessionApart, Distinct;
    var after := Apply(db, Rollback(a, kept)).sessions[a];
    BareApart(db.committed, after);
    OneSession(db, a, after);
  }

  lemma SeenAreDistinct(committed: set<Row>, s: Session)
    requires SessionApart(committed, s)
    ensures Distinct(ViewOf(committed, s))
  {
  }

  /** Committing gives the others rows whose keys they do not number. */
  lemma CommitApart(db: Db, a: nat)
    requires Apart(db) && Enabled(db, Commit(a))
    ensures Apart(Apply(db, Commit(a)))
  {
    hide SessionApart, Distinct;
    var s, after := db.sessions[a], Apply(db, Commit(a));
    PartApart(db, a);
    NothingPending(db.committed, s);
    SeenAreDistinct(db.committed, s);
    BareApart(after.committed, after.sessions[a]);
    forall b | b in after.sessions && b != a ensures SessionApart(after.committed, after.sessions[b]) {
      PartApart(db, b);
      assert PairApart(s, db.sessions[b]);
      CommitSession(db.committed, s, db.sessions[b]);
    }
    forall b, c | b in after.sessions && c in after.sessions && b != c
      ensures PairApart(after.sessions[b], after.sessions[c])
    {
      assert PairApart(db.sessions[b], db.sessions[c]);
    }
  }

  lemma CommitSession(committed: set<Row>, s: Session, t: Session)
    requires SessionApart(committed, s) && SessionApart(committed, t) && PairApart(s, t)
    ensures SessionApart(ViewOf(committed, s), t)
  {
    var after := ViewOf(committed, s);
    var seen := ViewOf(after, t);
    assert seen <= ViewOf(committed, t) + s.inserted;
    forall r, q | r in seen && q in seen && r.key == q.key && r.number == q.number ensures r == q {
      if r in s.inserted || q in s.inserted {
        assert r !in t.inserted && q !in t.inserted;
        assert r in after && q in after;
      } else {
        assert r in ViewOf(committed, t) && q in ViewOf(committed, t);
      }
    }
    forall i | 0 <= i < |t.pending| ensures PendingApart(t, seen, t.pending[i].0, t.pending[i].1) {
      assert PendingApart(t, ViewOf(committed, t), t.pending[i].0, t.pending[i].1);
    }
  }

  lemma StepApart(db: Db, step: Step)
    requires Apart(db) && Enabled(db, step)
    ensures Apart(Apply(db, step))
  {
    hide Apart, Enabled, Apply;
    match step {
      case Draw(a, key) => DrawApart(db, a, key);
      case Insert(a, id) => InsertApart(db, a, id);
      case FlushEnd(a) => FlushApart(db, a);
      case Trigger(a, key, id) => TriggerApart(db, a, key, id);
      case Delete(a, row) => DeleteApart(db, a, row);
      case Commit(a) => CommitApart(db, a);
      case Rollback(a, kept) => RollbackApart(db, a, kept);
    }
  }

  /** Over every run: in what is committed, and in what any session sees, no two rows of a
      tenant have the same number; no number drawn is on a row its session sees, so the
      unique constraint behind it never has to refuse; and no two sessions number one tenant
      at once. */
  lemma {:induction false} NumbersAreApart(db: Db, steps: seq<Step>, end: Db)
    requires Apart(db) && Reaches(db, steps, end)
    ensures Apart(end)
    decreases |steps|
  {
    hide Apart, Enabled, Apply;
    if steps != [] {
      StepApart(db, steps[0]);
      NumbersAreApart(Apply(db, steps[0]), steps[1..], end);
    }
  }

  // ---- No gaps ----

  ghost predicate HasNumber(rows: set<Row>, pending: seq<(int, nat)>, key: int, m: nat) {
    (exists r :: r in rows && r.key == key && r.number == m) || (key, m) in pending
  }

  /** The numbers of a key are exactly 1 to `n`. */
  ghost predicate UpTo(rows: set<Row>, pending: seq<(int, nat)>, key: int, n: nat) {
    forall m: nat :: 1 <= m <= n <==> HasNumber(rows, pending, key, m)
  }

  /** The numbers of a key's rows count 1, 2, 3. */
  ghost predicate CountsUp(rows: set<Row>, key: int) {
    exists n: nat :: UpTo(rows, [], key, n)
  }

  /** They are exactly 1 to some `n`, and nothing drawn is beyond it. */
  ghost predicate Counting(rows: set<Row>, s: Session, key: int) {
    exists n: nat :: UpTo(rows, s.pending, key, n) && DrawnOf(s.drawn, key) <= n
  }

  ghost predicate SessionCounting(committed: set<Row>, s: Session) {
    && s.deleted == {} && (!s.flushing ==> s.drawn == map[])
    && (forall key | key in s.drawn :: key in s.locks)
    && forall key :: Counting(ViewOf(committed, s), s, key)
  }

  ghost predicate Gapless(db: Db) {
    && (forall key :: Counting(db.committed, NEW_SESSION, key))
    && (forall a | a in db.sessions :: SessionCounting(db.committed, db.sessions[a]))
  }

  /** A draw gives the number after the last one in use, exactly when nothing stale was drawn. */
  lemma DrawIsNext(rows: set<Row>, s: Session, key: int, n: nat)
    requires UpTo(rows, s.pending, key, n)
    requires forall i | 0 <= i < |s.pending| :: s.pending[i].1 <= DrawnOf(s.drawn, s.pending[i].0)
    ensures NextNumber(Highest(rows, key), s.drawn, key) == n + 1 <==> DrawnOf(s.drawn, key) <= n
  {
    var h := Highest(rows, key);
    assert h == 0 || HasNumber(rows, s.pending, key, h);
    if n > 0 {
      assert HasNumber(rows, s.pending, key, n);
      if (key, n) in s.pending {
        var i :| 0 <= i < |s.pending| && s.pending[i] == (key, n);
        assert s.pending[i].1 <= DrawnOf(s.drawn, s.pending[i].0);
      }
    }
  }

  lemma DrawCounts(committed: set<Row>, s: Session, key: int)
    requires SessionApart(committed, s) && SessionCounting(committed, s)
    ensures SessionCounting(committed, Drew(s, key, NextNumber(Highest(ViewOf(committed, s), key), s.drawn, key)))
  {
    var seen := ViewOf(committed, s);
    var number := NextNumber(Highest(seen, key), s.drawn, key);
    var t := Drew(s, key, number);
    assert ViewOf(committed, t) == seen;
    forall k ensures Counting(seen, t, k) {
      assert Counting(seen, s, k);
      var n: nat :| UpTo(seen, s.pending, k, n) && DrawnOf(s.drawn, k) <= n;
      if k == key {
        assert forall i | 0 <= i < |s.pending| :: PendingApart(s, seen, s.pending[i].0, s.pending[i].1);
        DrawIsNext(seen, s, key, n);
        forall m: nat ensures 1 <= m <= n + 1 <==> HasNumber(seen, t.pending, k, m) {
          assert HasNumber(seen, t.pending, k, m) <==> HasNumber(seen, s.pending, k, m) || m == number;
        }
        assert UpTo(seen, t.pending, k, n + 1);
      } else {
        forall m: nat ensures 1 <= m <= n <==> HasNumber(seen, t.pending, k, m) {
          assert HasNumber(seen, t.pending, k, m) <==> HasNumber(seen, s.pending, k, m);
        }
        assert UpTo(seen, t.pending, k, n);
      }
    }
  }

  lemma InsertCounts(committed: set<Row>, s: Session, id: nat)
    requires SessionCounting(committed, s) && s.pending != [] && s.flushing
    ensures SessionCounting(committed, Inserted(s, id))
  {
    var seen, t := ViewOf(committed, s), Inserted(s, id);
    var row := Row(id, s.pending[0].0, s.pending[0].1);
    assert ViewOf(committed, t) == seen + {row};
    forall k ensures Counting(seen + {row}, t, k) {
      assert Counting(seen, s, k);
      var n: nat :| UpTo(seen, s.pending, k, n) && DrawnOf(s.drawn, k) <= n;
      forall m: nat ensures 1 <= m <= n <==> HasNumber(seen + {row}, t.pending, k, m) {
        InsertKeepsNumbers(seen, s.pending, row, k, m);
      }
      assert UpTo(seen + {row}, t.pending, k, n);
    }
  }

  lemma InsertKeepsNumbers(seen: set<Row>, pending: seq<(int, nat)>, row: Row, k: int, m: nat)
    requires pending != [] && row.key == pending[0].0 && row.number == pending[0].1
    ensures HasNumber(seen + {row}, pending[1..], k, m) <==> HasNumber(seen, pending, k, m)
  {
    if (k, m) in pending && (k, m) !in pending[1..] {
      assert pending == [pending[0]] + pending[1..];
      assert row in seen + {row};
    }
  }

  lemma TriggerCounts(committed: set<Row>, s: Session, key: int, id: nat)
    requires SessionApart(committed, s) && SessionCounting(committed, s) && !s.flushing
    ensures var row := Row(id, key, Highest(ViewOf(committed, s), key) + 1);
            SessionCounting(committed, s.(inserted := s.inserted + {row}, locks := s.locks + {key}))
  {
    var seen := ViewOf(committed, s);
    var row := Row(id, key, Highest(seen, key) + 1);
    var t := s.(inserted := s.inserted + {row}, locks := s.locks + {key});
    assert ViewOf(committed, t) == seen + {row};
    forall k ensures Counting(seen + {row}, t, k) {
      assert Counting(seen, s, k);
      var n: nat :| UpTo(seen, s.pending, k, n) && DrawnOf(s.drawn, k) <= n;
      DrawIsNext(seen, s, k, n);
      forall m: nat ensures HasNumber(seen + {row}, [], k, m) <==> HasNumber(seen, [], k, m) || (k == key && m == row.number) {
        assert row in seen + {row};
      }
      assert UpTo(seen + {row}, t.pending, k, if k == key then n + 1 else n);
    }
  }

  lemma FlushCounts(committed: set<Row>, s: Session)
    requires SessionCounting(committed, s) && s.pending == []
    ensures SessionCounting(committed, s.(drawn := map[], flushing := false))
  {
    var t := s.(drawn := map[], flushing := false);
    assert ViewOf(committed, t) == ViewOf(committed, s);
    forall k ensures Counting(ViewOf(committed, t), t, k) {
      assert Counting(ViewOf(committed, s), s, k);
      var n: nat :| UpTo(ViewOf(committed, s), s.pending, k, n) && DrawnOf(s.drawn, k) <= n;
      assert UpTo(ViewOf(committed, t), t.pending, k, n);
    }
  }

  lemma FreshCounts(committed: set<Row>)
    requires forall key :: Counting(committed, NEW_SESSION, key)
    ensures SessionCounting(committed, NEW_SESSION)
  {
    assert ViewOf(committed, NEW_SESSION) == committed;
  }

  /** For the others a commit only adds rows of keys they have nothing of. */
  lemma CommitCounts(committed: set<Row>, s: Session, t: Session)
    requires SessionApart(committed, s) && SessionCounting(committed, s) && !s.flushing
    requires SessionApart(committed, t) && SessionCounting(committed, t) && PairApart(s, t)
    ensures SessionCounting(ViewOf(committed, s), t)
  {
    var after := ViewOf(committed, s);
    forall k ensures Counting(ViewOf(after, t), t, k) {
      if k in s.locks {
        assert k !in t.locks && DrawnOf(t.drawn, k) == 0;
        assert Counting(after, s, k);
        var n: nat :| UpTo(after, s.pending, k, n) && DrawnOf(s.drawn, k) <= n;
        forall m: nat ensures HasNumber(ViewOf(after, t), t.pending, k, m) <==> HasNumber(after, [], k, m) {
          NothingOf(committed, t, k, m);
        }
        assert s.pending == [];
        assert UpTo(ViewOf(after, t), t.pending, k, n);
      } else {
        var seen := ViewOf(committed, t);
        assert Counting(seen, t, k);
        var n: nat :| UpTo(seen, t.pending, k, n) && DrawnOf(t.drawn, k) <= n;
        assert forall r: Row | r.key == k :: r in ViewOf(after, t) <==> r in seen;
        forall m: nat ensures HasNumber(ViewOf(after, t), t.pending, k, m) <==> HasNumber(seen, t.pending, k, m) {
        }
        assert UpTo(ViewOf(after, t), t.pending, k, n);
      }
    }
  }

  lemma NothingOf(committed: set<Row>, t: Session, k: int, m: nat)
    requires SessionApart(committed, t) && k !in t.locks
    ensures (k, m) !in t.pending && forall r | r in t.inserted :: r.key != k
  {
    forall i | 0 <= i < |t.pending| ensures t.pending[i] != (k, m) {
      assert PendingApart(t, ViewOf(committed, t), t.pending[i].0, t.pending[i].1);
    }
  }

  /** Neither a delete nor the use of a session again after its flush failed. */
  predicate Ordinary(db: Db, step: Step) {
    step.a in db.sessions && !step.Delete? && !(step.Rollback? && step.kept && db.sessions[step.a].flushing)
  }

  ghost predicate OrdinaryRun(db: Db, steps: seq<Step>)
    decreases |steps|
  {
    steps == [] || (Enabled(db, steps[0]) && Ordinary(db, steps[0]) && OrdinaryRun(Apply(db, steps[0]), steps[1..]))
  }

  lemma StepGapless(db: Db, step: Step)
    requires Apart(db) && Gapless(db) && Enabled(db, step) && Ordinary(db, step)
    ensures Gapless(Apply(db, step))
  {
    var a := step.a;
    var s, after := db.sessions[a], Apply(db, step);
    assert SessionApart(db.committed, s) && SessionCounting(db.committed, s);
    match step {
      case Draw(_, key) => DrawCounts(db.committed, s, key);
      case Insert(_, id) => InsertCounts(db.committed, s, id);
      case FlushEnd(_) => FlushCounts(db.committed, s);
      case Trigger(_, key, id) => TriggerCounts(db.committed, s, key, id);
      case Rollback(_, _) => FreshCounts(db.committed);
      case Commit(_) => CommitGapless(db, a);
    }
    hide SessionCounting, Counting, Apart, Enabled, SessionApart;
    if !step.Commit? {
      forall b | b in after.sessions ensures SessionCounting(after.committed, after.sessions[b]) {
        if b != a { assert after.sessions[b] == db.sessions[b]; }
      }
    }
  }

  lemma CommitGapless(db: Db, a: nat)
    requires Apart(db) && Gapless(db) && Enabled(db, Commit(a))
    ensures Gapless(Apply(db, Commit(a)))
  {
    var s, after := db.sessions[a], Apply(db, Commit(a));
    assert SessionApart(db.committed, s) && SessionCounting(db.committed, s);
    forall key ensures Counting(after.committed, NEW_SESSION, key) {
      assert Counting(ViewOf(db.committed, s), s, key);
      var n: nat :| UpTo(after.committed, s.pending, key, n) && DrawnOf(s.drawn, key) <= n;
      assert UpTo(after.committed, NEW_SESSION.pending, key, n);
    }
    FreshCounts(after.committed);
    assert after.sessions[a] == NEW_SESSION;
    forall b | b in after.sessions ensures SessionCounting(after.committed, after.sessions[b]) {
      if b != a {
        assert SessionApart(db.committed, db.sessions[b]) && SessionCounting(db.committed, db.sessions[b]);
        assert PairApart(s, db.sessions[b]);
        CommitCounts(db.committed, s, db.sessions[b]);
      }
    }
  }

  /** Over every run of draws, inserts, triggers, commits and rollbacks in which no session
      goes on after a failed flush: the committed numbers of each tenant are exactly 1 to n. */
  lemma {:induction false} NumbersHaveNoGaps(db: Db, steps: seq<Step>, end: Db)
    requires Apart(db) && Gapless(db) && Reaches(db, steps, end) && OrdinaryRun(db, steps)
    ensures forall key :: CountsUp(end.committed, key)
    ensures Gapless(end)
    decreases |steps|
  {
    if steps == [] {
      forall key ensures CountsUp(end.committed, key) {
        assert Counting(end.committed, NEW_SESSION, key);
        var n: nat :| UpTo(end.committed, NEW_SESSION.pending, key, n) && DrawnOf(NEW_SESSION.drawn, key) <= n;
        assert UpTo(end.committed, [], key, n);
      }
    } else {
      hide Apart, Gapless, Enabled, Apply, CountsUp;
      StepApart(db, steps[0]);
      StepGapless(db, steps[0]);
      NumbersHaveNoGaps(Apply(db, steps[0]), steps[1..], end);
    }
  }

  // ---- Exactly when there is a gap ----

  /** The numbers a session sees of a key, with those it has drawn for rows to come, count up. */
  ghost predicate Even(committed: set<Row>, s: Session, key: int) {
    exists n: nat :: UpTo(ViewOf(committed, s), s.pending, key, n)
  }

  ghost predicate SessionEven(committed: set<Row>, s: Session) {
    s.deleted == {} && forall key :: Even(committed, s, key)
  }

  ghost predicate AllEven(db: Db) {
    && (forall key :: CountsUp(db.committed, key))
    && (forall a | a in db.sessions :: SessionEven(db.committed, db.sessions[a]))
  }

  /** What the session drew last for the key, if it still remembers any, is in use. */
  ghost predicate LastDrawnIsUsed(committed: set<Row>, s: Session, key: int) {
    DrawnOf(s.drawn, key) == 0 || HasNumber(ViewOf(committed, s), s.pending, key, DrawnOf(s.drawn, key))
  }

  ghost predicate DrawsFresh(db: Db, step: Step) {
    step.a in db.sessions && (step.Draw? ==> LastDrawnIsUsed(db.committed, db.sessions[step.a], step.key))
  }

  ghost predicate DrawsFreshRun(db: Db, steps: seq<Step>)
    decreases |steps|
  {
    steps == [] || (Enabled(db, steps[0]) && DrawsFresh(db, steps[0]) && DrawsFreshRun(Apply(db, steps[0]), steps[1..]))
  }

  ghost predicate AlwaysEven(db: Db, steps: seq<Step>)
    decreases |steps|
  {
    AllEven(db) && (steps == [] || (Enabled(db, steps[0]) && AlwaysEven(Apply(db, steps[0]), steps[1..])))
  }

  lemma HighestIs(rows: set<Row>, key: int, n: nat)
    requires UpTo(rows, [], key, n)
    ensures Highest(rows, key) == n
  {
    var h := Highest(rows, key);
    if h != 0 { assert HasNumber(rows, [], key, h); }
    if n != 0 { assert HasNumber(rows, [], key, n); }
  }

  lemma DrawEven(committed: set<Row>, s: Session, key: int)
    requires SessionApart(committed, s) && SessionEven(committed, s)
    ensures var number := NextNumber(Highest(ViewOf(committed, s), key), s.drawn, key);
            SessionEven(committed, Drew(s, key, number)) <==> LastDrawnIsUsed(committed, s, key)
  {
    var seen := ViewOf(committed, s);
    var number := NextNumber(Highest(seen, key), s.drawn, key);
    var t := Drew(s, key, number);
    assert ViewOf(committed, t) == seen && Even(committed, s, key);
    var n: nat :| UpTo(seen, s.pending, key, n);
    assert forall i | 0 <= i < |s.pending| :: PendingApart(s, seen, s.pending[i].0, s.pending[i].1);
    DrawIsNext(seen, s, key, n);
    forall k, m: nat ensures HasNumber(seen, t.pending, k, m) <==> HasNumber(seen, s.pending, k, m) || (k == key && m == number) {
    }
    if number == n + 1 {
      assert UpTo(seen, t.pending, key, n + 1);
      forall k ensures Even(committed, t, k) {
        assert Even(committed, s, k);
        if k != key {
          var i: nat :| UpTo(seen, s.pending, k, i);
          assert UpTo(seen, t.pending, k, i);
        }
      }
    } else {
      SkippedIsUneven(seen, t.pending, key, n, number);
      assert !Even(committed, t, key);
    }
  }

  lemma SkippedIsUneven(rows: set<Row>, pending: seq<(int, nat)>, key: int, n: nat, number: nat)
    requires number > n + 1 && forall m: nat :: HasNumber(rows, pending, key, m) <==> 1 <= m <= n || m == number
    ensures forall i: nat :: !UpTo(rows, pending, key, i)
  {
    forall i: nat ensures !UpTo(rows, pending, key, i) {
      assert !HasNumber(rows, pending, key, n + 1) && HasNumber(rows, pending, key, number);
    }
  }

  lemma InsertEven(committed: set<Row>, s: Session, id: nat)
    requires SessionEven(committed, s) && s.pending != []
    ensures SessionEven(committed, Inserted(s, id))
  {
    var seen, t := ViewOf(committed, s), Inserted(s, id);
    var row := Row(id, s.pending[0].0, s.pending[0].1);
    assert ViewOf(committed, t) == seen + {row};
    forall k ensures Even(committed, t, k) {
      assert Even(committed, s, k);
      var n: nat :| UpTo(seen, s.pending, k, n);
      forall m: nat ensures HasNumber(seen + {row}, t.pending, k, m) <==> HasNumber(seen, s.pending, k, m) {
        InsertKeepsNumbers(seen, s.pending, row, k, m);
      }
      assert UpTo(seen + {row}, t.pending, k, n);
    }
  }

  lemma TriggerEven(committed: set<Row>, s: Session, key: int, id: nat)
    requires SessionEven(committed, s) && s.pending == []
    ensures var row := Row(id, key, Highest(ViewOf(committed, s), key) + 1);
            SessionEven(committed, s.(inserted := s.inserted + {row}, locks := s.locks + {key}))
  {
    var seen := ViewOf(committed, s);
    var row := Row(id, key, Highest(seen, key) + 1);
    var t := s.(inserted := s.inserted + {row}, locks := s.locks + {key});
    assert ViewOf(committed, t) == seen + {row};
    forall k ensures Even(committed, t, k) {
      assert Even(committed, s, k);
      var n: nat :| UpTo(seen, [], k, n);
      HighestIs(seen, k, n);
      forall m: nat ensures HasNumber(seen + {row}, [], k, m) <==> HasNumber(seen, [], k, m) || (k == key && m == row.number) {
        assert row in seen + {row};
      }
      assert UpTo(seen + {row}, t.pending, k, if k == key then n + 1 else n);
    }
  }

  lemma SameViewEven(committed: set<Row>, s: Session, t: Session)
    requires SessionEven(committed, s) && t.deleted == s.deleted && t.inserted == s.inserted && t.pending == s.pending
    ensures SessionEven(committed, t)
  {
    forall k ensures Even(committed, t, k) {
      assert Even(committed, s, k);
      var n: nat :| UpTo(ViewOf(committed, s), s.pending, k, n);
      assert ViewOf(committed, t) == ViewOf(committed, s) && UpTo(ViewOf(committed, t), t.pending, k, n);
    }
  }

  lemma BareEven(committed: set<Row>, t: Session)
    requires (forall key :: CountsUp(committed, key)) && t.deleted == {} && t.inserted == {} && t.pending == []
    ensures SessionEven(committed, t)
  {
    assert ViewOf(committed, t) == committed;
    forall k ensures Even(committed, t, k) {
      assert CountsUp(committed, k);
      var n: nat :| UpTo(committed, [], k, n);
      assert UpTo(ViewOf(committed, t), t.pending, k, n);
    }
  }

  lemma CommitEven(committed: set<Row>, s: Session, t: Session)
    requires SessionApart(committed, s) && SessionEven(committed, s) && s.pending == []
    requires SessionApart(committed, t) && SessionEven(committed, t) && PairApart(s, t)
    ensures SessionEven(ViewOf(committed, s), t)
  {
    var after := ViewOf(committed, s);
    forall k ensures Even(after, t, k) {
      if k in s.locks {
        assert Even(committed, s, k);
        var n: nat :| UpTo(after, s.pending, k, n);
        forall m: nat ensures HasNumber(ViewOf(after, t), t.pending, k, m) <==> HasNumber(after, [], k, m) {
          NothingOf(committed, t, k, m);
        }
        assert UpTo(ViewOf(after, t), t.pending, k, n);
      } else {
        var seen := ViewOf(committed, t);
        assert Even(committed, t, k);
        var n: nat :| UpTo(seen, t.pending, k, n);
        assert forall r: Row | r.key == k :: r in ViewOf(after, t) <==> r in seen;
        forall m: nat ensures HasNumber(ViewOf(after, t), t.pending, k, m) <==> HasNumber(seen, t.pending, k, m) {
        }
        assert UpTo(ViewOf(after, t), t.pending, k, n);
      }
    }
  }

  lemma CommitAllEven(db: Db, a: nat)
    requires Apart(db) && AllEven(db) && Enabled(db, Commit(a))
    ensures AllEven(Apply(db, Commit(a)))
  {
    var s, after := db.sessions[a], Apply(db, Commit(a));
    assert SessionApart(db.committed, s) && SessionEven(db.committed, s);
    forall key ensures CountsUp(after.committed, key) {
      assert Even(db.committed, s, key);
      var n: nat :| UpTo(after.committed, [], key, n);
    }
    BareEven(after.committed, after.sessions[a]);
    forall b | b in after.sessions ensures SessionEven(after.committed, after.sessions[b]) {
      if b != a {
        assert SessionApart(db.committed, db.sessions[b]) && SessionEven(db.committed, db.sessions[b]);
        assert PairApart(s, db.sessions[b]);
        CommitEven(db.committed, s, db.sessions[b]);
      }
    }
  }

  /** What a step other than a commit leaves of the session that takes it. */
  lemma OwnStepEven(db: Db, step: Step)
    requires Apart(db) && AllEven(db) && Enabled(db, step) && !step.Delete? && !step.Commit?
    ensures SessionEven(db.committed, Apply(db, step).sessions[step.a]) <==> DrawsFresh(db, step)
  {
    hide Apart, SessionApart, LastDrawnIsUsed, SessionEven;
    var s, t := db.sessions[step.a], Apply(db, step).sessions[step.a];
    ItsOwn(db, step.a);
    match step {
      case Draw(_, key) => DrawEven(db.committed, s, key);
      case Insert(_, id) => InsertEven(db.committed, s, id);
      case FlushEnd(_) => SameViewEven(db.committed, s, t);
      case Trigger(_, key, id) => NothingPending(db.committed, s); TriggerEven(db.committed, s, key, id);
      case Rollback(_, _) => BareEven(db.committed, t);
    }
  }

  lemma ItsOwn(db: Db, a: nat)
    requires Apart(db) && AllEven(db) && a in db.sessions
    ensures SessionApart(db.committed, db.sessions[a]) && SessionEven(db.committed, db.sessions[a])
  {
  }

  lemma StepEven(db: Db, step: Step)
    requires Apart(db) && AllEven(db) && Enabled(db, step) && !step.Delete?
    ensures AllEven(Apply(db, step)) <==> DrawsFresh(db, step)
  {
    hide SessionEven, Apart, LastDrawnIsUsed, CountsUp;
    if step.Commit? {
      CommitAllEven(db, step.a);
    } else {
      OwnStepEven(db, step);
      var after := Apply(db, step);
      forall b | b in after.sessions && b != step.a ensures after.sessions[b] == db.sessions[b] {}
    }
  }

  /** Over every run without deletes, kept sessions included: in everything committed or seen the
      numbers of each tenant count 1, 2, 3 throughout, exactly when no session draws while the last
      number it remembers drawing is not in use, its row having been rolled back. */
  lemma {:induction false} GapsExactly(db: Db, steps: seq<Step>, end: Db)
    requires Apart(db) && AllEven(db) && Reaches(db, steps, end) && forall i | 0 <= i < |steps| :: !steps[i].Delete?
    ensures AlwaysEven(db, steps) <==> DrawsFreshRun(db, steps)
    ensures DrawsFreshRun(db, steps) ==> AllEven(end)
    decreases |steps|
  {
    hide Apart, AllEven, Enabled, Apply, DrawsFresh;
    if steps != [] {
      StepApart(db, steps[0]);
      StepEven(db, steps[0]);
      if AllEven(Apply(db, steps[0])) {
        GapsExactly(Apply(db, steps[0]), steps[1..], end);
      } else {
        assert !AlwaysEven(Apply(db, steps[0]), steps[1..]);
      }
    }
  }

  // ---- Exactly when a gap is committed ----

  /** The session holds a gap of its own. */
  ghost predicate Uneven(committed: set<Row>, s: Session) {
    s.deleted == {} && exists key :: key in s.locks && !Even(committed, s, key)
  }

  /** `skipped` are the sessions that drew a stale number in their transaction: the gap it left is in
      their view, and in no other. */
  ghost predicate Tracked(db: Db, skipped: set<nat>) {
    && (forall key :: CountsUp(db.committed, key))
    && (forall a | a in db.sessions :: if a in skipped then Uneven(db.committed, db.sessions[a]) else SessionEven(db.committed, db.sessions[a]))
  }

  ghost function SkippedAfter(db: Db, skipped: set<nat>, step: Step): set<nat> {
    match step
    case Draw(a, _) => if DrawsFresh(db, step) then skipped else skipped + {a}
    case Commit(a) => skipped - {a}
    case Rollback(a, _) => skipped - {a}
    case _ => skipped
  }

  /** No session that skipped a number commits. */
  ghost predicate CleanRun(db: Db, skipped: set<nat>, steps: seq<Step>)
    decreases |steps|
  {
    steps == []
    || (&& Enabled(db, steps[0]) && (steps[0].Commit? ==> steps[0].a !in skipped)
        && CleanRun(Apply(db, steps[0]), SkippedAfter(db, skipped, steps[0]), steps[1..]))
  }

  ghost predicate CommittedCount(db: Db) {
    forall key :: CountsUp(db.committed, key)
  }

  ghost predicate AlwaysCommittedCount(db: Db, steps: seq<Step>)
    decreases |steps|
  {
    CommittedCount(db) && (steps == [] || (Enabled(db, steps[0]) && AlwaysCommittedCount(Apply(db, steps[0]), steps[1..])))
  }

  /** A number above all others, taken away from numbers that count up, leaves numbers that do. */
  lemma LastTaken(rows: set<Row>, pending: seq<(int, nat)>, more: set<Row>, pending': seq<(int, nat)>, key: int, number: nat, n: nat)
    requires UpTo(more, pending', key, n) && number > 0
    requires forall m: nat :: HasNumber(more, pending', key, m) <==> HasNumber(rows, pending, key, m) || m == number
    requires forall m: nat | HasNumber(rows, pending, key, m) :: m < number
    ensures n > 0 && UpTo(rows, pending, key, n - 1)
  {
    assert HasNumber(more, pending', key, number);
    assert !HasNumber(more, pending', key, number + 1);
    forall m: nat ensures 1 <= m <= n - 1 <==> HasNumber(rows, pending, key, m) {
      assert HasNumber(more, pending', key, m) <==> 1 <= m <= n;
    }
  }

  lemma BelowNext(committed: set<Row>, s: Session, key: int, m: nat)
    requires SessionApart(committed, s) && HasNumber(ViewOf(committed, s), s.pending, key, m)
    ensures m < NextNumber(Highest(ViewOf(committed, s), key), s.drawn, key)
    ensures s.pending == [] ==> m <= Highest(ViewOf(committed, s), key)
  {
    if (key, m) in s.pending {
      var i :| 0 <= i < |s.pending| && s.pending[i] == (key, m);
      assert PendingApart(s, ViewOf(committed, s), s.pending[i].0, s.pending[i].1);
    }
  }

  lemma EvenBeforeDraw(committed: set<Row>, s: Session, key: int, k: int)
    requires SessionApart(committed, s)
    ensures Even(committed, Drew(s, key, NextNumber(Highest(ViewOf(committed, s), key), s.drawn, key)), k) ==> Even(committed, s, k)
  {
    var seen := ViewOf(committed, s);
    var number := NextNumber(Highest(seen, key), s.drawn, key);
    var t := Drew(s, key, number);
    assert ViewOf(committed, t) == seen;
    forall m: nat ensures HasNumber(seen, t.pending, k, m) <==> HasNumber(seen, s.pending, k, m) || (k == key && m == number) {
    }
    if Even(committed, t, k) {
      var n: nat :| UpTo(seen, t.pending, k, n);
      if k == key {
        forall m: nat | HasNumber(seen, s.pending, k, m) ensures m < number { BelowNext(committed, s, key, m); }
        LastTaken(seen, s.pending, seen, t.pending, k, number, n);
        assert UpTo(ViewOf(committed, s), s.pending, k, n - 1);
      } else {
        assert UpTo(ViewOf(committed, s), s.pending, k, n);
      }
    }
  }

  lemma DrawUneven(committed: set<Row>, s: Session, key: int)
    requires SessionApart(committed, s) && Uneven(committed, s)
    ensures Uneven(committed, Drew(s, key, NextNumber(Highest(ViewOf(committed, s), key), s.drawn, key)))
  {
    hide Even, SessionApart;
    forall k { EvenBeforeDraw(committed, s, key, k); }
  }

  lemma EvenElsewhere(committed: set<Row>, s: Session, key: int, number: nat, k: int)
    requires Even(committed, s, k) && k != key
    ensures Even(committed, Drew(s, key, number), k)
  {
    var t := Drew(s, key, number);
    var n: nat :| UpTo(ViewOf(committed, s), s.pending, k, n);
    assert ViewOf(committed, t) == ViewOf(committed, s);
    forall m: nat ensures HasNumber(ViewOf(committed, s), t.pending, k, m) <==> HasNumber(ViewOf(committed, s), s.pending, k, m) {
    }
    assert UpTo(ViewOf(committed, t), t.pending, k, n);
  }

  lemma StaleDraw(committed: set<Row>, s: Session, key: int)
    requires SessionApart(committed, s) && SessionEven(committed, s) && !LastDrawnIsUsed(committed, s, key)
    ensures Uneven(committed, Drew(s, key, NextNumber(Highest(ViewOf(committed, s), key), s.drawn, key)))
  {
    hide SessionApart, Even, LastDrawnIsUsed;
    DrawEven(committed, s, key);
    forall k | k != key { EvenElsewhere(committed, s, key, NextNumber(Highest(ViewOf(committed, s), key), s.drawn, key), k); }
  }

  lemma EvenBeforeInsert(committed: set<Row>, s: Session, id: nat, k: int)
    requires s.pending != []
    ensures Even(committed, Inserted(s, id), k) ==> Even(committed, s, k)
  {
    var seen, t := ViewOf(committed, s), Inserted(s, id);
    var row := Row(id, s.pending[0].0, s.pending[0].1);
    InsertedView(committed, s, id);
    if Even(committed, t, k) {
      var n: nat :| UpTo(seen + {row}, t.pending, k, n);
      forall m: nat ensures HasNumber(seen + {row}, t.pending, k, m) <==> HasNumber(seen, s.pending, k, m) {
        InsertKeepsNumbers(seen, s.pending, row, k, m);
      }
      assert UpTo(seen, s.pending, k, n);
    }
  }

  lemma InsertedView(committed: set<Row>, s: Session, id: nat)
    requires s.pending != []
    ensures ViewOf(committed, Inserted(s, id)) == ViewOf(committed, s) + {Row(id, s.pending[0].0, s.pending[0].1)}
  {
  }

  lemma InsertUneven(committed: set<Row>, s: Session, id: nat)
    requires Uneven(committed, s) && s.pending != []
    ensures Uneven(committed, Inserted(s, id))
  {
    hide Even;
    forall k { EvenBeforeInsert(committed, s, id, k); }
  }

  lemma EvenBeforeTrigger(committed: set<Row>, s: Session, key: int, id: nat, k: int)
    requires SessionApart(committed, s) && s.pending == []
    ensures var row := Row(id, key, Highest(ViewOf(committed, s), key) + 1);
            Even(committed, s.(inserted := s.inserted + {row}, locks := s.locks + {key}), k) ==> Even(committed, s, k)
  {
    var seen := ViewOf(committed, s);
    var row := Row(id, key, Highest(seen, key) + 1);
    var t := s.(inserted := s.inserted + {row}, locks := s.locks + {key});
    assert ViewOf(committed, t) == seen + {row};
    forall m: nat ensures HasNumber(seen + {row}, [], k, m) <==> HasNumber(seen, [], k, m) || (k == key && m == row.number) {
      assert row in seen + {row};
    }
    if Even(committed, t, k) {
      var n: nat :| UpTo(seen + {row}, [], k, n);
      if k == key {
        forall m: nat | HasNumber(seen, [], k, m) ensures m < row.number { BelowNext(committed, s, key, m); }
        LastTaken(seen, [], seen + {row}, [], k, row.number, n);
        assert UpTo(seen, s.pending, k, n - 1);
      } else {
        assert UpTo(seen, s.pending, k, n);
      }
    }
  }

  lemma TriggerUneven(committed: set<Row>, s: Session, key: int, id: nat)
    requires SessionApart(committed, s) && Uneven(committed, s) && s.pending == []
    ensures var row := Row(id, key, Highest(ViewOf(committed, s), key) + 1);
            Uneven(committed, s.(inserted := s.inserted + {row}, locks := s.locks + {key}))
  {
    hide Even, SessionApart;
    forall k { EvenBeforeTrigger(committed, s, key, id, k); }
  }

  lemma SameViewUneven(committed: set<Row>, s: Session, t: Session)
    requires Uneven(committed, s) && t.deleted == s.deleted && t.inserted == s.inserted && t.pending == s.pending && t.locks == s.locks
    ensures Uneven(committed, t)
  {
    var k :| k in s.locks && !Even(committed, s, k);
    assert ViewOf(committed, t) == ViewOf(committed, s);
    assert !Even(committed, t, k);
  }

  lemma EvenBeforeCommit(committed: set<Row>, s: Session, t: Session, k: int)
    requires SessionApart(committed, s) && s.deleted == {} && PairApart(s, t) && k in t.locks
    ensures Even(ViewOf(committed, s), t, k) ==> Even(committed, t, k)
  {
    var after := ViewOf(committed, s);
    assert forall r: Row | r.key == k :: r in ViewOf(after, t) <==> r in ViewOf(committed, t);
    forall m: nat ensures HasNumber(ViewOf(after, t), t.pending, k, m) <==> HasNumber(ViewOf(committed, t), t.pending, k, m) {
    }
    if Even(after, t, k) {
      var n: nat :| UpTo(ViewOf(after, t), t.pending, k, n);
      assert UpTo(ViewOf(committed, t), t.pending, k, n);
    }
  }

  /** Another's commit brings no rows of a key this one holds. */
  lemma CommitUneven(committed: set<Row>, s: Session, t: Session)
    requires SessionApart(committed, s) && s.deleted == {} && PairApart(s, t) && Uneven(committed, t)
    ensures Uneven(ViewOf(committed, s), t)
  {
    hide Even, SessionApart;
    forall k | k in t.locks { EvenBeforeCommit(committed, s, t, k); }
  }

  lemma EvenWhereCounted(committed: set<Row>, s: Session, k: int)
    requires s.pending == []
    ensures CountsUp(ViewOf(committed, s), k) ==> Even(committed, s, k)
  {
    if CountsUp(ViewOf(committed, s), k) {
      var n: nat :| UpTo(ViewOf(committed, s), [], k, n);
      assert UpTo(ViewOf(committed, s), s.pending, k, n);
    }
  }

  /** Committing a gap leaves it in the committed numbers. */
  lemma GapIsCommitted(committed: set<Row>, s: Session)
    requires Uneven(committed, s) && s.pending == []
    ensures exists key :: !CountsUp(ViewOf(committed, s), key)
  {
    hide Even, CountsUp;
    forall k { EvenWhereCounted(committed, s, k); }
  }

  lemma CommitTracked(db: Db, skipped: set<nat>, a: nat)
    requires Apart(db) && Tracked(db, skipped) && Enabled(db, Commit(a)) && a !in skipped
    ensures Tracked(Apply(db, Commit(a)), skipped)
  {
    hide SessionApart, SessionEven, Uneven, CountsUp;
    var s, after := db.sessions[a], Apply(db, Commit(a));
    PartApart(db, a);
    NothingPending(db.committed, s);
    EvenCounts(db.committed, s);
    BareEven(after.committed, after.sessions[a]);
    forall b | b in after.sessions && b != a
      ensures if b in skipped then Uneven(after.committed, after.sessions[b]) else SessionEven(after.committed, after.sessions[b])
    {
      PartApart(db, b);
      assert PairApart(s, db.sessions[b]);
      if b in skipped {
        CommitUneven(db.committed, s, db.sessions[b]);
      } else {
        CommitEven(db.committed, s, db.sessions[b]);
      }
    }
  }

  lemma EvenCounts(committed: set<Row>, s: Session)
    requires SessionEven(committed, s) && s.pending == []
    ensures s.deleted == {} && forall key :: CountsUp(ViewOf(committed, s), key)
  {
    forall key ensures CountsUp(ViewOf(committed, s), key) {
      assert Even(committed, s, key);
      var n: nat :| UpTo(ViewOf(committed, s), [], key, n);
    }
  }

  /** What a step other than a commit leaves of the session that takes it. */
  lemma OwnStepTracked(db: Db, skipped: set<nat>, step: Step)
    requires Apart(db) && Tracked(db, skipped) && Enabled(db, step) && !step.Delete? && !step.Commit?
    ensures var t := Apply(db, step).sessions[step.a];
            if step.a in SkippedAfter(db, skipped, step) then Uneven(db.committed, t) else SessionEven(db.committed, t)
  {
    hide SessionApart, SessionEven, Uneven, CountsUp, LastDrawnIsUsed;
    var a := step.a;
    var s, t := db.sessions[a], Apply(db, step).sessions[a];
    PartApart(db, a);
    match step {
      case Draw(_, key) =>
        if a in skipped {
          DrawUneven(db.committed, s, key);
        } else if LastDrawnIsUsed(db.committed, s, key) {
          DrawEven(db.committed, s, key);
        } else {
          StaleDraw(db.committed, s, key);
        }
      case Insert(_, id) => if a in skipped { InsertUneven(db.committed, s, id); } else { InsertEven(db.committed, s, id); }
      case FlushEnd(_) => if a in skipped { SameViewUneven(db.committed, s, t); } else { SameViewEven(db.committed, s, t); }
      case Trigger(_, key, id) =>
        NothingPending(db.committed, s);
        if a in skipped { TriggerUneven(db.committed, s, key, id); } else { TriggerEven(db.committed, s, key, id); }
      case Rollback(_, _) => BareEven(db.committed, t);
    }
  }

  lemma StepTracked(db: Db, skipped: set<nat>, step: Step)
    requires Apart(db) && Tracked(db, skipped) && Enabled(db, step) && !step.Delete?
    ensures if step.Commit? && step.a in skipped then !CommittedCount(Apply(db, step))
            else Tracked(Apply(db, step), SkippedAfter(db, skipped, step))
  {
    hide SessionEven, Uneven, Apart, CountsUp, DrawsFresh;
    if step.Commit? {
      if step.a in skipped {
        PartApart(db, step.a);
        NothingPending(db.committed, db.sessions[step.a]);
        GapIsCommitted(db.committed, db.sessions[step.a]);
      } else {
        CommitTracked(db, skipped, step.a);
        assert skipped - {step.a} == skipped;
      }
    } else {
      OwnStepTracked(db, skipped, step);
      var after := Apply(db, step);
      forall b | b in after.sessions && b != step.a ensures after.sessions[b] == db.sessions[b] {}
    }
  }

  lemma TrackedCounts(db: Db, skipped: set<nat>)
    requires Tracked(db, skipped)
    ensures CommittedCount(db)
  {
  }

  /** Over every run without deletes, kept sessions included: the committed numbers of each tenant
      count 1, 2, 3 throughout, exactly when no transaction commits in which a number was drawn
      while the last one the session remembered was not in use. */
  lemma {:induction false} CommittedGapsExactly(db: Db, skipped: set<nat>, steps: seq<Step>, end: Db)
    requires Apart(db) && Tracked(db, skipped) && Reaches(db, steps, end) && forall i | 0 <= i < |steps| :: !steps[i].Delete?
    ensures AlwaysCommittedCount(db, steps) <==> CleanRun(db, skipped, steps)
    ensures CleanRun(db, skipped, steps) ==> CommittedCount(end)
    decreases |steps|
  {
    hide Apart, Tracked, Enabled, Apply, SkippedAfter, CommittedCount;
    TrackedCounts(db, skipped);
    if steps != [] {
      StepApart(db, steps[0]);
      StepTracked(db, skipped, steps[0]);
      if steps[0].Commit? && steps[0].a in skipped {
        assert !AlwaysCommittedCount(Apply(db, steps[0]), steps[1..]);
      } else {
        CommittedGapsExactly(Apply(db, steps[0]), SkippedAfter(db, skipped, steps[0]), steps[1..], end);
      }
    }
  }

  /** A state with no gap anywhere begins such a run. */
  lemma EvenIsTracked(db: Db)
    requires AllEven(db)
    ensures Tracked(db, {})
  {
  }

  /** Within a flush a draw gives the same number whether or not the rows numbered before it
      were inserted yet. */
  lemma DrawsIgnoreInserts(committed: set<Row>, s: Session, id: nat, key: int)
    requires SessionApart(committed, s) && s.pending != []
    ensures NextNumber(Highest(ViewOf(committed, s), key), s.drawn, key)
            == NextNumber(Highest(ViewOf(committed, Inserted(s, id)), key), s.drawn, key)
  {
    var seen, t := ViewOf(committed, s), Inserted(s, id);
    var row := Row(id, s.pending[0].0, s.pending[0].1);
    assert PendingApart(s, seen, s.pending[0].0, s.pending[0].1);
    assert ViewOf(committed, t) == seen + {row};
    var h, h' := Highest(seen, key), Highest(seen + {row}, key);
    if h != 0 {
      var r :| r in seen && r.key == key && r.number == h;
      assert r in seen + {row};
    }
    assert row in seen + {row};
  }

  /** A session kept after a failed flush still counts on from what it drew: its next row
      skips a number, and the bureau's first order is its second. */
  lemma KeptSessionLeavesAGap()
    ensures exists steps, end :: Reaches(Db({}, map[0 := NEW_SESSION]), steps, end)
                                 && end.committed == {Row(0, 7, 2)} && !CountsUp(end.committed, 7)
  {
    var failed, again := [Draw(0, 7), Rollback(0, true), Draw(0, 7)], [Insert(0, 0), FlushEnd(0), Commit(0)];
    var middle := Db({}, map[0 := Session(map[7 := 2], [(7, 2)], true, {}, {}, {7})]);
    var end := Db({Row(0, 7, 2)}, map[0 := NEW_SESSION]);
    FailsOnce(failed, middle);
    ThenCommits(middle, again, end);
    ReachesConcat(Db({}, map[0 := NEW_SESSION]), failed, middle, again, end);
    assert Row(0, 7, 2) in end.committed;
    assert HasNumber(end.committed, [], 7, 2) && !HasNumber(end.committed, [], 7, 1);
  }

  lemma FailsOnce(steps: seq<Step>, end: Db)
    requires steps == [Draw(0, 7), Rollback(0, true), Draw(0, 7)]
    requires end == Db({}, map[0 := Session(map[7 := 2], [(7, 2)], true, {}, {}, {7})])
    ensures Reaches(Db({}, map[0 := NEW_SESSION]), steps, end)
  {
    var d0 := Db({}, map[0 := NEW_SESSION]);
    var d1 := Db({}, map[0 := Session(map[7 := 1], [(7, 1)], true, {}, {}, {7})]);
    var d2 := Db({}, map[0 := NEW_SESSION.(drawn := map[7 := 1])]);
    assert View(d0, 0) == {} && View(d2, 0) == {} && Highest({}, 7) == 0;
    var e: map<int, nat> := map[];
    assert e[7 := 1] == map[7 := 1] && map[7 := 1][7 := 2] == map[7 := 2] && {} + {7} == {7};
    assert Drew(NEW_SESSION, 7, 1) == d1.sessions[0];
    assert Apply(d0, steps[0]).sessions == d1.sessions;
    assert Apply(d1, steps[1]).sessions == d2.sessions;
    assert NextNumber(0, map[7 := 1], 7) == 2;
    assert Drew(d2.sessions[0], 7, 2) == end.sessions[0];
    assert Apply(d2, steps[2]).sessions == end.sessions;
    ReachThree(d0, d1, d2, end, steps);
  }

  lemma ThenCommits(db: Db, steps: seq<Step>, end: Db)
    requires steps == [Insert(0, 0), FlushEnd(0), Commit(0)]
    requires db == Db({}, map[0 := Session(map[7 := 2], [(7, 2)], true, {}, {}, {7})])
    requires end == Db({Row(0, 7, 2)}, map[0 := NEW_SESSION])
    ensures Reaches(db, steps, end)
  {
    var d1 := Db({}, map[0 := Session(map[7 := 2], [], true, {Row(0, 7, 2)}, {}, {7})]);
    var d2 := Db({}, map[0 := Session(map[], [], false, {Row(0, 7, 2)}, {}, {7})]);
    assert Inserted(db.sessions[0], 0).inserted == {Row(0, 7, 2)};
    assert db.sessions[0].pending[1..] == [];
    assert Inserted(db.sessions[0], 0) == d1.sessions[0];
    assert Apply(db, steps[0]).sessions == d1.sessions;
    assert Apply(d1, steps[1]).sessions == d2.sessions;
    assert View(d2, 0) == {Row(0, 7, 2)};
    assert Apply(d2, steps[2]).sessions == end.sessions;
    ReachThree(db, d1, d2, end, steps);
  }

  lemma ReachThree(d0: Db, d1: Db, d2: Db, d3: Db, steps: seq<Step>)
    requires |steps| == 3
    requires Enabled(d0, steps[0]) && d1 == Apply(d0, steps[0])
    requires Enabled(d1, steps[1]) && d2 == Apply(d1, steps[1])
    requires Enabled(d2, steps[2]) && d3 == Apply(d2, steps[2])
    ensures Reaches(d0, steps, d3)
  {
    hide Enabled, Apply;
    assert steps[1..][0] == steps[1] && steps[1..][1..] == [steps[2]];
    assert Reaches(d3, [steps[2]][1..], d3);
    assert Reaches(d2, [steps[2]], d3) && Reaches(d1, steps[1..], d3);
  }

  lemma {:induction false} ReachesConcat(db: Db, xs: seq<Step>, middle: Db, ys: seq<Step>, end: Db)
    requires Reaches(db, xs, middle) && Reaches(middle, ys, end)
    ensures Reaches(db, xs + ys, end)
    decreases |xs|
  {
    hide Enabled, Apply;
    if xs == [] {
      assert xs + ys == ys;
    } else {
      ReachesConcat(Apply(db, xs[0]), xs[1..], middle, ys, end);
      assert (xs + ys)[0] == xs[0] && (xs + ys)[1..] == xs[1..] + ys;
    }
  }

  // ---- The backfill ----

  /** A row before it is numbered. */
  datatype Plain = Plain(id: nat, key: int)

  /** The ids of a tenant up to one of them: `row_number() OVER (ORDER BY id)`. */
  function IdsUpTo(rows: set<Plain>, key: int, id: nat): set<nat> {
    set r | r in rows && r.key == key && r.id <= id :: r.id
  }

  function Rank(rows: set<Plain>, key: int, id: nat): nat {
    |IdsUpTo(rows, key, id)|
  }

  /** The rows of these tenants, numbered by rank. */
  function Ranked(rows: set<Plain>, keys: set<int>): set<Row> {
    set r | r in rows && r.key in keys :: Row(r.id, r.key, Rank(rows, r.key, r.id))
  }

  /** The migration's loop over the tenants. */
  method Backfill(rows: set<Plain>, tenants: seq<int>) returns (numbered: set<Row>)
    ensures numbered == Ranked(rows, set i | 0 <= i < |tenants| :: tenants[i])
  {
    numbered := {};
    for i := 0 to |tenants|
      invariant numbered == Ranked(rows, set j | 0 <= j < i :: tenants[j])
    {
      hide Rank;
      var t := tenants[i];
      numbered := numbered + set r | r in rows && r.key == t :: Row(r.id, r.key, Rank(rows, r.key, r.id));
    }
  }

  lemma RankBounds(rows: set<Plain>, r: Plain)
    requires r in rows
    ensures 1 <= Rank(rows, r.key, r.id)
    ensures forall q | q in rows && q.key == r.key && q.id < r.id :: Rank(rows, r.key, q.id) < Rank(rows, r.key, r.id)
  {
    var ids := IdsUpTo(rows, r.key, r.id);
    assert r.id in ids;
    forall q | q in rows && q.key == r.key && q.id < r.id ensures Rank(rows, r.key, q.id) < Rank(rows, r.key, r.id) {
      var before := IdsUpTo(rows, r.key, q.id);
      assert before <= ids - {r.id};
      Smaller(before, ids - {r.id});
      assert |ids - {r.id}| == |ids| - 1;
    }
  }

  lemma {:induction false} Smaller(a: set<nat>, b: set<nat>)
    requires a <= b
    ensures |a| <= |b|
  {
    assert b == a + (b - a);
  }

  /** Every rank up to a row's own is some row's. */
  lemma {:induction false} RanksAreAllTaken(rows: set<Plain>, r: Plain, m: nat) returns (q: Plain)
    requires r in rows && 1 <= m <= Rank(rows, r.key, r.id)
    ensures q in rows && q.key == r.key && Rank(rows, r.key, q.id) == m
    decreases r.id
  {
    if Rank(rows, r.key, r.id) == m { return r; }
    var ids := IdsUpTo(rows, r.key, r.id);
    assert r.id in ids;
    var rest := ids - {r.id};
    assert |rest| == |ids| - 1 && rest != {};
    var top := Largest(rest);
    var p :| p in rows && p.key == r.key && p.id == top;
    assert IdsUpTo(rows, r.key, p.id) == rest;
    q := RanksAreAllTaken(rows, p, m);
  }

  lemma {:induction false} Largest(ids: set<nat>) returns (top: nat)
    requires ids != {}
    ensures top in ids && forall i | i in ids :: i <= top
    decreases |ids|
  {
    top :| top in ids;
    var rest := ids - {top};
    assert ids == rest + {top};
    if rest != {} {
      var t := Largest(rest);
      if t > top { top := t; }
    }
  }

  /** The backfill numbers each tenant's rows 1 to n, in the order of their ids; numbering
      begins from there without gaps. */
  lemma BackfillBegins(rows: set<Plain>, keys: set<int>, sessions: set<nat>)
    requires forall r, q | r in rows && q in rows && r.id == q.id :: r == q
    ensures var db := Db(Ranked(rows, keys), map a | a in sessions :: NEW_SESSION);
            Apart(db) && Gapless(db)
  {
    var numbered := Ranked(rows, keys);
    forall r, q | r in numbered && q in numbered && r.key == q.key && r.number == q.number ensures r == q {
      RankBounds(rows, Plain(r.id, r.key));
      RankBounds(rows, Plain(q.id, q.key));
    }
    forall key ensures Counting(numbered, NEW_SESSION, key) {
      var n := Highest(numbered, key);
      forall m: nat ensures 1 <= m <= n <==> HasNumber(numbered, [], key, m) {
        if 1 <= m <= n {
          var top :| top in numbered && top.key == key && top.number == n;
          var q := RanksAreAllTaken(rows, Plain(top.id, key), m);
          assert Row(q.id, key, m) in numbered;
        } else if HasNumber(numbered, [], key, m) {
          var r :| r in numbered && r.key == key && r.number == m;
          RankBounds(rows, Plain(r.id, key));
        }
      }
      assert UpTo(numbered, NEW_SESSION.pending, key, n);
    }
    FreshCounts(numbered);
    assert ViewOf(numbered, NEW_SESSION) == numbered;
  }

  /** And in the order the rows were created. */
  lemma BackfillKeepsOrder(rows: set<Plain>, keys: set<int>, r: Row, q: Row)
    requires r in Ranked(rows, keys) && q in Ranked(rows, keys) && r.key == q.key
    ensures r.id < q.id <==> r.number < q.number
  {
    RankBounds(rows, Plain(r.id, r.key));
    RankBounds(rows, Plain(q.id, q.key));
  }
}
