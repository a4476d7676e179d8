/** The queue of files waiting for Claude: src/suliko/domain/claude_translate.py, with the
    moves its two callers make (src/suliko/api/v1/claude_translate.py and claude_worker.py).

    Every move but one is an UPDATE that names the state it moves from, so a run of any number
    of workers and staff is a sequence of moves in which a move that comes too late does
    nothing. The exception is `StaleFail`. Instants are integers, in minutes. */
module JobQueue {
  import opened Options

  datatype Status = Queued | Translating | Translated | Failed | Cancelled

  datatype Job = Job(id: nat, created: int, status: Status, attempts: nat, started: Option<int>)

  datatype Settings = Settings(stuckMinutes: int, maxAttempts: nat)

  datatype Move =
    | Claim(now: int)          // a worker takes it
    | ClaimGone(now: int)      // its file was removed while it waited
    | Timeout(now: int)        // `requeue_stuck`
    | ReportFailed             // the worker gives up
    | ReportLater              // the worker asks to try later
    | PostResult               // the worker files the translation
    | StaleFail                // `post_result` of a removed document: written without a check
    | Cancel                   // staff
    | Retry                    // staff

  predicate Stuck(s: Settings, j: Job, now: int) {
    j.status == Translating && j.started.Some? && j.started.value < now - s.stuckMinutes
  }

  predicate Takes(s: Settings, j: Job, move: Move) {
    match move
    case Claim(_) => j.status == Queued
    case ClaimGone(_) => j.status == Queued
    case Timeout(now) => Stuck(s, j, now)
    case ReportFailed => j.status == Translating
    case ReportLater => j.status == Translating
    case PostResult => j.status == Translating
    case StaleFail => true
    case Cancel => j.status == Queued
    case Retry => j.status == Failed
  }

  /** What a move leaves; nothing happens where the job is not in the state it moves from. */
  function After(s: Settings, j: Job, move: Move): Job {
    if !Takes(s, j, move) then j
    else
      match move
      case Claim(now) => j.(status := Translating, started := Some(now), attempts := j.attempts + 1)
      case ClaimGone(now) => j.(status := Failed, started := Some(now), attempts := j.attempts + 1)
      case Timeout(_) => j.(status := if j.attempts >= s.maxAttempts then Failed else Queued)
      case ReportFailed => j.(status := Failed)
      case ReportLater => j.(status := Queued, attempts := if j.attempts > 0 then j.attempts - 1 else 0)
      case PostResult => j.(status := Translated)
      case StaleFail => j.(status := Failed)
      case Cancel => j.(status := Cancelled)
      case Retry => j.(status := Queued, attempts := 0, started := None)
  }

  function Run(s: Settings, j: Job, moves: seq<Move>): Job {
    if moves == [] then j else After(s, Run(s, j, moves[..|moves| - 1]), moves[|moves| - 1])
  }

  // ---- Attempts ----

  predicate Bounded(s: Settings, j: Job) {
    && j.attempts <= s.maxAttempts
    && (j.status == Queued ==> j.attempts < s.maxAttempts)
    && (j.status == Translating ==> j.attempts > 0 && j.started.Some?)
  }

  /** Whatever happens to a job, its attempts stay within the maximum, and while it waits there
      is one left. */
  lemma {:induction false} AttemptsAreBounded(s: Settings, j: Job, moves: seq<Move>)
    requires s.maxAttempts > 0 && Bounded(s, j)
    ensures Bounded(s, Run(s, j, moves))
  {
    if moves != [] { AttemptsAreBounded(s, j, moves[..|moves| - 1]); }
  }

  /** The claims of a run since its last retry, less those the worker gave back. */
  function ClaimsHeld(s: Settings, j: Job, moves: seq<Move>): int {
    if moves == [] then j.attempts
    else
      var rest, last := moves[..|moves| - 1], moves[|moves| - 1];
      var before := ClaimsHeld(s, j, rest);
      if !Takes(s, Run(s, j, rest), last) then before
      else match last
        case Claim(_) => before + 1
        case ClaimGone(_) => before + 1
        case ReportLater => before - 1
        case Retry => 0
        case _ => before
  }

  lemma {:induction false} AttemptsCountClaims(s: Settings, j: Job, moves: seq<Move>)
    requires s.maxAttempts > 0 && Bounded(s, j)
    ensures Run(s, j, moves).attempts == ClaimsHeld(s, j, moves)
  {
    if moves != [] {
      AttemptsCountClaims(s, j, moves[..|moves| - 1]);
      AttemptsAreBounded(s, j, moves[..|moves| - 1]);
    }
  }

  // ---- One holder at a time ----

  predicate ClaimsAt(s: Settings, j: Job, moves: seq<Move>, i: nat)
    requires i < |moves|
  {
    moves[i].Claim? && Takes(s, Run(s, j, moves[..i]), moves[i])
  }

  predicate PutBackAt(s: Settings, j: Job, moves: seq<Move>, i: nat)
    requires i < |moves|
  {
    Run(s, j, moves[..i]).status != Queued && Run(s, j, moves[..i + 1]).status == Queued
  }

  lemma {:induction false} RunSnoc(s: Settings, j: Job, moves: seq<Move>, i: nat)
    requires i < |moves|
    ensures Run(s, j, moves[..i + 1]) == After(s, Run(s, j, moves[..i]), moves[i])
  {
    assert moves[..i + 1][..i] == moves[..i];
  }

  /** From a state that does not wait to one that does there is a put-back. */
  lemma {:induction false} PutBackBetween(s: Settings, j: Job, moves: seq<Move>, i: nat, k: nat) returns (b: nat)
    requires i < k <= |moves|
    requires Run(s, j, moves[..i]).status != Queued && Run(s, j, moves[..k]).status == Queued
    ensures i <= b < k && PutBackAt(s, j, moves, b)
    decreases k - i
  {
    if Run(s, j, moves[..k - 1]).status != Queued {
      b := k - 1;
    } else {
      assert k - 1 != i;
      b := PutBackBetween(s, j, moves, i, k - 1);
    }
  }

  /** Two claims of one job are always separated by its return to the queue: no two workers are
      given it at once. */
  lemma ClaimsAreSeparated(s: Settings, j: Job, moves: seq<Move>, i: nat, k: nat) returns (b: nat)
    requires i < k < |moves| && ClaimsAt(s, j, moves, i) && ClaimsAt(s, j, moves, k)
    ensures i < b < k && PutBackAt(s, j, moves, b)
  {
    RunSnoc(s, j, moves, i);
    assert Run(s, j, moves[..i + 1]).status == Translating;
    assert i + 1 != k;
    b := PutBackBetween(s, j, moves, i + 1, k);
  }

  // ---- What is final ----

  /** A translated or cancelled job stays so, exactly when the run holds no failure written
      without a check. */
  lemma {:induction false} DoneIsFinal(s: Settings, j: Job, moves: seq<Move>)
    requires j.status == Translated || j.status == Cancelled
    ensures StaleFail !in moves ==> Run(s, j, moves) == j
    ensures StaleFail in moves ==> exists n: nat :: n <= |moves| && Run(s, j, moves[..n]).status == Failed
  {
    if moves != [] {
      var rest, last := moves[..|moves| - 1], moves[|moves| - 1];
      assert moves == rest + [last];
      DoneIsFinal(s, j, rest);
      if StaleFail in rest {
        var n: nat :| n <= |rest| && Run(s, j, rest[..n]).status == Failed;
        assert moves[..n] == rest[..n];
      } else if last == StaleFail {
        assert moves[..|moves|] == moves;
      }
    }
  }

  /** `post_result` reads the job as translating and, finding the document gone, writes the
      failure by the job's id alone. Where the job is still translating this is a checked
      failure; where it was done meanwhile, it is not. */
  lemma StaleFailIsSafeExactly(s: Settings, j: Job)
    ensures After(s, j, StaleFail) == After(s, j, ReportFailed) <==> j.status == Translating || j.status == Failed
  {
  }

  // ---- A job that only ever times out ----

  predicate OnlyTimesOut(moves: seq<Move>) {
    forall i | 0 <= i < |moves| :: moves[i].Claim? || moves[i].Timeout?
  }

  /** The moves a job that only times out has before it: one fewer with each. */
  function MovesLeft(s: Settings, j: Job): int {
    match j.status
    case Queued => 2 * (s.maxAttempts - j.attempts)
    case Translating => 2 * (s.maxAttempts - j.attempts) + 1
    case _ => 0
  }

  function ClaimsTaken(s: Settings, j: Job, moves: seq<Move>): nat {
    if moves == [] then 0
    else
      var rest, last := moves[..|moves| - 1], moves[|moves| - 1];
      ClaimsTaken(s, j, rest) + if last.Claim? && Takes(s, Run(s, j, rest), last) then 1 else 0
  }

  function MovesTaken(s: Settings, j: Job, moves: seq<Move>): nat {
    if moves == [] then 0
    else
      var rest, last := moves[..|moves| - 1], moves[|moves| - 1];
      MovesTaken(s, j, rest) + if Takes(s, Run(s, j, rest), last) then 1 else 0
  }

  lemma {:induction false} EachMoveIsOneLess(s: Settings, j: Job, moves: seq<Move>)
    requires s.maxAttempts > 0 && j.status == Queued && j.attempts == 0 && OnlyTimesOut(moves)
    ensures var end := Run(s, j, moves);
            && MovesTaken(s, j, moves) == 2 * s.maxAttempts - MovesLeft(s, end)
            && ClaimsTaken(s, j, moves) == end.attempts
            && (end.status == Failed ==> end.attempts == s.maxAttempts)
            && (end.status == Queued || end.status == Translating || end.status == Failed)
  {
    if moves != [] {
      EachMoveIsOneLess(s, j, moves[..|moves| - 1]);
      AttemptsAreBounded(s, j, moves[..|moves| - 1]);
    }
  }

  /** However claims and time-outs come, a fresh job is failed exactly when it was claimed the
      maximum number of times and timed out of each: after that many moves and no others. */
  lemma FailsAfterTheMaximum(s: Settings, j: Job, moves: seq<Move>)
    requires s.maxAttempts > 0 && j.status == Queued && j.attempts == 0 && OnlyTimesOut(moves)
    ensures var end := Run(s, j, moves);
            && ClaimsTaken(s, j, moves) <= s.maxAttempts
            && (end.status == Failed <==> MovesTaken(s, j, moves) == 2 * s.maxAttempts)
            && (end.status == Failed ==> ClaimsTaken(s, j, moves) == s.maxAttempts)
  {
    EachMoveIsOneLess(s, j, moves);
    AttemptsAreBounded(s, j, moves);
  }

  predicate IsReport(move: Move) {
    move.ReportFailed? || move.ReportLater? || move.PostResult?
  }

  /** Which claim holds the job: 0 the one it begins with, otherwise one after the place of the
      last claim taken. */
  function Holder(s: Settings, j: Job, moves: seq<Move>): nat {
    if moves == [] then 0
    else
      var rest, last := moves[..|moves| - 1], moves[|moves| - 1];
      if last.Claim? && Takes(s, Run(s, j, rest), last) then |moves| else Holder(s, j, rest)
  }

  lemma {:induction false} NotClaimedAgain(s: Settings, j: Job, moves: seq<Move>)
    requires j.status == Translating
    ensures Holder(s, j, moves) == 0 <==> ClaimsTaken(s, j, moves) == 0
    ensures ClaimsTaken(s, j, moves) == 0 && Run(s, j, moves).status == Translating ==>
              forall n | 0 <= n <= |moves| :: Run(s, j, moves[..n]) == j
  {
    if moves != [] {
      var rest := moves[..|moves| - 1];
      NotClaimedAgain(s, j, rest);
      assert moves[..|moves|] == moves;
      forall n | 0 <= n < |moves| ensures moves[..n] == rest[..n] {}
    }
  }

  lemma {:induction false} ClaimedAgain(s: Settings, j: Job, moves: seq<Move>) returns (b: nat)
    requires j.status == Translating && ClaimsTaken(s, j, moves) > 0
    ensures b < |moves| && PutBackAt(s, j, moves, b)
  {
    var rest, last := moves[..|moves| - 1], moves[|moves| - 1];
    if ClaimsTaken(s, j, rest) > 0 {
      b := ClaimedAgain(s, j, rest);
      assert rest[..b] == moves[..b] && rest[..b + 1] == moves[..b + 1];
    } else {
      assert moves[..0] == [] && Run(s, j, rest).status == Queued;
      b := PutBackBetween(s, j, moves, 0, |moves| - 1);
    }
  }

  /** A worker was given the job. Whatever moves follow, its report does something exactly while
      the job is translating; it then ends the worker's own claim exactly when no claim was taken
      since, which is when the job was never put back, and the job is as the worker was given it. */
  lemma ReportEndsOwnClaim(s: Settings, j: Job, moves: seq<Move>, report: Move)
    requires j.status == Translating && IsReport(report)
    ensures var end := Run(s, j, moves);
            && (After(s, end, report) != end <==> end.status == Translating)
            && (end.status == Translating ==>
                  && (Holder(s, j, moves) == 0 <==> ClaimsTaken(s, j, moves) == 0)
                  && (ClaimsTaken(s, j, moves) == 0 <==> forall b | 0 <= b < |moves| :: !PutBackAt(s, j, moves, b))
                  && (ClaimsTaken(s, j, moves) == 0 ==> end == j))
  {
    NotClaimedAgain(s, j, moves);
    assert moves[..|moves|] == moves;
    if ClaimsTaken(s, j, moves) > 0 {
      var b := ClaimedAgain(s, j, moves);
    } else if Run(s, j, moves).status == Translating {
      forall b | 0 <= b < |moves| ensures !PutBackAt(s, j, moves, b) {
        assert Run(s, j, moves[..b]) == j && Run(s, j, moves[..b + 1]) == j;
      }
    }
  }

  /** A worker that lost its lease can still report: the job of the one that holds it now goes
      back to the queue, and the holder's attempt is given back. */
  lemma LateReportTakesBack(s: Settings, j: Job, a: int, b: int, c: int)
    requires s.maxAttempts > 1 && j.status == Queued && j.attempts == 0 && a < b - s.stuckMinutes
    ensures var held := Run(s, j, [Claim(a), Timeout(b), Claim(c)]);
            && held.status == Translating && held.attempts == 2
            && After(s, held, ReportLater).status == Queued && After(s, held, ReportLater).attempts == 1
  {
    var moves := [Claim(a), Timeout(b), Claim(c)];
    assert moves[..2] == [Claim(a), Timeout(b)] && moves[..2][..1] == [Claim(a)] && [Claim(a)][..0] == [];
    assert Run(s, j, [Claim(a)]) == After(s, j, Claim(a));
    assert Run(s, j, moves[..2]) == After(s, After(s, j, Claim(a)), Timeout(b));
  }

  // ---- A tenant's queue ----

  predicate Older(a: Job, b: Job) {
    a.created < b.created || (a.created == b.created && a.id < b.id)
  }

  predicate Distinct(jobs: seq<Job>) {
    forall i, k | 0 <= i < k < |jobs| :: jobs[i].id != jobs[k].id
  }

  function CountStuck(s: Settings, jobs: seq<Job>, now: int): nat {
    if jobs == [] then 0
    else CountStuck(s, jobs[..|jobs| - 1], now) + if Stuck(s, jobs[|jobs| - 1], now) then 1 else 0
  }

  predicate Waits(j: Job, locked: set<nat>) {
    j.status == Queued && j.id !in locked
  }

  function CountWaiting(jobs: seq<Job>, locked: set<nat>): nat {
    if jobs == [] then 0
    else CountWaiting(jobs[..|jobs| - 1], locked) + if Waits(jobs[|jobs| - 1], locked) then 1 else 0
  }

  lemma {:induction false} CountSet(jobs: seq<Job>, locked: set<nat>, i: nat, j: Job)
    requires i < |jobs|
    ensures CountWaiting(jobs[i := j], locked)
            == CountWaiting(jobs, locked) - (if Waits(jobs[i], locked) then 1 else 0) + (if Waits(j, locked) then 1 else 0)
  {
    var rest := jobs[..|jobs| - 1];
    if i < |jobs| - 1 {
      CountSet(rest, locked, i, j);
      assert jobs[i := j][..|jobs| - 1] == rest[i := j];
    } else {
      assert jobs[i := j][..|jobs| - 1] == rest;
    }
  }

  function AfterFirst(s: Settings, j: Job, now: int): Job {
    if Stuck(s, j, now) && j.attempts >= s.maxAttempts then j.(status := Failed) else j
  }

  function AfterSecond(s: Settings, j: Job, now: int): Job {
    if Stuck(s, j, now) && j.attempts < s.maxAttempts then j.(status := Queued) else j
  }

  function CountGivenUp(s: Settings, jobs: seq<Job>, now: int): nat {
    if jobs == [] then 0
    else
      var last := jobs[|jobs| - 1];
      CountGivenUp(s, jobs[..|jobs| - 1], now) + if Stuck(s, last, now) && last.attempts >= s.maxAttempts then 1 else 0
  }

  function CountPutBack(s: Settings, jobs: seq<Job>, now: int): nat {
    if jobs == [] then 0
    else
      var last := jobs[|jobs| - 1];
      CountPutBack(s, jobs[..|jobs| - 1], now) + if Stuck(s, last, now) && last.attempts < s.maxAttempts then 1 else 0
  }

  lemma {:induction false} CountsMeet(s: Settings, jobs: seq<Job>, first: seq<Job>, now: int)
    requires |first| == |jobs| && forall i | 0 <= i < |jobs| :: first[i] == AfterFirst(s, jobs[i], now)
    ensures CountGivenUp(s, jobs, now) + CountPutBack(s, first, now) == CountStuck(s, jobs, now)
  {
    if jobs != [] { CountsMeet(s, jobs[..|jobs| - 1], first[..|jobs| - 1], now); }
  }

  class Queue {
    const settings: Settings
    var jobs: seq<Job>

    constructor (s: Settings)
      ensures settings == s && jobs == []
    {
      settings, jobs := s, [];
    }

    /** The first UPDATE: those that have had their attempts. */
    method GiveUp(now: int) returns (gaveUp: nat)
      modifies this
      ensures |jobs| == |old(jobs)|
      ensures forall i | 0 <= i < |jobs| :: jobs[i] == AfterFirst(settings, old(jobs)[i], now)
      ensures gaveUp == CountGivenUp(settings, old(jobs), now)
    {
      ghost var before := jobs;
      gaveUp := 0;
      for i := 0 to |jobs|
        invariant |jobs| == |before|
        invariant forall k | i <= k < |jobs| :: jobs[k] == before[k]
        invariant forall k | 0 <= k < i :: jobs[k] == AfterFirst(settings, before[k], now)
        invariant gaveUp == CountGivenUp(settings, before[..i], now)
      {
        assert before[..i + 1][..i] == before[..i];
        if Stuck(settings, jobs[i], now) && jobs[i].attempts >= settings.maxAttempts {
          jobs := jobs[i := jobs[i].(status := Failed)];
          gaveUp := gaveUp + 1;
        }
      }
      assert before[..|before|] == before;
    }

    /** The second: those that have one left. */
    method PutBack(now: int) returns (putBack: nat)
      modifies this
      ensures |jobs| == |old(jobs)|
      ensures forall i | 0 <= i < |jobs| :: jobs[i] == AfterSecond(settings, old(jobs)[i], now)
      ensures putBack == CountPutBack(settings, old(jobs), now)
    {
      ghost var before := jobs;
      putBack := 0;
      for i := 0 to |jobs|
        invariant |jobs| == |before|
        invariant forall k | i <= k < |jobs| :: jobs[k] == before[k]
        invariant forall k | 0 <= k < i :: jobs[k] == AfterSecond(settings, before[k], now)
        invariant putBack == CountPutBack(settings, before[..i], now)
      {
        assert before[..i + 1][..i] == before[..i];
        if Stuck(settings, jobs[i], now) && jobs[i].attempts < settings.maxAttempts {
          jobs := jobs[i := jobs[i].(status := Queued)];
          putBack := putBack + 1;
        }
      }
      assert before[..|before|] == before;
    }

    /** Together they move each stuck job once, as a time-out moves it, and no other; none is
        stuck after. */
    method RequeueStuck(now: int) returns (moved: nat)
      modifies this
      ensures |jobs| == |old(jobs)|
      ensures forall i | 0 <= i < |jobs| :: jobs[i] == After(settings, old(jobs)[i], Timeout(now))
      ensures forall i | 0 <= i < |jobs| :: !Stuck(settings, jobs[i], now)
      ensures moved == CountStuck(settings, old(jobs), now)
    {
      ghost var before := jobs;
      var gaveUp := GiveUp(now);
      ghost var first := jobs;
      var putBack := PutBack(now);
      CountsMeet(settings, before, first, now);
      moved := gaveUp + putBack;
    }

    method FindOldest(locked: set<nat>) returns (oldest: Option<nat>)
      ensures oldest.None? ==> forall i | 0 <= i < |jobs| :: !Waits(jobs[i], locked)
      ensures oldest.Some? ==> oldest.value < |jobs| && Waits(jobs[oldest.value], locked)
                               && forall i | 0 <= i < |jobs| && Waits(jobs[i], locked) :: !Older(jobs[i], jobs[oldest.value])
    {
      oldest := None;
      for i := 0 to |jobs|
        invariant oldest.None? ==> forall k | 0 <= k < i :: !Waits(jobs[k], locked)
        invariant oldest.Some? ==> oldest.value < i && Waits(jobs[oldest.value], locked)
                                   && forall k | 0 <= k < i && Waits(jobs[k], locked) :: !Older(jobs[k], jobs[oldest.value])
      {
        if Waits(jobs[i], locked) && (oldest.None? || Older(jobs[i], jobs[oldest.value])) { oldest := Some(i); }
      }
    }

    /** Takes the oldest waiting job whose file is still there, failing those before it whose
        file is gone; none only when none is left waiting. `locked` are rows of other
        transactions, `gone` the jobs whose file was removed. */
    method ClaimInTenant(now: int, locked: set<nat>, gone: set<nat>) returns (claimed: Option<nat>)
      modifies this
      requires Distinct(jobs)
      ensures |jobs| == |old(jobs)|
      ensures claimed.None? ==> forall i | 0 <= i < |jobs| :: !Waits(jobs[i], locked)
      ensures claimed.Some? ==> claimed.value < |jobs| && old(Waits(jobs[claimed.value], locked))
                                && old(jobs[claimed.value]).id !in gone
                                && jobs[claimed.value] == After(settings, old(jobs)[claimed.value], Claim(now))
      ensures forall i | 0 <= i < |jobs| && claimed != Some(i) ::
                jobs[i] == if old(Waits(jobs[i], locked)) && old(jobs)[i].id in gone
                              && (claimed.None? || Older(old(jobs)[i], old(jobs)[claimed.value]))
                           then After(settings, old(jobs)[i], ClaimGone(now)) else old(jobs)[i]
    {
      ghost var before := jobs;
      while true
        invariant |jobs| == |before|
        invariant forall i | 0 <= i < |jobs| ::
                    jobs[i] == before[i]
                    || (Waits(before[i], locked) && before[i].id in gone && jobs[i] == After(settings, before[i], ClaimGone(now)))
        invariant forall i, k | 0 <= i < |jobs| && 0 <= k < |jobs| && jobs[i] != before[i] && Waits(jobs[k], locked) ::
                    Older(before[i], before[k])
        decreases CountWaiting(jobs, locked)
      {
        var oldest := FindOldest(locked);
        if oldest.None? { return None; }
        var i := oldest.value;
        forall k | 0 <= k < |jobs| && k != i && Waits(jobs[k], locked) ensures Older(jobs[i], jobs[k]) {
          assert jobs[i].id != jobs[k].id by {
            assert before[i].id == jobs[i].id && before[k].id == jobs[k].id;
            if i < k { assert before[i].id != before[k].id; } else { assert before[k].id != before[i].id; }
          }
        }
        var job := jobs[i].(status := Translating, started := Some(now), attempts := jobs[i].attempts + 1);
        if job.id in gone {
          CountSet(jobs, locked, i, job.(status := Failed));
          jobs := jobs[i := job.(status := Failed)];
        } else {
          jobs := jobs[i := job];
          return Some(i);
        }
      }
    }

    /** One UPDATE that names the state it moves from; `won` is whether a row came back. */
    method Update(i: nat, move: Move) returns (won: bool)
      modifies this
      requires i < |jobs| && (move.ReportFailed? || move.ReportLater? || move.PostResult? || move.Cancel? || move.Retry?)
      ensures won <==> old(Takes(settings, jobs[i], move))
      ensures jobs == old(jobs)[i := After(settings, old(jobs)[i], move)]
    {
      var j := jobs[i];
      match move {
        case Cancel =>
          won := j.status == Queued;
          if won { jobs := jobs[i := j.(status := Cancelled)]; }
        case Retry =>
          won := j.status == Failed;
          if won { jobs := jobs[i := j.(status := Queued, attempts := 0, started := None)]; }
        case PostResult =>
          won := j.status == Translating;
          if won { jobs := jobs[i := j.(status := Translated)]; }
        case ReportFailed =>
          won := j.status == Translating;
          if won { jobs := jobs[i := j.(status := Failed)]; }
        case ReportLater =>
          won := j.status == Translating;
          if won {
            jobs := jobs[i := j.(status := Queued, attempts := if j.attempts > 0 then j.attempts - 1 else 0)];
          }
      }
    }
  }
}
