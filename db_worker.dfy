/**
 * The single writer of the persistence layer: callers put a statement, its
 * parameters and a completion event on a FIFO queue; one worker takes the
 * head, executes it, keeps the fetched rows of a query under its event,
 * signals the event, and commits a write only when the queue has drained.
 * Execution itself is an outcome given to each step.
 */
module DbWorker {
  import opened PyValue
  import opened DbMapping

  /** A queued statement, its bound parameters and the event its caller waits on. */
  datatype Job = Job(sql: string, params: seq<Value>, event: nat)

  /** What executing one statement did: it raised, or it ran and fetched these rows. */
  datatype Outcome = Raised | Ran(fetched: seq<Row>)

  /** `sql[0:6] == 'select'` (a shorter string is never equal). */
  predicate IsQuery(sql: string)
  {
    |sql| >= 6 && sql[..6] == "select"
  }

  /** The worker's shared state: the queue, the fetched rows per event, the signalled events and the number of commits. */
  datatype WorkerState = WorkerState(queue: seq<Job>, rows: map<nat, seq<Row>>, signalled: set<nat>, commits: nat)

  /**
   * One iteration of `_execute`. A raising statement is dropped: its rows
   * are not stored, its event is not signalled and nothing is committed.
   */
  function Step(s: WorkerState, outcome: Outcome): WorkerState
    requires s.queue != []
  {
    var job := s.queue[0];
    var rest := s.queue[1..];
    match outcome
    case Raised => s.(queue := rest)
    case Ran(fetched) =>
      s.(queue := rest,
         rows := if IsQuery(job.sql) then s.rows[job.event := fetched] else s.rows,
         signalled := s.signalled + {job.event},
         commits := if !IsQuery(job.sql) && rest == [] then s.commits + 1 else s.commits)
  }

  /** Consecutive steps, one outcome per dequeued job. */
  function Run(s: WorkerState, outcomes: seq<Outcome>): WorkerState
    requires |outcomes| <= |s.queue|
    decreases |outcomes|
  {
    if outcomes == [] then s else Run(Step(s, outcomes[0]), outcomes[1..])
  }

  /** The events of the jobs among the first `|outcomes|` that ran. */
  function RanEvents(jobs: seq<Job>, outcomes: seq<Outcome>): set<nat>
    requires |outcomes| <= |jobs|
    decreases |outcomes|
  {
    if outcomes == [] then {}
    else (if outcomes[0].Ran? then {jobs[0].event} else {}) + RanEvents(jobs[1..], outcomes[1..])
  }

  /**
   * Jobs leave the queue in the order they were put on it, and exactly the
   * events of the jobs that ran are signalled.
   */
  lemma {:induction false} RunIsFifo(s: WorkerState, outcomes: seq<Outcome>)
    requires |outcomes| <= |s.queue|
    ensures Run(s, outcomes).queue == s.queue[|outcomes|..]
    ensures Run(s, outcomes).signalled == s.signalled + RanEvents(s.queue, outcomes)
    decreases |outcomes|
  {
    if outcomes != [] {
      var t := Step(s, outcomes[0]);
      RunIsFifo(t, outcomes[1..]);
      assert t.queue == s.queue[1..];
      assert s.queue[1..][|outcomes| - 1..] == s.queue[|outcomes|..];
    }
  }

  /** A job whose statement raises is never signalled, so its caller keeps waiting. */
  lemma {:induction false} RaisedJobNeverSignalled(s: WorkerState, outcomes: seq<Outcome>, i: nat)
    requires |outcomes| <= |s.queue|
    requires i < |outcomes| && outcomes[i] == Raised
    requires s.queue[i].event !in s.signalled
    requires forall j :: 0 <= j < |s.queue| && j != i ==> s.queue[j].event != s.queue[i].event
    ensures s.queue[i].event !in Run(s, outcomes).signalled
  {
    RunIsFifo(s, outcomes);
    RanEventsExcludes(s.queue, outcomes, i);
  }

  lemma {:induction false} RanEventsExcludes(jobs: seq<Job>, outcomes: seq<Outcome>, i: nat)
    requires |outcomes| <= |jobs|
    requires i < |outcomes| && outcomes[i] == Raised
    requires forall j :: 0 <= j < |jobs| && j != i ==> jobs[j].event != jobs[i].event
    ensures jobs[i].event !in RanEvents(jobs, outcomes)
    decreases |outcomes|
  {
    if i > 0 {
      RanEventsExcludes(jobs[1..], outcomes[1..], i - 1);
    } else if |outcomes| > 1 {
      RanEventsAvoids(jobs[1..], outcomes[1..], jobs[0].event);
    }
  }

  lemma {:induction false} RanEventsAvoids(jobs: seq<Job>, outcomes: seq<Outcome>, e: nat)
    requires |outcomes| <= |jobs|
    requires forall j :: 0 <= j < |jobs| ==> jobs[j].event != e
    ensures e !in RanEvents(jobs, outcomes)
    decreases |outcomes|
  {
    if outcomes != [] {
      RanEventsAvoids(jobs[1..], outcomes[1..], e);
    }
  }

  predicate AllWrites(jobs: seq<Job>)
  {
    forall j :: 0 <= j < |jobs| ==> !IsQuery(jobs[j].sql)
  }

  predicate AllRan(outcomes: seq<Outcome>)
  {
    forall j :: 0 <= j < |outcomes| ==> outcomes[j].Ran?
  }

  /**
   * Writes are committed in batches: while a backlog of successful writes
   * drains, no commit happens until the last one, which commits once.
   */
  lemma {:induction false} WriteBacklogCommitsOnce(s: WorkerState, outcomes: seq<Outcome>)
    requires AllWrites(s.queue) && AllRan(outcomes)
    requires |outcomes| <= |s.queue|
    ensures Run(s, outcomes).commits == s.commits + (if |outcomes| == |s.queue| && outcomes != [] then 1 else 0)
    decreases |outcomes|
  {
    if outcomes != [] {
      var t := Step(s, outcomes[0]);
      assert t.queue == s.queue[1..];
      assert AllWrites(t.queue) by {
        forall j | 0 <= j < |t.queue| ensures !IsQuery(t.queue[j].sql) {
          assert t.queue[j] == s.queue[j + 1];
        }
      }
      assert AllRan(outcomes[1..]) by {
        forall j | 0 <= j < |outcomes| - 1 ensures outcomes[1..][j].Ran? {
          assert outcomes[1..][j] == outcomes[j + 1];
        }
      }
      WriteBacklogCommitsOnce(t, outcomes[1..]);
    }
  }

  /** A query never commits and leaves its fetched rows under its event. */
  lemma QueryStoresRowsWithoutCommit(s: WorkerState, fetched: seq<Row>)
    requires s.queue != [] && IsQuery(s.queue[0].sql)
    ensures Step(s, Ran(fetched)).commits == s.commits
    ensures Step(s, Ran(fetched)).rows == s.rows[s.queue[0].event := fetched]
    ensures s.queue[0].event in Step(s, Ran(fetched)).signalled
  {
  }

  /**
   * The module-level state of the persistence layer: `_queue`, `_rows`, the
   * events that have been set, and the commits made; `nextEvent` hands out
   * a fresh event per call.
   */
  class Store {
    var queue: seq<Job>
    var rows: map<nat, seq<Row>>
    var signalled: set<nat>
    var commits: nat
    var nextEvent: nat

    function State(): WorkerState
      reads this
    {
      WorkerState(queue, rows, signalled, commits)
    }

    /** Every event handed out so far is below `nextEvent`. */
    ghost predicate Valid()
      reads this
    {
      (forall j :: 0 <= j < |queue| ==> queue[j].event < nextEvent)
      && (forall e :: e in rows ==> e < nextEvent)
      && (forall e :: e in signalled ==> e < nextEvent)
    }

    constructor ()
      ensures Valid()
      ensures queue == [] && rows == map[] && signalled == {} && commits == 0
    {
      queue := [];
      rows := map[];
      signalled := {};
      commits := 0;
      nextEvent := 0;
    }

    /** `_queue.put((sql, params, event))` with a fresh `Event()`. */
    method Submit(sql: string, params: seq<Value>) returns (event: nat)
      requires Valid()
      modifies this
      ensures Valid()
      ensures queue == old(queue) + [Job(sql, params, event)]
      ensures rows == old(rows) && signalled == old(signalled) && commits == old(commits)
      ensures event !in signalled && event !in rows
      ensures forall j :: 0 <= j < |old(queue)| ==> old(queue)[j].event != event
    {
      event := nextEvent;
      queue := queue + [Job(sql, params, event)];
      nextEvent := nextEvent + 1;
    }

    /** One iteration of the worker loop, when a job is available. */
    method ExecuteStep(outcome: Outcome)
      requires Valid() && queue != []
      modifies this
      ensures Valid()
      ensures State() == Step(old(State()), outcome)
      ensures nextEvent == old(nextEvent)
    {
      var job := queue[0];
      queue := queue[1..];
      if outcome.Ran? {
        if IsQuery(job.sql) {
          rows := rows[job.event := outcome.fetched];
        }
        signalled := signalled + {job.event};
        if !IsQuery(job.sql) && queue == [] {
          commits := commits + 1;
        }
      }
    }
  }
}
