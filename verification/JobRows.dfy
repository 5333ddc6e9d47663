/** The jobs table and the batch execution that writes it. Times are in seconds. */
module JobRows {
  import opened Wrappers

  datatype Status = Never | InProgress | Succeeded | Failed | Stale

  datatype Job = Job(
    jobType: string,
    intervalMinutes: Option<int>,
    active: bool,
    nextRunAt: int,
    lastStatus: Status,
    lastRunAt: Option<int>,
    lastError: Option<string>,
    runCount: int)

  type Table = map<int, Job>

  /** A job as a poll or an API call has read it. */
  datatype Entry = Entry(id: int, snap: Job)

  /** One handler call: when it started, and the message of the exception it raised. */
  datatype Outcome = Outcome(start: int, error: Option<string>)

  /** `job.interval_minutes or 0` */
  function Minutes(job: Job): int {
    match job.intervalMinutes
    case None => 0
    case Some(m) => m
  }

  predicate Scheduled(job: Job) {
    Minutes(job) > 0
  }

  /** `str(e)[:1000]` */
  function Truncate(message: string): string {
    if |message| <= 1000 then message else message[..1000]
  }

  /** A message that is not empty; only then is the job paused. */
  predicate Pauses(error: Option<string>) {
    error.Some? && error.value != ""
  }

  function MarkInProgress(rows: Table, id: int): Table {
    if id in rows then rows[id := rows[id].(lastStatus := InProgress)] else rows
  }

  /** The write after the handler: values come from the snapshot, the row may be gone. */
  function Record(rows: Table, entry: Entry, outcome: Outcome): Table {
    if entry.id !in rows then rows
    else
      var row := rows[entry.id];
      rows[entry.id := row.(
        lastRunAt := Some(outcome.start),
        lastStatus := if outcome.error.None? then Succeeded else Failed,
        lastError := if outcome.error.None? then None else Some(Truncate(outcome.error.value)),
        runCount := entry.snap.runCount + 1,
        nextRunAt := if Scheduled(entry.snap) then outcome.start + 60 * Minutes(entry.snap) else row.nextRunAt,
        active := row.active && !Pauses(outcome.error))]
  }

  function ExecuteAll(rows: Table, batch: seq<Entry>, outcomes: seq<Outcome>): Table
    requires |batch| == |outcomes|
  {
    if batch == [] then rows
    else ExecuteAll(Record(MarkInProgress(rows, batch[0].id), batch[0], outcomes[0]), batch[1..], outcomes[1..])
  }

  /** Jobs left "running" by a dead process, whose time has come, start over. */
  function ResetStale(rows: Table, now: int): Table {
    map id | id in rows :: if rows[id].lastStatus == InProgress && rows[id].nextRunAt <= now
                           then rows[id].(lastStatus := Stale, nextRunAt := now)
                           else rows[id]
  }

  /** The message itself up to 1000 characters, else its first 1000. */
  predicate IsCut(cut: string, message: string) {
    cut <= message && |cut| == if |message| <= 1000 then |message| else 1000
  }

  /** The interval in minutes; none at all counts as 0. */
  predicate Interval(job: Job, minutes: int) {
    minutes == if job.intervalMinutes.Some? then job.intervalMinutes.value else 0
  }

  /**
   What the write after a handler does to the row, given the snapshot the
   trampoline holds: status, message and time of the run, one run more than the
   snapshot, the next run after a positive interval, and a pause on a message.
   */
  ghost predicate Finished(before: Job, snap: Job, after: Job, outcome: Outcome) {
    && (outcome.error.None? ==> after.lastStatus == Succeeded && after.lastError == None)
    && (outcome.error.Some? ==>
          after.lastStatus == Failed && after.lastError.Some? && IsCut(after.lastError.value, outcome.error.value))
    && after.lastRunAt == Some(outcome.start)
    && after.runCount == snap.runCount + 1
    && (forall m :: Interval(snap, m) ==> after.nextRunAt == if m > 0 then outcome.start + 60 * m else before.nextRunAt)
    && (after.active <==> before.active && (outcome.error.None? || |outcome.error.value| == 0))
    && after.jobType == before.jobType && after.intervalMinutes == before.intervalMinutes
  }

  /** What one execution does to the row it was read from. */
  ghost predicate Executed(before: Job, after: Job, outcome: Outcome) {
    Finished(before, before, after, outcome)
  }

  predicate OtherRowsKept(before: Table, after: Table, id: int) {
    after.Keys == before.Keys && forall other :: other in before && other != id ==> after[other] == before[other]
  }

  lemma RecordEffect(rows: Table, entry: Entry, outcome: Outcome)
    ensures OtherRowsKept(rows, Record(rows, entry, outcome), entry.id)
    ensures entry.id in rows ==> Finished(rows[entry.id], entry.snap, Record(rows, entry, outcome)[entry.id], outcome)
  {
  }

  /** Before the handler runs, the row says so and is otherwise as it was. */
  lemma MarkEffect(rows: Table, id: int)
    ensures OtherRowsKept(rows, MarkInProgress(rows, id), id)
    ensures id in rows ==>
              && MarkInProgress(rows, id)[id].lastStatus == InProgress
              && MarkInProgress(rows, id)[id] == rows[id].(lastStatus := InProgress)
  {
  }

  /** Exactly the rows left running whose time has come are reset: stale, and due at once. */
  lemma ResetEffect(rows: Table, now: int)
    ensures ResetStale(rows, now).Keys == rows.Keys
    ensures forall id :: id in rows ==>
              ResetStale(rows, now)[id] ==
              if rows[id].lastStatus == InProgress && rows[id].nextRunAt <= now
              then rows[id].(lastStatus := Stale, nextRunAt := now) else rows[id]
  {
  }

  /**
   A batch over distinct jobs, read from the table it writes and with nobody
   else writing: each job is executed once, and no other row changes.
   */
  lemma {:induction false} BatchEffect(rows: Table, batch: seq<Entry>, outcomes: seq<Outcome>)
    requires |batch| == |outcomes|
    requires forall i, k :: 0 <= i < k < |batch| ==> batch[i].id != batch[k].id
    requires forall i :: 0 <= i < |batch| ==> batch[i].id in rows && rows[batch[i].id] == batch[i].snap
    ensures var rows' := ExecuteAll(rows, batch, outcomes);
            && rows'.Keys == rows.Keys
            && (forall i :: 0 <= i < |batch| ==> Executed(rows[batch[i].id], rows'[batch[i].id], outcomes[i]))
            && (forall id :: id in rows && (forall i :: 0 <= i < |batch| ==> batch[i].id != id) ==> rows'[id] == rows[id])
  {
    if batch != [] {
      var first := batch[0];
      var rows1 := Record(MarkInProgress(rows, first.id), first, outcomes[0]);
      assert rows1.Keys == rows.Keys;
      MarkEffect(rows, first.id);
      RecordEffect(MarkInProgress(rows, first.id), first, outcomes[0]);
      assert Executed(rows[first.id], rows1[first.id], outcomes[0]);
      BatchEffect(rows1, batch[1..], outcomes[1..]);
      var rows' := ExecuteAll(rows, batch, outcomes);
      assert rows'[first.id] == rows1[first.id];
      forall i | 0 <= i < |batch|
        ensures Executed(rows[batch[i].id], rows'[batch[i].id], outcomes[i])
      {
        if i > 0 {
          assert batch[i] == batch[1..][i - 1];
        }
      }
      forall id | id in rows && (forall i :: 0 <= i < |batch| ==> batch[i].id != id)
        ensures rows'[id] == rows[id]
      {
        assert forall i :: 0 <= i < |batch[1..]| ==> batch[1..][i].id != id;
      }
    }
  }

  /** A handler's job, if its row is there, is marked as running while the handler runs. */
  ghost predicate SeesRunning(rows: Table, keys: set<int>, id: int) {
    rows.Keys == keys && (id in rows ==> rows[id].lastStatus == InProgress)
  }

  class Jobs {
    var rows: Table

    method UpdateRow(id: int, row: Job)
      requires id in rows
      modifies this
      ensures rows == old(rows)[id := row]
    {
      rows := rows[id := row];
    }

    /**
     `_execute_batch`; `outcomes` is what the clock and the handlers answer, and
     `seen` is the table as each handler finds it.
     */
    method ExecuteBatch(batch: seq<Entry>, outcomes: seq<Outcome>) returns (ghost seen: seq<Table>)
      requires |batch| == |outcomes|
      modifies this
      ensures rows == ExecuteAll(old(rows), batch, outcomes)
      ensures |seen| == |batch|
      ensures forall i :: 0 <= i < |batch| ==> SeesRunning(seen[i], old(rows).Keys, batch[i].id)
    {
      seen := [];
      var i := 0;
      while i < |batch|
        invariant i <= |batch| && |seen| == i && rows.Keys == old(rows).Keys
        invariant forall k :: 0 <= k < i ==> SeesRunning(seen[k], old(rows).Keys, batch[k].id)
        invariant ExecuteAll(old(rows), batch, outcomes) == ExecuteAll(rows, batch[i..], outcomes[i..])
      {
        assert batch[i..][1..] == batch[i + 1..] && outcomes[i..][1..] == outcomes[i + 1..];
        var entry, outcome := batch[i], outcomes[i];
        if entry.id in rows {
          UpdateRow(entry.id, rows[entry.id].(lastStatus := InProgress));
          seen := seen + [rows];
          var status, error := Succeeded, None;
          if outcome.error.Some? {
            status, error := Failed, Some(Truncate(outcome.error.value));
          }
          var row := rows[entry.id].(lastRunAt := Some(outcome.start), lastStatus := status,
                                     lastError := error, runCount := entry.snap.runCount + 1);
          var minutes := Minutes(entry.snap);
          if minutes > 0 {
            row := row.(nextRunAt := outcome.start + minutes * 60);
          }
          if error.Some? && error.value != "" {
            row := row.(active := false);
          }
          UpdateRow(entry.id, row);
        } else {
          seen := seen + [rows];
        }
        i := i + 1;
      }
    }
  }
}
