/** The `notification_tasks` table and its delivery service. */
module Notification {
  import opened Prelude
  import opened LeaseTable
  import opened LeaseRepository
  import opened Backoff

  /** The data columns the service reads or writes. */
  datatype Delivery = Delivery(
    tenant: string,
    alertID: string,
    ruleID: string,
    channelID: string,
    payload: string,
    lastError: string,
    lastAttemptAt: Option<int>,
    cooldownUntil: Option<int>,
    escalationStep: int,
    updatedAt: int)

  /** PollTasks' WHERE on cooldown_until. */
  function Cooled(now: int): Delivery -> bool {
    (d: Delivery) => d.cooldownUntil.None? || d.cooldownUntil.value <= now
  }

  // The data columns in the SET clauses of CompleteTask, RequeueTask and FailTask.

  function Stamped(at: int): Delivery -> Delivery {
    (d: Delivery) => d.(updatedAt := at)
  }

  function FailedAt(at: int, cause: string, step: int): Delivery -> Delivery {
    (d: Delivery) => d.(lastError := cause, lastAttemptAt := Some(at), escalationStep := step, updatedAt := at)
  }

  // ---------------------------------------------------------------- requeue, then fail

  /** processTask requeues a task that is not due and reports an error, for which ProcessBatch
      calls FailTask on the same task. Whatever other workers do in between, claiming the
      requeued task included, the FailTask changes nothing exactly when the requeue was
      executed; if it was lost, the pair charges an attempt. */
  lemma RequeueShieldsFromFail<D(!new)>(rows: Table<D>, owner: string, id: string, due: int, requeued: D,
                                        executed: bool, between: seq<Statement<D>>, retryAt: int, failed: D)
    requires TableInv(rows) && owner != "" && Held(rows, owner, id)
    requires forall i :: 0 <= i < |between| ==> FromOther(between[i], owner)
    ensures var mid := Exec(if executed then Apply(rows, Requeue(owner, id, due, requeued)) else rows, between);
      && (Apply(mid, Fail(owner, id, retryAt, failed)) == mid <==> executed)
      && (!executed ==> mid[id] == rows[id]
                        && Apply(mid, Fail(owner, id, retryAt, failed))[id].attempts == rows[id].attempts + 1)
  {
    var st := Requeue(owner, id, due, requeued);
    OwnStatementSpares(rows, st, owner, id);
    var start := if executed then Apply(rows, st) else rows;
    OthersSpare(start, between, owner);
    var mid := Exec(start, between);
    assert Held(start, owner, id) <==> !executed;
    assert Held(mid, owner, id) ==> Held(start, owner, id);
  }

  // ---------------------------------------------------------------- the service

  /** What looking up the channel and sending a due task comes to. */
  datatype Verdict = Delivered | Undelivered(cause: string)

  /** The clock readings ProcessBatch takes for its i-th task. */
  datatype Readings = Readings(due: int, until: int, now: int)

  predicate Early(task: Task<Delivery>, r: Readings) {
    task.row.availableAt > r.due
  }

  /** The handler of processTask's branches: a task that is not due is never sent. */
  predicate Succeeds(task: Task<Delivery>, r: Readings, send: Task<Delivery> -> Verdict) {
    !Early(task, r) && send(task).Delivered?
  }

  /** Each table is the one before it, after what the other sessions did meanwhile, with the row of
      the next task under a new id. */
  ghost predicate StoredInTurn(tasks: seq<Task<Delivery>>, tables: seq<Table<Delivery>>,
                               others: nat -> seq<Statement<Delivery>>, start: nat) {
    && |tables| == |tasks| + 1
    && forall i :: 0 <= i < |tasks| ==>
         var met := Exec(tables[i], others(start + i));
         tasks[i].id !in met && tables[i + 1] == met[tasks[i].id := tasks[i].row]
  }

  lemma NoneStored(tables: seq<Table<Delivery>>, others: nat -> seq<Statement<Delivery>>, start: nat)
    requires |tables| == 1
    ensures StoredInTurn([], tables, others, start)
  {
  }

  lemma OneMoreStored(tasks: seq<Task<Delivery>>, tables: seq<Table<Delivery>>,
                      others: nat -> seq<Statement<Delivery>>, start: nat, task: Task<Delivery>,
                      rows: Table<Delivery>)
    requires StoredInTurn(tasks, tables, others, start)
    requires var met := Exec(tables[|tasks|], others(start + |tasks|));
      task.id !in met && rows == met[task.id := task.row]
    ensures StoredInTurn(tasks + [task], tables + [rows], others, start)
  {
    hide Exec;
    var tasks', tables' := tasks + [task], tables + [rows];
    forall i | 0 <= i < |tasks'|
      ensures var met := Exec(tables'[i], others(start + i));
        tasks'[i].id !in met && tables'[i + 1] == met[tasks'[i].id := tasks'[i].row]
    {
      assert tables'[i] == tables[i];
      if i < |tasks| {
        assert tasks'[i] == tasks[i] && tables'[i + 1] == tables[i + 1];
      } else {
        assert tasks'[i] == task && tables'[i + 1] == rows;
      }
    }
  }

  class Service {
    const repo: PGRepository<Delivery>
    const workerID: string
    const lockTTL: int

    /** NewService: unlike the queue's, it takes the worker id as it comes. */
    constructor (repo: PGRepository<Delivery>, workerID: string, lockTTL: int)
      ensures this.repo == repo && this.workerID == workerID && this.lockTTL > 0
      ensures this.lockTTL == if lockTTL > 0 then lockTTL else 60_000_000_000
    {
      this.repo := repo;
      this.workerID := workerID;
      this.lockTTL := if lockTTL <= 0 then 60 * SECOND else lockTTL;
    }

    /** One task per channel, in order, up to the first that cannot be stored. `tables[i]` is the
        table that the first i inserts left: between two of them other sessions run, and each adds
        one row, with the columns given, under an id that was free. Only a failed insert can leave
        a row more, when its acknowledgement got lost. */
    method EnqueueAlert(alertID: string, ruleID: string, tenant: string, channels: seq<string>, payload: string,
                        now: int, newID: nat -> string)
      returns (tasks: seq<Task<Delivery>>, error: Option<Error>, ghost tables: seq<Table<Delivery>>)
      requires repo.Serves(workerID)
      modifies repo
      ensures repo.Serves(workerID) && old(repo.rows).Keys <= repo.rows.Keys
      ensures |tasks| <= |channels| && (error.None? <==> |tasks| == |channels|) && DistinctIds(tasks)
      ensures StoredInTurn(tasks, tables, repo.others, old(repo.statements)) && tables[0] == old(repo.rows)
      ensures forall i :: 0 <= i < |tasks| ==>
        && tasks[i].id == newID(i)
        && tasks[i] == NewTask(newID(i), alertID, ruleID, tenant, channels[i], payload, now)
        && tasks[i].row == Row(Pending, 0, 5, now, now, "", None,
                               Delivery(if tenant == "" then "default" else tenant, alertID, ruleID, channels[i],
                                        payload, "", None, None, 0, now))
        && tasks[i].id in repo.rows && tasks[i].id !in old(repo.rows)
      ensures error.None? ==> repo.rows == tables[|tasks|]
      ensures error.Some? ==>
        var n := |tasks|;
        var met := Exec(tables[n], repo.others(old(repo.statements) + n));
        var next := NewTask(newID(n), alertID, ruleID, tenant, channels[n], payload, now);
        && (!repo.Reliable() || newID(n) in met)
        && (repo.rows == met || (newID(n) !in met && repo.rows == met[newID(n) := next.row]))
    {
      hide StoredInTurn, Exec, RowInv, FromOther;
      tasks := [];
      tables := [repo.rows];
      NoneStored(tables, repo.others, repo.statements);
      for i := 0 to |channels|
        invariant repo.Serves(workerID) && |tasks| == i && old(repo.rows).Keys <= repo.rows.Keys && DistinctIds(tasks)
        invariant repo.statements == old(repo.statements) + i
        invariant |tables| == i + 1 && tables[0] == old(repo.rows) && tables[i] == repo.rows
        invariant StoredInTurn(tasks, tables, repo.others, old(repo.statements))
        invariant forall j :: 0 <= j < i ==>
          && tasks[j] == NewTask(newID(j), alertID, ruleID, tenant, channels[j], payload, now)
          && tasks[j].id in repo.rows && tasks[j].id !in old(repo.rows)
      {
        var task := NewTask(newID(i), alertID, ruleID, tenant, channels[i], payload, now);
        var created, met := repo.Insert(task, workerID);
        if created.Err? {
          return tasks, Some(created.error), tables;
        }
        OneMoreStored(tasks, tables, repo.others, old(repo.statements), task, repo.rows);
        tasks := tasks + [task];
        tables := tables + [repo.rows];
      }
      return tasks, None, tables;
    }

    /** processTask: the error of the Go function, with the requeue it may have made. */
    method ProcessTask(task: Task<Delivery>, r: Readings, send: Task<Delivery> -> Verdict)
      returns (failure: Option<string>)
      requires repo.Serves(workerID)
      requires Held(repo.rows, workerID, task.id) && repo.rows[task.id] == task.row
      modifies repo
      ensures repo.Serves(workerID) && Spares(workerID, {task.id}, old(repo.rows), repo.rows)
      ensures failure.None? <==> Succeeds(task, r, send)
      ensures failure == if task.row.availableAt > r.due then Some("task not available yet")
                         else match send(task) case Delivered => None case Undelivered(cause) => Some(cause)
      ensures Early(task, r) && old(repo.fate(repo.statements)) != Lost ==>
        task.id in repo.rows && RequeuedWell(task.row, repo.rows[task.id], r.now + (task.row.availableAt - r.until),
                                             r.now)
      ensures !Early(task, r) ==> repo.rows == old(repo.rows)
      ensures Early(task, r) ==>
        (Held(repo.rows, workerID, task.id) <==> old(repo.fate(repo.statements)) == Lost)
      ensures Held(repo.rows, workerID, task.id) ==> repo.rows[task.id] == task.row
    {
      if Early(task, r) {
        ghost var took := Took(repo.fate(repo.statements), true);
        var requeued, met := repo.Requeue(task.id, workerID, r.now + (task.row.availableAt - r.until), Stamped(r.now));
        SparesWider(workerID, Only(task.id, took), {task.id}, old(repo.rows), repo.rows);
        return Some("task not available yet");
      }
      SparesSelf(workerID, {task.id}, repo.rows);
      match send(task)
      case Delivered => return None;
      case Undelivered(cause) => return Some(cause);
    }

    /** One turn of ProcessBatch's loop. `counted` is what the caller counts, `done` whether the row
        was completed, `charge` whether FailTask cost the task an attempt. */
    method ProcessOne(ghost tasks: seq<Task<Delivery>>, ghost i: nat, task: Task<Delivery>,
                      ghost readings: nat -> Readings, r: Readings, send: Task<Delivery> -> Verdict,
                      ghost completed: set<string>, ghost charged: set<string>)
      returns (counted: bool, ghost done: bool, ghost charge: bool)
      requires repo.Serves(workerID)
      requires i < |tasks| && tasks[i] == task && r == readings(i)
      requires BatchInv(tasks, i, repo.rows, workerID, readings, send, completed, charged, repo.Reliable())
      modifies repo
      ensures repo.Serves(workerID) && task.id !in completed
      ensures counted ==> done
      ensures repo.Reliable() ==> (counted <==> done)
      ensures BatchInv(tasks, i + 1, repo.rows, workerID, readings, send, completed + Only(task.id, done),
                       charged + Only(task.id, charge), repo.Reliable())
      ensures Spares(workerID, {task.id}, old(repo.rows), repo.rows)
      ensures done ==> task.id in repo.rows && CompletedWell(task.row, repo.rows[task.id], r.now)
      ensures repo.Reliable() && task.row.availableAt <= r.due ==>
        && task.id in repo.rows
        && match send(task)
           case Delivered => done
           case Undelivered(cause) => !done && ChargedWell(task.row, repo.rows[task.id], cause, r.now)
    {
      hide Spares, BatchInv, TableInv, CompletedWell, ChargedWell, RequeuedWell, ChargedTask;
      ghost var start := repo.rows;
      NextIsHeld(tasks, i, start, workerID, readings, send, completed, charged, repo.Reliable());
      var failure := ProcessTask(task, r, send);
      if failure.Some? {
        charge := FailAfter(task, r, failure.value, start);
        if charge {
          AttemptIsCharged(task.row, repo.rows[task.id], failure.value, r.now);
        }
        BatchStep(tasks, i, start, repo.rows, workerID, readings, send, completed, charged, false, charge,
                  repo.Reliable());
        return false, false, charge;
      }
      done := Took(repo.fate(repo.statements), true);
      var settled, met := repo.Complete(task.id, workerID, Stamped(r.now));
      SparesWider(workerID, Only(task.id, done), {task.id}, start, repo.rows);
      if done {
        DoneIsCompleted(met, workerID, task, r.now);
      }
      BatchStep(tasks, i, start, repo.rows, workerID, readings, send, completed, charged, done, false, repo.Reliable());
      return settled.Ok?, done, false;
    }

    /** FailTask after processTask reported an error; `start` is the table before processTask. */
    method FailAfter(task: Task<Delivery>, r: Readings, cause: string, ghost start: Table<Delivery>)
      returns (ghost charge: bool)
      requires repo.Serves(workerID) && TableInv(start)
      requires Held(start, workerID, task.id) && start[task.id] == task.row
        && Spares(workerID, {task.id}, start, repo.rows)
      requires Held(repo.rows, workerID, task.id) ==> repo.rows[task.id] == task.row
      modifies repo
      ensures repo.Serves(workerID) && Spares(workerID, {task.id}, start, repo.rows)
      ensures charge ==> old(Held(repo.rows, workerID, task.id)) && task.id in repo.rows
                         && ChargedWell(task.row, repo.rows[task.id], cause, r.now)
      ensures repo.Reliable() ==> (charge <==> old(Held(repo.rows, workerID, task.id)))
      ensures !charge && repo.Reliable() ==> !Held(repo.rows, workerID, task.id)
    {
      hide BackoffDelay, Spares, Apply, Exec, Charged, ChargedTask, ChargedWell;
      ghost var mid := repo.rows;
      var delay := BackoffDelay(task.row.attempts);
      charge := Took(repo.fate(repo.statements), Held(mid, workerID, task.id));
      var failed, met := repo.Fail(task.id, workerID, r.now + delay,
                                   FailedAt(r.now, cause, task.row.data.escalationStep));
      SparesWider(workerID, Only(task.id, charge), {task.id}, mid, repo.rows);
      SparesTrans(workerID, {task.id}, {task.id}, start, mid, repo.rows);
      assert {task.id} + {task.id} == {task.id};
      if charge {
        FailIsCharged(met, workerID, task, r.now, cause);
        ChargedTaskIsWell(task, r.now, cause);
      } else if repo.Reliable() {
        StillNotHeld(workerID, task.id, mid, repo.rows);
      }
    }

    /** The delivery loop. A task it counts is one it completed, and a completed one goes uncounted
        only when the acknowledgement got lost. A task is charged an attempt only for a failure,
        and, when nothing gets lost, for none but the failures of tasks that were due: one that was
        not due keeps its attempts. */
    method ProcessBatch(limit: int, now: int, locked: set<string>, readings: nat -> Readings,
                        send: Task<Delivery> -> Verdict)
      returns (r: Result<nat>, ghost tasks: seq<Task<Delivery>>, ghost counted: set<string>,
               ghost completed: set<string>, ghost charged: set<string>, ghost met: Table<Delivery>,
               ghost taken: Table<Delivery>)
      requires repo.Serves(workerID)
      modifies repo
      ensures repo.Serves(workerID)
      ensures r.Err? <==> old(repo.fate(repo.statements)) != Fine
      ensures r.Ok? ==> r.value == |counted|
      ensures counted <= completed && (repo.Reliable() ==> counted == completed)
      ensures BatchInv(tasks, |tasks|, repo.rows, workerID, readings, send, completed, charged, repo.Reliable())
      ensures met == Exec(old(repo.rows), repo.others(old(repo.statements)))
      ensures r.Ok? ==>
        && TookBatch(met, taken, workerID, if limit <= 0 then 20 else limit, now, now + lockTTL, locked, tasks)
        && Spares(workerID, IdsOf(tasks), taken, repo.rows)
      ensures repo.Reliable() ==>
        && r == Ok(|set i: nat | i < |tasks| && tasks[i].row.availableAt <= readings(i).due
                                 && send(tasks[i]).Delivered? :: tasks[i].id|)
        && forall i :: 0 <= i < |tasks| ==> !Held(repo.rows, workerID, tasks[i].id)
    {
      hide BatchInv, Polled, Spares, TookBatch;
      tasks, counted, completed, charged := [], {}, {}, {};
      OthersSpare(repo.rows, repo.others(repo.statements), workerID);
      SparesIsSound(repo.rows, Exec(repo.rows, repo.others(repo.statements)), workerID);
      var limit' := if limit <= 0 then 20 else limit;
      ghost var claimed: seq<Task<Delivery>>;
      var polled;
      polled, met, claimed := repo.Poll(Cooled(now), limit', now, lockTTL, workerID, locked);
      taken := repo.rows;
      if polled.Err? {
        NothingPolled(repo.rows, workerID, readings, send, repo.Reliable());
        return Err(polled.error), tasks, counted, completed, charged, met, taken;
      }
      tasks := polled.value;
      PolledIsReady(met, repo.rows, workerID, locked, limit', now, now + lockTTL, tasks, readings, send,
                    repo.Reliable());
      var processed;
      processed, counted, completed, charged := ProcessAll(polled.value, readings, send);
      return Ok(processed), tasks, counted, completed, charged, met, taken;
    }

    method ProcessAll(tasks: seq<Task<Delivery>>, readings: nat -> Readings, send: Task<Delivery> -> Verdict)
      returns (processed: nat, ghost counted: set<string>, ghost completed: set<string>, ghost charged: set<string>)
      requires repo.Serves(workerID)
      requires BatchInv(tasks, 0, repo.rows, workerID, readings, send, {}, {}, repo.Reliable())
      modifies repo
      ensures repo.Serves(workerID) && processed == |counted|
      ensures counted <= completed && (repo.Reliable() ==> counted == completed)
      ensures BatchInv(tasks, |tasks|, repo.rows, workerID, readings, send, completed, charged, repo.Reliable())
      ensures Spares(workerID, IdsOf(tasks), old(repo.rows), repo.rows)
      ensures repo.Reliable() ==>
        && completed == (set i: nat | i < |tasks| && tasks[i].row.availableAt <= readings(i).due
                                      && send(tasks[i]).Delivered? :: tasks[i].id)
        && forall i :: 0 <= i < |tasks| ==> !Held(repo.rows, workerID, tasks[i].id)
    {
      hide BatchInv, Spares;
      processed, counted, completed, charged := 0, {}, {}, {};
      SparesSelf(workerID, IdsOf(tasks), repo.rows);
      for i := 0 to |tasks|
        invariant repo.Serves(workerID) && processed == |counted|
        invariant counted <= completed && (repo.Reliable() ==> counted == completed)
        invariant BatchInv(tasks, i, repo.rows, workerID, readings, send, completed, charged, repo.Reliable())
        invariant Spares(workerID, IdsOf(tasks), old(repo.rows), repo.rows)
      {
        ghost var before := repo.rows;
        var count, done, charge := ProcessOne(tasks, i, tasks[i], readings, readings(i), send, completed, charged);
        SparesOnward(tasks, i, workerID, old(repo.rows), before, repo.rows);
        charged := charged + Only(tasks[i].id, charge);
        completed := completed + Only(tasks[i].id, done);
        counted := counted + Only(tasks[i].id, count);
        if count {
          processed := processed + 1;
        }
      }
      BatchResult(tasks, repo.rows, workerID, readings, send, completed, charged, repo.Reliable());
    }
  }

  /** The batch that a poll took, column by column: the tasks are exactly the rows the worker holds
      now and did not hold before. They were pending, due, cooled down and not locked, and only
      status, owner and lease time are new; no other row is touched. They come in order, and a row
      that could have been taken is left out only when the limit is reached by rows that are not
      later. */
  ghost predicate TookBatch(met: Table<Delivery>, taken: Table<Delivery>, owner: string, limit: int, now: int,
                            until: int, locked: set<string>, tasks: seq<Task<Delivery>>) {
    && |tasks| <= limit && DistinctIds(tasks) && taken.Keys == met.Keys
    && (forall id :: id in IdsOf(tasks) <==>
          id in taken && taken[id].lockedBy == owner && !(id in met && met[id].lockedBy == owner))
    && (forall id :: id in met && id !in IdsOf(tasks) ==> taken[id] == met[id])
    && (forall i :: 0 <= i < |tasks| ==>
          && tasks[i].id in met && tasks[i].id !in locked
          && tasks[i].row == taken[tasks[i].id]
          && var row := met[tasks[i].id];
          && row.status == Pending && row.availableAt <= now
          && (row.data.cooldownUntil.None? || row.data.cooldownUntil.value <= now)
          && tasks[i].row == row.(status := Running, lockedBy := owner, lockedUntil := Some(until)))
    && (forall i, j :: 0 <= i < j < |tasks| ==> NotLater(tasks[i].row, tasks[j].row))
    && (forall id :: id in met && id !in IdsOf(tasks) && id !in locked && met[id].status == Pending
                     && met[id].availableAt <= now
                     && (met[id].data.cooldownUntil.None? || met[id].data.cooldownUntil.value <= now) ==>
          |tasks| == limit && forall i :: 0 <= i < |tasks| ==> NotLater(tasks[i].row, met[id]))
  }

  lemma SparesIsSound(start: Table<Delivery>, met: Table<Delivery>, owner: string)
    requires Spares(owner, {}, start, met)
    ensures TableInv(met)
  {
  }

  lemma SparesOnward(tasks: seq<Task<Delivery>>, i: nat, owner: string, taken: Table<Delivery>, rows: Table<Delivery>,
                     rows': Table<Delivery>)
    requires i < |tasks| && Spares(owner, IdsOf(tasks), taken, rows) && Spares(owner, {tasks[i].id}, rows, rows')
    ensures Spares(owner, IdsOf(tasks), taken, rows')
  {
    hide Spares;
    SparesTrans(owner, IdsOf(tasks), {tasks[i].id}, taken, rows, rows');
    assert IdsOf(tasks) + {tasks[i].id} == IdsOf(tasks);
  }

  /** What ProcessBatch's result means: the completed tasks were due and delivered, all of them when
      no statement was lost, and their rows say so; the charged ones failed, and then none but
      failures of tasks that were due. */
  lemma BatchResult(tasks: seq<Task<Delivery>>, rows: Table<Delivery>, owner: string, readings: nat -> Readings,
                    send: Task<Delivery> -> Verdict, completed: set<string>, charged: set<string>, reliable: bool)
    requires BatchInv(tasks, |tasks|, rows, owner, readings, send, completed, charged, reliable)
    ensures var delivered := set i: nat | i < |tasks| && tasks[i].row.availableAt <= readings(i).due
                                          && send(tasks[i]).Delivered? :: tasks[i].id;
      completed <= delivered && (reliable ==> completed == delivered)
    ensures reliable ==>
      charged == set i: nat | i < |tasks| && tasks[i].row.availableAt <= readings(i).due
                              && send(tasks[i]).Undelivered? :: tasks[i].id
    ensures forall i :: 0 <= i < |tasks| ==>
      && tasks[i].id in rows
      && (tasks[i].id in completed ==> CompletedWell(tasks[i].row, rows[tasks[i].id], readings(i).now))
      && (tasks[i].id in charged ==> rows[tasks[i].id].attempts > tasks[i].row.attempts)
      && (reliable ==> !Held(rows, owner, tasks[i].id))
  {
    hide CompletedWell;
    assert forall i :: 0 <= i < |tasks| ==> Settled(tasks[i], readings(i), rows, owner, completed, charged, reliable);
  }

  /** The row of a task that was put back: nobody's, due again after the delay, no attempt charged. */
  predicate RequeuedWell(row: Row<Delivery>, row': Row<Delivery>, dueAt: int, at: int) {
    && row'.status == Pending && row'.lockedBy == "" && row'.lockedUntil == None && row'.availableAt == dueAt
    && row'.attempts == row.attempts && row'.maxAttempts == row.maxAttempts && row'.createdAt == row.createdAt
    && row'.data.updatedAt == at && SameMessage(row.data, row'.data)
    && row'.data.lastError == row.data.lastError && row'.data.lastAttemptAt == row.data.lastAttemptAt
    && row'.data.escalationStep == row.data.escalationStep
  }

  /** The row of a delivered task: nobody's, and otherwise as it was. */
  predicate CompletedWell(row: Row<Delivery>, row': Row<Delivery>, at: int) {
    && row'.status == Completed && row'.lockedBy == "" && row'.lockedUntil == None
    && row'.availableAt == row.availableAt
    && row'.attempts == row.attempts && row'.maxAttempts == row.maxAttempts && row'.createdAt == row.createdAt
    && row'.data.updatedAt == at && SameMessage(row.data, row'.data)
    && row'.data.lastError == row.data.lastError && row'.data.lastAttemptAt == row.data.lastAttemptAt
    && row'.data.escalationStep == row.data.escalationStep
  }

  /** The row of a task that failed: an attempt more, the cause on record, nobody's. With the last
      attempt it has failed for good; any other leaves it pending for the backoff of the attempts
      that it had when polled. */
  predicate ChargedWell(row: Row<Delivery>, row': Row<Delivery>, cause: string, at: int) {
    && row'.status == (if row.attempts + 1 >= row.maxAttempts then Failed else Pending)
    && row'.lockedBy == "" && row'.lockedUntil == None && row'.availableAt == at + BackoffDelay(row.attempts)
    && row'.attempts == row.attempts + 1 && row'.maxAttempts == row.maxAttempts && row'.createdAt == row.createdAt
    && row'.data.updatedAt == at && SameMessage(row.data, row'.data)
    && row'.data.lastError == cause && row'.data.lastAttemptAt == Some(at)
    && row'.data.escalationStep == row.data.escalationStep
  }

  /** For whom it is, and what it says. */
  predicate SameMessage(d: Delivery, d': Delivery) {
    && d'.tenant == d.tenant && d'.alertID == d.alertID && d'.ruleID == d.ruleID && d'.channelID == d.channelID
    && d'.payload == d.payload && d'.cooldownUntil == d.cooldownUntil
  }

  lemma ChargedTaskIsWell(task: Task<Delivery>, at: int, cause: string)
    ensures ChargedWell(task.row, ChargedTask(task, at, cause), cause, at)
    ensures ChargedTask(task, at, cause).attempts == task.row.attempts + 1
      && ChargedTask(task, at, cause).lockedBy == ""
  {
    hide BackoffDelay;
  }

  lemma CompletedIsTerminal(row: Row<Delivery>, row': Row<Delivery>, at: int)
    requires CompletedWell(row, row', at)
    ensures row'.status == Completed
  {
  }

  lemma DoneIsCompleted(met: Table<Delivery>, owner: string, task: Task<Delivery>, at: int)
    requires owner != "" && Held(met, owner, task.id) && met[task.id] == task.row
    ensures var rows := Apply(met, Complete(owner, task.id, Stamped(at)(met[task.id].data)));
      task.id in rows && CompletedWell(task.row, rows[task.id], at) && !Held(rows, owner, task.id)
  {
  }

  lemma StillNotHeld(owner: string, id: string, rows: Table<Delivery>, rows': Table<Delivery>)
    requires Spares(owner, {id}, rows, rows') && !Held(rows, owner, id)
    ensures !Held(rows', owner, id)
  {
  }

  lemma AttemptIsCharged(row: Row<Delivery>, row': Row<Delivery>, cause: string, at: int)
    requires ChargedWell(row, row', cause, at)
    ensures row'.attempts == row.attempts + 1 && row'.lockedBy == ""
  {
  }

  lemma NextIsHeld(tasks: seq<Task<Delivery>>, n: nat, rows: Table<Delivery>, owner: string, readings: nat -> Readings,
                   send: Task<Delivery> -> Verdict, completed: set<string>, charged: set<string>, reliable: bool)
    requires n < |tasks| && BatchInv(tasks, n, rows, owner, readings, send, completed, charged, reliable)
    ensures Held(rows, owner, tasks[n].id) && rows[tasks[n].id] == tasks[n].row
  {
  }

  /** A task after FailTask: one more attempt, due after the backoff of the polled attempts. */
  function ChargedTask(task: Task<Delivery>, at: int, cause: string): Row<Delivery> {
    Charged(task.row, at + BackoffDelay(task.row.attempts),
            FailedAt(at, cause, task.row.data.escalationStep)(task.row.data))
  }

  lemma FailIsCharged(rows: Table<Delivery>, owner: string, task: Task<Delivery>, at: int, cause: string)
    requires Held(rows, owner, task.id) && rows[task.id] == task.row
    ensures var data := FailedAt(at, cause, task.row.data.escalationStep)(task.row.data);
      var after := Apply(rows, Fail(owner, task.id, at + BackoffDelay(task.row.attempts), data));
      task.id in after && after[task.id] == ChargedTask(task, at, cause)
  {
    hide BackoffDelay;
  }

  lemma SparesSelf(owner: string, own: set<string>, rows: Table<Delivery>)
    requires TableInv(rows)
    ensures Spares(owner, own, rows, rows)
  {
  }

  lemma NothingPolled(rows: Table<Delivery>, owner: string, readings: nat -> Readings, send: Task<Delivery> -> Verdict,
                      reliable: bool)
    ensures BatchInv([], 0, rows, owner, readings, send, {}, {}, reliable)
  {
  }

  function NewTask(id: string, alertID: string, ruleID: string, tenant: string, channelID: string, payload: string,
                   now: int): Task<Delivery> {
    Task(id, Fresh(5, now, now, Delivery(if tenant == "" then "default" else tenant, alertID, ruleID, channelID,
                                         payload, "", None, None, 0, now)))
  }

  /** The first n tasks that were due and got delivered. */
  ghost function Deliveries(tasks: seq<Task<Delivery>>, n: nat, readings: nat -> Readings,
                            send: Task<Delivery> -> Verdict): set<string>
    requires n <= |tasks|
  {
    set i: nat | i < n && Succeeds(tasks[i], readings(i), send) :: tasks[i].id
  }

  /** The first n tasks that were not delivered. */
  ghost function Misses(tasks: seq<Task<Delivery>>, n: nat, readings: nat -> Readings,
                        send: Task<Delivery> -> Verdict): set<string>
    requires n <= |tasks|
  {
    set i: nat | i < n && !Succeeds(tasks[i], readings(i), send) :: tasks[i].id
  }

  /** Of those, the ones that were due. */
  ghost function DueMisses(tasks: seq<Task<Delivery>>, n: nat, readings: nat -> Readings,
                           send: Task<Delivery> -> Verdict): set<string>
    requires n <= |tasks|
  {
    set i: nat | i < n && !Succeeds(tasks[i], readings(i), send) && !Early(tasks[i], readings(i)) :: tasks[i].id
  }

  ghost predicate Settled(task: Task<Delivery>, r: Readings, rows: Table<Delivery>, owner: string,
                          completed: set<string>, charged: set<string>, reliable: bool) {
    && task.id in rows
    && (task.id in completed ==> CompletedWell(task.row, rows[task.id], r.now))
    && (reliable ==> !Held(rows, owner, task.id))
    && (task.id in charged ==> rows[task.id].attempts > task.row.attempts)
  }

  ghost predicate BatchInv(tasks: seq<Task<Delivery>>, n: nat, rows: Table<Delivery>, owner: string,
                           readings: nat -> Readings, send: Task<Delivery> -> Verdict,
                           completed: set<string>, charged: set<string>, reliable: bool)
    requires n <= |tasks|
  {
    && DistinctIds(tasks)
    && completed <= Deliveries(tasks, n, readings, send)
    && charged <= Misses(tasks, n, readings, send)
    && (reliable ==>
          completed == Deliveries(tasks, n, readings, send) && charged == DueMisses(tasks, n, readings, send))
    && (forall j :: n <= j < |tasks| ==> Held(rows, owner, tasks[j].id) && rows[tasks[j].id] == tasks[j].row)
    && (forall j :: 0 <= j < n ==> Settled(tasks[j], readings(j), rows, owner, completed, charged, reliable))
  }

  lemma PolledIsReady(before: Table<Delivery>, after: Table<Delivery>, owner: string, locked: set<string>, limit: int,
                      now: int, until: int, tasks: seq<Task<Delivery>>, readings: nat -> Readings,
                      send: Task<Delivery> -> Verdict, reliable: bool)
    requires TableInv(before) && owner != ""
    requires Polled(before, after, owner, locked, Cooled(now), limit, now, until, tasks)
    requires forall i :: 0 <= i < |tasks| ==> tasks[i].row == after[tasks[i].id]
    ensures BatchInv(tasks, 0, after, owner, readings, send, {}, {}, reliable)
    ensures TookBatch(before, after, owner, limit, now, until, locked, tasks)
  {
    PolledMeans(before, after, owner, locked, Cooled(now), limit, now, until, tasks);
  }

  lemma SetsStep(tasks: seq<Task<Delivery>>, n: nat, readings: nat -> Readings, send: Task<Delivery> -> Verdict)
    requires n < |tasks|
    ensures var t, r := tasks[n], readings(n);
      && Deliveries(tasks, n + 1, readings, send)
         == Deliveries(tasks, n, readings, send) + Only(t.id, Succeeds(t, r, send))
      && Misses(tasks, n + 1, readings, send) == Misses(tasks, n, readings, send) + Only(t.id, !Succeeds(t, r, send))
      && DueMisses(tasks, n + 1, readings, send)
         == DueMisses(tasks, n, readings, send) + Only(t.id, !Succeeds(t, r, send) && !Early(t, r))
  {
  }

  lemma NotYetCompleted(tasks: seq<Task<Delivery>>, n: nat, readings: nat -> Readings, send: Task<Delivery> -> Verdict)
    requires n < |tasks| && DistinctIds(tasks)
    ensures tasks[n].id !in Deliveries(tasks, n, readings, send)
    ensures tasks[n].id !in Misses(tasks, n, readings, send)
  {
  }

  /** One turn of the loop, from what the calls on task n left behind. */
  lemma BatchStep(tasks: seq<Task<Delivery>>, n: nat, rows: Table<Delivery>, rows': Table<Delivery>, owner: string,
                  readings: nat -> Readings, send: Task<Delivery> -> Verdict, completed: set<string>,
                  charged: set<string>, done: bool, charge: bool, reliable: bool)
    requires n < |tasks| && BatchInv(tasks, n, rows, owner, readings, send, completed, charged, reliable)
    requires Spares(owner, {tasks[n].id}, rows, rows')
    requires done ==>
      Succeeds(tasks[n], readings(n), send) && CompletedWell(tasks[n].row, rows'[tasks[n].id], readings(n).now)
    requires reliable ==> !Held(rows', owner, tasks[n].id)
    requires charge ==> !Succeeds(tasks[n], readings(n), send)
                        && rows'[tasks[n].id].attempts > rows[tasks[n].id].attempts
    requires reliable ==>
      && (done <==> Succeeds(tasks[n], readings(n), send))
      && (charge <==> !Succeeds(tasks[n], readings(n), send) && !Early(tasks[n], readings(n)))
    ensures BatchInv(tasks, n + 1, rows', owner, readings, send, completed + Only(tasks[n].id, done),
                     charged + Only(tasks[n].id, charge), reliable)
    ensures tasks[n].id !in completed
  {
    hide Deliveries, Misses, DueMisses, TableInv, CompletedWell;
    SetsStep(tasks, n, readings, send);
    NotYetCompleted(tasks, n, readings, send);
    forall j | 0 <= j < n + 1
      ensures Settled(tasks[j], readings(j), rows', owner, completed + Only(tasks[n].id, done),
                      charged + Only(tasks[n].id, charge), reliable)
    {
      if j < n {
        assert Settled(tasks[j], readings(j), rows, owner, completed, charged, reliable);
        if tasks[j].id in completed {
          CompletedIsTerminal(tasks[j].row, rows[tasks[j].id], readings(j).now);
        }
      }
    }
  }

  /** With a clock that does not run backwards the requeue branch never fires: a polled task
      was due when it was polled. */
  lemma PolledTasksAreDue(before: Table<Delivery>, after: Table<Delivery>, owner: string, locked: set<string>,
                          limit: int, now: int, until: int, tasks: seq<Task<Delivery>>, i: nat, r: Readings)
    requires Polled(before, after, owner, locked, Cooled(now), limit, now, until, tasks)
    requires i < |tasks| && tasks[i].row == after[tasks[i].id] && now <= r.due
    ensures !Early(tasks[i], r)
  {
    assert TaskIds(tasks)[i] == tasks[i].id;
  }
}
