// The download worker's message handler, call by call. Before each of its calls everybody
// else (other handlers, the broker, new requests) may take any number of steps.

module Worker {
  import opened Wrappers
  import opened Download

  // What happens while one message is handled: whether nobody else takes a step, whether the
  // limiter is cancelled, whether reading the row fails, how processing ends after the claim,
  // and which of the writes and calls that may follow work.
  datatype Course = Course(alone: bool, cancelled: bool, readFails: bool, result: Option<ProcError>,
    retryWritten: bool, retrySent: bool, failWritten: bool)

  // Between these two states the handler got to phase p, the row of its task was written (if
  // there is one), and messages went to the delayed queue; nothing else happened.
  ghost predicate Reached(before: State, now: State, h: nat, m: Msg, p: Phase, row: Option<Task>, sent: multiset<Msg>) {
    && now.tasks == Written(before.tasks, m.task, row)
    && now.ready == before.ready && now.delayed == before.delayed + sent
    && now.handlers == before.handlers[h := Handler(m, p)]
    && now.creating == before.creating && now.accepted == before.accepted
  }

  // The same, and the handler is gone; messages were given back to the work queue.
  ghost predicate Left(before: State, now: State, h: nat, m: Msg, row: Option<Task>, back: multiset<Msg>,
    sent: multiset<Msg>)
  {
    && now.tasks == Written(before.tasks, m.task, row)
    && now.ready == before.ready + back && now.delayed == before.delayed + sent
    && now.handlers == before.handlers - {h}
    && now.creating == before.creating && now.accepted == before.accepted
  }

  function Written(tasks: map<TaskId, Task>, t: TaskId, row: Option<Task>): map<TaskId, Task> {
    if row.Some? && t in tasks then tasks[t := row.value] else tasks
  }

  // One action more.
  lemma OneAction(limit: nat, before: State, now: State, h: nat, m: Msg, p: Phase, row: Option<Task>,
    sent: multiset<Msg>, a: Action)
    requires Reached(before, now, h, m, p, row, sent) && Enabled(now, Act(h, a))
    requires DecideIn(limit, now, h, a).row.Some? ==> m.task in before.tasks
    ensures var o, next := DecideIn(limit, now, h, a), Apply(limit, now, Act(h, a));
      var row' := if o.row.Some? then o.row else row;
      var sent' := if o.sent.Some? then sent + multiset{o.sent.value} else sent;
      match o.next
      case At(q) => Reached(before, next, h, m, q, row', sent')
      case GiveBack => Left(before, next, h, m, row', multiset{m}, sent')
      case Leave => Left(before, next, h, m, row', multiset{}, sent')
  {
    hide Decide, CanAct;
    var o := DecideIn(limit, now, h, a);
    OutcomeTaken(before, now, h, m, p, row, sent, o);
    hide Reached, Left;
    assert Apply(limit, now, Act(h, a)) == Perform(now, h, o);
  }

  lemma OutcomeTaken(before: State, now: State, h: nat, m: Msg, p: Phase, row: Option<Task>, sent: multiset<Msg>,
    o: Outcome)
    requires Reached(before, now, h, m, p, row, sent) && (o.row.Some? ==> m.task in before.tasks)
    ensures var next := Perform(now, h, o);
      var row' := if o.row.Some? then o.row else row;
      var sent' := if o.sent.Some? then sent + multiset{o.sent.value} else sent;
      match o.next
      case At(q) => Reached(before, next, h, m, q, row', sent')
      case GiveBack => Left(before, next, h, m, row', multiset{m}, sent')
      case Leave => Left(before, next, h, m, row', multiset{}, sent')
  {
    TwiceWritten(before.tasks, m.task, row, o.row);
    HandlerReplaced(before.handlers, h, Handler(m, p), Handler(m, if o.next.At? then o.next.phase else p));
    hide Written;
    assert now.handlers[h].msg == m;
    match o.next
    case At(_) =>
    case GiveBack =>
    case Leave =>
  }

  lemma HandlerReplaced(handlers: map<nat, Handler>, h: nat, a: Handler, b: Handler)
    ensures handlers[h := a][h := b] == handlers[h := b] && handlers[h := a] - {h} == handlers - {h}
  {}

  lemma TwiceWritten(tasks: map<TaskId, Task>, t: TaskId, a: Option<Task>, b: Option<Task>)
    requires b.Some? ==> t in tasks
    ensures b.Some? ==> Written(tasks, t, a)[t := b.value] == Written(tasks, t, b)
  {}

  // A row is written only where there is one.
  lemma WritesOwnRow(limit: nat, before: State, now: State, h: nat, m: Msg, p: Phase, row: Option<Task>,
    sent: multiset<Msg>, a: Action)
    requires Reached(before, now, h, m, p, row, sent) && Enabled(now, Act(h, a))
    ensures DecideIn(limit, now, h, a).row.Some? ==> m.task in before.tasks
  {}

  // The row as it stands for the handler.
  function RowNow(before: State, t: TaskId, row: Option<Task>): Option<Task> {
    if t !in before.tasks then None else if row.Some? then row else Some(before.tasks[t])
  }

  lemma ReachedRow(before: State, now: State, h: nat, m: Msg, p: Phase, row: Option<Task>, sent: multiset<Msg>)
    requires Reached(before, now, h, m, p, row, sent)
    ensures Row(now, m.task) == RowNow(before, m.task, row) && h in now.handlers && now.handlers[h] == Handler(m, p)
  {}

  // The row's number of retries, whatever was written since.
  predicate SameRetries(before: State, t: TaskId, row: Option<Task>) {
    row.Some? ==> t in before.tasks && row.value.retryCount == before.tasks[t].retryCount
  }

  // ---- How a message handled without interference ends ---------------------

  // The download is put off: the row says so and the next attempt is delayed; a write or a
  // publish that fails gives the message back instead.
  ghost predicate PutOff(before: State, now: State, h: nat, m: Msg, row: Option<Task>, x: Course) {
    var retrying := Some(Task(Retrying, m.attempt + 1));
    if !x.retryWritten then Left(before, now, h, m, row, multiset{m}, multiset{})
    else if !x.retrySent then Left(before, now, h, m, retrying, multiset{m}, multiset{})
    else Left(before, now, h, m, retrying, multiset{}, multiset{Msg(m.task, m.attempt + 1)})
  }

  // The download is given up.
  ghost predicate GivenUp(before: State, now: State, h: nat, m: Msg, row: Option<Task>, x: Course) {
    if !x.failWritten then Left(before, now, h, m, row, multiset{m}, multiset{})
    else
      var failed := if m.task in before.tasks then Some(Task(Failed, before.tasks[m.task].retryCount)) else None;
      Left(before, now, h, m, failed, multiset{}, multiset{})
  }

  // What the host's answers mean: too slow, too many requests, or a fault of its own.
  predicate WorthRetrying(e: ProcError) {
    match e
    case RecordNotFound => false
    case Interrupted => true
    case HttpStatus(code) => code in {408, 429} || 500 <= code
    case OtherError => true
  }

  // An error is retried while attempts are left, and otherwise the download is given up.
  ghost predicate AfterFailure(configured: int, before: State, now: State, h: nat, m: Msg, row: Option<Task>,
    e: ProcError, x: Course)
  {
    if WorthRetrying(e) && m.attempt + 1 <= configured then PutOff(before, now, h, m, row, x)
    else GivenUp(before, now, h, m, row, x)
  }

  ghost predicate HandledAlone(configured: int, before: State, now: State, h: nat, m: Msg, x: Course) {
    var t := m.task;
    if x.cancelled then Left(before, now, h, m, None, multiset{m}, multiset{})
    else if x.readFails then AfterFailure(configured, before, now, h, m, None, OtherError, x)
    else if t !in before.tasks then GivenUp(before, now, h, m, None, x)
    else if before.tasks[t].status !in {Pending, Retrying} then
      Left(before, now, h, m, None, multiset{}, multiset{})
    else
      var retries := before.tasks[t].retryCount;
      match x.result
      case None => Left(before, now, h, m, Some(Task(Completed, retries)), multiset{}, multiset{})
      case Some(Interrupted) => Left(before, now, h, m, Some(Task(Running, retries)), multiset{m}, multiset{})
      case Some(e) => AfterFailure(configured, before, now, h, m, Some(Task(Running, retries)), e, x)
  }

  class DownloadWorker {
    const configured: int        // DownloadRetryMax
    var s: State                 // tables and queues, shared with everybody
    ghost var trace: seq<Step>
    ghost var states: seq<State>

    ghost function Limit(): nat { MaxRetry(configured) }

    ghost predicate Legal() reads this {
      IsRun(Limit(), trace, states, ANYTHING) && states[|trace|] == s
    }

    // Handler h is at phase p with message m.
    ghost predicate Stands(h: nat, m: Msg, p: Phase) reads this {
      h in s.handlers && s.handlers[h] == Handler(m, p)
    }

    ghost predicate Extends(before: seq<Step>) reads this {
      before <= trace
    }

    constructor (configured: int)
      ensures Legal() && s == START && trace == [] && this.configured == configured
    {
      this.configured := configured;
      s := START;
      trace := [];
      states := [START];
    }

    method Do(step: Step)
      requires Legal() && Enabled(s, step)
      modifies this
      ensures Legal() && s == Apply(Limit(), old(s), step) && trace == old(trace) + [step]
    {
      ghost var s0 := s;
      s := Apply(MaxRetry(configured), s, step);
      trace := trace + [step];
      states := states + [s];
      assert Follows(Limit(), states[|trace| - 1], step, states[|trace| - 1 + 1]);
      hide Follows;
    }

    method Others(h: nat, ghost m: Msg, ghost p: Phase, alone: bool)
      requires Legal() && Stands(h, m, p)
      modifies this
      ensures Legal() && Stands(h, m, p) && Extends(old(trace))
      ensures alone ==> s == old(s)
    {
      var rounds: nat := *;
      while rounds > 0 && !alone
        invariant Legal() && Stands(h, m, p) && old(trace) <= trace
        invariant alone ==> s == old(s)
      {
        var step: Step := *;
        if Enabled(s, step) && !(step.Act? && step.h == h) {
          OthersLeave(Limit(), s, step, h);
          Do(step);
        }
        rounds := rounds - 1;
      }
    }

    // One call of handler h, by which it gets on or leaves.
    method Step(h: nat, m: Msg, ghost p: Phase, a: Action, ghost before: State, ghost row: Option<Task>,
      ghost sent: multiset<Msg>, ghost alone: bool)
      requires Legal() && Stands(h, m, p) && Enabled(s, Act(h, a))
      requires alone ==> Reached(before, s, h, m, p, row, sent)
      modifies this
      ensures Legal() && Extends(old(trace))
      ensures var o := Decide(Limit(), Row(old(s), m.task), m, p, a);
        && (if o.next.At? then Stands(h, m, o.next.phase) else h !in s.handlers)
        && (alone ==>
             var row' := if o.row.Some? then o.row else row;
             var sent' := if o.sent.Some? then sent + multiset{o.sent.value} else sent;
             match o.next
             case At(q) => Reached(before, s, h, m, q, row', sent')
             case GiveBack => Left(before, s, h, m, row', multiset{m}, sent')
             case Leave => Left(before, s, h, m, row', multiset{}, sent'))
    {
      hide Decide, CanAct, Legal, Reached, Left;
      if alone {
        WritesOwnRow(Limit(), before, s, h, m, p, row, sent, a);
        OneAction(Limit(), before, s, h, m, p, row, sent, a);
      }
      Do(Act(h, a));
    }

    // ProcessDownloadTask, up to reporting its error. A cancelled download is nacked.
    method ProcessDownloadTask(h: nat, m: Msg, x: Course, ghost before: State) returns (error: Option<ProcError>)
      requires Legal() && Stands(h, m, Received)
      requires x.alone ==> Reached(before, s, h, m, Received, None, multiset{})
      modifies this
      ensures Legal() && Extends(old(trace))
      ensures match error
        case None => Stands(h, m, Done)
        case Some(Interrupted) => h !in s.handlers
        case Some(e) => exists claimed :: Stands(h, m, AfterError(Limit(), m, e, claimed))
      ensures x.alone ==>
        if x.readFails then
          && error == Some(OtherError)
          && Reached(before, s, h, m, AfterError(Limit(), m, OtherError, false), None, multiset{})
        else if m.task !in before.tasks then
          && error == Some(RecordNotFound)
          && Reached(before, s, h, m, AfterError(Limit(), m, RecordNotFound, false), None, multiset{})
        else if before.tasks[m.task].status !in {Pending, Retrying} then
          error == None && Reached(before, s, h, m, Done, None, multiset{})
        else
          && error == x.result
          && var retries := before.tasks[m.task].retryCount;
             match x.result
             case None => Reached(before, s, h, m, Done, Some(Task(Completed, retries)), multiset{})
             case Some(Interrupted) => Left(before, s, h, m, Some(Task(Running, retries)), multiset{m}, multiset{})
             case Some(e) =>
               Reached(before, s, h, m, AfterError(Limit(), m, e, true), Some(Task(Running, retries)), multiset{})
    {
      hide Legal, AfterError, Reached, Left;
      Others(h, m, Received, x.alone);
      if x.alone { ReachedRow(before, s, h, m, Received, None, multiset{}); }
      if x.readFails {
        Step(h, m, Received, PreClaimError, before, None, multiset{}, x.alone);
        return Some(OtherError);
      }
      if m.task in s.tasks && s.tasks[m.task].status == Completed {
        Step(h, m, Received, SeeCompleted, before, None, multiset{}, x.alone);
        return None;
      }
      Others(h, m, Received, x.alone);
      var claimable := m.task in s.tasks && s.tasks[m.task].status in {Pending, Retrying};
      var missing := m.task !in s.tasks;
      Step(h, m, Received, TryClaim, before, None, multiset{}, x.alone);
      if missing { return Some(RecordNotFound); }
      if !claimable { return None; }
      Others(h, m, Claimed, x.alone);
      error := x.result;
      ghost var row := if x.alone then Some(Task(Running, before.tasks[m.task].retryCount)) else None;
      if x.alone { ReachedRow(before, s, h, m, Claimed, row, multiset{}); }
      Step(h, m, Claimed, Finish(error), before, row, multiset{}, x.alone);
    }

    method MarkFailed(h: nat, m: Msg, ghost claimed: bool, x: Course, ghost before: State, ghost row: Option<Task>)
      returns (ok: bool)
      requires Legal() && Stands(h, m, ToFail(claimed))
      requires x.alone ==>
        Reached(before, s, h, m, ToFail(claimed), row, multiset{}) && SameRetries(before, m.task, row)
      modifies this
      ensures Legal() && Extends(old(trace)) && if ok then Stands(h, m, Done) else h !in s.handlers
      ensures ok == x.failWritten
      ensures x.alone && !ok ==> Left(before, s, h, m, row, multiset{m}, multiset{})
      ensures x.alone && ok ==> Reached(before, s, h, m, Done,
        if m.task in before.tasks then Some(Task(Failed, before.tasks[m.task].retryCount)) else row, multiset{})
    {
      hide Legal, Reached, Left;
      Others(h, m, ToFail(claimed), x.alone);
      if x.alone { ReachedRow(before, s, h, m, ToFail(claimed), row, multiset{}); }
      ok := x.failWritten;
      Step(h, m, ToFail(claimed), WriteFailed(ok), before, row, multiset{}, x.alone);
    }

    method ScheduleRetry(h: nat, m: Msg, ghost claimed: bool, ghost e: ProcError, x: Course, ghost before: State,
      ghost row: Option<Task>)
      returns (ok: bool)
      requires Legal() && ShouldRetry(e) && Stands(h, m, AfterError(Limit(), m, e, claimed))
      requires x.alone ==> SameRetries(before, m.task, row)
      requires x.alone ==> Reached(before, s, h, m, AfterError(Limit(), m, e, claimed), row, multiset{})
      modifies this
      ensures Legal() && Extends(old(trace)) && if ok then Stands(h, m, Done) else h !in s.handlers
      ensures ok == if m.attempt + 1 <= configured then x.retryWritten && x.retrySent else x.failWritten
      ensures x.alone && m.attempt + 1 > configured && !ok ==> Left(before, s, h, m, row, multiset{m}, multiset{})
      ensures x.alone && m.attempt + 1 > configured && ok ==> Reached(before, s, h, m, Done,
        if m.task in before.tasks then Some(Task(Failed, before.tasks[m.task].retryCount)) else row, multiset{})
      ensures x.alone && m.attempt + 1 <= configured && !ok ==> Left(before, s, h, m,
        if x.retryWritten && m.task in before.tasks then Some(Task(Retrying, m.attempt + 1)) else row,
        multiset{m}, multiset{})
      ensures x.alone && m.attempt + 1 <= configured && ok ==> Reached(before, s, h, m, Done,
        if m.task in before.tasks then Some(Task(Retrying, m.attempt + 1)) else row,
        multiset{Msg(m.task, m.attempt + 1)})
    {
      hide Legal, Reached, Left;
      var maxRetry := MaxRetry(configured);
      if maxRetry == 0 || m.attempt + 1 > maxRetry {
        ok := MarkFailed(h, m, claimed, x, before, row);
        return;
      }
      Others(h, m, ToRetry(claimed), x.alone);
      if x.alone { ReachedRow(before, s, h, m, ToRetry(claimed), row, multiset{}); }
      ok := x.retryWritten;
      Step(h, m, ToRetry(claimed), WriteRetry(ok), before, row, multiset{}, x.alone);
      if !ok { return; }
      ghost var retrying := if m.task in before.tasks then Some(Task(Retrying, m.attempt + 1)) else row;
      Others(h, m, ToPublish, x.alone);
      ok := x.retrySent;
      Step(h, m, ToPublish, PublishRetry(ok), before, retrying, multiset{}, x.alone);
      assert multiset{} + multiset{Msg(m.task, m.attempt + 1)} == multiset{Msg(m.task, m.attempt + 1)};
    }

    // Whatever fails and whoever interferes, the message is acknowledged or given back, all
    // that happened is a run of the protocol, and so no task is lost. When nobody interferes,
    // the outcome of processing and the calls that work determine how it ends.
    method HandleDownloadMessage(h: nat, m: Msg, x: Course)
      requires Legal() && Stands(h, m, Received)
      modifies this
      ensures Legal() && Extends(old(trace)) && h !in s.handlers
      ensures NoLostTask(s) && Bounded(Limit(), s)
      ensures x.alone ==> HandledAlone(configured, old(s), s, h, m, x)
    {
      hide Legal, Reached, Left, AfterError;
      ghost var before := s;
      NothingYet(s, h, m);
      Others(h, m, Received, x.alone);
      if x.cancelled {
        Step(h, m, Received, Requeue, before, None, multiset{}, x.alone);
      } else {
        var error := ProcessDownloadTask(h, m, x, before);
        if error == None {
          ghost var row := if x.alone && m.task in before.tasks && before.tasks[m.task].status in {Pending, Retrying}
            then Some(Task(Completed, before.tasks[m.task].retryCount)) else None;
          Acknowledge(h, m, x, before, row, multiset{});
          if x.alone { NoErrorHandled(configured, before, s, h, m, x, row); }
        } else if error.value != Interrupted {
          ghost var claimed :| Stands(h, m, AfterError(Limit(), m, error.value, claimed));
          ghost var ran := !x.readFails && m.task in before.tasks && before.tasks[m.task].status in {Pending, Retrying};
          ghost var row := if ran then Some(Task(Running, before.tasks[m.task].retryCount)) else None;
          if x.alone { ReachedThere(before, s, h, m, error.value, Limit(), claimed, ran, row); }
          FollowUp(h, m, claimed, error.value, x, before, row);
          if x.alone { ErrorHandled(configured, before, s, h, m, x, error.value, ran); }
        }
      }
      RunIsSafe();
    }

    // What follows an error.
    method FollowUp(h: nat, m: Msg, ghost claimed: bool, e: ProcError, x: Course, ghost before: State,
      ghost row: Option<Task>)
      requires Legal() && e != Interrupted && Stands(h, m, AfterError(Limit(), m, e, claimed))
      requires x.alone ==> SameRetries(before, m.task, row)
      requires x.alone ==> Reached(before, s, h, m, AfterError(Limit(), m, e, claimed), row, multiset{})
      modifies this
      ensures Legal() && Extends(old(trace)) && h !in s.handlers
      ensures x.alone ==> AfterFailure(configured, before, s, h, m, row, e, x)
    {
      hide Legal, Reached, Left;
      var ok;
      ghost var failed := if m.task in before.tasks then Some(Task(Failed, before.tasks[m.task].retryCount)) else row;
      ghost var retrying := if m.task in before.tasks then Some(Task(Retrying, m.attempt + 1)) else row;
      ghost var puts := ShouldRetry(e) && m.attempt + 1 <= configured;
      if ShouldRetry(e) {
        ok := ScheduleRetry(h, m, claimed, e, x, before, row);
      } else {
        ok := MarkFailed(h, m, claimed, x, before, row);
      }
      if ok {
        Acknowledge(h, m, x, before, if puts then retrying else failed,
          if puts then multiset{Msg(m.task, m.attempt + 1)} else multiset{});
      }
      forall a, b, back, sent | m.task !in before.tasks
        ensures Left(before, s, h, m, a, back, sent) == Left(before, s, h, m, b, back, sent)
      {
        NoRowToWrite(before, s, h, m, a, b, back, sent);
      }
    }

    method Acknowledge(h: nat, m: Msg, x: Course, ghost before: State, ghost row: Option<Task>,
      ghost sent: multiset<Msg>)
      requires Legal() && Stands(h, m, Done)
      requires x.alone ==> Reached(before, s, h, m, Done, row, sent)
      modifies this
      ensures Legal() && Extends(old(trace)) && h !in s.handlers
      ensures x.alone ==> Left(before, s, h, m, row, multiset{}, sent)
    {
      hide Legal, Reached, Left;
      Others(h, m, Done, x.alone);
      Step(h, m, Done, Ack, before, row, sent, x.alone);
    }

    lemma RunIsSafe()
      requires Legal()
      ensures NoLostTask(s) && Bounded(Limit(), s)
    {
      NoTaskIsEverLost(Limit(), trace, states, |trace|);
      RetriesAreBounded(Limit(), trace, states, |trace|);
    }
  }

  lemma NoErrorHandled(configured: int, before: State, now: State, h: nat, m: Msg, x: Course, row: Option<Task>)
    requires !x.cancelled && !x.readFails && m.task in before.tasks
    requires Left(before, now, h, m, row, multiset{}, multiset{})
    requires if before.tasks[m.task].status in {Pending, Retrying}
      then x.result == None && row == Some(Task(Completed, before.tasks[m.task].retryCount))
      else row == None
    ensures HandledAlone(configured, before, now, h, m, x)
  {
    hide Left;
  }

  lemma ErrorHandled(configured: int, before: State, now: State, h: nat, m: Msg, x: Course, e: ProcError, ran: bool)
    requires !x.cancelled
    requires ran == (!x.readFails && m.task in before.tasks && before.tasks[m.task].status in {Pending, Retrying})
    requires if x.readFails then e == OtherError
      else if m.task !in before.tasks then e == RecordNotFound
      else ran && x.result == Some(e) && e != Interrupted
    requires AfterFailure(configured, before, now, h, m,
      if ran then Some(Task(Running, before.tasks[m.task].retryCount)) else None, e, x)
    ensures HandledAlone(configured, before, now, h, m, x)
  {
    hide Left;
  }

  lemma NoRowToWrite(before: State, now: State, h: nat, m: Msg, a: Option<Task>, b: Option<Task>, back: multiset<Msg>,
    sent: multiset<Msg>)
    requires m.task !in before.tasks
    ensures Left(before, now, h, m, a, back, sent) == Left(before, now, h, m, b, back, sent)
  {}

  // Where the handler stands says at which phase it got.
  lemma ReachedThere(before: State, now: State, h: nat, m: Msg, e: ProcError, limit: nat, claimed: bool, ran: bool,
    row: Option<Task>)
    requires Reached(before, now, h, m, AfterError(limit, m, e, ran), row, multiset{})
    requires h in now.handlers && now.handlers[h] == Handler(m, AfterError(limit, m, e, claimed))
    ensures Reached(before, now, h, m, AfterError(limit, m, e, claimed), row, multiset{})
  {}

  lemma NothingYet(s: State, h: nat, m: Msg)
    requires h in s.handlers && s.handlers[h] == Handler(m, Received)
    ensures Reached(s, s, h, m, Received, None, multiset{})
  {}

  lemma OthersLeave(limit: nat, s: State, step: Step, h: nat)
    requires h in s.handlers && Enabled(s, step) && !(step.Act? && step.h == h)
    ensures var s' := Apply(limit, s, step); h in s'.handlers && s'.handlers[h] == s.handlers[h]
  {
    hide Decide, CanAct;
  }
}
