// The offline-download protocol: tasks in the database, messages in a work queue and a
// delayed retry queue, and any number of handlers working on delivered, unacknowledged
// messages. One step is one database or broker call of one participant.

module Download {
  import opened Wrappers

  type TaskId = nat

  datatype Status = Pending | Running | Retrying | Completed | Failed

  datatype Task = Task(status: Status, retryCount: nat)

  datatype Msg = Msg(task: TaskId, attempt: nat)

  // What processing a task may report.
  datatype ProcError = RecordNotFound | Interrupted | HttpStatus(code: int) | OtherError

  function ShouldRetry(e: ProcError): bool {
    match e
    case RecordNotFound => false
    case HttpStatus(code) => code == 408 || code == 429 || code >= 500
    case _ => true
  }

  function MaxRetry(configured: int): nat {
    if configured < 0 then 0 else configured
  }

  function PickRetryDelay(attempt: int, delays: seq<int>): (r: int)
    ensures delays == [] ==> r == 0
    ensures delays != [] && attempt <= 1 ==> r == delays[0]
  {
    if delays == [] then 0
    else if attempt - 1 < 0 then delays[0]
    else if attempt - 1 >= |delays| then delays[|delays| - 1]
    else delays[attempt - 1]
  }

  // The delay is always one of the configured ones, the last one from there on, and a
  // schedule that never shrinks makes waits that never shrink.
  lemma RetryDelays(a: int, b: int, delays: seq<int>)
    requires delays != [] && a <= b && forall i, j :: 0 <= i <= j < |delays| ==> delays[i] <= delays[j]
    ensures PickRetryDelay(a, delays) in delays
    ensures PickRetryDelay(a, delays) <= PickRetryDelay(b, delays)
    ensures 1 <= a <= |delays| ==> PickRetryDelay(a, delays) == delays[a - 1]
    ensures a >= |delays| ==> PickRetryDelay(a, delays) == delays[|delays| - 1]
  {}

  // Where a handler stands. `claimed` tells whether it got past the claim.
  datatype Phase =
    | Received                  // delivered; row not read or claim not tried yet
    | Claimed                   // claim won; downloading and storing
    | ToRetry(claimed: bool)    // about to write status "retrying"
    | ToPublish                 // "retrying" written; about to publish to the retry queue
    | ToFail(claimed: bool)     // about to write status "failed"
    | Done                      // about to acknowledge

  datatype Handler = Handler(msg: Msg, phase: Phase)

  datatype State = State(
    tasks: map<TaskId, Task>,
    creating: set<TaskId>,      // row inserted, first publish not tried yet
    accepted: set<TaskId>,      // CreateDownloadTask returned it
    ready: multiset<Msg>,       // download.queue
    delayed: multiset<Msg>,     // download.retry.queue
    handlers: map<nat, Handler>,
    claims: map<TaskId, nat>)   // how often each task has been claimed

  // What a handler does next.
  datatype Action =
    | Requeue                           // the limiter is cancelled: nack
    | PreClaimError                     // reading or claiming fails with a database error
    | SeeCompleted                      // the row it reads is completed
    | TryClaim                          // UPDATE ... WHERE status IN (pending, retrying)
    | Finish(error: Option<ProcError>)  // None: stored, and "completed" written
    | WriteRetry(ok: bool)
    | PublishRetry(ok: bool)
    | WriteFailed(ok: bool)
    | Ack
    | Crash                             // the broker takes an unacknowledged message back

  datatype Step =
    | InsertTask(t: TaskId)
    | PublishNew(t: TaskId, ok: bool, marked: bool)
    | Deliver(h: nat, m: Msg)
    | DelayOver(m: Msg)
    | Act(h: nat, action: Action)
    | Duplicate(m: Msg)

  // Where an action leaves the handler: in a phase, its message given back to the queue
  // unchanged (nack with requeue, lost connection), or acknowledged.
  datatype Next = At(phase: Phase) | GiveBack | Leave

  // `row` is the download row written, `sent` the message published to the retry queue.
  datatype Outcome = Outcome(row: Option<Task>, next: Next, sent: Option<Msg>)

  function Quietly(p: Phase): Outcome { Outcome(None, At(p), None) }

  const NACK := Outcome(None, GiveBack, None)

  // UPDATE ... SET status WHERE id = t: no row, no effect.
  function WithStatus(row: Option<Task>, status: Status): Option<Task> {
    match row
    case Some(task) => Some(task.(status := status))
    case None => None
  }

  predicate CanAct(row: Option<Task>, p: Phase, a: Action) {
    match a
    case Requeue => p == Received
    case PreClaimError => p == Received
    case SeeCompleted => p == Received && row.Some? && row.value.status == Completed
    case TryClaim => p == Received
    case Finish(_) => p == Claimed
    case WriteRetry(_) => p.ToRetry?
    case PublishRetry(_) => p == ToPublish
    case WriteFailed(_) => p.ToFail?
    case Ack => p == Done
    case Crash => true
  }

  // What follows an error of ProcessDownloadTask.
  function AfterError(limit: nat, m: Msg, e: ProcError, claimed: bool): Phase {
    if ShouldRetry(e) && limit > 0 && m.attempt + 1 <= limit then ToRetry(claimed) else ToFail(claimed)
  }

  function Decide(limit: nat, row: Option<Task>, m: Msg, p: Phase, a: Action): Outcome
    requires CanAct(row, p, a)
  {
    match a
    case Requeue => NACK
    case PreClaimError => Quietly(AfterError(limit, m, OtherError, false))
    case SeeCompleted => Quietly(Done)
    case TryClaim =>
      if row == None then Quietly(AfterError(limit, m, RecordNotFound, false))
      else if row.value.status in {Pending, Retrying} then Outcome(WithStatus(row, Running), At(Claimed), None)
      else Quietly(Done)
    case Finish(e) =>
      (match e
       case None => Outcome(WithStatus(row, Completed), At(Done), None)
       case Some(Interrupted) => NACK
       case Some(err) => Quietly(AfterError(limit, m, err, true)))
    case WriteRetry(ok) =>
      if !ok then NACK
      else Outcome(if row.Some? then Some(Task(Retrying, m.attempt + 1)) else None, At(ToPublish), None)
    case PublishRetry(ok) =>
      if !ok then NACK else Outcome(None, At(Done), Some(Msg(m.task, m.attempt + 1)))
    case WriteFailed(ok) =>
      if !ok then NACK else Outcome(WithStatus(row, Failed), At(Done), None)
    case Ack => Outcome(None, Leave, None)
    case Crash => NACK
  }

  function Row(s: State, t: TaskId): Option<Task> {
    if t in s.tasks then Some(s.tasks[t]) else None
  }

  function Claims(s: State, t: TaskId): nat {
    if t in s.claims then s.claims[t] else 0
  }

  function Perform(s: State, h: nat, o: Outcome): State
    requires h in s.handlers
  {
    var m := s.handlers[h].msg;
    s.(tasks := if o.row.Some? then s.tasks[m.task := o.row.value] else s.tasks,
       ready := if o.next.GiveBack? then s.ready + multiset{m} else s.ready,
       delayed := if o.sent.Some? then s.delayed + multiset{o.sent.value} else s.delayed,
       handlers := if o.next.At? then s.handlers[h := Handler(m, o.next.phase)] else s.handlers - {h},
       claims := if o.next == At(Claimed) then s.claims[m.task := Claims(s, m.task) + 1] else s.claims)
  }

  predicate Enabled(s: State, step: Step) {
    match step
    case InsertTask(t) => t !in s.tasks
    case PublishNew(t, ok, marked) => t in s.creating
    case Deliver(h, m) => h !in s.handlers && m in s.ready
    case DelayOver(m) => m in s.delayed
    case Act(h, a) => h in s.handlers && CanAct(Row(s, s.handlers[h].msg.task), s.handlers[h].phase, a)
    case Duplicate(m) => m in s.ready || m in s.delayed
  }

  function DecideIn(limit: nat, s: State, h: nat, a: Action): Outcome
    requires Enabled(s, Act(h, a))
  {
    Decide(limit, Row(s, s.handlers[h].msg.task), s.handlers[h].msg, s.handlers[h].phase, a)
  }

  function Apply(limit: nat, s: State, step: Step): State
    requires Enabled(s, step)
  {
    match step
    case InsertTask(t) =>
      s.(tasks := s.tasks[t := Task(Pending, 0)], creating := s.creating + {t})
    case PublishNew(t, ok, marked) =>
      if ok then
        s.(creating := s.creating - {t}, accepted := s.accepted + {t}, ready := s.ready + multiset{Msg(t, 0)})
      else
        s.(creating := s.creating - {t},
           tasks := if marked && t in s.tasks then s.tasks[t := s.tasks[t].(status := Failed)] else s.tasks)
    case Deliver(h, m) => s.(ready := s.ready - multiset{m}, handlers := s.handlers[h := Handler(m, Received)])
    case DelayOver(m) => s.(delayed := s.delayed - multiset{m}, ready := s.ready + multiset{m})
    case Act(h, a) => Perform(s, h, DecideIn(limit, s, h, a))
    case Duplicate(m) => s.(ready := s.ready + multiset{m})
  }

  const START := State(map[], {}, {}, multiset{}, multiset{}, map[], map[])

  // ---- Runs ---------------------------------------------------------------

  // The state after each step of a run; `allowed` says which steps may occur.
  ghost predicate IsRun(limit: nat, run: seq<Step>, states: seq<State>, allowed: Step -> bool) {
    && |states| == |run| + 1 && states[0] == START
    && forall i :: 0 <= i < |run| ==> Follows(limit, states[i], run[i], states[i + 1]) && allowed(run[i])
  }

  ghost predicate Follows(limit: nat, s: State, step: Step, s': State) {
    Enabled(s, step) && s' == Apply(limit, s, step)
  }

  const ANYTHING: Step -> bool := (step: Step) => true

  // ---- Messages -----------------------------------------------------------

  // A message that is queued or held by a handler.
  predicate Known(s: State, m: Msg) {
    m in s.ready || m in s.delayed || exists h :: h in s.handlers && s.handlers[h].msg == m
  }

  ghost predicate Queued(s: State, m: Msg) { m in s.ready || m in s.delayed }

  // The message a step puts into circulation, if it is not an old one.
  function Emitted(s: State, step: Step): Option<Msg> {
    if step.PublishNew? && step.ok then Some(Msg(step.t, 0))
    else if step.Act? && step.action == PublishRetry(true) && step.h in s.handlers then
      Some(Msg(s.handlers[step.h].msg.task, s.handlers[step.h].msg.attempt + 1))
    else None
  }

  lemma MessageOrigin(limit: nat, s: State, step: Step, m: Msg)
    requires Enabled(s, step) && Known(Apply(limit, s, step), m)
    ensures Known(s, m) || Emitted(s, step) == Some(m)
  {
    if step.Act? {
      SentIsEmitted(limit, s, step.h, step.action);
      PerformedMessage(s, step.h, DecideIn(limit, s, step.h, step.action), m);
    } else {
      var s' := Apply(limit, s, step);
      if m !in s'.ready && m !in s'.delayed {
        var h :| h in s'.handlers && s'.handlers[h].msg == m;
        if h in s.handlers { assert s.handlers[h].msg == m; }
      }
    }
  }

  lemma PerformedMessage(s: State, h: nat, o: Outcome, m: Msg)
    requires h in s.handlers && Known(Perform(s, h, o), m)
    ensures Known(s, m) || o.sent == Some(m)
  {
    var s' := Perform(s, h, o);
    assert Known(s, s.handlers[h].msg);
    if m !in s'.ready && m !in s'.delayed {
      var k :| k in s'.handlers && s'.handlers[k].msg == m;
      assert k in s.handlers && s.handlers[k].msg == m;
    }
  }

  lemma SentIsEmitted(limit: nat, s: State, h: nat, a: Action)
    requires Enabled(s, Act(h, a))
    ensures DecideIn(limit, s, h, a).sent == Emitted(s, Act(h, a))
  {}

  // ---- Books in order -----------------------------------------------------

  // Messages are about tasks that exist, and a task is not returned before its first publish.
  ghost predicate Sane(s: State) {
    && s.accepted <= s.tasks.Keys && s.creating <= s.tasks.Keys && s.accepted !! s.creating
    && forall m :: Known(s, m) ==> m.task in s.tasks
  }

  lemma StepKeepsSane(limit: nat, s: State, step: Step)
    requires Sane(s) && Enabled(s, step)
    ensures Sane(Apply(limit, s, step))
  {
    var s' := Apply(limit, s, step);
    forall m | Known(s', m) ensures m.task in s'.tasks {
      MessageOrigin(limit, s, step, m);
      hide Decide, CanAct;
      if step.Act? { assert Known(s, s.handlers[step.h].msg); }
    }
    BooksKept(limit, s, step);
  }

  lemma BooksKept(limit: nat, s: State, step: Step)
    requires Enabled(s, step) && s.accepted <= s.tasks.Keys && s.creating <= s.tasks.Keys && s.accepted !! s.creating
    ensures var s' := Apply(limit, s, step);
      s'.accepted <= s'.tasks.Keys && s'.creating <= s'.tasks.Keys && s'.accepted !! s'.creating
  {
    hide Decide, CanAct;
  }

  // ---- No lost task -------------------------------------------------------

  // A handler that has not reached the claim, or is between writing "retrying" and its
  // publish or nack.
  predicate Holding(p: Phase) {
    p.Received? || p.ToPublish? || (p.ToRetry? && !p.claimed) || (p.ToFail? && !p.claimed)
  }

  ghost predicate Covered(s: State, t: TaskId) {
    || (exists m :: Queued(s, m) && m.task == t)
    || (exists h :: h in s.handlers && s.handlers[h].msg.task == t && Holding(s.handlers[h].phase))
  }

  predicate NeedsCover(s: State, t: TaskId) {
    t in s.tasks && (s.tasks[t].status == Retrying || (s.tasks[t].status == Pending && t in s.accepted))
  }

  ghost predicate NoLostTask(s: State) {
    forall t :: NeedsCover(s, t) ==> Covered(s, t)
  }

  lemma CoveredByHandler(s: State, h: nat)
    requires h in s.handlers && Holding(s.handlers[h].phase)
    ensures Covered(s, s.handlers[h].msg.task)
  {}

  lemma CoveredByMessage(s: State, m: Msg)
    requires Queued(s, m)
    ensures Covered(s, m.task)
  {}

  // The local half: an action that gives no message back or on leaves the handler holding
  // it, unless the status it finds or writes needs no cover.
  lemma ActionCovers(limit: nat, row: Option<Task>, m: Msg, p: Phase, a: Action)
    requires CanAct(row, p, a) && row.Some?
    ensures var o := Decide(limit, row, m, p, a);
      var after := if o.row.Some? then o.row.value else row.value;
      && (after.status == Pending ==> row.value.status == Pending)
      && (after.status in {Pending, Retrying} && (Holding(p) || row.value.status != after.status) ==>
          o.next.GiveBack? || (o.next.At? && Holding(o.next.phase)) || (o.sent.Some? && o.sent.value.task == m.task))
  {}

  lemma StepKeepsCover(limit: nat, s: State, step: Step, t: TaskId)
    requires Sane(s) && NoLostTask(s) && Enabled(s, step) && NeedsCover(Apply(limit, s, step), t)
    ensures Covered(Apply(limit, s, step), t)
  {
    if step.Act? {
      ActKeepsCover(limit, s, step.h, step.action, t);
    } else {
      WorldKeepsCover(limit, s, step, t);
    }
  }

  lemma ActKeepsCover(limit: nat, s: State, h: nat, a: Action, t: TaskId)
    requires Sane(s) && NoLostTask(s) && Enabled(s, Act(h, a)) && NeedsCover(Apply(limit, s, Act(h, a)), t)
    ensures Covered(Apply(limit, s, Act(h, a)), t)
  {
    hide Decide, CanAct, Emitted;
    var m := s.handlers[h].msg;
    assert Known(s, m);
    ActionCovers(limit, Row(s, m.task), m, s.handlers[h].phase, a);
    var o, s' := DecideIn(limit, s, h, a), Apply(limit, s, Act(h, a));
    if m.task == t && (Holding(s.handlers[h].phase) || s.tasks[t].status != s'.tasks[t].status) {
      if o.next.GiveBack? {
        CoveredByMessage(s', m);
      } else if o.next.At? && Holding(o.next.phase) {
        CoveredByHandler(s', h);
      } else {
        CoveredByMessage(s', o.sent.value);
      }
    } else {
      assert NeedsCover(s, t);
      OthersCover(s, h, o, t);
    }
  }

  lemma OthersCover(s: State, h: nat, o: Outcome, t: TaskId)
    requires Covered(s, t) && h in s.handlers
    requires s.handlers[h].msg.task != t || !Holding(s.handlers[h].phase)
    ensures Covered(Perform(s, h, o), t)
  {
    var s' := Perform(s, h, o);
    if m :| Queued(s, m) && m.task == t {
      CoveredByMessage(s', m);
    } else {
      var k :| k in s.handlers && s.handlers[k].msg.task == t && Holding(s.handlers[k].phase);
      assert k != h && s'.handlers[k] == s.handlers[k];
    }
  }

  lemma WorldKeepsCover(limit: nat, s: State, step: Step, t: TaskId)
    requires Sane(s) && NoLostTask(s) && Enabled(s, step) && !step.Act? && NeedsCover(Apply(limit, s, step), t)
    ensures Covered(Apply(limit, s, step), t)
  {
    var s' := Apply(limit, s, step);
    if step.PublishNew? && step.ok && step.t == t {
      CoveredByMessage(s', Msg(t, 0));
    } else {
      assert NeedsCover(s, t);
      WorldKeepsHolders(limit, s, step, t);
    }
  }

  lemma WorldKeepsHolders(limit: nat, s: State, step: Step, t: TaskId)
    requires Covered(s, t) && Enabled(s, step) && !step.Act?
    ensures Covered(Apply(limit, s, step), t)
  {
    var s' := Apply(limit, s, step);
    WorldKeepsHandlers(limit, s, step);
    if m :| Queued(s, m) && m.task == t {
      WorldKeepsMessage(limit, s, step, m);
    } else {
      hide Apply, Enabled;
      var k :| k in s.handlers && s.handlers[k].msg.task == t && Holding(s.handlers[k].phase);
      CoveredByHandler(s', k);
    }
  }

  lemma WorldKeepsMessage(limit: nat, s: State, step: Step, m: Msg)
    requires Queued(s, m) && Enabled(s, step) && !step.Act?
    ensures Covered(Apply(limit, s, step), m.task)
  {
    var s' := Apply(limit, s, step);
    if step.Deliver? && step.m == m {
      CoveredByHandler(s', step.h);
    } else {
      CoveredByMessage(s', m);
    }
  }

  // No run, with any crashes, duplicates and failures, ever loses a task.
  lemma {:induction false} NoTaskIsEverLost(limit: nat, run: seq<Step>, states: seq<State>, k: nat)
    requires IsRun(limit, run, states, ANYTHING) && k <= |run|
    ensures Sane(states[k]) && NoLostTask(states[k])
  {
    if k > 0 {
      NoTaskIsEverLost(limit, run, states, k - 1);
      var s, step := states[k - 1], run[k - 1];
      assert Follows(limit, states[k - 1], run[k - 1], states[k - 1 + 1]);
      StepKeepsSane(limit, s, step);
      forall t | NeedsCover(states[k], t) ensures Covered(states[k], t) {
        StepKeepsCover(limit, s, step, t);
      }
    }
  }

  // ---- Bounded retries ----------------------------------------------------

  ghost predicate Bounded(limit: nat, s: State) {
    && (forall m :: Known(s, m) ==> m.attempt <= limit)
    && (forall t :: t in s.tasks ==> s.tasks[t].retryCount <= limit)
    && (forall h :: h in s.handlers && (s.handlers[h].phase.ToRetry? || s.handlers[h].phase.ToPublish?) ==>
        s.handlers[h].msg.attempt + 1 <= limit)
  }

  lemma ActionIsBounded(limit: nat, row: Option<Task>, m: Msg, p: Phase, a: Action)
    requires CanAct(row, p, a) && (row.Some? ==> row.value.retryCount <= limit)
    requires p.ToRetry? || p.ToPublish? ==> m.attempt + 1 <= limit
    ensures var o := Decide(limit, row, m, p, a);
      && (o.row.Some? ==> row.Some? && o.row.value.retryCount <= limit)
      && (o.sent.Some? ==> o.sent.value.attempt <= limit)
      && (o.next.At? && (o.next.phase.ToRetry? || o.next.phase.ToPublish?) ==> m.attempt + 1 <= limit)
  {}

  lemma StepKeepsBounded(limit: nat, s: State, step: Step)
    requires Bounded(limit, s) && Enabled(s, step)
    ensures Bounded(limit, Apply(limit, s, step))
  {
    if step.Act? { ActKeepsBounded(limit, s, step.h, step.action); }
    EmittedIsBounded(limit, s, step);
    forall m | Known(Apply(limit, s, step), m) ensures m.attempt <= limit {
      MessageOrigin(limit, s, step, m);
    }
    hide Decide, CanAct, Known, Perform, Emitted;
  }

  lemma EmittedIsBounded(limit: nat, s: State, step: Step)
    requires Bounded(limit, s) && Enabled(s, step)
    ensures var e := Emitted(s, step); e.Some? ==> e.value.attempt <= limit
  {
    hide Known;
  }

  lemma ActKeepsBounded(limit: nat, s: State, h: nat, a: Action)
    requires Bounded(limit, s) && Enabled(s, Act(h, a))
    ensures var s' := Perform(s, h, DecideIn(limit, s, h, a));
      && (forall t :: t in s'.tasks ==> s'.tasks[t].retryCount <= limit)
      && (forall h :: h in s'.handlers && (s'.handlers[h].phase.ToRetry? || s'.handlers[h].phase.ToPublish?) ==>
          s'.handlers[h].msg.attempt + 1 <= limit)
  {
    ActionIsBounded(limit, Row(s, s.handlers[h].msg.task), s.handlers[h].msg, s.handlers[h].phase, a);
    hide Decide, CanAct, Known;
  }

  // In every run each message's attempt and each row's retry_count stay within the limit.
  lemma {:induction false} RetriesAreBounded(limit: nat, run: seq<Step>, states: seq<State>, k: nat)
    requires IsRun(limit, run, states, ANYTHING) && k <= |run|
    ensures Bounded(limit, states[k])
  {
    if k > 0 {
      RetriesAreBounded(limit, run, states, k - 1);
      assert Follows(limit, states[k - 1], run[k - 1], states[k - 1 + 1]);
      StepKeepsBounded(limit, states[k - 1], run[k - 1]);
    }
  }

  // ---- Exclusive claim and absorbing ends ---------------------------------

  // Between the claim and the status write that follows it.
  predicate Owner(p: Phase) {
    p.Claimed? || (p.ToRetry? && p.claimed) || (p.ToFail? && p.claimed)
  }

  predicate Unclaimed(p: Phase) {
    (p.ToRetry? && !p.claimed) || (p.ToFail? && !p.claimed)
  }

  predicate Owns(s: State, h: nat, t: TaskId) {
    h in s.handlers && s.handlers[h].msg.task == t && Owner(s.handlers[h].phase)
  }

  ghost predicate Exclusive(s: State) {
    && Sane(s)
    && (forall h :: h in s.handlers ==> !Unclaimed(s.handlers[h].phase))
    && (forall h, t :: Owns(s, h, t) ==> t in s.tasks && s.tasks[t].status == Running)
    && (forall h, k, t :: Owns(s, h, t) && Owns(s, k, t) ==> h == k)
    && (forall t :: t in s.creating ==> s.tasks[t].status == Pending)
    && (forall m :: Known(s, m) ==> m.task !in s.creating)
  }

  const CLAIMS_WORK: Step -> bool := (step: Step) => !(step.Act? && step.action.PreClaimError?)

  lemma OwnerActs(limit: nat, row: Option<Task>, m: Msg, p: Phase, a: Action)
    requires CanAct(row, p, a) && row.Some? && !a.PreClaimError? && !Unclaimed(p)
    requires Owner(p) ==> row.value.status == Running
    ensures var o := Decide(limit, row, m, p, a);
      && (o.next.At? ==> !Unclaimed(o.next.phase))
      && (o.next.At? && Owner(o.next.phase) ==>
          if Owner(p) then o.row == None else o.row == WithStatus(row, Running))
      && (o.row.Some? && !Owner(p) ==> row.value.status in {Pending, Retrying})
      && (o.row.Some? && !Owner(p) ==> o.row.value.status == Running && o.next.At? && Owner(o.next.phase))
      && (o.row.Some? && Owner(p) ==> !o.next.At? || !Owner(o.next.phase))
  {}

  lemma ActKeepsExclusive(limit: nat, s: State, h: nat, a: Action)
    requires Exclusive(s) && Enabled(s, Act(h, a)) && !a.PreClaimError?
    ensures var s' := Perform(s, h, DecideIn(limit, s, h, a));
      && (forall h :: h in s'.handlers ==> !Unclaimed(s'.handlers[h].phase))
      && (forall h, t :: Owns(s', h, t) ==> t in s'.tasks && s'.tasks[t].status == Running)
      && (forall h, k, t :: Owns(s', h, t) && Owns(s', k, t) ==> h == k)
      && (forall t :: t in s.tasks && s'.tasks[t] != s.tasks[t] ==>
          t == s.handlers[h].msg.task && (Owns(s, h, t) || s.tasks[t].status in {Pending, Retrying}))
  {
    var m, p := s.handlers[h].msg, s.handlers[h].phase;
    var s' := Perform(s, h, DecideIn(limit, s, h, a));
    assert Known(s, m);
    assert Owner(p) == Owns(s, h, m.task);
    OwnerActs(limit, Row(s, m.task), m, p, a);
    hide Decide, CanAct, Known, Sane;
    forall k, t | Owns(s', k, t) ensures t in s'.tasks && s'.tasks[t].status == Running && (k != h ==> Owns(s, k, t)) {
      if k != h { assert Owns(s, k, t); }
    }
  }

  lemma StepKeepsExclusive(limit: nat, s: State, step: Step)
    requires Exclusive(s) && Enabled(s, step) && CLAIMS_WORK(step)
    ensures Exclusive(Apply(limit, s, step))
  {
    StepKeepsSane(limit, s, step);
    NewTasksStayUnknown(limit, s, step);
    if step.Act? {
      ActKeepsExclusive(limit, s, step.h, step.action);
      assert Known(s, s.handlers[step.h].msg);
      hide Decide, CanAct, Known, Sane, Owns;
    } else {
      WorldKeepsOwners(limit, s, step);
      hide Enabled, Apply, Known, Sane;
    }
  }

  lemma NewTasksStayUnknown(limit: nat, s: State, step: Step)
    requires Sane(s) && Enabled(s, step) && forall m :: Known(s, m) ==> m.task !in s.creating
    ensures var s' := Apply(limit, s, step); forall m :: Known(s', m) ==> m.task !in s'.creating
  {
    var s' := Apply(limit, s, step);
    if step.Act? { assert Known(s, s.handlers[step.h].msg); }
    forall m | Known(s', m) ensures m.task !in s'.creating {
      MessageOrigin(limit, s, step, m);
      if step.InsertTask? { assert m.task in s.tasks; }
    }
    hide Decide, CanAct, Known;
  }

  lemma WorldKeepsOwners(limit: nat, s: State, step: Step)
    requires Exclusive(s) && Enabled(s, step) && !step.Act?
    ensures var s' := Apply(limit, s, step);
      && (forall h :: h in s'.handlers ==> !Unclaimed(s'.handlers[h].phase))
      && (forall h, t :: Owns(s', h, t) ==> Owns(s, h, t) && t in s'.tasks && s'.tasks[t].status == Running)
      && (forall t :: t in s'.creating ==> s'.tasks[t].status == Pending)
  {
    hide Known;
    WorldKeepsHandlers(limit, s, step);
    var s' := Apply(limit, s, step);
    forall h, t | Owns(s', h, t) ensures Owns(s, h, t) && t in s'.tasks && s'.tasks[t].status == Running {
      assert Owns(s, h, t);
      if step.PublishNew? { assert s.tasks[step.t].status == Pending; }
    }
  }

  lemma WorldKeepsHandlers(limit: nat, s: State, step: Step)
    requires Enabled(s, step) && !step.Act?
    ensures var s' := Apply(limit, s, step);
      && (forall h :: h in s.handlers ==> h in s'.handlers && s'.handlers[h] == s.handlers[h])
      && (forall h :: h in s'.handlers && h !in s.handlers ==> s'.handlers[h].phase == Received)
  {}

  // In runs in which reading and claiming a task work, at most one handler owns a task, and
  // while it does the download is running.
  lemma {:induction false} ClaimsAreExclusive(limit: nat, run: seq<Step>, states: seq<State>, k: nat)
    requires IsRun(limit, run, states, CLAIMS_WORK) && k <= |run|
    ensures Exclusive(states[k])
  {
    if k > 0 {
      ClaimsAreExclusive(limit, run, states, k - 1);
      assert Follows(limit, states[k - 1], run[k - 1], states[k - 1 + 1]);
      StepKeepsExclusive(limit, states[k - 1], run[k - 1]);
    }
  }

  // In such runs only its owner writes the row of a running task; of a finished one nobody does.
  lemma OnlyTheOwnerWrites(limit: nat, run: seq<Step>, states: seq<State>, k: nat, t: TaskId)
    requires IsRun(limit, run, states, CLAIMS_WORK) && k < |run| && t in states[k].tasks
    ensures t in states[k + 1].tasks
    ensures states[k].tasks[t].status in {Completed, Failed} ==> states[k + 1].tasks[t] == states[k].tasks[t]
    ensures states[k].tasks[t].status == Running && states[k + 1].tasks[t] != states[k].tasks[t] ==>
      run[k].Act? && Owns(states[k], run[k].h, t)
  {
    ClaimsAreExclusive(limit, run, states, k);
    var s, step := states[k], run[k];
    assert Follows(limit, states[k], run[k], states[k + 1]);
    if step.Act? { ActKeepsExclusive(limit, s, step.h, step.action); }
    hide Decide, CanAct, Known, Sane;
  }

  // In runs in which reading and claiming work, completed and failed are ends: the row never
  // changes again.
  lemma {:induction false} EndsAbsorb(limit: nat, run: seq<Step>, states: seq<State>, k: nat, n: nat, t: TaskId)
    requires IsRun(limit, run, states, CLAIMS_WORK) && k <= n <= |run|
    requires t in states[k].tasks && states[k].tasks[t].status in {Completed, Failed}
    ensures t in states[n].tasks && states[n].tasks[t] == states[k].tasks[t]
  {
    hide Follows, Owns;
    if k < n {
      EndsAbsorb(limit, run, states, k, n - 1, t);
      OnlyTheOwnerWrites(limit, run, states, n - 1, t);
    }
  }

  ghost predicate Abandoned(s: State, t: TaskId) {
    t in s.tasks && s.tasks[t].status == Running && forall h :: !Owns(s, h, t)
  }

  // In runs in which reading and claiming a task work, one whose owner crashed or was
  // cancelled stays "running": its redelivered message finds a row it cannot claim.
  // RunningCanChangeIff says what holds in all runs.
  lemma {:induction false} AbandonedForever(limit: nat, run: seq<Step>, states: seq<State>, k: nat, n: nat, t: TaskId)
    requires IsRun(limit, run, states, CLAIMS_WORK) && k <= n <= |run| && Abandoned(states[k], t)
    ensures Abandoned(states[n], t)
  {
    hide Follows, Owns, Exclusive;
    if k < n {
      AbandonedForever(limit, run, states, k, n - 1, t);
      OnlyTheOwnerWrites(limit, run, states, n - 1, t);
      ClaimsAreExclusive(limit, run, states, n - 1);
      assert Follows(limit, states[n - 1], run[n - 1], states[n - 1 + 1]);
      StayAbandoned(limit, states[n - 1], run[n - 1], states[n], t);
    }
  }

  lemma StayAbandoned(limit: nat, s: State, step: Step, s': State, t: TaskId)
    requires Exclusive(s) && Follows(limit, s, step, s') && CLAIMS_WORK(step) && Abandoned(s, t)
    ensures forall h :: !Owns(s', h, t)
  {
    if step.Act? {
      var m, p := s.handlers[step.h].msg, s.handlers[step.h].phase;
      assert Known(s, m);
      assert Owner(p) == Owns(s, step.h, m.task);
      OwnerActs(limit, Row(s, m.task), m, p, step.action);
      hide Decide, CanAct, Known, Sane;
      forall h ensures !Owns(s', h, t) { assert !Owns(s, h, t); }
    } else {
      WorldKeepsOwners(limit, s, step);
    }
  }

  // The condition is needed. One failed read before the claim and a completed task is
  // reopened, to be downloaded and stored a second time.
  function ReopeningRun(): seq<Step> {
    [InsertTask(0), PublishNew(0, true, false), Duplicate(Msg(0, 0)),
     Deliver(0, Msg(0, 0)), Act(0, TryClaim), Act(0, Finish(None)),
     Deliver(1, Msg(0, 0)), Act(1, PreClaimError), Act(1, WriteRetry(true))]
  }

  function Snap(task: Task, ready: multiset<Msg>, handlers: map<nat, Handler>, claimed: nat): State {
    State(map[0 := task], {}, {0}, ready, multiset{}, handlers, if claimed == 0 then map[] else map[0 := claimed])
  }

  function ReopeningStates(): seq<State> {
    var m := Msg(0, 0);
    var ended := Handler(m, Done);
    [START,
     State(map[0 := Task(Pending, 0)], {0}, {}, multiset{}, multiset{}, map[], map[]),
     Snap(Task(Pending, 0), multiset{m}, map[], 0),
     Snap(Task(Pending, 0), multiset{m, m}, map[], 0),
     Snap(Task(Pending, 0), multiset{m}, map[0 := Handler(m, Received)], 0),
     Snap(Task(Running, 0), multiset{m}, map[0 := Handler(m, Claimed)], 1),
     Snap(Task(Completed, 0), multiset{m}, map[0 := ended], 1),
     Snap(Task(Completed, 0), multiset{}, map[0 := ended, 1 := Handler(m, Received)], 1),
     Snap(Task(Completed, 0), multiset{}, map[0 := ended, 1 := Handler(m, ToRetry(false))], 1),
     Snap(Task(Retrying, 1), multiset{}, map[0 := ended, 1 := Handler(m, ToPublish)], 1)]
  }

  lemma ReopeningFollows(m: Msg, ended: Handler)
    requires m == Msg(0, 0) && ended == Handler(m, Done)
    ensures Follows(1, START, InsertTask(0),
      State(map[0 := Task(Pending, 0)], {0}, {}, multiset{}, multiset{}, map[], map[]))
    ensures Follows(1, State(map[0 := Task(Pending, 0)], {0}, {}, multiset{}, multiset{}, map[], map[]),
      PublishNew(0, true, false), Snap(Task(Pending, 0), multiset{m}, map[], 0))
    ensures Follows(1, Snap(Task(Pending, 0), multiset{m}, map[], 0), Duplicate(m),
      Snap(Task(Pending, 0), multiset{m, m}, map[], 0))
    ensures Follows(1, Snap(Task(Pending, 0), multiset{m, m}, map[], 0), Deliver(0, m),
      Snap(Task(Pending, 0), multiset{m}, map[0 := Handler(m, Received)], 0))
  {}

  lemma ReopeningCompletes(m: Msg, ended: Handler)
    requires m == Msg(0, 0) && ended == Handler(m, Done)
    ensures Follows(1, Snap(Task(Pending, 0), multiset{m}, map[0 := Handler(m, Received)], 0), Act(0, TryClaim),
      Snap(Task(Running, 0), multiset{m}, map[0 := Handler(m, Claimed)], 1))
    ensures Follows(1, Snap(Task(Running, 0), multiset{m}, map[0 := Handler(m, Claimed)], 1), Act(0, Finish(None)),
      Snap(Task(Completed, 0), multiset{m}, map[0 := ended], 1))
    ensures Follows(1, Snap(Task(Completed, 0), multiset{m}, map[0 := ended], 1), Deliver(1, m),
      Snap(Task(Completed, 0), multiset{}, map[0 := ended, 1 := Handler(m, Received)], 1))
  {
    var s := Snap(Task(Running, 0), multiset{m}, map[0 := Handler(m, Claimed)], 1);
    assert DecideIn(1, s, 0, Finish(None)) == Outcome(Some(Task(Completed, 0)), At(Done), None);
  }

  lemma ReopeningErrs(m: Msg, ended: Handler)
    requires m == Msg(0, 0) && ended == Handler(m, Done)
    ensures Follows(1, Snap(Task(Completed, 0), multiset{}, map[0 := ended, 1 := Handler(m, Received)], 1),
      Act(1, PreClaimError), Snap(Task(Completed, 0), multiset{}, map[0 := ended, 1 := Handler(m, ToRetry(false))], 1))
  {}

  lemma ReopeningEnds(m: Msg, ended: Handler)
    requires m == Msg(0, 0) && ended == Handler(m, Done)
    ensures Follows(1, Snap(Task(Completed, 0), multiset{}, map[0 := ended, 1 := Handler(m, ToRetry(false))], 1),
      Act(1, WriteRetry(true)), Snap(Task(Retrying, 1), multiset{}, map[0 := ended, 1 := Handler(m, ToPublish)], 1))
  {}

  lemma SnapRow(task: Task, ready: multiset<Msg>, handlers: map<nat, Handler>, claimed: nat)
    ensures Row(Snap(task, ready, handlers, claimed), 0) == Some(task)
  {}

  lemma CompletedCanReopen()
    ensures IsRun(1, ReopeningRun(), ReopeningStates(), ANYTHING)
    ensures Row(ReopeningStates()[6], 0) == Some(Task(Completed, 0))
    ensures Row(ReopeningStates()[9], 0) == Some(Task(Retrying, 1))
  {
    hide Follows, Snap, Row;
    var m := Msg(0, 0);
    var ended := Handler(m, Done);
    ReopeningFollows(m, ended);
    ReopeningCompletes(m, ended);
    ReopeningErrs(m, ended);
    ReopeningEnds(m, ended);
    SnapRow(Task(Completed, 0), multiset{m}, map[0 := ended], 1);
    SnapRow(Task(Retrying, 1), multiset{}, map[0 := ended, 1 := Handler(m, ToPublish)], 1);
  }

  // ---- When a finished row can still change --------------------------------

  // A continuation of a run from state s.
  ghost predicate Continues(limit: nat, s: State, run: seq<Step>, states: seq<State>) {
    && |states| == |run| + 1 && states[0] == s
    && forall i :: 0 <= i < |run| ==> Follows(limit, states[i], run[i], states[i + 1])
  }

  // In some continuation the row is not what it is now.
  ghost predicate CanChange(limit: nat, s: State, t: TaskId) {
    exists run, states :: Continues(limit, s, run, states) && Row(states[|run|], t) != Row(s, t)
  }

  predicate Mentioned(s: State, t: TaskId, m: Msg) {
    m.task == t && Known(s, m)
  }

  // In every run a task without its first publish is pending and unknown to the queues.
  ghost predicate Orderly(limit: nat, s: State) {
    && Sane(s) && Bounded(limit, s)
    && (forall t :: t in s.creating ==> s.tasks[t].status == Pending)
    && (forall m :: Known(s, m) ==> m.task !in s.creating)
  }

  lemma StepKeepsOrderly(limit: nat, s: State, step: Step)
    requires Orderly(limit, s) && Enabled(s, step)
    ensures Orderly(limit, Apply(limit, s, step))
  {
    StepKeepsSane(limit, s, step);
    StepKeepsBounded(limit, s, step);
    NewTasksStayUnknown(limit, s, step);
    if step.Act? { assert Known(s, s.handlers[step.h].msg); }
    hide Decide, CanAct, Known, Bounded, Sane;
  }

  lemma {:induction false} RunsAreOrderly(limit: nat, run: seq<Step>, states: seq<State>, k: nat)
    requires IsRun(limit, run, states, ANYTHING) && k <= |run|
    ensures Orderly(limit, states[k])
  {
    hide Follows, Orderly;
    if k == 0 {
      StartIsOrderly(limit);
    } else {
      RunsAreOrderly(limit, run, states, k - 1);
      assert Follows(limit, states[k - 1], run[k - 1], states[k - 1 + 1]);
      FollowerIsOrderly(limit, states[k - 1], run[k - 1], states[k]);
    }
  }

  lemma StartIsOrderly(limit: nat)
    ensures Orderly(limit, START)
  {}

  lemma FollowerIsOrderly(limit: nat, s: State, step: Step, s': State)
    requires Orderly(limit, s) && Follows(limit, s, step, s')
    ensures Orderly(limit, s')
  {
    StepKeepsOrderly(limit, s, step);
  }

  // Nothing is left that could move the row: nobody knows a message about a completed or
  // running task; of a failed one, every message known has used up its attempts and no
  // handler is at work.
  ghost predicate Settled(limit: nat, s: State, t: TaskId) {
    && t in s.tasks
    && s.tasks[t].status in {Completed, Running, Failed}
    && (s.tasks[t].status != Failed ==> forall m :: !Mentioned(s, t, m))
    && (s.tasks[t].status == Failed ==> forall m :: Mentioned(s, t, m) ==> m.attempt + 1 > limit)
    && (s.tasks[t].status == Failed ==>
         forall h :: h in s.handlers && s.handlers[h].msg.task == t ==> s.handlers[h].phase != Claimed)
  }

  // What a handler can do about a failed task once the attempts are used up.
  lemma SpentActs(limit: nat, row: Task, m: Msg, p: Phase, a: Action)
    requires CanAct(Some(row), p, a) && row.status == Failed && m.attempt + 1 > limit && p != Claimed && !p.ToRetry?
    requires !p.ToPublish?
    ensures var o := Decide(limit, Some(row), m, p, a);
      && (o.row == None || o.row == Some(row)) && o.sent == None && o.next != At(Claimed)
  {}

  lemma StepKeepsSettled(limit: nat, s: State, step: Step, t: TaskId)
    requires Orderly(limit, s) && Settled(limit, s, t) && Enabled(s, step)
    ensures Settled(limit, Apply(limit, s, step), t) && Row(Apply(limit, s, step), t) == Row(s, t)
  {
    var s' := Apply(limit, s, step);
    if step.Act? && s.handlers[step.h].msg.task == t {
      var handler := s.handlers[step.h];
      assert Mentioned(s, t, handler.msg);
      SpentActs(limit, s.tasks[t], handler.msg, handler.phase, step.action);
      SentIsEmitted(limit, s, step.h, step.action);
    }
    RowStays(limit, s, step, t);
    forall m | Mentioned(s', t, m) ensures Mentioned(s, t, m) {
      MessageOrigin(limit, s, step, m);
      EmittedElsewhere(limit, s, step, t);
    }
    hide Decide, CanAct, Known, Bounded, Sane, Mentioned, Emitted;
  }

  lemma RowStays(limit: nat, s: State, step: Step, t: TaskId)
    requires Orderly(limit, s) && Settled(limit, s, t) && Enabled(s, step)
    ensures Row(Apply(limit, s, step), t) == Row(s, t)
  {
    if step.Act? && s.handlers[step.h].msg.task == t {
      var handler := s.handlers[step.h];
      assert Mentioned(s, t, handler.msg);
      SpentActs(limit, s.tasks[t], handler.msg, handler.phase, step.action);
    }
    hide Decide, CanAct, Known, Bounded, Sane, Mentioned;
  }

  lemma EmittedElsewhere(limit: nat, s: State, step: Step, t: TaskId)
    requires Orderly(limit, s) && Settled(limit, s, t) && Enabled(s, step)
    ensures Emitted(s, step).Some? ==> Emitted(s, step).value.task != t
  {
    if step.Act? && s.handlers[step.h].msg.task == t { assert Mentioned(s, t, s.handlers[step.h].msg); }
    hide Decide, Known;
  }

  lemma {:induction false} SettledForever(limit: nat, s: State, t: TaskId, run: seq<Step>, states: seq<State>, k: nat)
    requires Orderly(limit, s) && Settled(limit, s, t) && Continues(limit, s, run, states) && k <= |run|
    ensures Orderly(limit, states[k]) && Settled(limit, states[k], t) && Row(states[k], t) == Row(s, t)
  {
    hide Follows, Orderly, Settled, Row;
    if k > 0 {
      SettledForever(limit, s, t, run, states, k - 1);
      assert Follows(limit, states[k - 1], run[k - 1], states[k - 1 + 1]);
      SettledFollower(limit, states[k - 1], run[k - 1], states[k], t);
    }
  }

  lemma SettledFollower(limit: nat, s: State, step: Step, s': State, t: TaskId)
    requires Orderly(limit, s) && Settled(limit, s, t) && Follows(limit, s, step, s')
    ensures Orderly(limit, s') && Settled(limit, s', t) && Row(s', t) == Row(s, t)
  {
    StepKeepsOrderly(limit, s, step);
    StepKeepsSettled(limit, s, step, t);
  }

  // A message in the work queue, one failed read before the claim, and one status write.
  lemma FromReady(limit: nat, s: State, m: Msg) returns (run: seq<Step>, states: seq<State>)
    requires m in s.ready && m.task in s.tasks
    ensures Continues(limit, s, run, states)
    ensures Row(states[|run|], m.task).Some?
    ensures Row(states[|run|], m.task).value.status == if m.attempt + 1 <= limit then Retrying else Failed
  {
    var h := SomeIdIsFree(s.handlers.Keys);
    var p := AfterError(limit, m, OtherError, false);
    var s1 := s.(ready := s.ready - multiset{m}, handlers := s.handlers[h := Handler(m, Received)]);
    var s2 := s1.(handlers := s1.handlers[h := Handler(m, p)]);
    var write := if p.ToRetry? then WriteRetry(true) else WriteFailed(true);
    assert Follows(limit, s, Deliver(h, m), s1);
    assert Follows(limit, s1, Act(h, PreClaimError), s2);
    var s3 := Apply(limit, s2, Act(h, write));
    assert Row(s3, m.task).Some? && Row(s3, m.task).value.status == if m.attempt + 1 <= limit then Retrying else Failed;
    run, states := [Deliver(h, m), Act(h, PreClaimError), Act(h, write)], [s, s1, s2, s3];
    hide Apply, Enabled;
  }

  lemma OneStepBefore(limit: nat, s: State, step: Step, s': State, run: seq<Step>, states: seq<State>)
    requires Follows(limit, s, step, s') && Continues(limit, s', run, states)
    ensures Continues(limit, s, [step] + run, [s] + states) && ([s] + states)[|run| + 1] == states[|run|]
  {
    hide Follows;
    var run', states' := [step] + run, [s] + states;
    forall i | 0 <= i < |run'| ensures Follows(limit, states'[i], run'[i], states'[i + 1]) {
      if i > 0 { assert Follows(limit, states[i - 1], run[i - 1], states[i - 1 + 1]); }
    }
  }

  // Any message that is known can come back: queued, delayed, or held by a handler that stops.
  lemma MessageReopens(limit: nat, s: State, m: Msg) returns (run: seq<Step>, states: seq<State>)
    requires Known(s, m) && m.task in s.tasks
    ensures Continues(limit, s, run, states)
    ensures Row(states[|run|], m.task).Some?
    ensures Row(states[|run|], m.task).value.status == if m.attempt + 1 <= limit then Retrying else Failed
  {
    if m in s.ready {
      run, states := FromReady(limit, s, m);
    } else {
      var step: Step;
      if m in s.delayed {
        step := DelayOver(m);
      } else {
        var h :| h in s.handlers && s.handlers[h].msg == m;
        step := Act(h, Crash);
      }
      var s' := Apply(limit, s, step);
      assert m in s'.ready && m.task in s'.tasks && Follows(limit, s, step, s');
      var run', states' := FromReady(limit, s', m);
      OneStepBefore(limit, s, step, s', run', states');
      run, states := [step] + run', [s] + states';
    }
  }

  lemma WhileMentioned(limit: nat, s: State, t: TaskId)
    requires Orderly(limit, s) && t in s.tasks && s.tasks[t].status in {Completed, Running}
    ensures CanChange(limit, s, t) <==> exists m :: Mentioned(s, t, m)
  {
    hide Orderly, Follows;
    if m :| Mentioned(s, t, m) {
      var more, after := MessageReopens(limit, s, m);
      assert Row(after[|more|], t) != Row(s, t);
    } else {
      assert Settled(limit, s, t);
      forall more, after | Continues(limit, s, more, after) ensures Row(after[|more|], t) == Row(s, t) {
        SettledForever(limit, s, t, more, after, |more|);
      }
    }
  }

  // A completed row can still change, in some continuation, exactly as long as a message
  // about it is known to the queues or to a handler.
  lemma CompletedCanChangeIff(limit: nat, run: seq<Step>, states: seq<State>, t: TaskId)
    requires IsRun(limit, run, states, ANYTHING)
    requires t in states[|run|].tasks && states[|run|].tasks[t].status == Completed
    ensures CanChange(limit, states[|run|], t) <==> exists m :: Mentioned(states[|run|], t, m)
  {
    RunsAreOrderly(limit, run, states, |run|);
    WhileMentioned(limit, states[|run|], t);
  }

  // So can a running one, whether a handler owns it or not: an owner holds its message, and
  // one that stops gives it back.
  lemma RunningCanChangeIff(limit: nat, run: seq<Step>, states: seq<State>, t: TaskId)
    requires IsRun(limit, run, states, ANYTHING)
    requires t in states[|run|].tasks && states[|run|].tasks[t].status == Running
    ensures CanChange(limit, states[|run|], t) <==> exists m :: Mentioned(states[|run|], t, m)
    ensures (exists h :: Owns(states[|run|], h, t)) ==> CanChange(limit, states[|run|], t)
  {
    var s := states[|run|];
    RunsAreOrderly(limit, run, states, |run|);
    WhileMentioned(limit, s, t);
    if h :| Owns(s, h, t) { assert Mentioned(s, t, s.handlers[h].msg); }
  }

  // Both sides are reached. A handler claims and crashes; the message comes back. When the
  // next handler finds the row running, it acknowledges, and nothing can move the row again;
  // when its read fails, the task is retried.
  function CrashRun(): seq<Step> {
    [InsertTask(0), PublishNew(0, true, false), Deliver(0, Msg(0, 0)), Act(0, TryClaim), Act(0, Crash),
     Deliver(0, Msg(0, 0))]
  }

  function CrashStates(): seq<State> {
    var m := Msg(0, 0);
    [START,
     State(map[0 := Task(Pending, 0)], {0}, {}, multiset{}, multiset{}, map[], map[]),
     Snap(Task(Pending, 0), multiset{m}, map[], 0),
     Snap(Task(Pending, 0), multiset{}, map[0 := Handler(m, Received)], 0),
     Snap(Task(Running, 0), multiset{}, map[0 := Handler(m, Claimed)], 1),
     Snap(Task(Running, 0), multiset{m}, map[], 1),
     Snap(Task(Running, 0), multiset{}, map[0 := Handler(m, Received)], 1)]
  }

  lemma CrashFollows(m: Msg)
    requires m == Msg(0, 0)
    ensures Follows(1, START, InsertTask(0),
      State(map[0 := Task(Pending, 0)], {0}, {}, multiset{}, multiset{}, map[], map[]))
    ensures Follows(1, State(map[0 := Task(Pending, 0)], {0}, {}, multiset{}, multiset{}, map[], map[]),
      PublishNew(0, true, false), Snap(Task(Pending, 0), multiset{m}, map[], 0))
    ensures Follows(1, Snap(Task(Pending, 0), multiset{m}, map[], 0), Deliver(0, m),
      Snap(Task(Pending, 0), multiset{}, map[0 := Handler(m, Received)], 0))
    ensures Follows(1, Snap(Task(Running, 0), multiset{m}, map[], 1), Deliver(0, m),
      Snap(Task(Running, 0), multiset{}, map[0 := Handler(m, Received)], 1))
  {}

  lemma CrashActs(m: Msg)
    requires m == Msg(0, 0)
    ensures Follows(1, Snap(Task(Pending, 0), multiset{}, map[0 := Handler(m, Received)], 0), Act(0, TryClaim),
      Snap(Task(Running, 0), multiset{}, map[0 := Handler(m, Claimed)], 1))
    ensures Follows(1, Snap(Task(Running, 0), multiset{}, map[0 := Handler(m, Claimed)], 1), Act(0, Crash),
      Snap(Task(Running, 0), multiset{m}, map[], 1))
  {}

  lemma CrashRetries(m: Msg)
    requires m == Msg(0, 0)
    ensures Follows(1, Snap(Task(Running, 0), multiset{}, map[0 := Handler(m, Received)], 1), Act(0, PreClaimError),
      Snap(Task(Running, 0), multiset{}, map[0 := Handler(m, ToRetry(false))], 1))
    ensures Follows(1, Snap(Task(Running, 0), multiset{}, map[0 := Handler(m, ToRetry(false))], 1),
      Act(0, WriteRetry(true)), Snap(Task(Retrying, 1), multiset{}, map[0 := Handler(m, ToPublish)], 1))
  {}

  lemma CrashIsAcknowledged(m: Msg)
    requires m == Msg(0, 0)
    ensures Follows(1, Snap(Task(Running, 0), multiset{}, map[0 := Handler(m, Received)], 1), Act(0, TryClaim),
      Snap(Task(Running, 0), multiset{}, map[0 := Handler(m, Done)], 1))
    ensures Follows(1, Snap(Task(Running, 0), multiset{}, map[0 := Handler(m, Done)], 1), Act(0, Ack),
      Snap(Task(Running, 0), multiset{}, map[], 1))
  {}

  lemma CrashLeavesNoOwner(m: Msg)
    requires m == Msg(0, 0)
    ensures Abandoned(Snap(Task(Running, 0), multiset{m}, map[], 1), 0)
    ensures Mentioned(Snap(Task(Running, 0), multiset{m}, map[], 1), 0, m)
    ensures Row(Snap(Task(Running, 0), multiset{}, map[], 1), 0) == Some(Task(Running, 0))
    ensures forall k :: !Mentioned(Snap(Task(Running, 0), multiset{}, map[], 1), 0, k)
  {}

  lemma CrashIsARun()
    ensures IsRun(1, CrashRun(), CrashStates(), ANYTHING)
    ensures Abandoned(CrashStates()[5], 0)
  {
    hide Follows, Snap, Abandoned;
    CrashFollows(Msg(0, 0));
    CrashActs(Msg(0, 0));
    CrashLeavesNoOwner(Msg(0, 0));
  }

  lemma AbandonedIsRetried() returns (run: seq<Step>, states: seq<State>)
    ensures IsRun(1, run, states, ANYTHING) && |run| == 8 && run[..6] == CrashRun() && states[..7] == CrashStates()
    ensures Abandoned(states[5], 0) && Row(states[8], 0) == Some(Task(Retrying, 1))
  {
    hide Follows, Snap, Abandoned, Row;
    var m := Msg(0, 0);
    CrashIsARun();
    CrashRetries(m);
    SnapRow(Task(Retrying, 1), multiset{}, map[0 := Handler(m, ToPublish)], 1);
    run := CrashRun() + [Act(0, PreClaimError), Act(0, WriteRetry(true))];
    states := CrashStates() + [Snap(Task(Running, 0), multiset{}, map[0 := Handler(m, ToRetry(false))], 1),
                               Snap(Task(Retrying, 1), multiset{}, map[0 := Handler(m, ToPublish)], 1)];
    TwoMoreSteps(1, CrashRun(), CrashStates(), run, states);
  }

  lemma AbandonedStaysRunning() returns (run: seq<Step>, states: seq<State>)
    ensures IsRun(1, run, states, ANYTHING) && |run| == 8 && run[..6] == CrashRun() && states[..7] == CrashStates()
    ensures Row(states[8], 0) == Some(Task(Running, 0)) && !CanChange(1, states[8], 0)
  {
    hide Follows, Snap, Abandoned, CanChange, Mentioned;
    var m := Msg(0, 0);
    CrashIsARun();
    CrashIsAcknowledged(m);
    CrashLeavesNoOwner(m);
    run := CrashRun() + [Act(0, TryClaim), Act(0, Ack)];
    states := CrashStates() + [Snap(Task(Running, 0), multiset{}, map[0 := Handler(m, Done)], 1),
                               Snap(Task(Running, 0), multiset{}, map[], 1)];
    TwoMoreSteps(1, CrashRun(), CrashStates(), run, states);
    RunningCanChangeIff(1, run, states, 0);
  }

  lemma TwoMoreSteps(limit: nat, run: seq<Step>, states: seq<State>, run': seq<Step>, states': seq<State>)
    requires IsRun(limit, run, states, ANYTHING)
    requires |run'| == |run| + 2 && |states'| == |states| + 2 && run'[..|run|] == run && states'[..|states|] == states
    requires Follows(limit, states[|run|], run'[|run|], states'[|run| + 1])
    requires Follows(limit, states'[|run| + 1], run'[|run| + 1], states'[|run| + 2])
    ensures IsRun(limit, run', states', ANYTHING)
  {
    hide Follows;
    forall i | 0 <= i < |run'| ensures Follows(limit, states'[i], run'[i], states'[i + 1]) {
      if i < |run| { assert Follows(limit, states[i], run[i], states[i + 1]); }
    }
  }

  // A failed row can still change exactly as long as a message with attempts left is known
  // or a handler is still downloading for it.
  lemma FailedCanChangeIff(limit: nat, run: seq<Step>, states: seq<State>, t: TaskId)
    requires IsRun(limit, run, states, ANYTHING)
    requires t in states[|run|].tasks && states[|run|].tasks[t].status == Failed
    ensures CanChange(limit, states[|run|], t) <==>
      || (exists m :: Mentioned(states[|run|], t, m) && m.attempt + 1 <= limit)
      || (exists h :: h in states[|run|].handlers &&
           states[|run|].handlers[h].msg.task == t && states[|run|].handlers[h].phase == Claimed)
  {
    var s := states[|run|];
    RunsAreOrderly(limit, run, states, |run|);
    hide Orderly, Follows;
    if m :| Mentioned(s, t, m) && m.attempt + 1 <= limit {
      var more, after := MessageReopens(limit, s, m);
      assert Row(after[|more|], t) != Row(s, t);
    } else if h :| h in s.handlers && s.handlers[h].msg.task == t && s.handlers[h].phase == Claimed {
      FinishesLate(limit, s, h, t);
    } else {
      assert Settled(limit, s, t);
      forall more, after | Continues(limit, s, more, after) ensures Row(after[|more|], t) == Row(s, t) {
        SettledForever(limit, s, t, more, after, |more|);
      }
    }
  }

  lemma FinishesLate(limit: nat, s: State, h: nat, t: TaskId)
    requires h in s.handlers && s.handlers[h].msg.task == t && s.handlers[h].phase == Claimed
    requires t in s.tasks && s.tasks[t].status == Failed
    ensures CanChange(limit, s, t)
  {
    var step := Act(h, Finish(None));
    var s' := Apply(limit, s, step);
    assert Follows(limit, s, step, s');
    assert Row(s', t).value.status == Completed;
    hide Follows;
    assert Continues(limit, s, [step], [s, s']);
    assert Row([s, s'][|[step]|], t) != Row(s, t);
  }

  // ---- Every task ends ----------------------------------------------------

  // Neither duplication, cancellation nor a lost write or publish.
  const SMOOTH: Step -> bool := (step: Step) =>
    match step
    case PublishNew(_, ok, marked) => ok || marked
    case Duplicate(_) => false
    case Act(_, a) =>
      (match a
       case Requeue => false
       case Crash => false
       case Finish(e) => e != Some(Interrupted)
       case WriteRetry(ok) => ok
       case PublishRetry(ok) => ok
       case WriteFailed(ok) => ok
       case _ => true)
    case _ => true

  // Where the one live message about a task is.
  datatype Place = Nowhere | InReady(attempt: nat) | InDelayed(attempt: nat) | With(h: nat)

  ghost predicate Located(s: State, t: TaskId, place: Place) {
    && (forall m: Msg :: m.task == t ==> s.ready[m] == if place == InReady(m.attempt) then 1 else 0)
    && (forall m: Msg :: m.task == t ==> s.delayed[m] == if place == InDelayed(m.attempt) then 1 else 0)
    && (forall h :: h in s.handlers && Alive(s.handlers[h], t) ==> place == With(h))
    && (place.With? ==> place.h in s.handlers && Alive(s.handlers[place.h], t))
  }

  predicate Alive(handler: Handler, t: TaskId) {
    handler.msg.task == t && handler.phase != Done
  }

  // How far the download is, where its message is, and how often it was claimed by then.
  predicate Fits(limit: nat, row: Option<Task>, isNew: bool, claims: nat, place: Place, handlers: map<nat, Handler>) {
    if row == None then place == Nowhere && !isNew && claims == 0
    else if isNew then place == Nowhere && row.value.status == Pending && claims == 0
    else match place
      case Nowhere => row.value.status in {Completed, Failed} && claims <= limit + 1
      case InReady(a) => row.value.status in {Pending, Retrying} && claims <= a <= limit
      case InDelayed(a) => row.value.status in {Pending, Retrying} && claims <= a <= limit
      case With(h) => h in handlers && HeldWell(limit, row.value.status, claims, handlers[h])
  }

  predicate HeldWell(limit: nat, status: Status, claims: nat, handler: Handler) {
    var a := handler.msg.attempt;
    && a <= limit
    && match handler.phase
       case Received => status in {Pending, Retrying} && claims <= a
       case Claimed => status == Running && claims <= a + 1
       case ToRetry(c) => (if c then status == Running else status in {Pending, Retrying}) && claims <= a + 1 <= limit
       case ToPublish => status == Retrying && claims <= a + 1 <= limit
       case ToFail(c) => (if c then status == Running else status in {Pending, Retrying}) && claims <= a + 1
       case Done => false
  }

  ghost predicate Tracked(limit: nat, s: State, t: TaskId, place: Place) {
    Located(s, t, place) && Fits(limit, Row(s, t), t in s.creating, Claims(s, t), place, s.handlers)
  }

  // Steps the download has left at most.
  function Rank(limit: nat, s: State, t: TaskId, place: Place): int {
    if t !in s.tasks then 6 * limit + 7
    else if t in s.creating then 6 * limit + 6
    else match place
      case Nowhere => 0
      case InDelayed(a) => 6 * (limit - a) + 6
      case InReady(a) => 6 * (limit - a) + 5
      case With(h) => if h in s.handlers then HeldRank(limit, s.handlers[h]) else 0
  }

  function HeldRank(limit: nat, handler: Handler): int {
    6 * (limit - handler.msg.attempt) +
    match handler.phase
      case Received => 4
      case Claimed => 3
      case ToRetry(_) => 2
      case ToFail(_) => 2
      case ToPublish => 1
      case Done => 0
  }

  function TaskOf(s: State, step: Step): Option<TaskId> {
    match step
    case InsertTask(t) => Some(t)
    case PublishNew(t, _, _) => Some(t)
    case Deliver(_, m) => Some(m.task)
    case DelayOver(m) => Some(m.task)
    case Duplicate(m) => Some(m.task)
    case Act(h, _) => if h in s.handlers then Some(s.handlers[h].msg.task) else None
  }

  // A step that works on the download; acknowledging does not.
  predicate WorksOn(s: State, step: Step, t: TaskId) {
    TaskOf(s, step) == Some(t) && !(step.Act? && step.action.Ack?)
  }

  function NextPlace(limit: nat, s: State, step: Step, t: TaskId, place: Place): Place
    requires Enabled(s, step)
  {
    if !WorksOn(s, step, t) then place
    else match step
      case PublishNew(_, ok, _) => if ok then InReady(0) else Nowhere
      case Deliver(h, _) => With(h)
      case DelayOver(m) => InReady(m.attempt)
      case Act(h, a) =>
        var o := DecideIn(limit, s, h, a);
        if o.sent.Some? then InDelayed(o.sent.value.attempt)
        else if o.next == At(Done) then Nowhere
        else place
      case _ => place
  }

  // What one smooth action of the holder does to the row, the claims and the rank.
  lemma HolderActs(limit: nat, row: Option<Task>, m: Msg, p: Phase, a: Action, claims: nat)
    requires CanAct(row, p, a) && !a.Ack? && SMOOTH(Act(0, a))
    requires row.Some? && HeldWell(limit, row.value.status, claims, Handler(m, p))
    ensures var o := Decide(limit, row, m, p, a);
      var after := if o.row.Some? then o.row.value else row.value;
      var claims' := if o.next == At(Claimed) then claims + 1 else claims;
      && o.next.At?
      && (o.sent.Some? ==> o.next == At(Done) && o.sent.value == Msg(m.task, m.attempt + 1))
      && (o.sent.Some? ==> after.status == Retrying && claims' <= m.attempt + 1 <= limit)
      && (o.sent == None && o.next == At(Done) ==> after.status in {Completed, Failed} && claims' <= limit + 1)
      && (o.next != At(Done) ==> HeldWell(limit, after.status, claims', Handler(m, o.next.phase)))
      && (o.next != At(Done) ==> HeldRank(limit, Handler(m, o.next.phase)) < HeldRank(limit, Handler(m, p)))
      && HeldRank(limit, Handler(m, p)) > 6 * (limit - m.attempt)
  {}

  lemma HolderActKeepsTrack(limit: nat, s: State, h: nat, a: Action, t: TaskId, place: Place)
    requires Tracked(limit, s, t, place) && Enabled(s, Act(h, a)) && SMOOTH(Act(h, a)) && WorksOn(s, Act(h, a), t)
    ensures var s', place' := Apply(limit, s, Act(h, a)), NextPlace(limit, s, Act(h, a), t, place);
      && Tracked(limit, s', t, place')
      && 0 <= Rank(limit, s', t, place') < Rank(limit, s, t, place)
  {
    var handler := s.handlers[h];
    assert Alive(handler, t);
    assert place == With(h);
    HolderActs(limit, Row(s, t), handler.msg, handler.phase, a, Claims(s, t));
    hide Decide, CanAct, HeldWell, HeldRank, SMOOTH;
    var s', place' := Apply(limit, s, Act(h, a)), NextPlace(limit, s, Act(h, a), t, place);
    HolderLocates(s, h, DecideIn(limit, s, h, a), t, place');
  }

  lemma HolderLocates(s: State, h: nat, o: Outcome, t: TaskId, place': Place)
    requires Located(s, t, With(h)) && o.next.At? && (o.sent.Some? ==> o.sent.value.task == t && o.next == At(Done))
    requires place' ==
      if o.sent.Some? then InDelayed(o.sent.value.attempt) else if o.next == At(Done) then Nowhere else With(h)
    ensures Located(Perform(s, h, o), t, place')
  {}

  // What other tasks' steps, and acknowledgements, leave as it was.
  lemma OtherActKeepsTrack(limit: nat, s: State, h: nat, a: Action, t: TaskId, place: Place)
    requires Tracked(limit, s, t, place) && Enabled(s, Act(h, a)) && SMOOTH(Act(h, a)) && !WorksOn(s, Act(h, a), t)
    ensures Tracked(limit, Apply(limit, s, Act(h, a)), t, place)
    ensures Rank(limit, Apply(limit, s, Act(h, a)), t, place) == Rank(limit, s, t, place)
  {
    OtherOutcome(limit, s, h, a);
    assert a.Ack? ==> s.handlers[h].phase == Done;
    assert place != With(h);
    hide Decide, CanAct, SMOOTH, HeldWell, HeldRank;
    OthersLocate(s, h, DecideIn(limit, s, h, a), t, place);
    hide Located;
  }

  lemma OthersLocate(s: State, h: nat, o: Outcome, t: TaskId, place: Place)
    requires Located(s, t, place) && h in s.handlers && place != With(h) && !o.next.GiveBack?
    requires s.handlers[h].msg.task != t || o == Outcome(None, Leave, None)
    requires o.sent.Some? ==> o.sent.value.task == s.handlers[h].msg.task
    ensures Located(Perform(s, h, o), t, place)
  {}

  lemma OtherOutcome(limit: nat, s: State, h: nat, a: Action)
    requires Enabled(s, Act(h, a)) && SMOOTH(Act(h, a))
    ensures var o := DecideIn(limit, s, h, a);
      && !o.next.GiveBack? && (o.sent.Some? ==> o.sent.value.task == s.handlers[h].msg.task)
      && (a.Ack? ==> o == Outcome(None, Leave, None))
  {}

  lemma InsertionKeepsTrack(limit: nat, s: State, step: Step, t: TaskId, place: Place)
    requires Tracked(limit, s, t, place) && Enabled(s, step) && SMOOTH(step) && step.InsertTask?
    ensures Tracked(limit, Apply(limit, s, step), t, NextPlace(limit, s, step, t, place))
    ensures Moved(limit, s, step, t, place)
  {
    hide HeldWell, HeldRank;
  }

  lemma FirstPublishKeepsTrack(limit: nat, s: State, step: Step, t: TaskId, place: Place)
    requires Tracked(limit, s, t, place) && Enabled(s, step) && SMOOTH(step) && step.PublishNew?
    ensures Tracked(limit, Apply(limit, s, step), t, NextPlace(limit, s, step, t, place))
    ensures Moved(limit, s, step, t, place)
  {
    hide HeldWell, HeldRank;
  }

  lemma DelayKeepsTrack(limit: nat, s: State, step: Step, t: TaskId, place: Place)
    requires Tracked(limit, s, t, place) && Enabled(s, step) && SMOOTH(step) && step.DelayOver?
    ensures Tracked(limit, Apply(limit, s, step), t, NextPlace(limit, s, step, t, place))
    ensures Moved(limit, s, step, t, place)
  {
    hide HeldWell, HeldRank;
    if step.m.task == t { assert place == InDelayed(step.m.attempt); }
  }

  lemma DeliveryKeepsTrack(limit: nat, s: State, step: Step, t: TaskId, place: Place)
    requires Tracked(limit, s, t, place) && Enabled(s, step) && SMOOTH(step) && step.Deliver?
    ensures Tracked(limit, Apply(limit, s, step), t, NextPlace(limit, s, step, t, place))
    ensures Moved(limit, s, step, t, place)
  {
    var handler := Handler(step.m, Received);
    if step.m.task == t {
      assert place == InReady(step.m.attempt);
      assert HeldRank(limit, handler) == 6 * (limit - step.m.attempt) + 4;
      assert HeldWell(limit, s.tasks[t].status, Claims(s, t), handler);
    }
    hide HeldWell, HeldRank;
  }

  // The rank falls by one at least with every step that works on the download, and only then.
  ghost predicate Moved(limit: nat, s: State, step: Step, t: TaskId, place: Place)
    requires Enabled(s, step)
  {
    var before := Rank(limit, s, t, place);
    var after := Rank(limit, Apply(limit, s, step), t, NextPlace(limit, s, step, t, place));
    if WorksOn(s, step, t) then 0 <= after < before else after == before
  }

  lemma StepKeepsTrack(limit: nat, s: State, step: Step, t: TaskId, place: Place)
    requires Tracked(limit, s, t, place) && Enabled(s, step) && SMOOTH(step)
    ensures Tracked(limit, Apply(limit, s, step), t, NextPlace(limit, s, step, t, place))
    ensures Moved(limit, s, step, t, place)
  {
    match step
    case Act(h, a) =>
      if WorksOn(s, step, t) {
        HolderActKeepsTrack(limit, s, h, a, t, place);
      } else {
        OtherActKeepsTrack(limit, s, h, a, t, place);
      }
    case Deliver(_, _) => DeliveryKeepsTrack(limit, s, step, t, place);
    case DelayOver(_) => DelayKeepsTrack(limit, s, step, t, place);
    case Duplicate(_) =>
    case InsertTask(_) => InsertionKeepsTrack(limit, s, step, t, place);
    case PublishNew(_, _, _) => FirstPublishKeepsTrack(limit, s, step, t, place);
  }

  // How many of the first k steps of a run work on the download.
  function Effort(run: seq<Step>, states: seq<State>, t: TaskId, k: nat): nat
    requires k <= |run| <= |states|
  {
    if k == 0 then 0 else Effort(run, states, t, k - 1) + if WorksOn(states[k - 1], run[k - 1], t) then 1 else 0
  }

  lemma {:induction false} EffortIsPaid(limit: nat, run: seq<Step>, states: seq<State>, t: TaskId, k: nat)
    returns (place: Place)
    requires IsRun(limit, run, states, SMOOTH) && k <= |run|
    ensures Tracked(limit, states[k], t, place)
    ensures 0 <= Rank(limit, states[k], t, place)
    ensures Effort(run, states, t, k) + Rank(limit, states[k], t, place) <= 6 * limit + 7
  {
    hide Tracked, Rank, WorksOn, Enabled, Apply, NextPlace, SMOOTH;
    if k == 0 {
      place := Nowhere;
      StartIsTracked(limit, t);
    } else {
      var before := EffortIsPaid(limit, run, states, t, k - 1);
      var s, step := states[k - 1], run[k - 1];
      assert Follows(limit, states[k - 1], run[k - 1], states[k - 1 + 1]);
      StepKeepsTrack(limit, s, step, t, before);
      place := NextPlace(limit, s, step, t, before);
    }
  }

  lemma StartIsTracked(limit: nat, t: TaskId)
    ensures Tracked(limit, START, t, Nowhere) && Rank(limit, START, t, Nowhere) == 6 * limit + 7
  {}

  lemma {:induction false} SomeIdIsFree(ids: set<nat>) returns (free: nat)
    ensures forall id :: id in ids ==> id < free
    decreases ids
  {
    if ids == {} {
      free := 0;
    } else {
      var id :| id in ids;
      free := SomeIdIsFree(ids - {id});
      free := if free <= id then id + 1 else free;
      assert forall x :: x in ids ==> x == id || x in ids - {id};
    }
  }

  // A task that has not ended always has a step to take.
  lemma NeverStuck(limit: nat, s: State, t: TaskId, place: Place) returns (step: Step)
    requires Tracked(limit, s, t, place) && t in s.tasks
    requires s.tasks[t].status !in {Completed, Failed}
    ensures Enabled(s, step) && SMOOTH(step) && WorksOn(s, step, t)
  {
    if t in s.creating {
      step := PublishNew(t, true, true);
    } else {
      match place
      case Nowhere =>
      case InDelayed(a) =>
        assert s.delayed[Msg(t, a)] == 1;
        step := DelayOver(Msg(t, a));
      case InReady(a) =>
        assert s.ready[Msg(t, a)] == 1;
        var h := SomeIdIsFree(s.handlers.Keys);
        step := Deliver(h, Msg(t, a));
      case With(h) =>
        step := Act(h, match s.handlers[h].phase
          case Received => TryClaim
          case Claimed => Finish(None)
          case ToRetry(_) => WriteRetry(true)
          case ToPublish => PublishRetry(true)
          case _ => WriteFailed(true));
    }
  }

  // In a smooth run a task is claimed limit + 1 times at most and takes 6 * limit + 7 steps
  // at most; when it has no step left, it is completed or failed.
  lemma EveryTaskEnds(limit: nat, run: seq<Step>, states: seq<State>, t: TaskId)
    requires IsRun(limit, run, states, SMOOTH)
    ensures Effort(run, states, t, |run|) <= 6 * limit + 7
    ensures Claims(states[|run|], t) <= limit + 1
    ensures t in states[|run|].tasks && states[|run|].tasks[t].status !in {Completed, Failed} ==>
      exists step :: Enabled(states[|run|], step) && SMOOTH(step) && WorksOn(states[|run|], step, t)
  {
    var s := states[|run|];
    var place := EffortIsPaid(limit, run, states, t, |run|);
    if t in s.tasks && s.tasks[t].status !in {Completed, Failed} {
      var step := NeverStuck(limit, s, t, place);
    }
  }
}
