/** The operational job queue: enqueue once, begin, succeed or fail, and replay what may be repeated. */
module JobQueue {
  import opened Basics
  import opened Texts

  datatype JobState = Draft | Processing | Success | Failure

  /** A job's id is its place in the queue, which stands for the random id it gets; jobs are never removed. */
  type JobId = nat
  datatype Job = Job(company: string, kind: string, idempotencyKey: string, idempotent: bool, state: JobState,
                     attempts: nat,
                     maxAttempts: int, correlationId: string, lastErrorCode: Option<string>, completed: bool)

  datatype AuditAction = DeadLettered | FailedOnce | WasReplayed
  datatype AuditEntry = AuditEntry(company: string, action: AuditAction, correlationId: string, attempts: nat)

  datatype Context = Context(company: string, mayReplay: bool)

  datatype QueueError = KeysRequired | JobNotFound | TenantIsolation | NotReady | NotProcessing | NotRepeatable
      | NotFailed | Forbidden

  datatype Queue = Queue(jobs: seq<Job>, keys: map<string, JobId>, audit: seq<AuditEntry>)

  function KeyOf(company: string, kind: string, idempotencyKey: string): string
  {
    company + ":" + kind + ":" + idempotencyKey
  }

  datatype Call =
    | Enqueue(context: Context, kind: string, idempotencyKey: string, idempotent: bool, maxAttempts: Option<int>,
      correlationId: string)
    | Begin(context: Context, id: JobId)
    | Succeed(context: Context, id: JobId)
    | Fail(context: Context, id: JobId, errorCode: string)
    | Replay(context: Context, id: JobId)

  function Get(q: Queue, context: Context, id: JobId): Result<Job, QueueError> {
    if id >= |q.jobs| then Refused(JobNotFound)
    else if q.jobs[id].company != context.company then Refused(TenantIsolation)
    else Ok(q.jobs[id])
  }

  function Save(q: Queue, id: JobId, job: Job): Queue
    requires id < |q.jobs|
  {
    q.(jobs := q.jobs[id := job])
  }

  function EnqueueOf(q: Queue, call: Call): (Queue, Result<JobId, QueueError>)
    requires call.Enqueue?
  {
    var key := KeyOf(call.context.company, call.kind, call.idempotencyKey);
    if Blank(call.idempotencyKey) || Blank(call.correlationId) then (q, Refused(KeysRequired))
    else if key in q.keys then (q, Ok(q.keys[key]))
    else
      var job := Job(call.context.company, call.kind, call.idempotencyKey, call.idempotent, Draft, 0,
                     if call.maxAttempts.Some? then call.maxAttempts.value else 3, call.correlationId, None, false);
      (q.(jobs := q.jobs + [job], keys := q.keys[key := |q.jobs|]), Ok(|q.jobs|))
  }

  /** What a call does to the queue and answers. */
  function CallOf(q: Queue, call: Call): (Queue, Result<JobId, QueueError>) {
    match call
    case Enqueue(_, _, _, _, _, _) => EnqueueOf(q, call)
    case Begin(context, id) =>
      var got := Get(q, context, id);
      if got.Refused? then (q, Refused(got.why))
      else if got.value.state != Draft then (q, Refused(NotReady))
      else (Save(q, id, got.value.(state := Processing, attempts := got.value.attempts + 1)), Ok(id))
    case Succeed(context, id) =>
      var got := Get(q, context, id);
      if got.Refused? then (q, Refused(got.why))
      else if got.value.state != Processing then (q, Refused(NotProcessing))
      else (Save(q, id, got.value.(state := Success, completed := true)), Ok(id))
    case Fail(context, id, errorCode) =>
      var got := Get(q, context, id);
      if got.Refused? then (q, Refused(got.why))
      else if got.value.state != Processing then (q, Refused(NotProcessing))
      else
        var job := got.value;
        var entry := AuditEntry(context.company,
          if job.attempts >= job.maxAttempts then DeadLettered else FailedOnce, job.correlationId, job.attempts);
        (Save(q, id, job.(state := Failure, lastErrorCode := Some(errorCode), completed := true)).(audit :=
          q.audit + [entry]), Ok(id))
    case Replay(context, id) =>
      var got := Get(q, context, id);
      if !context.mayReplay then (q, Refused(Forbidden))
      else if got.Refused? then (q, Refused(got.why))
      else if !got.value.idempotent then (q, Refused(NotRepeatable))
      else if got.value.state != Failure then (q, Refused(NotFailed))
      else
        var job := got.value;
        (Save(q, id, job.(state := Draft, completed := false)).(audit :=
          q.audit + [AuditEntry(context.company, WasReplayed, job.correlationId, job.attempts)]), Ok(id))
  }

  function RunOf(q: Queue, calls: seq<Call>): Queue {
    if calls == [] then q else CallOf(RunOf(q, calls[..|calls| - 1]), calls[|calls| - 1]).0
  }

  const EMPTY := Queue([], map[], [])

  // ------------------------------------------------------------------ counting what was accepted

  datatype Happening = Begins | Successes | Failures | Replays

  predicate IsCall(call: Call, what: Happening, id: JobId) {
    match what
    case Begins => call.Begin? && call.id == id
    case Successes => call.Succeed? && call.id == id
    case Failures => call.Fail? && call.id == id
    case Replays => call.Replay? && call.id == id
  }

  /** How many calls of a kind, in a run from an empty queue, were carried out on a job. */
  function Count(calls: seq<Call>, what: Happening, id: JobId): nat {
    if calls == [] then 0
    else
      var (front, call) := (calls[..|calls| - 1], calls[|calls| - 1]);
      Count(front, what, id) + One(Accepted(RunOf(EMPTY, front), call, what, id))
  }

  function One(condition: bool): nat { if condition then 1 else 0 }

  /** A job's state and attempts are exactly what was done to it. */
  predicate Tally(job: Job, begins: nat, successes: nat, failures: nat, replays: nat) {
    && job.attempts == begins == replays + One(job.state != Draft)
    && failures == replays + One(job.state == Failure)
    && successes == One(job.state == Success)
    && (!job.idempotent ==> replays == 0)
  }

  predicate Accepted(q: Queue, call: Call, what: Happening, id: JobId) {
    IsCall(call, what, id) && CallOf(q, call).1.Ok?
  }

  lemma StepTally(q: Queue, call: Call, id: JobId, begins: nat, successes: nat, failures: nat, replays: nat)
    requires id < |q.jobs| && Tally(q.jobs[id], begins, successes, failures, replays)
    ensures id < |CallOf(q, call).0.jobs|
    ensures Tally(CallOf(q, call).0.jobs[id],
                  begins + One(Accepted(q, call, Begins, id)), successes + One(Accepted(q, call, Successes, id)),
                  failures + One(Accepted(q, call, Failures, id)), replays + One(Accepted(q, call, Replays, id)))
  {}

  lemma StepIsAccounted(calls: seq<Call>, call: Call, id: JobId)
    requires id < |RunOf(EMPTY, calls).jobs| && Accounted(calls, id)
    ensures id < |RunOf(EMPTY, calls + [call]).jobs| && Accounted(calls + [call], id)
  {
    assert (calls + [call])[..|calls|] == calls;
    StepTally(RunOf(EMPTY, calls), call, id, Count(calls, Begins, id), Count(calls, Successes, id),
      Count(calls, Failures, id), Count(calls, Replays, id));
  }

  ghost predicate Accounted(calls: seq<Call>, id: JobId)
    requires id < |RunOf(EMPTY, calls).jobs|
  {
    Tally(RunOf(EMPTY, calls).jobs[id], Count(calls, Begins, id), Count(calls, Successes, id),
      Count(calls, Failures, id), Count(calls, Replays, id))
  }

  /** Keys lead to the jobs they were made for, and every job has its key. */
  ghost predicate KeysOk(q: Queue) {
    && (forall k <- q.keys ::
          && q.keys[k] < |q.jobs|
          && k == KeyOf(q.jobs[q.keys[k]].company, q.jobs[q.keys[k]].kind, q.jobs[q.keys[k]].idempotencyKey))
    && (forall i :: 0 <= i < |q.jobs| ==>
          var k := KeyOf(q.jobs[i].company, q.jobs[i].kind, q.jobs[i].idempotencyKey); k in q.keys && q.keys[k] == i)
  }

  lemma {:induction false} RunKeepsKeys(q: Queue, calls: seq<Call>)
    requires KeysOk(q)
    ensures KeysOk(RunOf(q, calls))
  {
    if calls != [] {
      RunKeepsKeys(q, calls[..|calls| - 1]);
      CallKeepsKeys(RunOf(q, calls[..|calls| - 1]), calls[|calls| - 1]);
    }
  }

  lemma CallKeepsKeys(q: Queue, call: Call)
    requires KeysOk(q)
    ensures KeysOk(CallOf(q, call).0)
  {
    var after := CallOf(q, call).0;
    if after != q {
      forall i | 0 <= i < |after.jobs|
        ensures var k := KeyOf(after.jobs[i].company, after.jobs[i].kind, after.jobs[i].idempotencyKey);
          k in after.keys && after.keys[k] == i
      {
        if i < |q.jobs| {
          assert var k := KeyOf(q.jobs[i].company, q.jobs[i].kind, q.jobs[i].idempotencyKey);
            k in q.keys && q.keys[k] == i;
        }
      }
    }
  }

  lemma {:induction false} NothingBefore(calls: seq<Call>, id: JobId)
    requires id >= |RunOf(EMPTY, calls).jobs|
    ensures forall what :: Count(calls, what, id) == 0
  {
    if calls != [] {
      var (front, call) := (calls[..|calls| - 1], calls[|calls| - 1]);
      assert |RunOf(EMPTY, front).jobs| <= |RunOf(EMPTY, calls).jobs|;
      NothingBefore(front, id);
    }
  }

  /**
   * In every run: a job's attempts are the times it was begun, which are its failures, its successes and
   * one more while it is being worked on; a success is final; and a job not declared safe to repeat is
   * begun at most once.
   */
  lemma EveryJobIsAccounted(calls: seq<Call>, id: JobId)
    requires id < |RunOf(EMPTY, calls).jobs|
    ensures Accounted(calls, id)
    ensures var job := RunOf(EMPTY, calls).jobs[id];
      && Count(calls, Begins, id) == Count(calls, Failures, id) + Count(calls, Successes, id) +
        One(job.state == Processing)
      && (!job.idempotent ==> Count(calls, Begins, id) <= 1)
  {
    AlwaysAccounted(calls, id);
  }

  lemma NewJobIsAccounted(calls: seq<Call>, call: Call, id: JobId)
    requires |RunOf(EMPTY, calls).jobs| <= id < |RunOf(EMPTY, calls + [call]).jobs|
    ensures Accounted(calls + [call], id)
  {
    assert (calls + [call])[..|calls|] == calls;
    NothingBefore(calls, id);
    assert call.Enqueue?;
    assert forall what :: Count(calls + [call], what, id) == 0;
  }

  lemma {:induction false} AlwaysAccounted(calls: seq<Call>, id: JobId)
    requires id < |RunOf(EMPTY, calls).jobs|
    ensures Accounted(calls, id)
  {
    assert calls != [];
    var (front, call) := (calls[..|calls| - 1], calls[|calls| - 1]);
    assert calls == front + [call];
    if id < |RunOf(EMPTY, front).jobs| {
      AlwaysAccounted(front, id);
      StepIsAccounted(front, call, id);
    } else {
      NewJobIsAccounted(front, call, id);
    }
  }

  // ------------------------------------------------------------------ what was declared stays declared

  /** The call that makes a new job of this id, and what it declares of it. */
  ghost predicate Makes(calls: seq<Call>, k: nat, id: JobId) {
    k < |calls| && calls[k].Enqueue? && |RunOf(EMPTY, calls[..k]).jobs| == id
      && |RunOf(EMPTY, calls[..k + 1]).jobs| == id + 1
  }

  /** The most attempts a request declares: three unless it says otherwise. */
  predicate AsDeclared(job: Job, call: Call)
    requires call.Enqueue?
  {
    && job.company == call.context.company && job.kind == call.kind && job.idempotencyKey == call.idempotencyKey
    && job.idempotent == call.idempotent && job.correlationId == call.correlationId
    && (call.maxAttempts.Some? ==> job.maxAttempts == call.maxAttempts.value)
    && (call.maxAttempts.None? ==> job.maxAttempts == 3)
  }

  /** A call makes at most one job, as declared, and leaves what others were declared as. */
  lemma CallKeepsDeclared(q: Queue, call: Call, id: JobId)
    requires id < |CallOf(q, call).0.jobs|
    ensures var jobs := CallOf(q, call).0.jobs;
      && |q.jobs| <= |jobs| <= |q.jobs| + 1
      && (if id < |q.jobs| then SameDeclared(q.jobs[id], jobs[id])
          else
            && id == |q.jobs| && call.Enqueue? && AsDeclared(jobs[id], call)
            && jobs[id].state == Draft && jobs[id].attempts == 0)
  {}

  predicate SameDeclared(a: Job, b: Job) {
    && a.company == b.company && a.kind == b.kind && a.idempotencyKey == b.idempotencyKey
    && a.idempotent == b.idempotent && a.maxAttempts == b.maxAttempts && a.correlationId == b.correlationId
  }

  lemma {:induction false} RunKeepsDeclared(q: Queue, calls: seq<Call>, id: JobId)
    requires id < |q.jobs|
    ensures id < |RunOf(q, calls).jobs| && SameDeclared(q.jobs[id], RunOf(q, calls).jobs[id])
  {
    if calls != [] {
      var before := RunOf(q, calls[..|calls| - 1]);
      RunKeepsDeclared(q, calls[..|calls| - 1], id);
      assert |before.jobs| <= |CallOf(before, calls[|calls| - 1]).0.jobs|;
      CallKeepsDeclared(before, calls[|calls| - 1], id);
    }
  }

  lemma {:induction false} RunOfConcat(q: Queue, a: seq<Call>, b: seq<Call>)
    ensures RunOf(q, a + b) == RunOf(RunOf(q, a), b)
  {
    if b == [] {
      assert a + b == a;
    } else {
      RunOfConcat(q, a, b[..|b| - 1]);
      assert (a + b)[..|a + b| - 1] == a + b[..|b| - 1];
    }
  }

  /** In every run each job was made by one request, and is as that request declared it. */
  lemma {:induction false} EveryJobIsAsDeclared(calls: seq<Call>, id: JobId) returns (k: nat)
    requires id < |RunOf(EMPTY, calls).jobs|
    ensures Makes(calls, k, id) && AsDeclared(RunOf(EMPTY, calls).jobs[id], calls[k])
  {
    assert calls != [];
    var (front, call) := (calls[..|calls| - 1], calls[|calls| - 1]);
    var before := RunOf(EMPTY, front);
    CallKeepsDeclared(before, call, id);
    if id < |before.jobs| {
      k := EveryJobIsAsDeclared(front, id);
      assert front[..k] == calls[..k] && front[..k + 1] == calls[..k + 1];
    } else {
      k := |front|;
      assert calls[..k] == front && calls[..k + 1] == calls;
    }
  }

  /**
   * A job asked for as not safe to repeat is begun at most once in whatever follows, and every replay of it is refused:
   * to a person of its company who may replay, as not repeatable.
   */
  lemma UnsafeJobIsBegunOnce(calls: seq<Call>, call: Call, more: seq<Call>, context: Context)
    requires call.Enqueue? && !call.idempotent
    requires |CallOf(RunOf(EMPTY, calls), call).0.jobs| > |RunOf(EMPTY, calls).jobs|
    ensures var id := |RunOf(EMPTY, calls).jobs|;
      var all := calls + [call] + more;
      && Count(all, Begins, id) <= 1
      && CallOf(RunOf(EMPTY, all), Replay(context, id)).1.Refused?
      && (context.mayReplay && context.company == call.context.company ==>
            CallOf(RunOf(EMPTY, all), Replay(context, id)) == (RunOf(EMPTY, all), Refused(NotRepeatable)))
  {
    var id := |RunOf(EMPTY, calls).jobs|;
    MadeStays(calls, call, more);
    EveryJobIsAccounted(calls + [call] + more, id);
    UnsafeIsNotReplayed(RunOf(EMPTY, calls + [call] + more), context, id);
  }

  /** A job made now is there, as declared, after whatever follows. */
  lemma MadeStays(calls: seq<Call>, call: Call, more: seq<Call>)
    requires call.Enqueue? && |CallOf(RunOf(EMPTY, calls), call).0.jobs| > |RunOf(EMPTY, calls).jobs|
    ensures var (id, all) := (|RunOf(EMPTY, calls).jobs|, RunOf(EMPTY, calls + [call] + more));
      id < |all.jobs| && AsDeclared(all.jobs[id], call)
  {
    var id := |RunOf(EMPTY, calls).jobs|;
    assert (calls + [call])[..|calls|] == calls;
    CallKeepsDeclared(RunOf(EMPTY, calls), call, id);
    RunOfConcat(EMPTY, calls + [call], more);
    RunKeepsDeclared(RunOf(EMPTY, calls + [call]), more, id);
  }

  lemma UnsafeIsNotReplayed(q: Queue, context: Context, id: JobId)
    requires id < |q.jobs| && !q.jobs[id].idempotent
    ensures CallOf(q, Replay(context, id)).1.Refused?
    ensures context.mayReplay && context.company == q.jobs[id].company ==>
              CallOf(q, Replay(context, id)) == (q, Refused(NotRepeatable))
  {}

  /**
   * A request is answered exactly when it has a key and a correlation id, and makes a job exactly when its key is
   * new.
   */
  lemma EnqueuedIff(q: Queue, call: Call)
    requires call.Enqueue?
    ensures var (after, answer) := CallOf(q, call);
      var key := KeyOf(call.context.company, call.kind, call.idempotencyKey);
      && (answer.Ok? <==> !Blank(call.idempotencyKey) && !Blank(call.correlationId))
      && (answer.Ok? && key in q.keys ==> after == q && answer.value == q.keys[key])
      && (answer.Ok? && key !in q.keys ==>
        |after.jobs| == |q.jobs| + 1 && answer.value == |q.jobs| && after.keys == q.keys[key := |q.jobs|])
  {}

  /** What may be done to a job, told by what was done: all calls are of its own company. */
  lemma AcceptedIff(calls: seq<Call>, call: Call, id: JobId)
    requires id < |RunOf(EMPTY, calls).jobs| && call.context.company == RunOf(EMPTY, calls).jobs[id].company
    ensures var (begins, ends) := (Count(calls, Begins, id), Count(calls, Failures, id) + Count(calls, Successes, id));
      var replays := Count(calls, Replays, id);
      && (call == Begin(call.context, id) ==> (Accepted(RunOf(EMPTY, calls), call, Begins, id) <==> begins == replays))
      && (call == Succeed(call.context, id) ==>
        (Accepted(RunOf(EMPTY, calls), call, Successes, id) <==> begins == ends + 1))
      && (call.Fail? && call.id == id ==> (Accepted(RunOf(EMPTY, calls), call, Failures, id) <==> begins == ends + 1))
      && (call == Replay(call.context, id) ==>
            (Accepted(RunOf(EMPTY, calls), call, Replays, id) <==>
             call.context.mayReplay && RunOf(EMPTY, calls).jobs[id].idempotent
               && Count(calls, Failures, id) == replays + 1))
  {
    EveryJobIsAccounted(calls, id);
  }

  /**
   * A failure that is carried out is written down as final exactly when the job had been begun as often as its request
   * allowed; any other call but a replay writes nothing down.
   */
  lemma FailureIsWrittenDown(calls: seq<Call>, context: Context, id: JobId, errorCode: string) returns (k: nat)
    requires id < |RunOf(EMPTY, calls).jobs|
    requires Accepted(RunOf(EMPTY, calls), Fail(context, id, errorCode), Failures, id)
    ensures Makes(calls, k, id)
    ensures var (before, after) := (RunOf(EMPTY, calls), CallOf(RunOf(EMPTY, calls), Fail(context, id, errorCode)).0);
      var begins := Count(calls, Begins, id);
      var action := if begins < MostOf(calls[k]) then FailedOnce else DeadLettered;
      && after.audit == before.audit + [AuditEntry(context.company, action, calls[k].correlationId, begins)]
      && after.jobs[id].lastErrorCode == Some(errorCode)
  {
    k := EveryJobIsAsDeclared(calls, id);
    EveryJobIsAccounted(calls, id);
  }

  function MostOf(call: Call): int
    requires call.Enqueue?
  {
    match call.maxAttempts case None => 3 case Some(most) => most
  }

  /** Nobody but its own company does anything to a job: every call that is carried out on it is of that company. */
  lemma OnlyItsOwnCompany(calls: seq<Call>, call: Call, what: Happening, id: JobId) returns (k: nat)
    requires Accepted(RunOf(EMPTY, calls), call, what, id)
    ensures id < |RunOf(EMPTY, calls).jobs| && Makes(calls, k, id)
    ensures call.context.company == RunOf(EMPTY, calls).jobs[id].company == calls[k].context.company
  {
    k := EveryJobIsAsDeclared(calls, id);
  }

  /** A job is marked as over exactly while its last end is not replayed, and knows an error once it has failed. */
  lemma OverIff(calls: seq<Call>, id: JobId)
    requires id < |RunOf(EMPTY, calls).jobs|
    ensures var job := RunOf(EMPTY, calls).jobs[id];
      && (job.completed <==> Count(calls, Successes, id) + Count(calls, Failures, id) > Count(calls, Replays, id))
      && (job.lastErrorCode.Some? <==> Count(calls, Failures, id) > 0)
  {
    EveryJobIsAccounted(calls, id);
    OverMeans(calls, id);
  }

  lemma {:induction false} OverMeans(calls: seq<Call>, id: JobId)
    requires id < |RunOf(EMPTY, calls).jobs|
    ensures var job := RunOf(EMPTY, calls).jobs[id];
      && (job.completed <==> job.state == Success || job.state == Failure)
      && (job.lastErrorCode.Some? <==> Count(calls, Failures, id) > 0)
  {
    assert calls != [];
    var (front, call) := (calls[..|calls| - 1], calls[|calls| - 1]);
    if id < |RunOf(EMPTY, front).jobs| {
      OverMeans(front, id);
    } else {
      NothingBefore(front, id);
    }
  }

  /** A job that has succeeded is never touched again. */
  lemma {:induction false} SuccessIsFinal(q: Queue, calls: seq<Call>, id: JobId)
    requires id < |q.jobs| && q.jobs[id].state == Success
    ensures id < |RunOf(q, calls).jobs| && RunOf(q, calls).jobs[id] == q.jobs[id]
  {
    if calls != [] { SuccessIsFinal(q, calls[..|calls| - 1], id); }
  }

  /** Calls of one company never touch another company's jobs. */
  lemma CompaniesAreApart(q: Queue, call: Call, id: JobId)
    requires id < |q.jobs| && q.jobs[id].company != call.context.company
    ensures id < |CallOf(q, call).0.jobs| && CallOf(q, call).0.jobs[id] == q.jobs[id]
  {}

  // ------------------------------------------------------------------ one job per request

  /** With no colon in the company and the kind, a key tells the three things it was made of. */
  lemma KeyTellsAll(company: string, kind: string, key: string, company': string, kind': string, key': string)
    requires ':' !in company && ':' !in kind && ':' !in company' && ':' !in kind'
    ensures KeyOf(company, kind, key) == KeyOf(company', kind', key') <==>
      company == company' && kind == kind' && key == key'
  {
    var (rest, rest') := (kind + ":" + key, kind' + ":" + key');
    assert KeyOf(company, kind, key) == company + ":" + rest && KeyOf(company', kind', key') == company' + ":" + rest';
    if KeyOf(company, kind, key) == KeyOf(company', kind', key') {
      HeadTells(company, rest, company', rest');
      HeadTells(kind, key, kind', key');
    }
  }

  /** No run ever holds two jobs for one company, kind and key. */
  lemma OneJobPerRequest(calls: seq<Call>, i: JobId, j: JobId)
    requires var jobs := RunOf(EMPTY, calls).jobs; i < |jobs| && j < |jobs|
    ensures var jobs := RunOf(EMPTY, calls).jobs;
      && jobs[i].company == jobs[j].company
      && jobs[i].kind == jobs[j].kind
      && jobs[i].idempotencyKey == jobs[j].idempotencyKey
      ==> i == j
  {
    RunKeepsKeys(EMPTY, calls);
    var jobs := RunOf(EMPTY, calls).jobs;
    assert RunOf(EMPTY, calls).keys[KeyOf(jobs[i].company, jobs[i].kind, jobs[i].idempotencyKey)] == i;
  }

  /**
   * Where companies and kinds hold no colon, enqueuing answers with the job asked for, and asking again changes
   * nothing.
   */
  lemma EnqueueAnswersItsJob(calls: seq<Call>, call: Call)
    requires call.Enqueue? && CallOf(RunOf(EMPTY, calls), call).1.Ok?
    requires ':' !in call.context.company && ':' !in call.kind
    requires forall i :: 0 <= i < |RunOf(EMPTY, calls).jobs| ==>
      ':' !in RunOf(EMPTY, calls).jobs[i].company && ':' !in RunOf(EMPTY, calls).jobs[i].kind
    ensures var (q, answer) := CallOf(RunOf(EMPTY, calls), call);
      && answer.value < |q.jobs|
      && q.jobs[answer.value].company == call.context.company && q.jobs[answer.value].kind == call.kind
      && q.jobs[answer.value].idempotencyKey == call.idempotencyKey
      && CallOf(q, call) == (q, answer)
  {
    RunKeepsKeys(EMPTY, calls);
    CallKeepsKeys(RunOf(EMPTY, calls), call);
    var (q, answer) := CallOf(RunOf(EMPTY, calls), call);
    var job := q.jobs[answer.value];
    KeyTellsAll(job.company, job.kind, job.idempotencyKey, call.context.company, call.kind, call.idempotencyKey);
  }

  lemma {:induction false} FirstColon(s: string) returns (at: nat)
    requires ':' in s
    ensures at < |s| && s[at] == ':' && ':' !in s[..at]
  {
    if s[0] == ':' {
      at := 0;
    } else {
      at := FirstColon(s[1..]);
      at := at + 1;
      assert s[..at] == [s[0]] + s[1..][..at - 1];
    }
  }

  /** What follows a colon of the key, and is a key itself. */
  predicate TailOf(key: string, tail: string, at: nat) { at < |key| && key[at] == ':' && key[at + 1..] == tail }

  lemma ColonPutsTailInKey(front: string, tail: string, kind: string, key: string) returns (at: nat)
    requires ':' in front && ':' !in kind && front + ":" + tail == kind + ":" + key
    ensures TailOf(key, tail, at)
  {
    var p := FirstColon(front);
    var rest := front[p + 1..];
    assert front == front[..p] + ":" + rest;
    assert front + ":" + tail == front[..p] + ":" + (rest + ":" + tail);
    HeadTells(front[..p], rest + ":" + tail, kind, key);
    at := |rest|;
  }

  /** A colon-free company and kind can share their key only with a key that is the end of theirs, after a colon. */
  lemma SharedKeyIsTail(company: string, kind: string, key: string, company': string, kind': string, key': string)
      returns (at: nat)
    requires ':' !in company && ':' !in kind && KeyOf(company', kind', key') == KeyOf(company, kind, key)
    requires company' != company || kind' != kind || key' != key
    ensures TailOf(key, key', at)
  {
    var (rest, rest') := (kind + ":" + key, kind' + ":" + key');
    assert KeyOf(company, kind, key) == company + ":" + rest && KeyOf(company', kind', key') == company' + ":" + rest';
    if ':' in company' {
      var p := FirstColon(company');
      var front := company'[p + 1..] + ":" + kind';
      assert company' == company'[..p] + ":" + company'[p + 1..];
      assert company' + ":" + rest' == company'[..p] + ":" + (front + ":" + key');
      HeadTells(company'[..p], front + ":" + key', company, rest);
      assert front[|company'[p + 1..]|] == ':';
      at := ColonPutsTailInKey(front, key', kind, key);
    } else {
      HeadTells(company', rest', company, rest);
      if ':' !in kind' { HeadTells(kind', key', kind, key); }
      at := ColonPutsTailInKey(kind', key', kind, key);
    }
  }

  /** A colon can be read as the end of the company, of the kind, or as part of the key. */
  lemma ColonInCompany(company: string, kind: string, key: string, at: nat)
    requires at < |company| && company[at] == ':'
    ensures KeyOf(company[..at], company[at + 1..] + ":" + kind, key) == KeyOf(company, kind, key)
  {
    assert company == company[..at] + ":" + company[at + 1..];
  }

  lemma ColonInKind(company: string, kind: string, key: string, at: nat)
    requires at < |kind| && kind[at] == ':'
    ensures KeyOf(company, kind[..at], kind[at + 1..] + ":" + key) == KeyOf(company, kind, key)
  {
    assert kind == kind[..at] + ":" + kind[at + 1..];
  }

  lemma ColonInKey(company: string, kind: string, key: string, at: nat)
    requires at < |key| && key[at] == ':'
    ensures KeyOf(company, kind + ":" + key[..at], key[at + 1..]) == KeyOf(company, kind, key)
  {
    assert key == key[..at] + ":" + key[at + 1..];
  }

  /** Some other company, kind and key share a request's key exactly when one of its three holds a colon. */
  lemma KeyIsSharedIff(company: string, kind: string, key: string)
    ensures (exists company', kind', key' ::
               KeyOf(company', kind', key') == KeyOf(company, kind, key)
                 && (company' != company || kind' != kind || key' != key))
            <==> ':' in company || ':' in kind || ':' in key
  {
    if ':' in company {
      var at := FirstColon(company);
      ColonInCompany(company, kind, key, at);
      assert company[..at] != company;
    } else if ':' in kind {
      var at := FirstColon(kind);
      ColonInKind(company, kind, key, at);
      assert kind[..at] != kind;
    } else if ':' in key {
      var at := FirstColon(key);
      ColonInKey(company, kind, key, at);
      assert key[at + 1..] != key;
    } else {
      forall company', kind', key' | KeyOf(company', kind', key') == KeyOf(company, kind, key)
        ensures company' == company && kind' == kind && key' == key
      {
        if company' != company || kind' != kind || key' != key {
          var at := SharedKeyIsTail(company, kind, key, company', kind', key');
          assert false;
        }
      }
    }
  }

  /** After the run the call is answered with a job made for something else. */
  predicate Mistaken(calls: seq<Call>, call: Call)
    requires call.Enqueue?
  {
    var (q, answer) := CallOf(RunOf(EMPTY, calls), call);
    answer.Ok? && answer.value < |q.jobs| &&
    var job := q.jobs[answer.value];
    job.company != call.context.company || job.kind != call.kind || job.idempotencyKey != call.idempotencyKey
  }

  /** The key has a colon with more than blanks after it, so that what follows can be a key. */
  predicate HasTail(key: string) { exists at: nat :: at < |key| && key[at] == ':' && !Blank(key[at + 1..]) }

  lemma {:induction false} JobsHaveKeys(calls: seq<Call>)
    ensures forall i :: 0 <= i < |RunOf(EMPTY, calls).jobs| ==> !Blank(RunOf(EMPTY, calls).jobs[i].idempotencyKey)
  {
    if calls != [] { JobsHaveKeys(calls[..|calls| - 1]); }
  }

  /** One request made first takes the key of another. */
  lemma FirstComesFirst(context: Context, kind: string, key: string, call: Call)
    requires call.Enqueue? && !Blank(call.idempotencyKey) && !Blank(call.correlationId) && !Blank(key)
    requires KeyOf(context.company, kind, key) == KeyOf(call.context.company, call.kind, call.idempotencyKey)
    requires context.company != call.context.company || kind != call.kind || key != call.idempotencyKey
    ensures Mistaken([Enqueue(context, kind, key, true, None, "x")], call)
  {
    var first := Enqueue(context, kind, key, true, None, "x");
    assert [first][..0] == [] && RunOf(EMPTY, []) == EMPTY;
    assert "x"[0] in "x";
  }

  /**
   * In some run a request is answered with the job of another exactly when its company or its kind holds a colon, or
   * its key holds one with more than blanks after it.
   */
  lemma MistakenIff(call: Call)
    requires call.Enqueue? && !Blank(call.idempotencyKey) && !Blank(call.correlationId)
    ensures (exists calls :: Mistaken(calls, call)) <==>
            ':' in call.context.company || ':' in call.kind || HasTail(call.idempotencyKey)
  {
    if ':' in call.context.company || ':' in call.kind || HasTail(call.idempotencyKey) {
      var calls := MistakenRun(call);
    } else {
      forall calls ensures !Mistaken(calls, call) { NeverMistaken(calls, call); }
    }
  }

  lemma MistakenRun(call: Call) returns (calls: seq<Call>)
    requires call.Enqueue? && !Blank(call.idempotencyKey) && !Blank(call.correlationId)
    requires ':' in call.context.company || ':' in call.kind || HasTail(call.idempotencyKey)
    ensures Mistaken(calls, call)
  {
    var (context, kind, key) := (call.context, call.kind, call.idempotencyKey);
    var company', kind', key' := OtherTriple(context.company, kind, key);
    calls := [Enqueue(context.(company := company'), kind', key', true, None, "x")];
    FirstComesFirst(context.(company := company'), kind', key', call);
  }

  lemma OtherTriple(company: string, kind: string, key: string) returns (company': string, kind': string, key': string)
    requires !Blank(key) && (':' in company || ':' in kind || HasTail(key))
    ensures KeyOf(company', kind', key') == KeyOf(company, kind, key) && !Blank(key')
    ensures company' != company || kind' != kind || key' != key
  {
    if ':' in company {
      var at := FirstColon(company);
      ColonInCompany(company, kind, key, at);
      company', kind', key' := company[..at], company[at + 1..] + ":" + kind, key;
    } else if ':' in kind {
      var at := FirstColon(kind);
      ColonInKind(company, kind, key, at);
      company', kind', key' := company, kind[..at], kind[at + 1..] + ":" + key;
      assert key'[|kind[at + 1..]|] == ':' && key'[|kind[at + 1..]|] in key';
    } else {
      var at: nat :| at < |key| && key[at] == ':' && !Blank(key[at + 1..]);
      ColonInKey(company, kind, key, at);
      company', kind', key' := company, kind + ":" + key[..at], key[at + 1..];
    }
  }

  lemma NeverMistaken(calls: seq<Call>, call: Call)
    requires call.Enqueue? && ':' !in call.context.company && ':' !in call.kind && !HasTail(call.idempotencyKey)
    ensures !Mistaken(calls, call)
  {
    RunKeepsKeys(EMPTY, calls);
    JobsHaveKeys(calls);
    if Mistaken(calls, call) {
      var q := RunOf(EMPTY, calls);
      var job := q.jobs[CallOf(q, call).1.value];
      var at := SharedKeyIsTail(call.context.company, call.kind, call.idempotencyKey, job.company, job.kind,
        job.idempotencyKey);
      assert HasTail(call.idempotencyKey);
    }
  }

  /** A colon in a kind can make two requests one: the second is answered with the first one's job. */
  lemma ColonsCollide(context: Context)
    ensures var first := Enqueue(context, "a:b", "c", true, None, "x");
      var second := Enqueue(context, "a", "b:c", false, None, "y");
      var q := RunOf(EMPTY, [first]);
      CallOf(q, second) == (q, Ok(0)) && |q.jobs| == 1 && q.jobs[0].kind == "a:b"
  {
    var first := Enqueue(context, "a:b", "c", true, None, "x");
    assert [first][..0] == [];
    assert RunOf(EMPTY, []) == EMPTY;
    assert "c"[0] in "c" && "x"[0] in "x" && "y"[0] in "y" && "b:c"[0] in "b:c";
    assert KeyOf(context.company, "a:b", "c") == context.company + ":a:b:c";
    assert KeyOf(context.company, "a", "b:c") == context.company + ":a:b:c";
  }

  // ------------------------------------------------------------------ the queue as it is stored

  class OperationalQueue {
    var jobs: seq<Job>
    var keys: map<string, JobId>
    var audit: seq<AuditEntry>

    function View(): Queue
      reads this
    {
      Queue(jobs, keys, audit)
    }

    constructor ()
      ensures View() == EMPTY
    {
      jobs, keys, audit := [], map[], [];
    }

    method GetJob(context: Context, id: JobId) returns (got: Result<Job, QueueError>)
      ensures got == Get(View(), context, id)
    {
      if id >= |jobs| { return Refused(JobNotFound); }
      if jobs[id].company != context.company { return Refused(TenantIsolation); }
      got := Ok(jobs[id]);
    }

    method EnqueueJob(context: Context, kind: string, idempotencyKey: string, idempotent: bool,
                      maxAttempts: Option<int>, correlationId: string)
      returns (answer: Result<JobId, QueueError>)
      modifies this
      ensures (View(), answer) ==
        CallOf(old(View()), Enqueue(context, kind, idempotencyKey, idempotent, maxAttempts, correlationId))
    {
      if Blank(idempotencyKey) || Blank(correlationId) { return Refused(KeysRequired); }
      var key := KeyOf(context.company, kind, idempotencyKey);
      if key in keys { return Ok(keys[key]); }
      var id := |jobs|;
      var most := if maxAttempts.Some? then maxAttempts.value else 3;
      jobs := jobs + [Job(context.company, kind, idempotencyKey, idempotent, Draft, 0, most, correlationId, None,
        false)];
      keys := keys[key := id];
      answer := Ok(id);
    }

    method BeginJob(context: Context, id: JobId) returns (answer: Result<JobId, QueueError>)
      modifies this
      ensures (View(), answer) == CallOf(old(View()), Begin(context, id))
    {
      var got := GetJob(context, id);
      if got.Refused? { return Refused(got.why); }
      if got.value.state != Draft { return Refused(NotReady); }
      jobs := jobs[id := got.value.(state := Processing, attempts := got.value.attempts + 1)];
      answer := Ok(id);
    }

    method SucceedJob(context: Context, id: JobId) returns (answer: Result<JobId, QueueError>)
      modifies this
      ensures (View(), answer) == CallOf(old(View()), Succeed(context, id))
    {
      var got := GetJob(context, id);
      if got.Refused? { return Refused(got.why); }
      if got.value.state != Processing { return Refused(NotProcessing); }
      jobs := jobs[id := got.value.(state := Success, completed := true)];
      answer := Ok(id);
    }

    method FailJob(context: Context, id: JobId, errorCode: string) returns (answer: Result<JobId, QueueError>)
      modifies this
      ensures (View(), answer) == CallOf(old(View()), Fail(context, id, errorCode))
    {
      var got := GetJob(context, id);
      if got.Refused? { return Refused(got.why); }
      var job := got.value;
      if job.state != Processing { return Refused(NotProcessing); }
      jobs := jobs[id := job.(state := Failure, lastErrorCode := Some(errorCode), completed := true)];
      audit := audit + [AuditEntry(context.company,
        if job.attempts >= job.maxAttempts then DeadLettered else FailedOnce, job.correlationId, job.attempts)];
      answer := Ok(id);
    }

    method ReplayJob(context: Context, id: JobId) returns (answer: Result<JobId, QueueError>)
      modifies this
      ensures (View(), answer) == CallOf(old(View()), Replay(context, id))
    {
      if !context.mayReplay { return Refused(Forbidden); }
      var got := GetJob(context, id);
      if got.Refused? { return Refused(got.why); }
      var job := got.value;
      if !job.idempotent { return Refused(NotRepeatable); }
      if job.state != Failure { return Refused(NotFailed); }
      jobs := jobs[id := job.(state := Draft, completed := false)];
      audit := audit + [AuditEntry(context.company, WasReplayed, job.correlationId, job.attempts)];
      answer := Ok(id);
    }
  }
}
