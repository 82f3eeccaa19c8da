/** The completion bookkeeping of the asynchronous engine: the counters
 *  `started`, `running` and `finished`, how `copyItem` and `done` move
 *  them, and when `_end` fires. Entries are abstracted to whether the
 *  engine has a handler for their kind ("inert" entries, such as FIFOs
 *  and sockets, have none). */
module Scheduler {
  import opened Wrappers

  datatype Progress = Progress(started: int, running: int, finished: int)

  const Idle: Progress := Progress(0, 0, 0)

  /** `copyItem`'s counter update: `started` always grows; `running` grows
   *  only when below `limit`, otherwise the call is deferred. */
  function Admit(p: Progress, limit: int): (r: (Progress, bool))
    ensures r.0.started == p.started + 1 && r.0.finished == p.finished
    ensures r.1 <==> p.running < limit
    ensures r.0.running == (if r.1 then p.running + 1 else p.running)
    ensures p.running <= Max(limit, 0) ==> r.0.running <= Max(limit, 0)
  {
    if p.running >= limit then (p.(started := p.started + 1), false)
    else (p.(started := p.started + 1, running := p.running + 1), true)
  }

  function Max(a: int, b: int): int {
    if a < b then b else a
  }

  /** `done(skipped)`: one more finished entry, one fewer running unless
   *  it was skipped. */
  function Finish(p: Progress, skipped: bool): (r: Progress)
    ensures r.started == p.started && r.finished == p.finished + 1
    ensures r.running == p.running - (if skipped then 0 else 1)
  {
    Progress(p.started, if skipped then p.running else p.running - 1, p.finished + 1)
  }

  /** The test `done` makes before calling `_end`. */
  predicate Complete(p: Progress) {
    p.started == p.finished && p.running == 0
  }

  // ----- A pool of entries going through the engine -----

  /** One event of a copy: `startCopy` hands the next entry to
   *  `copyItem`; a deferred call comes back from `setImmediate`; an
   *  admitted entry calls `done`. */
  datatype Event = Enter(inert: bool) | Retry(inert: bool) | Exit

  /** `unsent` entries not yet handed over, deferred ones (with and
   *  without a handler), admitted ones being copied, admitted ones with
   *  no handler (`stuck`), and finished ones; `retries` counts the
   *  deferred calls that came back. */
  datatype Pool = Pool(
    p: Progress,
    unsent: nat,
    waiting: nat,
    waitingInert: nat,
    active: nat,
    stuck: nat,
    completed: nat,
    retries: nat)

  function Init(n: nat): Pool {
    Pool(Idle, n, 0, 0, 0, 0, 0, 0)
  }

  /** Whether the event can happen now. The `forEach` of `startCopy` hands
   *  every entry over before any callback or deferred call can run. */
  predicate Enabled(q: Pool, e: Event) {
    match e
    case Enter(_) => q.unsent > 0
    case Retry(inert) => q.unsent == 0 && (if inert then q.waitingInert > 0 else q.waiting > 0)
    case Exit => q.unsent == 0 && q.active > 0
  }

  /** An entry reaching `copyItem` (unsent or retried), as the code does it:
   *  admitted or deferred by `Admit`; an admitted entry without a handler
   *  is counted as running and never calls `done`. */
  function Reach(q: Pool, limit: int, inert: bool): Pool {
    var (p, admitted) := Admit(q.p, limit);
    if !admitted then
      if inert then q.(p := p, waitingInert := q.waitingInert + 1) else q.(p := p, waiting := q.waiting + 1)
    else if inert then q.(p := p, stuck := q.stuck + 1)
    else q.(p := p, active := q.active + 1)
  }

  function StepAsWritten(q: Pool, limit: int, e: Event): Pool
    requires Enabled(q, e)
  {
    match e
    case Enter(inert) => Reach(q.(unsent := q.unsent - 1), limit, inert)
    case Retry(inert) =>
      var q1 := if inert then q.(waitingInert := q.waitingInert - 1) else q.(waiting := q.waiting - 1);
      Reach(q1.(retries := q.retries + 1), limit, inert)
    case Exit => q.(p := Finish(q.p, false), active := q.active - 1, completed := q.completed + 1)
  }

  /** The evidently intended bookkeeping: `started` counts each entry
   *  once, so a deferred call coming back does not count it again; an
   *  entry without a handler is skipped with `done(true)` at once. */
  function StepCorrected(q: Pool, limit: int, e: Event): Pool
    requires Enabled(q, e)
  {
    match e
    case Enter(inert) =>
      if inert then
        q.(p := Finish(q.p.(started := q.p.started + 1), true), unsent := q.unsent - 1, completed := q.completed + 1)
      else
        var (p, admitted) := Admit(q.p, limit);
        if admitted then q.(p := p, unsent := q.unsent - 1, active := q.active + 1)
        else q.(p := p, unsent := q.unsent - 1, waiting := q.waiting + 1)
    case Retry(inert) =>
      if inert || q.p.running >= limit then q.(retries := q.retries + 1)
      else q.(p := q.p.(running := q.p.running + 1), waiting := q.waiting - 1, active := q.active + 1, retries := q.retries + 1)
    case Exit => q.(p := Finish(q.p, false), active := q.active - 1, completed := q.completed + 1)
  }

  /** The pool after a sequence of events, or None if one of them cannot
   *  happen. */
  function RunAsWritten(q: Pool, limit: int, events: seq<Event>): Option<Pool>
    decreases |events|
  {
    if events == [] then Some(q)
    else if !Enabled(q, events[0]) then None
    else RunAsWritten(StepAsWritten(q, limit, events[0]), limit, events[1..])
  }

  function RunCorrected(q: Pool, limit: int, events: seq<Event>): Option<Pool>
    decreases |events|
  {
    if events == [] then Some(q)
    else if !Enabled(q, events[0]) then None
    else RunCorrected(StepCorrected(q, limit, events[0]), limit, events[1..])
  }

  /** What the code keeps true: `started` counts entries handed over plus
   *  retried calls, `running` counts admitted entries still open,
   *  including those without a handler. */
  predicate InvAsWritten(q: Pool, n: nat, limit: int) {
    && q.p.started == (n - q.unsent) + q.retries
    && q.p.finished == q.completed
    && q.p.running == q.active + q.stuck
    && n == q.unsent + q.waiting + q.waitingInert + q.active + q.stuck + q.completed
    && q.p.running <= Max(limit, 0)
  }

  lemma StepAsWrittenKeeps(q: Pool, n: nat, limit: int, e: Event)
    requires InvAsWritten(q, n, limit) && Enabled(q, e)
    ensures InvAsWritten(StepAsWritten(q, limit, e), n, limit)
    ensures StepAsWritten(q, limit, e).retries >= q.retries
    ensures StepAsWritten(q, limit, e).stuck >= q.stuck
  {
  }

  /** As written, once a deferred call has come back or an entry without a
   *  handler was admitted, the test of `done` can never hold again: the
   *  callback is never called. */
  lemma {:induction false} AsWrittenNeverEnds(q: Pool, n: nat, limit: int, events: seq<Event>)
    requires InvAsWritten(q, n, limit)
    requires RunAsWritten(q, limit, events).Some?
    ensures InvAsWritten(RunAsWritten(q, limit, events).value, n, limit)
    ensures var r := RunAsWritten(q, limit, events).value;
      r.retries > 0 || r.stuck > 0 ==> !Complete(r.p)
    decreases |events|
  {
    if events != [] {
      StepAsWrittenKeeps(q, n, limit, events[0]);
      AsWrittenNeverEnds(StepAsWritten(q, limit, events[0]), n, limit, events[1..]);
    }
  }

  lemma RunAsWrittenCons(q: Pool, limit: int, e: Event, rest: seq<Event>)
    requires Enabled(q, e)
    ensures RunAsWritten(q, limit, [e] + rest) == RunAsWritten(StepAsWritten(q, limit, e), limit, rest)
  {
    assert ([e] + rest)[1..] == rest;
  }

  lemma RunCorrectedCons(q: Pool, limit: int, e: Event, rest: seq<Event>)
    requires Enabled(q, e)
    ensures RunCorrected(q, limit, [e] + rest) == RunCorrected(StepCorrected(q, limit, e), limit, rest)
  {
    assert ([e] + rest)[1..] == rest;
  }

  /** Two plain entries and a limit of one: the second is deferred, comes
   *  back after the first finishes, and finishes in turn; both are done,
   *  yet `started` is 3 and `finished` 2, so `_end` never fires. */
  lemma DeferredCopyNeverEnds()
    ensures var r := RunAsWritten(Init(2), 1, [Enter(false), Enter(false), Exit, Retry(false), Exit]);
      && r == Some(Pool(Progress(3, 0, 2), 0, 0, 0, 0, 0, 2, 1))
      && !Complete(r.value.p)
  {
    var q0 := Init(2);
    var q1 := Pool(Progress(1, 1, 0), 1, 0, 0, 1, 0, 0, 0);
    var q2 := Pool(Progress(2, 1, 0), 0, 1, 0, 1, 0, 0, 0);
    var q3 := Pool(Progress(2, 0, 1), 0, 1, 0, 0, 0, 1, 0);
    var q4 := Pool(Progress(3, 1, 1), 0, 0, 0, 1, 0, 1, 1);
    var q5 := Pool(Progress(3, 0, 2), 0, 0, 0, 0, 0, 2, 1);
    assert StepAsWritten(q0, 1, Enter(false)) == q1;
    assert StepAsWritten(q1, 1, Enter(false)) == q2;
    assert StepAsWritten(q2, 1, Exit) == q3;
    assert StepAsWritten(q3, 1, Retry(false)) == q4;
    assert StepAsWritten(q4, 1, Exit) == q5;
    RunAsWrittenCons(q4, 1, Exit, []);
    RunAsWrittenCons(q3, 1, Retry(false), [Exit]);
    RunAsWrittenCons(q2, 1, Exit, [Retry(false), Exit]);
    RunAsWrittenCons(q1, 1, Enter(false), [Exit, Retry(false), Exit]);
    RunAsWrittenCons(q0, 1, Enter(false), [Enter(false), Exit, Retry(false), Exit]);
  }

  /** One entry without a handler (a FIFO): it is admitted and counted as
   *  running, and no event can ever follow. */
  lemma FifoCopyNeverEnds()
    ensures var r := RunAsWritten(Init(1), 512, [Enter(true)]);
      && r == Some(Pool(Progress(1, 1, 0), 0, 0, 0, 0, 1, 0, 0))
      && (forall e :: !Enabled(r.value, e))
  {
  }

  /** The intended bookkeeping: each entry counted once in `started`. */
  predicate InvCorrected(q: Pool, n: nat, limit: int) {
    && q.p.started == n - q.unsent
    && q.p.finished == q.completed
    && q.p.running == q.active
    && q.waitingInert == 0 && q.stuck == 0
    && n == q.unsent + q.waiting + q.active + q.completed
    && q.p.running <= Max(limit, 0)
  }

  lemma StepCorrectedKeeps(q: Pool, n: nat, limit: int, e: Event)
    requires InvCorrected(q, n, limit) && Enabled(q, e)
    ensures InvCorrected(StepCorrected(q, limit, e), n, limit)
  {
  }

  /** With the intended bookkeeping, once every entry has been handed
   *  over, the test of `done` holds exactly when every entry has
   *  finished, and `running` never exceeds the limit. */
  lemma {:induction false} CorrectedEndsWhenAllDone(q: Pool, n: nat, limit: int, events: seq<Event>)
    requires InvCorrected(q, n, limit)
    requires RunCorrected(q, limit, events).Some?
    ensures InvCorrected(RunCorrected(q, limit, events).value, n, limit)
    ensures var r := RunCorrected(q, limit, events).value;
      r.unsent == 0 ==> (Complete(r.p) <==> r.completed == n)
    ensures RunCorrected(q, limit, events).value.p.running <= Max(limit, 0)
    decreases |events|
  {
    if events != [] {
      StepCorrectedKeeps(q, n, limit, events[0]);
      CorrectedEndsWhenAllDone(StepCorrected(q, limit, events[0]), n, limit, events[1..]);
    }
  }

  /** The deferred trace above ends as intended once corrected. */
  lemma CorrectedDeferredCopyEnds()
    ensures var r := RunCorrected(Init(2), 1, [Enter(false), Enter(false), Exit, Retry(false), Exit]);
      r == Some(Pool(Progress(2, 0, 2), 0, 0, 0, 0, 0, 2, 1)) && Complete(r.value.p)
  {
    var q0 := Init(2);
    var q1 := Pool(Progress(1, 1, 0), 1, 0, 0, 1, 0, 0, 0);
    var q2 := Pool(Progress(2, 1, 0), 0, 1, 0, 1, 0, 0, 0);
    var q3 := Pool(Progress(2, 0, 1), 0, 1, 0, 0, 0, 1, 0);
    var q4 := Pool(Progress(2, 1, 1), 0, 0, 0, 1, 0, 1, 1);
    var q5 := Pool(Progress(2, 0, 2), 0, 0, 0, 0, 0, 2, 1);
    assert StepCorrected(q0, 1, Enter(false)) == q1;
    assert StepCorrected(q1, 1, Enter(false)) == q2;
    assert StepCorrected(q2, 1, Exit) == q3;
    assert StepCorrected(q3, 1, Retry(false)) == q4;
    assert StepCorrected(q4, 1, Exit) == q5;
    RunCorrectedCons(q4, 1, Exit, []);
    RunCorrectedCons(q3, 1, Retry(false), [Exit]);
    RunCorrectedCons(q2, 1, Exit, [Retry(false), Exit]);
    RunCorrectedCons(q1, 1, Enter(false), [Exit, Retry(false), Exit]);
    RunCorrectedCons(q0, 1, Enter(false), [Enter(false), Exit, Retry(false), Exit]);
  }

  /** So does the FIFO trace: the entry is skipped and the copy ends. */
  lemma CorrectedFifoCopyEnds()
    ensures var r := RunCorrected(Init(1), 512, [Enter(true)]);
      r == Some(Pool(Progress(1, 0, 1), 0, 0, 0, 0, 0, 1, 0)) && Complete(r.value.p)
  {
    RunCorrectedCons(Init(1), 512, Enter(true), []);
  }
}
