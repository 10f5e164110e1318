/** The run engine: steps, attempts, reservations, triggers and receivers of one test run. Ports
    follow a script of outcomes; every port call is recorded. The functions say what a run does,
    the class TestRun does it by updating its fields. */
module Engine {
  import opened Text
  import opened Domain
  import opened Stores

  datatype ReceiverConfig = ReceiverConfig(kind: string, recipient: string)

  datatype StepConfig = StepConfig(receivers: seq<ReceiverConfig>, waitForReceivers: bool)

  datatype Definition = Definition(enabled: bool, retryEnabled: bool, retryAttempts: int, steps: seq<StepConfig>)

  // ---- The ports ----

  /** Execute leaves the shared variables as vars, whether it succeeds or not. */
  datatype Trigger = Fired(vars: Env, extracted: Env) | TriggerFailed(vars: Env, error: string)

  datatype CheckOutcome = Holds | Invalid(assertion: string, error: string) | Violated(error: string)

  datatype Collection = CollectFailed(error: string) | Collected(checks: seq<CheckOutcome>)

  /** What the outside does, by step, attempt (from 1) and receiver. order is the completion order
      of the receiver goroutines, clock the time of each reservation call. */
  datatype Script = Script(
    create: nat -> Option<string>,
    execute: (nat, nat, Env) -> Trigger,
    start: (nat, nat, nat) -> Option<string>,
    collect: (nat, nat, nat) -> Collection,
    order: (nat, nat) -> seq<nat>,
    clock: (nat, nat) -> nat)

  /** A port call of the run. */
  datatype Call =
    | Booked(step: nat, key: string)
    | BookRefused(step: nat, key: string)
    | Freed(key: string)
    | Fire(step: nat, attempt: nat)
    | Started(step: nat, attempt: nat, receiver: nat)
    | StartFailed(step: nat, attempt: nat, receiver: nat)
    | Collect(step: nat, attempt: nat, receiver: nat)
    | Stopped(step: nat, attempt: nat, receiver: nat)

  datatype Run = Run(runID: string, result: TestResult, vars: Env, store: Mem, calls: seq<Call>)

  function Called(run: Run, c: Call): Run {
    run.(calls := run.calls + [c])
  }

  function FailResult(run: Run, error: string): Run {
    run.(result := run.result.(status := Error, error := error))
  }

  function KeepVars(run: Run): Run {
    run.(result := run.result.(triggerVars := run.vars))
  }

  function StepText(i: nat, what: string, error: string): string {
    "step " + FormatNat(i + 1) + what + error
  }

  // ---- Reservations ----

  function Refusal(rc: ReceiverConfig, holder: string): string {
    "recipient reservation failed for " + rc.kind + ": internal system error: recipient "
    + Key(rc.kind, rc.recipient) + " already reserved by run " + holder
  }

  /** The refusal names a recipient that was asked for and the run that has it. */
  ghost predicate RefusalTold(cs: seq<ReceiverConfig>, table: Table, error: string) {
    exists rc <- cs ::
      && rc.kind + ":" + rc.recipient in table
      && error == "recipient reservation failed for " + rc.kind + ": internal system error: recipient " + rc.kind + ":"
                  + rc.recipient + " already reserved by run " + table[rc.kind + ":" + rc.recipient].runID
  }

  lemma RefusalTells(cs: seq<ReceiverConfig>, r: nat, table: Table)
    requires r < |cs| && Key(cs[r].kind, cs[r].recipient) in table
    ensures RefusalTold(cs, table, Refusal(cs[r], table[Key(cs[r].kind, cs[r].recipient)].runID))
  {
    var rc := cs[r];
    var holder := table[Key(rc.kind, rc.recipient)].runID;
    assert rc in cs && Key(rc.kind, rc.recipient) == rc.kind + ":" + rc.recipient;
    var start := "recipient reservation failed for " + rc.kind + ": internal system error: recipient ";
    assert start + (rc.kind + ":" + rc.recipient) == start + rc.kind + ":" + rc.recipient;
  }

  datatype Bookings = Bookings(run: Run, reserved: seq<ReceiverConfig>, error: Option<string>)

  /** reserveRecipients from receiver r on, with what was reserved so far. */
  function ReserveFrom(run: Run, cs: seq<ReceiverConfig>, script: Script, i: nat, r: nat,
                       reserved: seq<ReceiverConfig>): Bookings
    requires r <= |cs|
    decreases |cs| - r
  {
    if r == |cs| then Bookings(run, reserved, None)
    else if cs[r].recipient == "" then ReserveFrom(run, cs, script, i, r + 1, reserved)
    else
      var key := Key(cs[r].kind, cs[r].recipient);
      var (store, reply) := MemReserve(run.store, cs[r].kind, cs[r].recipient, run.runID, script.clock(i, r));
      match reply
      case Refused(holder) => Bookings(Called(run, BookRefused(i, key)), reserved, Some(Refusal(cs[r], holder)))
      case Reserved =>
        ReserveFrom(Called(run.(store := store), Booked(i, key)), cs, script, i, r + 1, reserved + [cs[r]])
  }

  function Release(run: Run, reserved: seq<ReceiverConfig>): Run
    decreases |reserved|
  {
    if reserved == [] then run
    else
      var rc := reserved[0];
      var next := run.(store := MemRelease(run.store, rc.kind, rc.recipient));
      Release(Called(next, Freed(Key(rc.kind, rc.recipient))), reserved[1..])
  }

  // ---- Receivers ----

  /** startReceivers from receiver r on: the run, and the error of the first that does not start. */
  function StartFrom(run: Run, n: nat, script: Script, i: nat, a: nat, r: nat): (Run, Option<string>)
    requires r <= n
    decreases n - r
  {
    if r == n then (run, None)
    else match script.start(i, a, r)
      case Some(e) => (Called(run, StartFailed(i, a, r)), Some(e))
      case None => StartFrom(Called(run, Started(i, a, r)), n, script, i, a, r + 1)
  }

  function CheckAll(rr: ReceiverResult, checks: seq<CheckOutcome>): ReceiverResult
    decreases |checks|
  {
    if checks == [] then rr
    else match checks[0]
      case Holds => CheckAll(rr, checks[1..])
      case Invalid(t, e) => rr.(status := Error, error := "invalid assertion " + t + ": " + e)
      case Violated(e) => rr.(status := Failed, error := e)
  }

  /** collectAndAssert. */
  function Verdict(script: Script, i: nat, a: nat, kind: string, r: nat): ReceiverResult {
    var rr := ReceiverResult(kind, i, Passed, "");
    match script.collect(i, a, r)
    case CollectFailed(e) => rr.(status := Error, error := "collection failed: " + e)
    case Collected(checks) => CheckAll(rr, checks)
  }

  /** The first check that does not hold. */
  ghost predicate FirstBad(checks: seq<CheckOutcome>, n: int) {
    0 <= n < |checks| && checks[n] != Holds && forall m | 0 <= m < n :: checks[m] == Holds
  }

  /** The entry of a receiver: its kind and step, and how it fared. It failed with the text of the first
      bad check if that one is violated; it is in error if it could not be created, or if nothing was
      collected. */
  ghost predicate Reports(rr: ReceiverResult, kind: string, i: nat, c: Collection) {
    && rr.kind == kind && rr.triggerIndex == i
    && (c.CollectFailed? ==> rr.status == Error && rr.error == "collection failed: " + c.error)
    && (c.Collected? && (forall x <- c.checks :: x == Holds) ==> rr.status == Passed && rr.error == "")
    && (c.Collected? ==> forall n | FirstBad(c.checks, n) ::
          && (c.checks[n].Violated? ==> rr.status == Failed && rr.error == c.checks[n].error)
          && (c.checks[n].Invalid? ==>
                && rr.status == Error
                && rr.error == "invalid assertion " + c.checks[n].assertion + ": " + c.checks[n].error))
  }

  lemma {:induction false} CheckAllReports(rr: ReceiverResult, checks: seq<CheckOutcome>)
    requires rr.status == Passed && rr.error == ""
    ensures Reports(CheckAll(rr, checks), rr.kind, rr.triggerIndex, Collected(checks))
    decreases |checks|
  {
    if checks != [] {
      assert checks == [checks[0]] + checks[1..];
      if checks[0] == Holds {
        CheckAllReports(rr, checks[1..]);
        assert forall x :: x in checks <==> x == Holds || x in checks[1..];
        forall n | FirstBad(checks, n) ensures FirstBad(checks[1..], n - 1) { NextBad(checks, n); }
      } else {
        assert checks[0] in checks;
        assert forall n | FirstBad(checks, n) :: n == 0;
      }
    }
  }

  lemma NextBad(checks: seq<CheckOutcome>, n: int)
    requires FirstBad(checks, n) && checks[0] == Holds
    ensures FirstBad(checks[1..], n - 1)
  {
    assert forall m | 0 <= m < n - 1 :: checks[1..][m] == checks[m + 1];
  }

  lemma VerdictReports(script: Script, i: nat, a: nat, kind: string, r: nat)
    ensures Reports(Verdict(script, i, a, kind, r), kind, i, script.collect(i, a, r))
  {
    match script.collect(i, a, r)
    case CollectFailed(_) =>
    case Collected(checks) => CheckAllReports(ReceiverResult(kind, i, Passed, ""), checks);
  }

  /** The critical section of one receiver goroutine. */
  function Merge(result: TestResult, rr: ReceiverResult): TestResult {
    var status :=
      if rr.status == Error && result.status != Error then Error
      else if rr.status == Failed && result.status == Passed then Failed
      else result.status;
    result.(receivers := result.receivers + [rr], status := status)
  }

  /** One receiver goroutine: what it collected is deleted from the store, and its result merged. */
  function Finish(run: Run, script: Script, i: nat, a: nat, kind: string, r: nat): Run {
    var store := if script.collect(i, a, r).Collected? then MemDelete(run.store, run.runID, kind) else run.store;
    Called(run.(result := Merge(run.result, Verdict(script, i, a, kind, r)), store := store), Collect(i, a, r))
  }

  function KindAt(cs: seq<ReceiverConfig>, r: nat): string {
    if r < |cs| then cs[r].kind else ""
  }

  /** The goroutines finish in the given order. */
  function MergeFrom(run: Run, cs: seq<ReceiverConfig>, script: Script, i: nat, a: nat, order: seq<nat>): Run
    decreases |order|
  {
    if order == [] then run
    else
      var r := order[0];
      MergeFrom(Finish(run, script, i, a, KindAt(cs, r), r), cs, script, i, a, order[1..])
  }

  function Summary(rs: seq<ReceiverResult>): string
    decreases |rs|
  {
    if rs == [] then ""
    else
      var rest := Summary(rs[1..]);
      if rs[0].status == Failed || rs[0].status == Error then
        rs[0].kind + " (trigger " + FormatNat(rs[0].triggerIndex + 1) + "): " + rs[0].error
        + (if rest == "" then "" else "; " + rest)
      else rest
  }

  function CollectAll(run: Run, cs: seq<ReceiverConfig>, script: Script, i: nat, a: nat): Run {
    var merged := MergeFrom(run, cs, script, i, a, script.order(i, a));
    if merged.result.error == "" && merged.result.status != Passed then
      merged.(result := merged.result.(error := Summary(merged.result.receivers)))
    else merged
  }

  function StopFrom(run: Run, n: nat, i: nat, a: nat, r: nat): Run
    requires r <= n
    decreases n - r
  {
    if r == n then run else StopFrom(Called(run, Stopped(i, a, r)), n, i, a, r + 1)
  }

  // ---- Attempts and steps ----

  function MaxAttempts(def: Definition): (n: nat)
    ensures n >= 1
  {
    if def.retryEnabled && def.retryAttempts > 1 then def.retryAttempts else 1
  }

  datatype Tried = Tried(run: Run, passed: bool, lastError: Option<string>)

  function NextAttempt(run: Run, i: nat, a: nat): Run {
    Called(run.(result := run.result.(attempts := run.result.attempts + 1)), Fire(i, a))
  }

  predicate NoWait(step: StepConfig) {
    !step.waitForReceivers || step.receivers == []
  }

  /** What follows a trigger that fired: passed, or not passed and whether to go on retrying. */
  function Receive(run: Run, step: StepConfig, script: Script, i: nat, a: nat): (Run, bool, bool) {
    if NoWait(step) then (run, true, false)
    else
      var (started, error) := StartFrom(run, |step.receivers|, script, i, a, 0);
      match error
      case Some(e) => (FailResult(started, StepText(i, " receiver start failed: ", e)), false, false)
      case None =>
        var done := StopFrom(CollectAll(started, step.receivers, script, i, a), |step.receivers|, i, a, 0);
        (done, done.result.status == Passed, true)
  }

  /** One attempt: how it leaves the step, and whether the loop goes on. */
  datatype Attempted = Attempted(tried: Tried, again: bool)

  function Attempt(run: Run, step: StepConfig, script: Script, i: nat, a: nat, lastError: Option<string>): Attempted {
    var next := NextAttempt(run, i, a);
    match script.execute(i, a, run.vars)
    case TriggerFailed(vars, e) => Attempted(Tried(next.(vars := vars), false, Some(e)), true)
    case Fired(vars, extracted) =>
      var (done, passed, again) := Receive(next.(vars := vars + extracted), step, script, i, a);
      Attempted(Tried(done, passed, lastError), !passed && again)
  }

  /** The attempt loop from attempt a on. */
  function AttemptFrom(run: Run, step: StepConfig, script: Script, i: nat, a: nat, max: nat,
                       lastError: Option<string>): Tried
    decreases max + 1 - a
  {
    if a > max then Tried(run, false, lastError)
    else
      var t := Attempt(run, step, script, i, a, lastError);
      if t.again then AttemptFrom(t.tried.run, step, script, i, a + 1, max, t.tried.lastError) else t.tried
  }

  /** How step i goes: its reservations and its attempts. */
  function Booking(def: Definition, script: Script, run: Run, i: nat): Bookings
    requires i < |def.steps|
  {
    ReserveFrom(run, def.steps[i].receivers, script, i, 0, [])
  }

  function Trying(def: Definition, script: Script, run: Run, i: nat): Tried
    requires i < |def.steps|
  {
    AttemptFrom(Booking(def, script, run, i).run, def.steps[i], script, i, 1, MaxAttempts(def), None)
  }

  /** The run on which the next step starts. */
  function NextStep(t: Tried): Run {
    var kept := KeepVars(t.run);
    kept.(result := kept.result.(status := Passed))
  }

  /** The end of a run whose step i did not pass. */
  function GiveUp(t: Tried, i: nat): Run {
    var kept := KeepVars(t.run);
    if t.lastError.Some? then FailResult(kept, StepText(i, " trigger failed: ", t.lastError.value)) else kept
  }

  /** One step: the run after it, whether the next step follows, and what the run gives back for
      this step when it returns. */
  datatype Stepped = Stepped(end: Run, passed: bool, reserved: seq<ReceiverConfig>)

  function StepOf(def: Definition, script: Script, run: Run, i: nat): Stepped
    requires i < |def.steps|
  {
    match script.create(i)
    case Some(e) => Stepped(FailResult(KeepVars(run), e), false, [])
    case None =>
      var b := Booking(def, script, run, i);
      if b.error.Some? then Stepped(FailResult(KeepVars(b.run), b.error.value), false, [])
      else
        var t := Trying(def, script, run, i);
        Stepped(if t.passed then NextStep(t) else GiveUp(t, i), t.passed, b.reserved)
  }

  /** executeSequential from step i on. A step's recipients are released when the whole run returns,
      the latest step first. */
  function StepsFrom(def: Definition, script: Script, run: Run, i: nat): Run
    requires i <= |def.steps|
    decreases |def.steps| - i
  {
    if i == |def.steps| then KeepVars(run)
    else
      var s := StepOf(def, script, run, i);
      Release(if s.passed then StepsFrom(def, script, s.end, i + 1) else s.end, s.reserved)
  }

  function NewResult(runID: string): TestResult {
    TestResult(runID, Passed, 0, [], "", map[])
  }

  /** execute, from the variables left by the variables block. */
  function Execute(def: Definition, script: Script, runID: string, vars: Env, store: Mem): Run {
    var run := Run(runID, NewResult(runID), vars, store, []);
    if !def.enabled then run.(result := run.result.(status := Skipped)) else StepsFrom(def, script, run, 0)
  }

  /** Release steps deferred in order, last first. */
  function Unwind(run: Run, deferred: seq<seq<ReceiverConfig>>): Run
    decreases |deferred|
  {
    if deferred == [] then run
    else Unwind(Release(run, deferred[|deferred| - 1]), deferred[..|deferred| - 1])
  }

  lemma StepsUnfold(def: Definition, script: Script, run: Run, i: nat, s: Stepped)
    requires i < |def.steps| && s == StepOf(def, script, run, i)
    ensures s.passed ==> StepsFrom(def, script, run, i) == Release(StepsFrom(def, script, s.end, i + 1), s.reserved)
    ensures !s.passed ==> StepsFrom(def, script, run, i) == Release(s.end, s.reserved)
  {
  }

  lemma UnwindPush(run: Run, deferred: seq<seq<ReceiverConfig>>, reserved: seq<ReceiverConfig>)
    ensures Unwind(run, deferred + [reserved]) == Unwind(Release(run, reserved), deferred)
  {
    assert (deferred + [reserved])[..|deferred|] == deferred;
  }

  /** The run as it is when its last step is over. */
  function Remaining(def: Definition, script: Script, run: Run, i: nat, passed: bool): Run
    requires i <= |def.steps|
  {
    if passed then StepsFrom(def, script, run, i) else run
  }

  /** goal is the run when the steps from i on are over and all that is deferred is released. */
  ghost predicate LeadsTo(goal: Run, def: Definition, script: Script, run: Run, i: nat, passed: bool,
                          deferred: seq<seq<ReceiverConfig>>) {
    i <= |def.steps| && goal == Unwind(Remaining(def, script, run, i, passed), deferred)
  }

  lemma NothingRemains(goal: Run, def: Definition, script: Script, run: Run, i: nat, passed: bool,
                       deferred: seq<seq<ReceiverConfig>>)
    requires LeadsTo(goal, def, script, run, i, passed, deferred) && (passed ==> i == |def.steps|)
    ensures goal == Unwind(if passed then KeepVars(run) else run, deferred)
  {
  }

  /** One step less remains, and one more release is deferred. */
  lemma OneStepLess(goal: Run, def: Definition, script: Script, before: Run, i: nat, s: Stepped,
                    deferred: seq<seq<ReceiverConfig>>)
    requires i < |def.steps| && LeadsTo(goal, def, script, before, i, true, deferred)
    requires s == StepOf(def, script, before, i)
    ensures LeadsTo(goal, def, script, s.end, if s.passed then i + 1 else i, s.passed, deferred + [s.reserved])
  {
    StepsUnfold(def, script, before, i, s);
    var next := if s.passed then StepsFrom(def, script, s.end, i + 1) else s.end;
    UnwindPush(next, deferred, s.reserved);
  }

  // ---- The code ----

  class TestRun {
    const runID: string
    const store: MemoryStore
    var result: TestResult
    var triggerVars: Env
    var calls: seq<Call>

    constructor (runID: string, vars: Env, store: MemoryStore)
      ensures this.runID == runID && this.store == store
      ensures View() == Run(runID, NewResult(runID), vars, store.View(), [])
    {
      this.runID := runID;
      this.store := store;
      result := NewResult(runID);
      triggerVars := vars;
      calls := [];
    }

    function View(): Run
      reads this, store
    {
      Run(runID, result, triggerVars, store.View(), calls)
    }

    method Fail(error: string)
      modifies this`result
      ensures View() == FailResult(old(View()), error)
    {
      result := result.(status := Error, error := error);
    }

    method ReportVars()
      modifies this`result
      ensures View() == KeepVars(old(View()))
    {
      result := result.(triggerVars := triggerVars);
    }

    method ReserveRecipients(cs: seq<ReceiverConfig>, script: Script, i: nat)
      returns (reserved: seq<ReceiverConfig>, error: Option<string>)
      modifies this`calls, store
      ensures ReserveFrom(old(View()), cs, script, i, 0, []) == Bookings(View(), reserved, error)
      ensures error.Some? ==> RefusalTold(cs, store.reservations, error.value)
    {
      reserved := [];
      for r := 0 to |cs|
        invariant ReserveFrom(View(), cs, script, i, r, reserved) == ReserveFrom(old(View()), cs, script, i, 0, [])
      {
        if cs[r].recipient == "" { continue; }
        var key := Key(cs[r].kind, cs[r].recipient);
        var reply := store.Reserve(cs[r].kind, cs[r].recipient, runID, script.clock(i, r));
        match reply {
          case Refused(holder) =>
            calls := calls + [BookRefused(i, key)];
            RefusalTells(cs, r, store.reservations);
            return reserved, Some(Refusal(cs[r], holder));
          case Reserved =>
            calls := calls + [Booked(i, key)];
            reserved := reserved + [cs[r]];
        }
      }
      error := None;
    }

    method ReleaseRecipients(reserved: seq<ReceiverConfig>)
      modifies this`calls, store
      ensures View() == Release(old(View()), reserved)
    {
      for r := 0 to |reserved|
        invariant Release(View(), reserved[r..]) == Release(old(View()), reserved)
      {
        store.Release(reserved[r].kind, reserved[r].recipient);
        calls := calls + [Freed(Key(reserved[r].kind, reserved[r].recipient))];
        assert reserved[r..][1..] == reserved[r + 1..];
      }
    }

    method StartReceivers(n: nat, script: Script, i: nat, a: nat) returns (error: Option<string>)
      modifies this`calls
      ensures StartFrom(old(View()), n, script, i, a, 0) == (View(), error)
    {
      for r := 0 to n
        invariant StartFrom(View(), n, script, i, a, r) == StartFrom(old(View()), n, script, i, a, 0)
      {
        error := script.start(i, a, r);
        if error != None {
          calls := calls + [StartFailed(i, a, r)];
          return;
        }
        calls := calls + [Started(i, a, r)];
      }
      error := None;
    }

    /** One receiver goroutine: collect, delete, check, and merge under the mutex. */
    method CollectAndAssert(kind: string, script: Script, i: nat, a: nat, r: nat)
      modifies this`result, this`calls, store
      ensures View() == Finish(old(View()), script, i, a, kind, r)
      ensures exists rr ::
                && Reports(rr, kind, i, script.collect(i, a, r)) && result.receivers == old(result.receivers) + [rr]
                && result.status == (if rr.status == Error then Error
                                     else if rr.status == Failed && old(result.status) == Passed then Failed
                                     else old(result.status))
    {
      VerdictReports(script, i, a, kind, r);
      calls := calls + [Collect(i, a, r)];
      var rr := ReceiverResult(kind, i, Passed, "");
      match script.collect(i, a, r) {
        case CollectFailed(e) => rr := rr.(status := Error, error := "collection failed: " + e);
        case Collected(checks) =>
          store.Delete(runID, kind);
          for n := 0 to |checks|
            invariant CheckAll(rr, checks[n..]) == Verdict(script, i, a, kind, r)
            invariant rr == ReceiverResult(kind, i, Passed, "")
          {
            assert checks[n..][1..] == checks[n + 1..];
            match checks[n] {
              case Holds =>
              case Invalid(t, e) => rr := rr.(status := Error, error := "invalid assertion " + t + ": " + e); break;
              case Violated(e) => rr := rr.(status := Failed, error := e); break;
            }
          }
      }
      result := result.(receivers := result.receivers + [rr]);
      if rr.status == Error && result.status != Error {
        result := result.(status := Error);
      } else if rr.status == Failed && result.status == Passed {
        result := result.(status := Failed);
      }
    }

    method CollectAndAssertAll(cs: seq<ReceiverConfig>, script: Script, i: nat, a: nat)
      modifies this`result, this`calls, store
      ensures View() == CollectAll(old(View()), cs, script, i, a)
    {
      var order := script.order(i, a);
      for n := 0 to |order|
        invariant MergeFrom(View(), cs, script, i, a, order[n..]) == MergeFrom(old(View()), cs, script, i, a, order)
      {
        assert order[n..][1..] == order[n + 1..];
        CollectAndAssert(KindAt(cs, order[n]), script, i, a, order[n]);
      }
      if result.error == "" && result.status != Passed {
        result := result.(error := Summary(result.receivers));
      }
    }

    method StopReceivers(n: nat, i: nat, a: nat)
      modifies this`calls
      ensures View() == StopFrom(old(View()), n, i, a, 0)
    {
      for r := 0 to n
        invariant StopFrom(View(), n, i, a, r) == StopFrom(old(View()), n, i, a, 0)
      {
        calls := calls + [Stopped(i, a, r)];
      }
    }

    /** What an attempt does once its trigger fired. */
    method ReceiveResults(step: StepConfig, script: Script, i: nat, a: nat) returns (passed: bool, again: bool)
      modifies this`result, this`calls, store
      ensures (View(), passed, again) == Receive(old(View()), step, script, i, a)
    {
      if !step.waitForReceivers || |step.receivers| == 0 { return true, false; }
      var error := StartReceivers(|step.receivers|, script, i, a);
      if error != None {
        Fail(StepText(i, " receiver start failed: ", error.value));
        return false, false;
      }
      CollectAndAssertAll(step.receivers, script, i, a);
      StopReceivers(|step.receivers|, i, a);
      return result.status == Passed, true;
    }

    /** The body of the attempt loop; lastError is the latest error of a trigger. */
    method RunAttempt(step: StepConfig, script: Script, i: nat, a: nat, lastError: Option<string>)
      returns (passed: bool, again: bool, error: Option<string>)
      modifies this, store
      ensures Attempted(Tried(View(), passed, error), again) == Attempt(old(View()), step, script, i, a, lastError)
      ensures triggerVars == match script.execute(i, a, old(triggerVars))
                             case TriggerFailed(vars, _) => vars
                             case Fired(vars, extracted) => vars + extracted
    {
      result := result.(attempts := result.attempts + 1);
      calls := calls + [Fire(i, a)];
      match script.execute(i, a, triggerVars) {
        case TriggerFailed(vars, e) =>
          triggerVars := vars;
          return false, true, Some(e);
        case Fired(vars, extracted) =>
          triggerVars := vars + extracted;
      }
      passed, again := ReceiveResults(step, script, i, a);
      return passed, !passed && again, lastError;
    }

    /** The attempts of one step. */
    method RunStep(step: StepConfig, script: Script, i: nat, max: nat) returns (passed: bool, lastError: Option<string>)
      modifies this, store
      ensures Tried(View(), passed, lastError) == AttemptFrom(old(View()), step, script, i, 1, max, None)
    {
      passed := false;
      lastError := None;
      for a: nat := 1 to max + 1
        invariant !passed
        invariant AttemptFrom(View(), step, script, i, a, max, lastError) ==
                  AttemptFrom(old(View()), step, script, i, 1, max, None)
      {
        var again;
        passed, again, lastError := RunAttempt(step, script, i, a, lastError);
        if !again { return; }
      }
    }

    /** One round of the loop over the steps; reserved is what the round defers to release. */
    method TakeStep(def: Definition, script: Script, i: nat) returns (passed: bool, reserved: seq<ReceiverConfig>)
      requires i < |def.steps|
      modifies this, store
      ensures Stepped(View(), passed, reserved) == StepOf(def, script, old(View()), i)
    {
      var createError := script.create(i);
      if createError != None {
        ReportVars();
        Fail(createError.value);
        return false, [];
      }
      var reserveError;
      reserved, reserveError := ReserveRecipients(def.steps[i].receivers, script, i);
      if reserveError != None {
        ReportVars();
        Fail(reserveError.value);
        return false, [];
      }
      var lastError;
      passed, lastError := RunStep(def.steps[i], script, i, MaxAttempts(def));
      ReportVars();
      if passed {
        result := result.(status := Passed);
      } else if lastError != None {
        Fail(StepText(i, " trigger failed: ", lastError.value));
      }
    }

    /** One round of the loop, and what it defers. */
    method TakeAndDefer(def: Definition, script: Script, i: nat, deferred: seq<seq<ReceiverConfig>>, ghost goal: Run)
      returns (passed: bool, more: seq<seq<ReceiverConfig>>)
      requires i < |def.steps| && LeadsTo(goal, def, script, View(), i, true, deferred)
      modifies this, store
      ensures LeadsTo(goal, def, script, View(), if passed then i + 1 else i, passed, more)
    {
      ghost var before := View();
      var reserved;
      passed, reserved := TakeStep(def, script, i);
      OneStepLess(goal, def, script, before, i, Stepped(View(), passed, reserved), deferred);
      more := deferred + [reserved];
    }

    /** The loop over the steps, and what it defers; goal is the run when all is released. */
    method RunSteps(def: Definition, script: Script, ghost goal: Run) returns (deferred: seq<seq<ReceiverConfig>>)
      requires LeadsTo(goal, def, script, View(), 0, true, [])
      modifies this, store
      ensures Unwind(View(), deferred) == goal
    {
      deferred := [];
      var i, passed := 0, true;
      while i < |def.steps| && passed
        invariant i <= |def.steps| && LeadsTo(goal, def, script, View(), i, passed, deferred)
        decreases |def.steps| - i, passed
      {
        passed, deferred := TakeAndDefer(def, script, i, deferred, goal);
        if passed { i := i + 1; }
      }
      NothingRemains(goal, def, script, View(), i, passed, deferred);
      if passed { ReportVars(); }
    }

    /** executeSequential, with its deferred releases run when it returns. */
    method ExecuteSequential(def: Definition, script: Script)
      modifies this, store
      ensures View() == StepsFrom(def, script, old(View()), 0)
    {
      var deferred := RunSteps(def, script, StepsFrom(def, script, View(), 0));
      ReleaseAll(deferred);
    }

    /** The deferred releases, the latest first. */
    method ReleaseAll(deferred: seq<seq<ReceiverConfig>>)
      modifies this, store
      ensures View() == Unwind(old(View()), deferred)
    {
      assert deferred[..|deferred|] == deferred;
      for n := |deferred| downto 0
        invariant Unwind(View(), deferred[..n]) == Unwind(old(View()), deferred)
      {
        assert deferred[..n + 1] == deferred[..n] + [deferred[n]];
        UnwindPush(View(), deferred[..n], deferred[n]);
        ReleaseRecipients(deferred[n]);
      }
      assert deferred[..0] == [];
    }
  }

  /** execute. */
  method RunTest(def: Definition, script: Script, runID: string, vars: Env, store: MemoryStore) returns (run: TestRun)
    modifies store
    ensures fresh(run) && run.View() == Execute(def, script, runID, vars, old(store.View()))
  {
    run := new TestRun(runID, vars, store);
    if !def.enabled {
      run.result := run.result.(status := Skipped);
    } else {
      run.ExecuteSequential(def, script);
    }
  }
}
