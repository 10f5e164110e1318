/** Exactly which runs pass. The condition is read off the definition, the script and the store
    before the run: free recipients, known triggers, and for each step the first attempt whose
    trigger fires must see all its receivers pass. */
module RetryLaws {
  import opened Text
  import opened Domain
  import opened Stores
  import opened Engine
  import opened EngineLaws
  import Lifecycle

  // ---- Attempts ----

  /** The variables before attempt a, when every earlier trigger of the step failed. */
  function VarsAt(script: Script, i: nat, a: nat, vars: Env): Env {
    if a <= 1 then vars else script.execute(i, a - 1, VarsAt(script, i, a - 1, vars)).vars
  }

  function TriggerAt(script: Script, i: nat, a: nat, vars: Env): Trigger {
    script.execute(i, a, VarsAt(script, i, a, vars))
  }

  /** Attempt a is the first whose trigger fires, and is within the limit. */
  ghost predicate FirstFires(script: Script, i: nat, a: nat, max: nat, vars: Env) {
    && 1 <= a <= max && TriggerAt(script, i, a, vars).Fired?
    && forall b | 1 <= b < a :: TriggerAt(script, i, b, vars).TriggerFailed?
  }

  predicate CollectionHolds(c: Collection) {
    c.Collected? && forall x <- c.checks :: x == Holds
  }

  /** The attempt needs no receivers, or all of them start and all of them pass. */
  predicate ReceiversPass(script: Script, step: StepConfig, i: nat, a: nat) {
    || NoWait(step)
    || forall r: nat | r < |step.receivers| ::
         script.start(i, a, r) == None && CollectionHolds(script.collect(i, a, r))
  }

  ghost predicate StepGood(def: Definition, script: Script, i: nat, vars: Env)
    requires i < |def.steps|
  {
    exists a :: FirstFires(script, i, a, MaxAttempts(def), vars) && ReceiversPass(script, def.steps[i], i, a)
  }

  /** The variables after the first attempt that fires. */
  ghost function VarsAfter(script: Script, i: nat, max: nat, vars: Env): Env {
    if a: nat :| FirstFires(script, i, a, max, vars) then
      TriggerAt(script, i, a, vars).vars + TriggerAt(script, i, a, vars).extracted
    else vars
  }

  ghost predicate StepsGood(def: Definition, script: Script, i: nat, vars: Env)
    requires i <= |def.steps|
    decreases |def.steps| - i
  {
    i < |def.steps| ==>
      StepGood(def, script, i, vars) && StepsGood(def, script, i + 1, VarsAfter(script, i, MaxAttempts(def), vars))
  }

  lemma {:induction false} StartSucceeds(run: Run, n: nat, script: Script, i: nat, a: nat, r: nat)
    requires r <= n
    ensures StartFrom(run, n, script, i, a, r).1 == None <==> forall x | r <= x < n :: script.start(i, a, x) == None
    decreases n - r
  {
    if r < n && script.start(i, a, r) == None { StartSucceeds(Called(run, Started(i, a, r)), n, script, i, a, r + 1); }
  }

  lemma VerdictPasses(script: Script, i: nat, a: nat, kind: string, r: nat)
    ensures Verdict(script, i, a, kind, r).status == Passed <==> CollectionHolds(script.collect(i, a, r))
  {
    match script.collect(i, a, r)
    case CollectFailed(_) =>
    case Collected(checks) => VerdictStatus(ReceiverResult(kind, i, Passed, ""), checks);
  }

  lemma AllVerdictsPass(cs: seq<ReceiverConfig>, script: Script, i: nat, a: nat, order: seq<nat>)
    requires Lifecycle.IsSchedule(order, |cs|)
    ensures (forall v <- Verdicts(cs, script, i, a, order) :: v.status == Passed) <==>
            forall r: nat | r < |cs| :: CollectionHolds(script.collect(i, a, r))
  {
    var vs := Verdicts(cs, script, i, a, order);
    forall n | 0 <= n < |order| ensures vs[n].status == Passed <==> CollectionHolds(script.collect(i, a, order[n])) {
      VerdictPasses(script, i, a, KindAt(cs, order[n]), order[n]);
    }
    if forall v <- vs :: v.status == Passed {
      forall r: nat | r < |cs| ensures CollectionHolds(script.collect(i, a, r)) {
        assert r in order;
        var n :| 0 <= n < |order| && order[n] == r;
        assert vs[n] in vs;
      }
    }
    if forall r: nat | r < |cs| :: CollectionHolds(script.collect(i, a, r)) {
      forall v <- vs ensures v.status == Passed {
        var n :| 0 <= n < |vs| && vs[n] == v;
        assert order[n] in order;
      }
    }
  }

  /** From a passed status the merge stays passed exactly when every collection holds; from any
      other it never gets back. */
  lemma MergePasses(run: Run, cs: seq<ReceiverConfig>, script: Script, i: nat, a: nat)
    requires Settled(run) && Lifecycle.IsSchedule(script.order(i, a), |cs|)
    ensures CollectAll(run, cs, script, i, a).result.status == Passed <==>
            run.result.status == Passed && forall r: nat | r < |cs| :: CollectionHolds(script.collect(i, a, r))
  {
    var order := script.order(i, a);
    MergeFromIsMergeAll(run, cs, script, i, a, order);
    VerdictsVerdictable(cs, script, i, a, order);
    MergeIsMaximum(run.result, Verdicts(cs, script, i, a, order));
    AllVerdictsPass(cs, script, i, a, order);
  }

  lemma ReceivePasses(run: Run, step: StepConfig, script: Script, i: nat, a: nat)
    requires Settled(run) && Lifecycle.IsSchedule(script.order(i, a), |step.receivers|)
    requires NoWait(step) ==> run.result.status == Passed
    ensures var (done, passed, again) := Receive(run, step, script, i, a);
            && Settled(done) && done.vars == run.vars
            && (passed <==> run.result.status == Passed && ReceiversPass(script, step, i, a))
            && (passed <==> done.result.status == Passed)
  {
    ReceiveSettled(run, step, script, i, a);
    ReceiveKeeps(run, step, script, i, a);
    if !NoWait(step) {
      var n := |step.receivers|;
      StartSucceeds(run, n, script, i, a, 0);
      StartKeepsResult(run, n, script, i, a, 0);
      var (started, error) := StartFrom(run, n, script, i, a, 0);
      if error == None {
        MergePasses(started, step.receivers, script, i, a);
        StopKeepsResult(CollectAll(started, step.receivers, script, i, a), n, i, a, 0);
      }
    }
  }

  lemma AttemptPasses(run: Run, step: StepConfig, script: Script, i: nat, a: nat, lastError: Option<string>)
    requires Settled(run) && (NoWait(step) ==> run.result.status == Passed)
    requires Lifecycle.IsSchedule(script.order(i, a), |step.receivers|)
    ensures var t := Attempt(run, step, script, i, a, lastError);
            var fires := script.execute(i, a, run.vars).Fired?;
            && Settled(t.tried.run) && t.tried.run.vars == Left(script.execute(i, a, run.vars))
            && (t.tried.passed <==> fires && run.result.status == Passed && ReceiversPass(script, step, i, a))
            && (!fires ==> t.again && t.tried.run.result.status == run.result.status)
            && (fires ==> (t.tried.passed <==> t.tried.run.result.status == Passed))
  {
    var next := NextAttempt(run, i, a);
    match script.execute(i, a, run.vars)
    case TriggerFailed(_, _) =>
    case Fired(vars, extracted) => ReceivePasses(next.(vars := vars + extracted), step, script, i, a);
  }

  /** A step whose receivers once failed never passes: the status is not reset between attempts. */
  lemma {:induction false} NeverRescued(run: Run, step: StepConfig, script: Script, i: nat, a: nat, max: nat,
                                        lastError: Option<string>)
    requires Settled(run) && run.result.status != Passed && !NoWait(step)
    requires forall b :: Lifecycle.IsSchedule(script.order(i, b), |step.receivers|)
    ensures var t := AttemptFrom(run, step, script, i, a, max, lastError); !t.passed && t.run.result.status != Passed
    decreases max + 1 - a
  {
    if a <= max {
      var t := Attempt(run, step, script, i, a, lastError);
      AttemptPasses(run, step, script, i, a, lastError);
      if t.again { NeverRescued(t.tried.run, step, script, i, a + 1, max, t.tried.lastError); }
    }
  }

  lemma FirstFiresUnique(script: Script, i: nat, a: nat, b: nat, max: nat, vars: Env)
    requires FirstFires(script, i, a, max, vars) && FirstFires(script, i, b, max, vars)
    ensures a == b
  {
  }

  lemma FirstFiresOnly(script: Script, i: nat, a: nat, max: nat, vars: Env)
    requires FirstFires(script, i, a, max, vars)
    ensures forall b | FirstFires(script, i, b, max, vars) :: b == a
    ensures VarsAfter(script, i, max, vars) == Left(TriggerAt(script, i, a, vars))
  {
    forall b | FirstFires(script, i, b, max, vars) ensures b == a { FirstFiresUnique(script, i, a, b, max, vars); }
  }

  /** The step passes exactly when the receivers of its first firing attempt do. */
  ghost predicate PassesAsFirst(t: Tried, step: StepConfig, script: Script, i: nat, max: nat, vars: Env) {
    && (t.passed <==> exists b :: FirstFires(script, i, b, max, vars) && ReceiversPass(script, step, i, b))
    && (t.passed ==> t.run.vars == VarsAfter(script, i, max, vars))
  }

  /** Attempt a is the first that fires: nothing later changes its verdict. */
  lemma FirstFiringDecides(run: Run, step: StepConfig, script: Script, i: nat, a: nat, max: nat,
                           lastError: Option<string>, vars: Env)
    requires Settled(run) && run.result.status == Passed && run.vars == VarsAt(script, i, a, vars)
    requires FirstFires(script, i, a, max, vars)
    requires forall b :: Lifecycle.IsSchedule(script.order(i, b), |step.receivers|)
    ensures PassesAsFirst(AttemptFrom(run, step, script, i, a, max, lastError), step, script, i, max, vars)
  {
    var t := Attempt(run, step, script, i, a, lastError);
    AttemptPasses(run, step, script, i, a, lastError);
    FirstFiresOnly(script, i, a, max, vars);
    if t.again { NeverRescued(t.tried.run, step, script, i, a + 1, max, t.tried.lastError); }
  }

  /** The attempt loop, from an attempt before which every trigger failed. */
  lemma {:induction false} AttemptsPass(run: Run, step: StepConfig, script: Script, i: nat, a: nat, max: nat,
                                        lastError: Option<string>, vars: Env)
    requires Settled(run) && run.result.status == Passed && 1 <= a && run.vars == VarsAt(script, i, a, vars)
    requires forall b | 1 <= b < a :: TriggerAt(script, i, b, vars).TriggerFailed?
    requires forall b :: Lifecycle.IsSchedule(script.order(i, b), |step.receivers|)
    ensures PassesAsFirst(AttemptFrom(run, step, script, i, a, max, lastError), step, script, i, max, vars)
    decreases max + 1 - a
  {
    if a <= max {
      if TriggerAt(script, i, a, vars).Fired? {
        FirstFiringDecides(run, step, script, i, a, max, lastError, vars);
      } else {
        var t := Attempt(run, step, script, i, a, lastError);
        AttemptPasses(run, step, script, i, a, lastError);
        AttemptsPass(t.tried.run, step, script, i, a + 1, max, t.tried.lastError, vars);
      }
    }
  }

  // ---- Reservations ----

  datatype Request = Request(key: string, at: nat)

  /** The reservation calls of one step, if none is refused. */
  function RequestsOf(cs: seq<ReceiverConfig>, script: Script, i: nat, r: nat): seq<Request>
    requires r <= |cs|
    decreases |cs| - r
  {
    if r == |cs| then []
    else (if cs[r].recipient == "" then [] else [Request(Key(cs[r].kind, cs[r].recipient), script.clock(i, r))])
         + RequestsOf(cs, script, i, r + 1)
  }

  function AllRequests(def: Definition, script: Script, i: nat): seq<Request>
    requires i <= |def.steps|
    decreases |def.steps| - i
  {
    if i == |def.steps| then [] else RequestsOf(def.steps[i].receivers, script, i, 0) + AllRequests(def, script, i + 1)
  }

  /** The requests made one after another; None when one is refused. */
  function BookAll(table: Table, runID: string, reqs: seq<Request>): Option<Table>
    decreases |reqs|
  {
    if reqs == [] then Some(table)
    else
      var q := reqs[0];
      if q.key in table && q.at < table[q.key].expiresAt then None
      else BookAll(table[q.key := MemReservation(runID, q.at + RESERVATION_TTL)], runID, reqs[1..])
  }

  lemma {:induction false} BookAppend(table: Table, runID: string, a: seq<Request>, b: seq<Request>)
    ensures BookAll(table, runID, a + b) ==
            match BookAll(table, runID, a) case None => None case Some(t) => BookAll(t, runID, b)
    decreases |a|
  {
    if a == [] {
      assert a + b == b;
    } else {
      assert (a + b)[1..] == a[1..] + b;
      BookAppend(table[a[0].key := MemReservation(runID, a[0].at + RESERVATION_TTL)], runID, a[1..], b);
    }
  }

  lemma BookFirst(table: Table, runID: string, q: Request, rest: seq<Request>)
    ensures BookAll(table, runID, [q] + rest) ==
            if q.key in table && q.at < table[q.key].expiresAt then None
            else BookAll(table[q.key := MemReservation(runID, q.at + RESERVATION_TTL)], runID, rest)
  {
    assert ([q] + rest)[1..] == rest;
  }

  lemma {:induction false} ReserveBooks(run: Run, cs: seq<ReceiverConfig>, script: Script, i: nat, r: nat,
                                        reserved: seq<ReceiverConfig>)
    requires r <= |cs|
    ensures var b := ReserveFrom(run, cs, script, i, r, reserved);
            var t := BookAll(run.store.reservations, run.runID, RequestsOf(cs, script, i, r));
            && (b.error == None <==> t.Some?)
            && (t.Some? ==> b.run.store.reservations == t.value)
    decreases |cs| - r
  {
    if r < |cs| {
      var rest := RequestsOf(cs, script, i, r + 1);
      if cs[r].recipient == "" {
        ReserveBooks(run, cs, script, i, r + 1, reserved);
        assert [] + rest == rest;
      } else {
        var (store, reply) := MemReserve(run.store, cs[r].kind, cs[r].recipient, run.runID, script.clock(i, r));
        var next := Called(run.(store := store), Booked(i, Key(cs[r].kind, cs[r].recipient)));
        var q := Request(Key(cs[r].kind, cs[r].recipient), script.clock(i, r));
        BookFirst(run.store.reservations, run.runID, q, rest);
        if reply == Reserved { ReserveBooks(next, cs, script, i, r + 1, reserved + [cs[r]]); }
      }
    }
  }

  /** Readable before the run: no recipient is booked by somebody else when it is asked for, and
      the run does not ask for one twice within the TTL. */
  ghost predicate Free(table: Table, reqs: seq<Request>) {
    && (forall j | 0 <= j < |reqs| && reqs[j].key in table :: table[reqs[j].key].expiresAt <= reqs[j].at)
    && (forall i, j | 0 <= i < j < |reqs| && reqs[i].key == reqs[j].key :: reqs[i].at + RESERVATION_TTL <= reqs[j].at)
  }

  lemma {:induction false} BookedWhenFree(table: Table, runID: string, reqs: seq<Request>)
    ensures BookAll(table, runID, reqs).Some? <==> Free(table, reqs)
    decreases |reqs|
  {
    if reqs != [] {
      var q := reqs[0];
      var next := table[q.key := MemReservation(runID, q.at + RESERVATION_TTL)];
      var rest := reqs[1..];
      BookedWhenFree(next, runID, rest);
      assert forall j | 0 <= j < |rest| :: rest[j] == reqs[j + 1];
      assert forall j | 0 < j < |reqs| :: reqs[j] == rest[j - 1];
      if Free(next, rest) && !(q.key in table && q.at < table[q.key].expiresAt) {
        FreeCons(table, runID, reqs);
      }
    }
  }

  lemma FreeCons(table: Table, runID: string, reqs: seq<Request>)
    requires reqs != [] && Free(table[reqs[0].key := MemReservation(runID, reqs[0].at + RESERVATION_TTL)], reqs[1..])
    requires reqs[0].key in table ==> table[reqs[0].key].expiresAt <= reqs[0].at
    ensures Free(table, reqs)
  {
    var rest := reqs[1..];
    forall j | 0 <= j < |reqs| && reqs[j].key in table ensures table[reqs[j].key].expiresAt <= reqs[j].at {
      if j > 0 { assert rest[j - 1] == reqs[j]; }
    }
    forall i, j | 0 <= i < j < |reqs| && reqs[i].key == reqs[j].key ensures reqs[i].at + RESERVATION_TTL <= reqs[j].at {
      assert rest[j - 1] == reqs[j];
      if i > 0 { assert rest[i - 1] == reqs[i]; }
    }
  }

  // ---- Whole runs ----

  /** One step after its reservations. */
  lemma StepPasses(def: Definition, script: Script, run: Run, i: nat)
    requires i < |def.steps| && Lifecycle.Schedules(def, script)
    requires run.result.status == Passed && run.result.error == ""
    ensures var t := AttemptFrom(run, def.steps[i], script, i, 1, MaxAttempts(def), None);
            && (t.passed <==> StepGood(def, script, i, run.vars))
            && (t.passed ==> t.run.vars == VarsAfter(script, i, MaxAttempts(def), run.vars)
                             && t.run.result.status == Passed && t.run.result.error == "")
            && (!t.passed ==> t.lastError.Some? || t.run.result.status != Passed)
            && t.run.runID == run.runID && t.run.store.reservations == run.store.reservations
  {
    AttemptsSettled(run, def.steps[i], script, i, 1, MaxAttempts(def), None);
    AttemptsPass(run, def.steps[i], script, i, 1, MaxAttempts(def), None, run.vars);
    AttemptsKeep(run, def.steps[i], script, i, 1, MaxAttempts(def), None);
  }

  /** What it takes to pass from step i on. */
  ghost predicate CanPass(def: Definition, script: Script, table: Table, runID: string, vars: Env, i: nat)
    requires i <= |def.steps|
  {
    && (forall n | i <= n < |def.steps| :: script.create(n) == None)
    && BookAll(table, runID, AllRequests(def, script, i)).Some?
    && StepsGood(def, script, i, vars)
  }

  lemma CanPassUnfold(def: Definition, script: Script, table: Table, runID: string, vars: Env, i: nat)
    requires i < |def.steps|
    ensures var booked := BookAll(table, runID, RequestsOf(def.steps[i].receivers, script, i, 0));
            CanPass(def, script, table, runID, vars, i) <==>
            && script.create(i) == None && booked.Some? && StepGood(def, script, i, vars)
            && CanPass(def, script, booked.value, runID, VarsAfter(script, i, MaxAttempts(def), vars), i + 1)
  {
    BookAppend(table, runID, RequestsOf(def.steps[i].receivers, script, i, 0), AllRequests(def, script, i + 1));
  }

  lemma {:induction false} StepsPass(def: Definition, script: Script, run: Run, i: nat)
    requires i <= |def.steps| && TellsErrors(script) && Lifecycle.Schedules(def, script)
    requires run.result.status == Passed && run.result.error == ""
    ensures StepsFrom(def, script, run, i).result.status == Passed <==>
            CanPass(def, script, run.store.reservations, run.runID, run.vars, i)
    decreases |def.steps| - i
  {
    if i < |def.steps| {
      var (b, t) := (Booking(def, script, run, i), Trying(def, script, run, i));
      StepsResult(def, script, run, i);
      CanPassUnfold(def, script, run.store.reservations, run.runID, run.vars, i);
      ReserveKeepsResult(run, def.steps[i].receivers, script, i, 0, []);
      ReserveBooks(run, def.steps[i].receivers, script, i, 0, []);
      StepPasses(def, script, b.run, i);
      if t.passed { StepsPass(def, script, NextStep(t), i + 1); }
    }
  }

  /** Retry outcome: an enabled run passes if and only if every trigger can be created, every
      recipient is free when asked for, and in every step the first attempt whose trigger fires
      within the limit needs no receivers or starts all of them and sees all of them pass. */
  lemma RetryOutcome(def: Definition, script: Script, runID: string, vars: Env, store: Mem)
    requires def.enabled && TellsErrors(script) && Lifecycle.Schedules(def, script)
    ensures Execute(def, script, runID, vars, store).result.status == Passed <==>
            && (forall i | 0 <= i < |def.steps| :: script.create(i) == None)
            && Free(store.reservations, AllRequests(def, script, 0))
            && StepsGood(def, script, 0, vars)
  {
    StepsPass(def, script, Run(runID, NewResult(runID), vars, store, []), 0);
    CanPassWhenFree(def, script, store.reservations, runID, vars);
  }

  lemma CanPassWhenFree(def: Definition, script: Script, table: Table, runID: string, vars: Env)
    ensures CanPass(def, script, table, runID, vars, 0) <==>
            && (forall i | 0 <= i < |def.steps| :: script.create(i) == None)
            && Free(table, AllRequests(def, script, 0))
            && StepsGood(def, script, 0, vars)
  {
    BookedWhenFree(table, runID, AllRequests(def, script, 0));
  }

  /** The variables at the top of step i, when every step before it passed. */
  ghost function VarsBefore(def: Definition, script: Script, i: nat, vars: Env): Env {
    if i == 0 then vars else VarsAfter(script, i - 1, MaxAttempts(def), VarsBefore(def, script, i - 1, vars))
  }

  lemma {:induction false} GoodAtEveryStep(def: Definition, script: Script, n: nat, i: nat, vars: Env)
    requires n <= i < |def.steps| && StepsGood(def, script, n, VarsBefore(def, script, n, vars))
    ensures StepGood(def, script, i, VarsBefore(def, script, i, vars))
    decreases i - n
  {
    if n < i { GoodAtEveryStep(def, script, n + 1, i, vars); }
  }

  /** A retry never rescues a failed receiver: if in any step the first attempt that fires meets a
      receiver that does not start or does not pass, the run does not pass, whatever later attempts
      do. */
  lemma ReceiverFailureIsFinal(def: Definition, script: Script, runID: string, vars: Env, store: Mem, i: nat, a: nat)
    requires def.enabled && TellsErrors(script) && Lifecycle.Schedules(def, script) && i < |def.steps|
    requires FirstFires(script, i, a, MaxAttempts(def), VarsBefore(def, script, i, vars))
    requires !ReceiversPass(script, def.steps[i], i, a)
    ensures Execute(def, script, runID, vars, store).result.status != Passed
  {
    RetryOutcome(def, script, runID, vars, store);
    FirstFiresOnly(script, i, a, MaxAttempts(def), VarsBefore(def, script, i, vars));
    if StepsGood(def, script, 0, vars) { GoodAtEveryStep(def, script, 0, i, vars); }
  }

  /** A run that asks for one recipient twice within the TTL, even in different steps, fails: the
      second reservation is refused on account of its own first one. */
  lemma SameRecipientTwiceFails(def: Definition, script: Script, runID: string, vars: Env, store: Mem, i: nat, j: nat)
    requires def.enabled && TellsErrors(script) && Lifecycle.Schedules(def, script)
    requires i < j < |AllRequests(def, script, 0)|
    requires var reqs := AllRequests(def, script, 0);
             reqs[i].key == reqs[j].key && reqs[j].at < reqs[i].at + RESERVATION_TTL
    ensures Execute(def, script, runID, vars, store).result.status != Passed
  {
    RetryOutcome(def, script, runID, vars, store);
  }
}
